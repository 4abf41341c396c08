/** Publishing one revision: every listing a crash or an exception can leave,
    and exactly how inspection classifies each of them. */
module PublicationCrash {
  import opened Common
  import opened ProfileDocuments
  import opened ProfileInspection
  import opened InspectionSteps
  import opened ArchiveState
  import opened RecoverySteps
  import opened RecoveryTheorems

  /** Where a publication stands.  The temporaries carry how many bytes of
      them have been written. */
  datatype Stage =
    | NotStarted
    | MarkerWriting(written: nat)
    | MarkerSet
    | RevisionWriting(written: nat)
    | RevisionSet
    | ProfileWriting(written: nat)
    | ProfileSet
    | Finished

  function Before(revs: seq<Envelope>): Option<Bytes> {
    if revs == [] then None else Some(revs[|revs| - 1].registry)
  }

  function MarkerFor(revs: seq<Envelope>, e: Envelope): Content {
    Transaction(Id(e), e.previous, e.current, Before(revs), e.registry)
  }

  function NewName(revs: seq<Envelope>, e: Envelope): Name { Revision(|revs| + 1, Id(e)) }

  function StageListing(c: Listing, revs: seq<Envelope>, e: Envelope, stage: Stage): Listing {
    var marked := c[Marker := MarkerFor(revs, e)];
    var published := marked[NewName(revs, e) := Sealed(e)];
    match stage
    case NotStarted => c
    case MarkerWriting(n) => c[MarkerTmp := Prefix(MarkerFor(revs, e), n)]
    case MarkerSet => marked
    case RevisionWriting(n) => marked[RevisionTmp := Prefix(Sealed(e), n)]
    case RevisionSet => published
    case ProfileWriting(n) => published[ProfileTmp := Prefix(Raw(e.registry), n)]
    case ProfileSet => published[Profile := Raw(e.registry)]
    case Finished => Without(published[Profile := Raw(e.registry)], Marker)
  }

  /** What the store has checked when it starts to publish `e`. */
  ghost predicate MayPublish(c: Listing, revs: seq<Envelope>, e: Envelope) {
    && InspectState(c) == Clean && IsChain(c, revs, false)
    && Parses(e) && RegistryAccepted(e.registry)
    && e.previous == ShaOf(Before(revs)) && Before(revs) != Some(e.registry)
    && (forall i :: 0 <= i < |revs| ==> Id(revs[i]) != Id(e))
  }

  /** Nothing longer than the writing limit is ever written. */
  predicate StageReached(revs: seq<Envelope>, e: Envelope, stage: Stage) {
    && (!stage.NotStarted? ==> Size(MarkerFor(revs, e)) <= MAX_TOTAL)
    && (stage.RevisionWriting? ==> Size(Sealed(e)) <= MAX_TOTAL)
  }

  /** The reading limits that publication itself never checks. */
  predicate Capacity(revs: seq<Envelope>, e: Envelope) {
    && |revs| < MAX_REVISIONS
    && Size(Sealed(e)) <= MAX_REVISION
    && TotalSize(revs) + Size(Sealed(e)) <= MAX_TOTAL
  }

  lemma ExtendedChain(revs: seq<Envelope>, e: Envelope)
    requires ValidChain(revs) && Parses(e) && RegistryAccepted(e.registry)
    requires e.previous == ShaOf(Before(revs))
    requires forall i :: 0 <= i < |revs| ==> Id(revs[i]) != Id(e)
    ensures ValidChain(revs + [e]) <==> Capacity(revs, e)
  {
    var all := revs + [e];
    assert all[..|revs|] == revs;
    assert TotalSize(all) == TotalSize(revs) + Size(Sealed(e));
    if revs != [] {
      assert ValidLink(revs, |revs| - 1);
    }
    if Capacity(revs, e) {
      forall i | 0 <= i < |all| ensures ValidLink(all, i) {
        if i < |revs| {
          assert ValidLink(revs, i);
        }
      }
    }
    if ValidChain(all) {
      assert ValidLink(all, |revs|);
    }
  }

  lemma ExtendedHolds(c: Listing, revs: seq<Envelope>, e: Envelope)
    requires Holds(c, revs)
    ensures Holds(c[NewName(revs, e) := Sealed(e)], revs + [e])
  {
    var c' := c[NewName(revs, e) := Sealed(e)];
    var all := revs + [e];
    forall i | 0 <= i < |all| ensures NameAt(all, i) in c' && c'[NameAt(all, i)] == Sealed(all[i]) {
      if i < |revs| {
        assert NameAt(revs, i) == NameAt(all, i);
      }
    }
    forall n | n in c' && IsHistoryName(n)
      ensures n.Revision? && 1 <= n.sequence <= |all| && n == NameAt(all, n.sequence - 1)
    {
      if n != NewName(revs, e) {
        assert n == NameAt(revs, n.sequence - 1);
      }
    }
  }

  /** Chains are read off the history files alone. */
  lemma HoldsSame(c: Listing, c': Listing, revs: seq<Envelope>)
    requires Holds(c, revs) && forall n :: IsHistoryName(n) ==> At(c', n) == At(c, n)
    ensures Holds(c', revs)
  {
    forall i | 0 <= i < |revs| ensures NameAt(revs, i) in c' && c'[NameAt(revs, i)] == Sealed(revs[i]) {
      assert At(c', NameAt(revs, i)) == At(c, NameAt(revs, i));
    }
    forall n | n in c' && IsHistoryName(n)
      ensures n.Revision? && 1 <= n.sequence <= |revs| && n == NameAt(revs, n.sequence - 1)
    {
      assert At(c', n) == At(c, n);
    }
  }

  /** A listing that holds `revs` has that chain exactly when it is readable. */
  lemma HeldChain(c: Listing, revs: seq<Envelope>, allowTemporary: bool)
    requires Holds(c, revs)
    ensures ChainOf(c, allowTemporary) ==
            if ValidChain(revs) && (RevisionTmp in c ==> allowTemporary && |revs| < MAX_REVISIONS)
            then Some(revs) else None
  {
    hide ValidChain;
    if IsChain(c, revs, allowTemporary) {
      ChainIs(c, revs, allowTemporary);
    } else if ChainOf(c, allowTemporary).Some? {
      HeldOnce(c, revs, ChainOf(c, allowTemporary).value);
    }
  }

  predicate Published(stage: Stage) {
    stage.RevisionSet? || stage.ProfileWriting? || stage.ProfileSet? || stage.Finished?
  }

  /** The chain inspection reads at each stage. */
  lemma StageChain(c: Listing, revs: seq<Envelope>, e: Envelope, stage: Stage)
    requires MayPublish(c, revs, e)
    ensures var s := StageListing(c, revs, e, stage);
            ChainOf(s, Marker in s) ==
              if Published(stage) then (if Capacity(revs, e) then Some(revs + [e]) else None)
              else if stage.RevisionWriting? && |revs| == MAX_REVISIONS then None
              else Some(revs)
  {
    hide InspectState, ValidChain, Holds, Capacity, Parses;
    var s := StageListing(c, revs, e, stage);
    assert NoTemporaries(c) && Marker !in c by { CleanHasNone(c); }
    if Published(stage) {
      ExtendedHolds(c, revs, e);
      HoldsSame(c[NewName(revs, e) := Sealed(e)], s, revs + [e]);
      ExtendedChain(revs, e);
      HeldChain(s, revs + [e], Marker in s);
    } else {
      HoldsSame(c, s, revs);
      assert |revs| <= MAX_REVISIONS by { ChainLength(revs); }
      HeldChain(s, revs, Marker in s);
    }
  }

  lemma CleanHasNone(c: Listing)
    requires InspectState(c) == Clean
    ensures NoTemporaries(c) && Marker !in c
  {
    hide ValidChain, Holds;
  }

  // ----- the classification -------------------------------------------------

  predicate ProfileTorn(e: Envelope, stage: Stage) {
    stage.ProfileWriting? && stage.written < Size(Raw(e.registry))
  }

  /** The action inspection proposes at a stage it accepts. */
  function StageAction(stage: Stage): Action {
    match stage
    case ProfileSet => ClearMarker
    case RevisionSet => PublishCandidate
    case ProfileWriting(_) => PublishCandidate
    case _ => RemoveUntouchedMarker
  }

  /** Refusal, stated by what is on disk: a marker temporary without a marker;
      a torn profile temporary once the revision is published; or a history
      over the limits its reader enforces. */
  ghost predicate StageRefused(revs: seq<Envelope>, e: Envelope, stage: Stage) {
    || stage.MarkerWriting?
    || ProfileTorn(e, stage)
    || (Published(stage) && !Capacity(revs, e))
    || (stage.RevisionWriting? && |revs| == MAX_REVISIONS)
  }

  lemma StageMarkerReadable(revs: seq<Envelope>, e: Envelope)
    requires Parses(e) && RegistryAccepted(e.registry)
    requires e.previous == ShaOf(Before(revs)) && Before(revs) != Some(e.registry)
    ensures TransactionReadable(MarkerFor(revs, e))
  {
  }

  /** Before the revision is in place. */
  lemma UnpublishedClassified(s: Listing, revs: seq<Envelope>, e: Envelope)
    requires Marker in s && s[Marker] == MarkerFor(revs, e)
    requires MarkerTmp !in s && ProfileTmp !in s && Readable(s, RevisionTmp, MAX_TOTAL)
    requires At(s, Profile) == RawOf(Before(revs)) && Readable(s, Profile, MAX_TOTAL)
    requires forall i :: 0 <= i < |revs| ==> Id(revs[i]) != Id(e)
    ensures ClassifyTransaction(s, revs)
         == Pending(Plan(RemoveUntouchedMarker, Id(e), MarkerFor(revs, e), RawOf(Before(revs)), Raw(e.registry),
                         RawOf(Before(revs)), Ids(revs), []))
  {
    hide Parses;
    assert Tip(revs) == RawOf(Before(revs));
    assert Id(e) !in Ids(revs);
  }

  /** Once the revision is in place. */
  lemma PublishedClassified(s: Listing, revs: seq<Envelope>, e: Envelope, replaced: bool)
    requires Marker in s && s[Marker] == MarkerFor(revs, e)
    requires MarkerTmp !in s && RevisionTmp !in s && Readable(s, ProfileTmp, MAX_TOTAL)
    requires At(s, Profile) == if replaced then Some(Raw(e.registry)) else RawOf(Before(revs))
    requires Readable(s, Profile, MAX_TOTAL)
    requires e.previous == ShaOf(Before(revs)) && Before(revs) != Some(e.registry)
    ensures ClassifyTransaction(s, revs + [e])
         == if ProfileTmp in s && s[ProfileTmp] != Raw(e.registry) then Refused
            else Pending(Plan(if replaced then ClearMarker else PublishCandidate,
                              Id(e), MarkerFor(revs, e), RawOf(Before(revs)), Raw(e.registry),
                              At(s, Profile), Ids(revs + [e]), []))
  {
    hide Parses, Id, Ids;
    assert (revs + [e])[..|revs|] == revs;
    assert Tip(revs) == RawOf(Before(revs));
    assert Tip(revs + [e]) == Some(Raw(e.registry));
    assert RawOf(Before(revs)) != Some(Raw(e.registry));
  }

  /** The listing a publication ends with. */
  function Committed(c: Listing, revs: seq<Envelope>, e: Envelope): Listing {
    StageListing(c, revs, e, Finished)
  }

  function StagePlan(revs: seq<Envelope>, e: Envelope, stage: Stage): Plan {
    Plan(StageAction(stage), Id(e), MarkerFor(revs, e), RawOf(Before(revs)), Raw(e.registry),
         if stage.ProfileSet? then Some(Raw(e.registry)) else RawOf(Before(revs)),
         if Published(stage) then Ids(revs + [e]) else Ids(revs), [])
  }

  lemma UnpublishedStage(c: Listing, revs: seq<Envelope>, e: Envelope, stage: Stage)
    requires MayPublish(c, revs, e) && StageReached(revs, e, stage) && (stage.MarkerSet? || stage.RevisionWriting?)
    ensures InspectState(StageListing(c, revs, e, stage))
         == if StageRefused(revs, e, stage) then Refused else Pending(StagePlan(revs, e, stage))
  {
    StageChain(c, revs, e, stage);
    CleanHasNone(c);
    CleanProfile(c, revs);
    StageMarkerReadable(revs, e);
    hide ValidChain, Holds, ChainOf, IsChain, Capacity, ClassifyTransaction, ClassifyRestoration, Parses, TransactionReadable;
    UnpublishedClassified(StageListing(c, revs, e, stage), revs, e);
  }

  lemma PublishedStage(c: Listing, revs: seq<Envelope>, e: Envelope, stage: Stage)
    requires MayPublish(c, revs, e) && StageReached(revs, e, stage) && (stage.RevisionSet? || stage.ProfileWriting? || stage.ProfileSet?)
    ensures InspectState(StageListing(c, revs, e, stage))
         == if StageRefused(revs, e, stage) then Refused else Pending(StagePlan(revs, e, stage))
  {
    StageChain(c, revs, e, stage);
    CleanHasNone(c);
    CleanProfile(c, revs);
    StageMarkerReadable(revs, e);
    hide ValidChain, Holds, ChainOf, IsChain, Capacity, ClassifyTransaction, ClassifyRestoration, Parses, TransactionReadable, Ids;
    hide InspectState;
    var s := StageListing(c, revs, e, stage);
    PublishedClassified(s, revs, e, stage.ProfileSet?);
    InspectTransactionIs(s, if Capacity(revs, e) then Some(revs + [e]) else None);
  }

  /** Inspection of a listing whose marker is a readable transaction. */
  lemma InspectTransactionIs(s: Listing, chain: Option<seq<Envelope>>)
    requires Marker in s && s[Marker].Transaction? && Size(s[Marker]) <= MAX_TOTAL && TransactionReadable(s[Marker])
    requires ChainOf(s, true) == chain
    ensures InspectState(s) == if chain.None? then Refused else ClassifyTransaction(s, chain.value)
  {
    hide ChainOf, ClassifyTransaction, TransactionReadable;
  }

  /** Inspection of a listing without a marker. */
  lemma InspectCleanIs(s: Listing, chain: Option<seq<Envelope>>)
    requires Marker !in s && ChainOf(s, false) == chain
    ensures InspectState(s) == if chain.None? then Refused else ClassifyClean(s, chain.value)
  {
    hide ChainOf, ClassifyClean;
  }

  lemma OutsideStage(c: Listing, revs: seq<Envelope>, e: Envelope, stage: Stage)
    requires MayPublish(c, revs, e) && StageReached(revs, e, stage) && (stage.NotStarted? || stage.MarkerWriting?)
    ensures InspectState(StageListing(c, revs, e, stage)) == if stage.NotStarted? then Clean else Refused
  {
    CleanHasNone(c);
    hide ValidChain, Holds, ChainOf, IsChain, Parses, InspectState;
    if stage.MarkerWriting? {
      var s := StageListing(c, revs, e, stage);
      InspectCleanIs(s, ChainOf(s, false));
    }
  }

  lemma FinishedStage(c: Listing, revs: seq<Envelope>, e: Envelope)
    requires MayPublish(c, revs, e)
    ensures InspectState(StageListing(c, revs, e, Finished)) == if Capacity(revs, e) then Clean else Refused
  {
    hide ValidChain, Holds, ChainOf, IsChain, Capacity, Parses, InspectState, MarkerFor, ClassifyClean;
    StageChain(c, revs, e, Finished);
    CleanHasNone(c);
    var s := StageListing(c, revs, e, Finished);
    InspectCleanIs(s, ChainOf(s, false));
    CleanWithProfile(s, revs + [e], e.registry) by { TipOfExtended(revs, e); }
  }

  lemma CleanWithProfile(s: Listing, revs: seq<Envelope>, registry: Bytes)
    requires NoTemporaries(s) && Profile in s && s[Profile] == Raw(registry) && RegistryAccepted(registry)
    requires Tip(revs) == Some(Raw(registry))
    ensures ClassifyClean(s, revs) == Clean
  {
  }

  /** Crash safety of one publication: inspection refuses exactly the stages
      `StageRefused` describes, calls the first and last stage clean, and offers
      a recovery for every other one. */
  lemma CrashClassified(c: Listing, revs: seq<Envelope>, e: Envelope, stage: Stage)
    requires MayPublish(c, revs, e) && StageReached(revs, e, stage)
    ensures InspectState(StageListing(c, revs, e, stage))
         == if StageRefused(revs, e, stage) then Refused
            else if stage.NotStarted? || stage.Finished? then Clean
            else Pending(StagePlan(revs, e, stage))
  {
    hide MayPublish, InspectState, StageListing, StagePlan;
    if stage.MarkerSet? || stage.RevisionWriting? {
      UnpublishedStage(c, revs, e, stage);
    } else if stage.RevisionSet? || stage.ProfileWriting? || stage.ProfileSet? {
      PublishedStage(c, revs, e, stage);
    } else if stage.Finished? {
      FinishedStage(c, revs, e);
    } else {
      OutsideStage(c, revs, e, stage);
    }
  }

  /** Publication never looks at the reading limits.  One more revision after
      ten thousand goes through to the end, from a store inspection calls clean
      to one it refuses. */
  lemma FullStoreRefused(c: Listing, revs: seq<Envelope>, e: Envelope)
    requires MayPublish(c, revs, e) && |revs| == MAX_REVISIONS
    ensures InspectState(c) == Clean && InspectState(Committed(c, revs, e)) == Refused
  {
    FinishedStage(c, revs, e);
    hide InspectState, StageListing;
  }

  lemma TipOfExtended(revs: seq<Envelope>, e: Envelope)
    ensures Tip(revs + [e]) == Some(Raw(e.registry))
  {
  }

  lemma CleanProfile(c: Listing, revs: seq<Envelope>)
    requires InspectState(c) == Clean && IsChain(c, revs, false)
    ensures At(c, Profile) == RawOf(Before(revs)) && Readable(c, Profile, MAX_TOTAL)
  {
    hide ValidChain, Holds;
    CleanHasNone(c);
    ChainIs(c, revs, false);
  }

  /** An outcome is the listing it started from once residue is set aside. */
  lemma OutcomeIs(s: Listing, plan: Plan, target: Listing)
    requires !RollsBack(plan) && NoTemporaries(target) && Marker !in target
    requires forall n :: !IsTemporary(n) && n != Marker && n != Profile ==> At(s, n) == At(target, n)
    requires At(target, Profile) == if plan.action == PublishCandidate then Some(plan.candidate) else At(s, Profile)
    ensures Outcome(s, plan) == target
  {
    var o := Outcome(s, plan);
    forall n ensures At(o, n) == At(target, n) {
    }
    SameListing(o, target);
  }

  lemma SameListing(a: Listing, b: Listing)
    requires forall n :: At(a, n) == At(b, n)
    ensures a == b
  {
    forall n ensures n in a <==> n in b {
      assert At(a, n) == At(b, n);
    }
    forall n | n in a ensures a[n] == b[n] {
      assert At(a, n) == At(b, n);
    }
  }

  lemma StageShape(c: Listing, revs: seq<Envelope>, e: Envelope, stage: Stage, n: Name)
    requires NoTemporaries(c) && Marker !in c
    requires stage.MarkerSet? || stage.RevisionWriting? || stage.RevisionSet? || stage.ProfileWriting? || stage.ProfileSet?
    ensures var s, target := StageListing(c, revs, e, stage), if Published(stage) then Committed(c, revs, e) else c;
            && NoTemporaries(target) && Marker !in target
            && (!IsTemporary(n) && n != Marker && n != Profile ==> At(s, n) == At(target, n))
            && At(target, Profile) == if StageAction(stage) == PublishCandidate then Some(Raw(e.registry)) else At(s, Profile)
  {
    hide MarkerFor, Prefix, Id;
  }

  /** Every stage inspection offers to recover leads back to the listing before
      the publication if the revision is not in place, and on to the listing
      after it if it is. */
  lemma CrashRecovers(c: Listing, revs: seq<Envelope>, e: Envelope, stage: Stage)
    requires MayPublish(c, revs, e) && StageReached(revs, e, stage)
    requires !StageRefused(revs, e, stage) && !stage.NotStarted? && !stage.Finished?
    ensures InspectState(StageListing(c, revs, e, stage)) == Pending(StagePlan(revs, e, stage))
    ensures Outcome(StageListing(c, revs, e, stage), StagePlan(revs, e, stage))
         == if Published(stage) then Committed(c, revs, e) else c
  {
    CrashClassified(c, revs, e, stage);
    CleanHasNone(c);
    hide InspectState, MayPublish, StageListing, Committed, Outcome;
    forall n { StageShape(c, revs, e, stage, n); }
    OutcomeIs(StageListing(c, revs, e, stage), StagePlan(revs, e, stage), if Published(stage) then Committed(c, revs, e) else c);
  }

  /** The profile is never anything but the bytes before or the bytes after,
      and it is the bytes after only once the revision that explains it is in place. */
  lemma ProfileNeverTorn(c: Listing, revs: seq<Envelope>, e: Envelope, stage: Stage)
    requires MayPublish(c, revs, e)
    ensures At(StageListing(c, revs, e, stage), Profile)
            == if stage.ProfileSet? || stage.Finished? then Some(Raw(e.registry)) else RawOf(Before(revs))
  {
    CleanProfile(c, revs);
    hide InspectState, ValidChain, Holds, IsChain, Parses;
  }
}
