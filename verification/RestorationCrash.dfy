/** Restoring a backup chain of any length into an absent profile: every
    listing a crash can leave, and how inspection classifies each of them. */
module RestorationCrash {
  import opened Common
  import opened ProfileDocuments
  import opened ProfileInspection
  import opened InspectionSteps
  import opened ArchiveState
  import opened RecoverySteps
  import opened RecoveryTheorems
  import opened PublicationCrash

  /** Where a restoration stands.  A file is published by cloning a finished
      temporary, so for one step (`…Linked`) both names exist. */
  datatype RestoreStage =
    | Absent
    | RestoreMarkerWriting(written: nat)
    | RestoreMarkerLinked
    | Placed(count: nat)
    | PlacingRevision(count: nat, written: nat)
    | RevisionLinked(count: nat)
    | PlacingProfile(written: nat)
    | ProfileLinked
    | ProfilePlaced
    | Restored

  function RecordsOf(revs: seq<Envelope>): (records: seq<(Name, Digest)>)
    ensures |records| == |revs|
    ensures forall i :: 0 <= i < |revs| ==> records[i] == (NameAt(revs, i), Id(revs[i]))
  {
    seq(|revs|, i requires 0 <= i < |revs| => (NameAt(revs, i), Id(revs[i])))
  }

  function After(revs: seq<Envelope>): Bytes
    requires revs != []
  {
    revs[|revs| - 1].registry
  }

  function RestoreMarker(revs: seq<Envelope>): Content
    requires revs != []
  {
    Restoration(Id(revs[|revs| - 1]), Sha256(Raw(After(revs))), After(revs), RecordsOf(revs))
  }

  /** What is asked of one revision of a snapshot. */
  predicate SnapshotLink(revs: seq<Envelope>, i: nat)
    requires i < |revs|
  {
    && Parses(revs[i]) && RegistryAccepted(revs[i].registry) && Size(Sealed(revs[i])) <= MAX_REVISION
    && revs[i].previous == PreviousSha(revs, i)
    && ((i == 0) <==> revs[i].operation == Initialisation)
  }

  /** The snapshots a restoration accepts. */
  predicate SnapshotOk(revs: seq<Envelope>, profile: Bytes) {
    && 1 <= |revs| <= MAX_REVISIONS
    && RegistryAccepted(profile)
    && (forall i :: 0 <= i < |revs| ==> SnapshotLink(revs, i))
    && UniqueIds(revs)
    && |profile| + TotalSize(revs) <= MAX_TOTAL
    && profile == After(revs)
  }

  /** The limit on markers is one no snapshot reaches. */
  lemma MarkerFits(revs: seq<Envelope>, profile: Bytes)
    requires SnapshotOk(revs, profile)
    ensures Size(RestoreMarker(revs)) <= MAX_RESTORE_MARKER
  {
    hide SnapshotLink, UniqueIds, TotalSize, Base64Length;
    Base64Monotone(|After(revs)|, MAX_PROFILE);
  }

  /** The first `k` revision files. */
  function History(revs: seq<Envelope>, k: nat): Listing
    requires k <= |revs|
  {
    if k == 0 then map[] else History(revs, k - 1)[NameAt(revs, k - 1) := Sealed(revs[k - 1])]
  }

  lemma EmptyHolds()
    ensures Holds(map[], [])
  {
  }

  lemma {:induction false} HistoryHolds(revs: seq<Envelope>, k: nat)
    requires k <= |revs|
    ensures Holds(History(revs, k), revs[..k])
  {
    hide Holds;
    if k == 0 {
      EmptyHolds();
      assert revs[..k] == [];
    } else {
      HistoryHolds(revs, k - 1);
      ExtendedHolds(History(revs, k - 1), revs[..k - 1], revs[k - 1]);
      assert revs[..k - 1] + [revs[k - 1]] == revs[..k];
      assert NewName(revs[..k - 1], revs[k - 1]) == NameAt(revs, k - 1);
    }
  }

  lemma {:induction false} HistoryIsRevisions(revs: seq<Envelope>, k: nat)
    requires k <= |revs|
    ensures forall n <- History(revs, k) :: n.Revision?
  {
    if k > 0 {
      HistoryIsRevisions(revs, k - 1);
    }
  }

  predicate StageFits(revs: seq<Envelope>, stage: RestoreStage) {
    match stage
    case Placed(k) => k <= |revs|
    case PlacingRevision(k, _) => k < |revs|
    case RevisionLinked(k) => k < |revs|
    case _ => true
  }

  /** How many revisions are in place. */
  function InPlace(revs: seq<Envelope>, stage: RestoreStage): nat {
    match stage
    case Absent => 0
    case RestoreMarkerWriting(_) => 0
    case RestoreMarkerLinked => 0
    case Placed(k) => k
    case PlacingRevision(k, _) => k
    case RevisionLinked(k) => k + 1
    case _ => |revs|
  }

  /** The listing of a stage over the history files `h`. */
  function Dressed(h: Listing, marker: Content, profile: Content, residue: Content, stage: RestoreStage): Listing {
    match stage
    case Absent => map[]
    case RestoreMarkerWriting(n) => map[MarkerTmp := Prefix(marker, n)]
    case RestoreMarkerLinked => h[Marker := marker][MarkerTmp := marker]
    case Placed(_) => h[Marker := marker]
    case PlacingRevision(_, n) => h[Marker := marker][RevisionTmp := Prefix(residue, n)]
    case RevisionLinked(_) => h[Marker := marker][RevisionTmp := residue]
    case PlacingProfile(n) => h[Marker := marker][ProfileTmp := Prefix(profile, n)]
    case ProfileLinked => h[Marker := marker][ProfileTmp := profile][Profile := profile]
    case ProfilePlaced => h[Marker := marker][Profile := profile]
    case Restored => h[Profile := profile]
  }

  /** The revision a stage's residue, if any, is a copy of. */
  function ResidueIndex(revs: seq<Envelope>, stage: RestoreStage): (i: nat)
    requires revs != [] && StageFits(revs, stage)
    ensures i < |revs| && InPlace(revs, stage) - 1 <= i <= InPlace(revs, stage)
  {
    if stage.PlacingRevision? || stage.RevisionLinked? then stage.count
    else if InPlace(revs, stage) == |revs| then |revs| - 1 else InPlace(revs, stage)
  }

  function RestoreListing(revs: seq<Envelope>, stage: RestoreStage): Listing
    requires revs != [] && StageFits(revs, stage)
  {
    Dressed(History(revs, InPlace(revs, stage)), RestoreMarker(revs), Raw(After(revs)),
            Sealed(revs[ResidueIndex(revs, stage)]), stage)
  }

  lemma SnapshotChain(revs: seq<Envelope>, profile: Bytes)
    requires SnapshotOk(revs, profile)
    ensures ValidChain(revs)
  {
    forall i | 0 <= i < |revs| ensures ValidLink(revs, i) {
      assert SnapshotLink(revs, i);
    }
  }

  /** The chain inspection reads at each stage: the prefix in place.  The one
      exception is the last of 10,000 revisions while its temporary remains. */
  lemma RestoreChain(revs: seq<Envelope>, profile: Bytes, stage: RestoreStage)
    requires SnapshotOk(revs, profile) && StageFits(revs, stage)
    ensures var s := RestoreListing(revs, stage);
            ChainOf(s, true) == if stage.RevisionLinked? && stage.count + 1 == MAX_REVISIONS then None
                                else Some(revs[..InPlace(revs, stage)])
  {
    var k := InPlace(revs, stage);
    SnapshotChain(revs, profile);
    hide SnapshotOk;
    PrefixValid(revs, k);
    HistoryHolds(revs, k);
    HistoryIsRevisions(revs, k);
    hide ValidChain, Holds, RestoreMarker;
    var s := RestoreListing(revs, stage);
    RestoreHistory(History(revs, k), RestoreMarker(revs), Raw(After(revs)), Sealed(revs[ResidueIndex(revs, stage)]), stage);
    HoldsSame(History(revs, k), s, revs[..k]);
    HeldChain(s, revs[..k], true);
  }

  /** History files are exactly the revisions in place. */
  lemma RestoreHistory(h: Listing, marker: Content, profile: Content, residue: Content, stage: RestoreStage)
    requires forall n <- h :: n.Revision?
    requires stage.Absent? || stage.RestoreMarkerWriting? ==> h == map[]
    ensures var s := Dressed(h, marker, profile, residue, stage);
            && (forall n :: IsHistoryName(n) ==> At(s, n) == At(h, n))
            && (RevisionTmp in s <==> stage.PlacingRevision? || stage.RevisionLinked?)
            && (Marker in s <==> Marked(stage))
  {
  }

  predicate Marked(stage: RestoreStage) {
    !stage.Absent? && !stage.RestoreMarkerWriting? && !stage.Restored?
  }

  // ----- the classification -------------------------------------------------

  predicate RestoreTorn(revs: seq<Envelope>, stage: RestoreStage)
    requires revs != [] && StageFits(revs, stage)
  {
    || (stage.PlacingRevision? && stage.written < Size(Sealed(revs[stage.count])))
    || (stage.PlacingProfile? && stage.written < Size(Raw(After(revs))))
  }

  /** Refusal, stated by what is on disk: a marker temporary without a marker,
      a torn revision or profile temporary, or 10,000 revisions beside the
      temporary of the last. */
  predicate RestoreRefused(revs: seq<Envelope>, stage: RestoreStage)
    requires revs != [] && StageFits(revs, stage)
  {
    || stage.RestoreMarkerWriting?
    || RestoreTorn(revs, stage)
    || (stage.RevisionLinked? && stage.count + 1 == MAX_REVISIONS)
  }

  function RestorePlan(revs: seq<Envelope>, stage: RestoreStage): Plan
    requires revs != [] && StageFits(revs, stage)
  {
    var k := InPlace(revs, stage);
    var after := Raw(After(revs));
    var replaced := stage.ProfileLinked? || stage.ProfilePlaced?;
    Plan(if replaced then ClearMarker else if k == |revs| then PublishCandidate else RemoveUntouchedMarker,
         Id(revs[|revs| - 1]), RestoreMarker(revs), None, after,
         if replaced then Some(after) else None, Ids(revs[..k]), Ids(revs))
  }

  lemma RestoreMarkerReadable(revs: seq<Envelope>, profile: Bytes)
    requires SnapshotOk(revs, profile)
    ensures RestorationReadable(RestoreMarker(revs)) && RecordIds(RestoreMarker(revs).records) == Ids(revs)
  {
    hide TotalSize, Parses, PreviousSha, Id;
    MarkerFits(revs, profile);
    var records := RecordsOf(revs);
    forall i, j | 0 <= i < j < |records| ensures records[i].1 != records[j].1 {
      assert Id(revs[i]) != Id(revs[j]);
    }
    assert SnapshotLink(revs, |revs| - 1);
    assert RegistryAccepted(After(revs));
    hide SnapshotOk;
  }

  /** The classification of a listing with `k` revisions in place. */
  lemma RestorationClassified(s: Listing, revs: seq<Envelope>, k: nat)
    requires revs != [] && k <= |revs| && Marker in s && s[Marker] == RestoreMarker(revs)
    requires RecordIds(RestoreMarker(revs).records) == Ids(revs)
    requires At(s, Profile) == None || (k == |revs| && At(s, Profile) == Some(Raw(After(revs))))
    requires |After(revs)| <= MAX_PROFILE
    ensures ClassifyRestoration(s, revs[..k])
         == if !RestoreResidueAccepted(s, RestoreMarker(revs), Raw(After(revs)), Ids(revs), k) then Refused
            else Pending(Plan(if At(s, Profile).Some? then ClearMarker
                              else if k == |revs| then PublishCandidate else RemoveUntouchedMarker,
                              Id(revs[|revs| - 1]), RestoreMarker(revs), None, Raw(After(revs)),
                              At(s, Profile), Ids(revs[..k]), Ids(revs)))
  {
    hide RestoreResidueAccepted;
    assert Ids(revs[..k]) <= Ids(revs) by {
      assert Ids(revs[..k]) == Ids(revs)[..k];
    }
    if k == |revs| {
      assert revs[..k] == revs;
    }
  }

  /** Residue is accepted exactly when it is a whole copy of what was to be
      published. */
  lemma ResidueClassified(s: Listing, revs: seq<Envelope>, marker: Content, k: nat, i: nat)
    requires revs != [] && i < |revs| && k <= |revs| && k - 1 <= i <= k
    requires MarkerTmp in s ==> s[MarkerTmp] == marker && Size(marker) <= MAX_TOTAL
    requires ProfileTmp in s ==> IsPrefix(s[ProfileTmp], Raw(After(revs))) && |After(revs)| <= MAX_TOTAL
    requires RevisionTmp in s ==> IsPrefix(s[RevisionTmp], Sealed(revs[i])) && Size(Sealed(revs[i])) <= MAX_REVISION
    requires Parses(revs[i])
    ensures RestoreResidueAccepted(s, marker, Raw(After(revs)), Ids(revs), k)
         == !((RevisionTmp in s && s[RevisionTmp].Torn?) || (ProfileTmp in s && s[ProfileTmp].Torn?))
  {
    hide Parses;
    assert Ids(revs)[i] == Sha256(Sealed(revs[i]));
  }

  lemma SnapshotFacts(revs: seq<Envelope>, profile: Bytes, i: nat)
    requires SnapshotOk(revs, profile) && i < |revs|
    ensures Parses(revs[i]) && Size(Sealed(revs[i])) <= MAX_REVISION && |After(revs)| <= MAX_PROFILE
    ensures Size(RestoreMarker(revs)) <= MAX_RESTORE_MARKER
  {
    hide Parses, UniqueIds, TotalSize;
    MarkerFits(revs, profile);
    assert SnapshotLink(revs, i);
  }

  lemma MarkedShape(h: Listing, marker: Content, profile: Content, residue: Content, stage: RestoreStage)
    requires forall n <- h :: n.Revision?
    requires Marked(stage) && !residue.Torn? && !profile.Torn?
    ensures var s := Dressed(h, marker, profile, residue, stage);
            && Marker in s && s[Marker] == marker
            && (MarkerTmp in s ==> s[MarkerTmp] == marker)
            && (ProfileTmp in s ==> IsPrefix(s[ProfileTmp], profile))
            && (RevisionTmp in s ==> IsPrefix(s[RevisionTmp], residue))
            && At(s, Profile) == (if stage.ProfileLinked? || stage.ProfilePlaced? then Some(profile) else None)
            && ((RevisionTmp in s && s[RevisionTmp].Torn?) <==> (stage.PlacingRevision? && stage.written < Size(residue)))
            && ((ProfileTmp in s && s[ProfileTmp].Torn?) <==> (stage.PlacingProfile? && stage.written < Size(profile)))
  {
  }

  lemma MarkedStage(revs: seq<Envelope>, profile: Bytes, stage: RestoreStage)
    requires SnapshotOk(revs, profile) && StageFits(revs, stage) && Marked(stage)
    ensures InspectState(RestoreListing(revs, stage))
         == if RestoreRefused(revs, stage) then Refused else Pending(RestorePlan(revs, stage))
  {
    var k, i := InPlace(revs, stage), ResidueIndex(revs, stage);
    SnapshotFacts(revs, profile, i);
    RestoreChain(revs, profile, stage);
    RestoreMarkerReadable(revs, profile);
    HistoryIsRevisions(revs, k);
    MarkedShape(History(revs, k), RestoreMarker(revs), Raw(After(revs)), Sealed(revs[i]), stage);
    hide SnapshotOk, ChainOf, RestorationReadable, RestoreResidueAccepted, ClassifyRestoration, InspectState, Parses, Ids,
         Dressed;
    var s := RestoreListing(revs, stage);
    InspectRestorationIs(s, ChainOf(s, true));
    RestorationClassified(s, revs, k);
    ResidueClassified(s, revs, RestoreMarker(revs), k, i);
  }

  /** Inspection of a listing whose marker is a readable restoration. */
  lemma InspectRestorationIs(s: Listing, chain: Option<seq<Envelope>>)
    requires Marker in s && s[Marker].Restoration? && Size(s[Marker]) <= MAX_TOTAL && RestorationReadable(s[Marker])
    requires ChainOf(s, true) == chain
    ensures InspectState(s) == if chain.None? then Refused else ClassifyRestoration(s, chain.value)
  {
    hide ChainOf, ClassifyRestoration, RestorationReadable;
  }

  lemma UnmarkedStage(revs: seq<Envelope>, profile: Bytes, stage: RestoreStage)
    requires SnapshotOk(revs, profile) && StageFits(revs, stage) && !Marked(stage)
    ensures InspectState(RestoreListing(revs, stage)) == if stage.RestoreMarkerWriting? then Refused else Clean
  {
    if stage.Restored? {
      SnapshotChain(revs, profile);
      RestoredClean(revs, profile);
    } else if stage.Absent? {
      EmptyHolds();
      EmptyChain(RestoreListing(revs, stage));
    } else {
      hide ChainOf, SnapshotOk, RestoreMarker;
      InspectCleanIs(RestoreListing(revs, stage), ChainOf(RestoreListing(revs, stage), false));
    }
  }

  lemma EmptyChain(s: Listing)
    requires s == map[]
    ensures InspectState(s) == Clean
  {
    hide InspectState;
    EmptyHolds();
    HeldChain(s, [], false);
    InspectCleanIs(s, Some([]));
  }

  lemma RestoredClean(revs: seq<Envelope>, profile: Bytes)
    requires ValidChain(revs) && revs != [] && RegistryAccepted(profile) && profile == After(revs)
    ensures InspectState(RestoreListing(revs, Restored)) == Clean
  {
    hide ValidChain, Holds, InspectState, ClassifyClean, RestoreMarker, IsChain;
    HistoryHolds(revs, |revs|);
    HistoryIsRevisions(revs, |revs|);
    assert revs[..|revs|] == revs;
    var s := RestoreListing(revs, Restored);
    HoldsSame(History(revs, |revs|), s, revs);
    HeldChain(s, revs, false);
    InspectCleanIs(s, Some(revs));
    CleanWithProfile(s, revs, profile);
  }

  /** Crash safety of a restoration of any length: inspection refuses exactly
      the stages `RestoreRefused` describes and offers a recovery for every
      other stage that has a marker. */
  lemma RestoreClassified(revs: seq<Envelope>, profile: Bytes, stage: RestoreStage)
    requires SnapshotOk(revs, profile) && StageFits(revs, stage)
    ensures InspectState(RestoreListing(revs, stage))
         == if RestoreRefused(revs, stage) then Refused
            else if Marked(stage) then Pending(RestorePlan(revs, stage)) else Clean
  {
    if Marked(stage) {
      MarkedStage(revs, profile, stage);
    } else {
      UnmarkedStage(revs, profile, stage);
    }
  }

  lemma RevisionsOnly(s: Listing, h: Listing, plan: Plan, profile: Content)
    requires forall n <- h :: n.Revision?
    requires forall n :: !IsTemporary(n) && n != Marker && n != Profile ==> At(s, n) == At(h, n)
    requires At(s, Profile) == None || At(s, Profile) == Some(profile)
    requires plan.candidate == profile
    requires plan.action == ClearMarker ==> At(s, Profile) == Some(profile)
    requires plan.action == RemoveUntouchedMarker ==> At(s, Profile) == None && plan.restoring != []
    ensures Outcome(s, plan) == if plan.action == RemoveUntouchedMarker then map[] else h[Profile := profile]
  {
    var o := Outcome(s, plan);
    if plan.action == RemoveUntouchedMarker {
      forall n ensures n !in o {
        assert !IsTemporary(n) && n != Marker && n != Profile ==> At(s, n) == At(h, n);
      }
      assert o == map[];
    } else {
      forall n ensures At(o, n) == At(h[Profile := profile], n) {
        assert !IsTemporary(n) && n != Marker && n != Profile ==> At(s, n) == At(h, n);
      }
      SameListing(o, h[Profile := profile]);
    }
  }

  lemma DressedOutside(h: Listing, marker: Content, profile: Content, residue: Content, stage: RestoreStage)
    requires Marked(stage) && forall n <- h :: n.Revision?
    ensures var s := Dressed(h, marker, profile, residue, stage);
            && (forall n :: !IsTemporary(n) && n != Marker && n != Profile ==> At(s, n) == At(h, n))
            && At(s, Profile) == (if stage.ProfileLinked? || stage.ProfilePlaced? then Some(profile) else None)
  {
  }

  /** A restoration is all or nothing: from every stage inspection offers to
      recover, with some but not all revisions in place the store goes back to
      having no profile and no history, and with all of them in place it goes
      on to hold exactly the snapshot. */
  lemma RestoreAllOrNothing(revs: seq<Envelope>, stage: RestoreStage)
    requires revs != [] && StageFits(revs, stage) && Marked(stage)
    ensures Outcome(RestoreListing(revs, stage), RestorePlan(revs, stage))
         == if InPlace(revs, stage) < |revs| then map[] else RestoreListing(revs, Restored)
  {
    hide RestoreMarker, Outcome;
    var k := InPlace(revs, stage);
    var h, after := History(revs, k), Raw(After(revs));
    HistoryIsRevisions(revs, k);
    DressedOutside(h, RestoreMarker(revs), after, Sealed(revs[ResidueIndex(revs, stage)]), stage);
    assert RestorePlan(revs, stage).restoring != [] by { assert |Ids(revs)| == |revs|; }
    RevisionsOnly(RestoreListing(revs, stage), h, RestorePlan(revs, stage), after);
  }
}
