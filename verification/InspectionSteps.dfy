/** How the classification of a store changes when recovery removes one file
    or publishes the candidate profile. */
module InspectionSteps {
  import opened Common
  import opened ProfileDocuments
  import opened ProfileInspection

  function Without(c: Listing, n: Name): Listing { c - {n} }

  predicate IsTemporary(n: Name) { n == ProfileTmp || n == MarkerTmp || n == RevisionTmp }

  /** What every pending plan says about the listing it was derived from. */
  ghost predicate Describes(c: Listing, plan: Plan, revs: seq<Envelope>) {
    && Marker in c && c[Marker] == plan.marker && Size(plan.marker) <= MAX_TOTAL
    && IsChain(c, revs, true) && plan.history == Ids(revs)
    && plan.current == At(c, Profile)
    && plan.candidate.Raw? && RegistryAccepted(plan.candidate.bytes)
    && (forall n <- [ProfileTmp, MarkerTmp, RevisionTmp] :: Readable(c, n, MAX_TOTAL))
    && (plan.marker.Transaction? || plan.marker.Restoration?)
    && (plan.restoring != [] <==> plan.marker.Restoration?)
    && (plan.action == RemoveUntouchedMarker ==> plan.current == plan.before)
    && (RollsBackTo(plan) ==> plan.history <= plan.restoring && |plan.history| < |plan.restoring| && plan.current == None)
    && (plan.marker.Transaction? && plan.action == RemoveUntouchedMarker ==> Tip(revs) == plan.before)
    && (plan.action != RemoveUntouchedMarker ==> Tip(revs) == Some(plan.candidate))
    && (plan.action == ClearMarker <==> plan.current == Some(plan.candidate))
  }

  predicate RollsBackTo(plan: Plan) { plan.restoring != [] && plan.action == RemoveUntouchedMarker }

  lemma PlanDescribes(c: Listing, plan: Plan) returns (revs: seq<Envelope>)
    requires InspectState(c) == Pending(plan)
    ensures Describes(c, plan, revs)
  {
    hide ValidChain, Holds;
    revs := ChainOf(c, true).value;
    if c[Marker].Restoration? {
      assert plan.restoring == RecordIds(c[Marker].records);
    }
  }

  /** Removing something that is not a numbered revision keeps the chain. */
  lemma ChainUntouched(c: Listing, c': Listing, revs: seq<Envelope>, allowTemporary: bool)
    requires IsChain(c, revs, true)
    requires forall n :: IsHistoryName(n) ==> At(c', n) == At(c, n)
    requires RevisionTmp in c' ==> RevisionTmp in c && allowTemporary
    ensures IsChain(c', revs, allowTemporary) && ChainOf(c', allowTemporary) == Some(revs)
  {
    hide ValidChain;
    assert Holds(c', revs) by {
      forall i | 0 <= i < |revs| ensures NameAt(revs, i) in c' && c'[NameAt(revs, i)] == Sealed(revs[i]) {
        assert At(c', NameAt(revs, i)) == At(c, NameAt(revs, i));
      }
      forall n | n in c' && IsHistoryName(n)
        ensures n.Revision? && 1 <= n.sequence <= |revs| && n == NameAt(revs, n.sequence - 1)
      {
        assert At(c', n) == At(c, n);
      }
    }
    ChainIs(c', revs, allowTemporary);
  }

  lemma TransactionTemporaryRetired(c: Listing, revs: seq<Envelope>, n: Name)
    requires Marker in c && c[Marker].Transaction? && IsTemporary(n)
    requires ClassifyTransaction(c, revs).Pending?
    ensures ClassifyTransaction(Without(c, n), revs) == ClassifyTransaction(c, revs)
  {
    hide Parses, Tip, Ids;
  }

  lemma RestorationTemporaryRetired(c: Listing, revs: seq<Envelope>, n: Name)
    requires Marker in c && c[Marker].Restoration? && IsTemporary(n)
    requires ClassifyRestoration(c, revs).Pending?
    ensures ClassifyRestoration(Without(c, n), revs) == ClassifyRestoration(c, revs)
  {
    hide Parses, Tip, Ids, RecordIds;
    var m := c[Marker];
    assert RestoreResidueAccepted(Without(c, n), m, Raw(m.after), RecordIds(m.records), |revs|);
  }

  lemma TemporaryRetired(c: Listing, plan: Plan, n: Name)
    requires InspectState(c) == Pending(plan) && IsTemporary(n)
    ensures InspectState(Without(c, n)) == Pending(plan)
  {
    hide IsChain, ValidChain, Holds, ClassifyTransaction, ClassifyRestoration;
    var revs := ChainOf(c, true).value;
    ChainUntouched(c, Without(c, n), revs, true);
    if c[Marker].Transaction? {
      TransactionTemporaryRetired(c, revs, n);
    } else {
      RestorationTemporaryRetired(c, revs, n);
    }
  }

  lemma {:induction false} PrefixSizes(revs: seq<Envelope>, k: nat)
    requires k <= |revs|
    ensures TotalSize(revs[..k]) <= TotalSize(revs)
    decreases |revs|
  {
    if k < |revs| {
      PrefixSizes(revs[..|revs| - 1], k);
      assert revs[..|revs| - 1][..k] == revs[..k];
    } else {
      assert revs[..k] == revs;
    }
  }

  /** A prefix of a readable chain is a readable chain. */
  lemma PrefixValid(revs: seq<Envelope>, k: nat)
    requires ValidChain(revs) && k <= |revs|
    ensures ValidChain(revs[..k])
  {
    PrefixSizes(revs, k);
    forall i | 0 <= i < k ensures ValidLink(revs[..k], i) {
      assert ValidLink(revs, i);
    }
  }

  lemma LastFileGone(c: Listing, revs: seq<Envelope>)
    requires Holds(c, revs) && revs != []
    ensures Holds(Without(c, NameAt(revs, |revs| - 1)), revs[..|revs| - 1])
  {
    var last := |revs| - 1;
    var c' := Without(c, NameAt(revs, last));
    var prior := revs[..last];
    forall i | 0 <= i < last ensures NameAt(prior, i) in c' && c'[NameAt(prior, i)] == Sealed(prior[i]) {
      assert NameAt(prior, i) == NameAt(revs, i);
    }
    forall n | n in c' && IsHistoryName(n)
      ensures n.Revision? && 1 <= n.sequence <= last && n == NameAt(prior, n.sequence - 1)
    {
      assert n == NameAt(revs, n.sequence - 1);
    }
  }

  /** Retiring the last revision leaves the chain before it. */
  lemma LastRevisionGone(c: Listing, revs: seq<Envelope>)
    requires IsChain(c, revs, true) && revs != []
    ensures var c' := Without(c, NameAt(revs, |revs| - 1));
            IsChain(c', revs[..|revs| - 1], true) && ChainOf(c', true) == Some(revs[..|revs| - 1])
  {
    hide ValidChain, Holds;
    LastFileGone(c, revs);
    PrefixValid(revs, |revs| - 1);
    ChainIs(Without(c, NameAt(revs, |revs| - 1)), revs[..|revs| - 1], true);
  }

  lemma RevisionRetired(c: Listing, plan: Plan)
    requires InspectState(c) == Pending(plan) && RollsBackTo(plan) && plan.history != []
    requires NoTemporaries(c)
    ensures var h := plan.history;
            InspectState(Without(c, Revision(|h|, h[|h| - 1]))) == Pending(plan.(history := h[..|h| - 1]))
  {
    hide IsChain, ValidChain, Holds;
    var revs := ChainOf(c, true).value;
    var h := plan.history;
    assert NameAt(revs, |revs| - 1) == Revision(|h|, h[|h| - 1]);
    LastRevisionGone(c, revs);
    assert Ids(revs[..|revs| - 1]) == h[..|h| - 1];
  }

  lemma CandidatePublished(c: Listing, plan: Plan)
    requires InspectState(c) == Pending(plan) && plan.action == PublishCandidate && NoTemporaries(c)
    ensures InspectState(c[Profile := plan.candidate])
         == Pending(plan.(action := ClearMarker, current := Some(plan.candidate)))
  {
    hide IsChain, ValidChain, Holds;
    var revs := ChainOf(c, true).value;
    ChainUntouched(c, c[Profile := plan.candidate], revs, true);
  }

  /** With nothing left to retire but the marker, removing it leaves a clean store. */
  lemma MarkerReleased(c: Listing, plan: Plan)
    requires InspectState(c) == Pending(plan) && NoTemporaries(c)
    requires plan.action != PublishCandidate
    requires RollsBackTo(plan) ==> plan.history == []
    ensures InspectState(Without(c, Marker)) == Clean
  {
    hide IsChain, ValidChain, Holds;
    var revs := ChainOf(c, true).value;
    ChainUntouched(c, Without(c, Marker), revs, false);
  }

  /** The converse: a restoration rolled back with revisions still in place is
      not clean once its marker is gone. */
  lemma MarkerReleasedTooSoon(c: Listing, plan: Plan)
    requires InspectState(c) == Pending(plan) && NoTemporaries(c)
    requires RollsBackTo(plan) && plan.history != []
    ensures InspectState(Without(c, Marker)) == Refused
  {
    hide IsChain, ValidChain, Holds;
    var revs := ChainOf(c, true).value;
    ChainUntouched(c, Without(c, Marker), revs, false);
  }
}
