/** Checking a backup chain before any of it is restored. */
module SnapshotReader {
  import opened Common
  import opened ProfileDocuments
  import opened ProfileInspection
  import opened InspectionSteps
  import opened RestorationCrash
  import opened StoreReader

  /** The first `k` revisions have passed. */
  predicate CheckedSoFar(revs: seq<Envelope>, k: nat)
    requires k <= |revs|
  {
    (forall i :: 0 <= i < k ==> SnapshotLink(revs, i)) && UniqueIds(revs[..k])
  }

  lemma UniquePrefix(revs: seq<Envelope>, k: nat)
    requires k < |revs| && UniqueIds(revs[..k]) && Id(revs[k]) !in IdSet(revs[..k])
    ensures UniqueIds(revs[..k + 1]) && IdSet(revs[..k + 1]) == IdSet(revs[..k]) + {Id(revs[k])}
  {
    assert revs[..k + 1] == revs[..k] + [revs[k]];
    UniqueMore(revs[..k], revs[k]);
  }

  lemma PrefixTotal(revs: seq<Envelope>, k: nat)
    requires k < |revs|
    ensures TotalSize(revs[..k + 1]) == TotalSize(revs[..k]) + Size(Sealed(revs[k])) <= TotalSize(revs)
  {
    assert revs[..k + 1][..k] == revs[..k];
    PrefixSizes(revs, k + 1);
  }

  /** Walks the snapshot, keeping the previous digest, the identities seen and
      the running total, and stops at the first revision that will not do. */
  method CheckSnapshot(revs: seq<Envelope>, profile: Bytes) returns (ok: bool)
    ensures ok <==> SnapshotOk(revs, profile)
  {
    hide Parses, TotalSize, IdSet;
    if !(1 <= |revs| <= MAX_REVISIONS) || !RegistryAccepted(profile) {
      return false;
    }
    var previous: Option<Digest> := None;
    var seen: set<Digest> := {};
    var total := |profile|;
    var k := 0;
    Nothing(revs);
    while k < |revs|
      invariant k <= |revs| && CheckedSoFar(revs, k)
      invariant previous == PreviousSha(revs, k) && seen == IdSet(revs[..k])
      invariant total == |profile| + TotalSize(revs[..k]) && (total <= MAX_TOTAL || k == 0)
    {
      var e := revs[k];
      PrefixTotal(revs, k);
      NotSeenIn(revs, k);
      assert SnapshotOk(revs, profile) ==> SnapshotLink(revs, k);
      if Size(Sealed(e)) > MAX_REVISION {
        return false;
      }
      total := total + Size(Sealed(e));
      if !Parses(e) || e.previous != previous || (k == 0) != (e.operation == Initialisation)
         || Id(e) in seen || total > MAX_TOTAL || !RegistryAccepted(e.registry) {
        return false;
      }
      UniquePrefix(revs, k);
      previous := Some(e.current);
      seen := seen + {Id(e)};
      k := k + 1;
    }
    assert revs[..|revs|] == revs;
    ok := After(revs) == profile;
  }

  lemma Nothing(revs: seq<Envelope>)
    ensures CheckedSoFar(revs, 0) && IdSet(revs[..0]) == {} && TotalSize(revs[..0]) == 0
  {
  }

  /** In a chain without repeats the next identity is a new one. */
  lemma NotSeenIn(revs: seq<Envelope>, k: nat)
    requires k < |revs|
    ensures UniqueIds(revs) ==> Id(revs[k]) !in IdSet(revs[..k])
  {
    if UniqueIds(revs) {
      NotSeen(revs, k);
    }
  }
}
