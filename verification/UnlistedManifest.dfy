/** A retained manifest that reads back, agrees with its plan and yet leads a
    recovery to a store inspection refuses. */
module UnlistedManifest {
  import opened Common
  import opened ProfileDocuments
  import opened ProfileInspection
  import opened InspectionSteps
  import opened ArchiveState
  import opened ManifestOrder
  import opened RecoverySteps
  import opened RecoveryProgress
  import opened RecoveryTheorems
  import opened RestorationCrash

  /** A manifest for the rollback of a restoration that lists its marker and
      none of the revisions in place. */
  function Unlisted(live: map<Name, File>, plan: Plan): Content
    requires Marker in live
  {
    Manifest(Sha256(plan.marker), Sha256(plan.candidate), plan.action, plan.history, [RecordOf(Marker, live[Marker])])
  }

  /** An archive that holds just that manifest. */
  function Planted(live: map<Name, File>, plan: Plan, clock: nat): Disk
    requires Marker in live
  {
    Disk(live, Some(map[BatchOf(live, plan) := map[PlanJson := File(Unlisted(live, plan), clock, clock)]]), clock + 1)
  }

  predicate NoTemporary(live: map<Name, File>) { forall n <- live :: !IsTemporary(n) }

  lemma DescribedIds(c: Listing, plan: Plan, revs: seq<Envelope>)
    requires Describes(c, plan, revs)
    ensures Distinct(plan.history) && |plan.history| <= MAX_REVISIONS && Marker in c && Size(c[Marker]) <= MAX_TOTAL
  {
    hide ValidChain, Holds, Size, Ids;
    ChainIdsDistinct(revs);
  }

  lemma UnlistedReads(live: map<Name, File>, plan: Plan, revs: seq<Envelope>)
    requires Describes(Contents(live), plan, revs)
    ensures Marker in live && ManifestOk(Unlisted(live, plan), BatchOf(live, plan)) && !Listed(Unlisted(live, plan).files)
  {
    hide IsChain, Size, RegistryAccepted;
    DescribedIds(Contents(live), plan, revs);
    DescribedMarker(live, plan, revs);
    hide Describes;
    var m := Unlisted(live, plan);
    assert NamesOf(m.files) == [Marker] == RetirementOrder(NameSet(NamesOf(m.files)), []);
  }

  lemma DescribedMarker(live: map<Name, File>, plan: Plan, revs: seq<Envelope>)
    requires Describes(Contents(live), plan, revs)
    ensures Marker in live && live[Marker].content == plan.marker && Size(plan.marker) <= MAX_TOTAL
  {
    hide IsChain;
  }

  lemma UnlistedAgrees(live: map<Name, File>, plan: Plan, b: Batch)
    requires Marker in live && live[Marker].content == plan.marker && Size(plan.marker) <= MAX_TOTAL
    requires !Listed(Unlisted(live, plan).files) && NoTemporary(live) && Archived(Marker) !in b
    ensures Agrees(live, b, Unlisted(live, plan), plan)
  {
    hide Listed;
    var m := Unlisted(live, plan);
    forall n | n in [ProfileTmp, MarkerTmp, RevisionTmp] ensures n !in live {
      assert IsTemporary(n);
    }
    assert RecordsPlaced(live, b, m.files) by {
      assert Match(live[Marker], m.files[0], false);
    }
  }

  lemma PlantedLoads(b: Batch, id: BatchId, m: Content, f: File, hint: Hint)
    requires b == map[PlanJson := f] && f.content == m && ManifestOk(m, id) && Size(m) <= MAX_MANIFEST
    ensures Load(b, id, hint) == Holding(m)
  {
    hide ManifestOk;
    assert b.Keys == {PlanJson};
    assert PlanTmp !in b.Keys && CandidateTmp !in b.Keys && CandidatePublish !in b.Keys;
  }

  lemma PlantedCommits(live: map<Name, File>, plan: Plan, clock: nat)
    requires Marker in live && plan.action != PublishCandidate
    ensures NextStep(Planted(live, plan, clock), plan, Unlisted(live, plan)) == ReleaseMarker
  {
    assert |Unlisted(live, plan).files| == 1;
  }

  lemma OneEntry(e: Entry, f: File)
    ensures BatchBytes(map[e := f]) == Size(f.content)
  {
    BatchBytesPut(map[], e, f);
    assert BatchBytes(map[]) == 0;
  }

  lemma OneBatch(id: BatchId, b: Batch, d: Disk)
    requires d.root == Some(map[id := b])
    ensures Retained(d) == BatchBytes(b) && OthersComplete(d.root.value, Some(id)) <==> BatchBytes(b) <= MAX_RETAINED
  {
    hide Complete, BatchBytes;
    var root: map<BatchId, Batch> := map[];
    SumWith(RootSizes(root), id, BatchBytes(b));
    assert RootSizes(root) == map[] && Sum(RootSizes(root)) == 0;
    assert RootSizes(map[id := b]) == RootSizes(root)[id := BatchBytes(b)];
    assert |d.root.value| == 1;
  }

  lemma PlantedFits(live: map<Name, File>, plan: Plan, revs: seq<Envelope>, clock: nat)
    requires Describes(Contents(live), plan, revs) && plan.action == RemoveUntouchedMarker
    requires Marker in live && Size(Unlisted(live, plan)) <= MAX_MANIFEST
    ensures var d := Planted(live, plan, clock);
            Fits(d, plan, Unlisted(live, plan)) && OthersComplete(d.root.value, Some(BatchOf(live, plan)))
  {
    hide IsChain, OthersComplete, BatchBytes, Retained;
    var d, m, id := Planted(live, plan, clock), Unlisted(live, plan), BatchOf(live, plan);
    var b := map[PlanJson := File(m, clock, clock)];
    assert BatchAt(d, id) == b;
    OneEntry(PlanJson, b[PlanJson]);
    OneBatch(id, b, d);
    assert Remaining(live, m.files) == Size(live[Marker].content) + Remaining(live, []);
    assert Overhead(b, plan, m) <= 2 * MAX_MANIFEST;
  }

  /** Inspection offers a recovery of every such disk, whose one remaining step
      is the commit. */
  lemma PlantedRecoverable(live: map<Name, File>, plan: Plan, clock: nat)
    requires InspectState(Contents(live)) == Pending(plan) && Marker in live && NoTemporary(live)
    requires RollsBack(plan) && plan.history != [] && Size(Unlisted(live, plan)) <= MAX_MANIFEST
    ensures var d, m := Planted(live, plan, clock), Unlisted(live, plan);
            Recoverable(d, plan, m) && NextStep(d, plan, m) == ReleaseMarker && !ListsHistory(plan, m)
  {
    hide InspectState, Describes, ManifestOk, Agrees, OthersComplete, Fits, Listed, NextStep, Load, HintFor;
    var revs := PlanDescribes(Contents(live), plan);
    var id := BatchOf(live, plan);
    DescribedMarker(live, plan, revs);
    UnlistedReads(live, plan, revs);
    UnlistedAgrees(live, plan, BatchAt(Planted(live, plan, clock), id));
    PlantedFits(live, plan, revs, clock);
    PlantedLoads(BatchAt(Planted(live, plan, clock), id), id, Unlisted(live, plan), File(Unlisted(live, plan), clock, clock),
                 HintFor(live, plan));
    PlantedCommits(live, plan, clock);
  }

  /** A restoration stopped with some but not all of its revisions in place, of
      any snapshot of two or more, and an archive that holds such a manifest:
      the one step left succeeds, and inspection refuses what it leaves. */
  lemma UnlistedRefused(revs: seq<Envelope>, profile: Bytes, k: nat, live: map<Name, File>, clock: nat)
    requires SnapshotOk(revs, profile) && 0 < k < |revs|
    requires Marker in live && Contents(live) == RestoreListing(revs, Placed(k))
    requires Size(Unlisted(live, RestorePlan(revs, Placed(k)))) <= MAX_MANIFEST
    ensures var plan := RestorePlan(revs, Placed(k));
            var d, m := Planted(live, plan, clock), Unlisted(live, plan);
            && Inspect(d) == Pending(plan)
            && RecoveryStep(d, Advance(d, plan, m, 0)) && Inspect(Advance(d, plan, m, 0)) == Refused
  {
    hide SnapshotOk, RestorePlan, RestoreListing, InspectState, Recoverable, NextStep, Advance, ListsHistory, Inspect, Planted,
         Unlisted, NoTemporary;
    var plan := RestorePlan(revs, Placed(k));
    var d, m := Planted(live, plan, clock), Unlisted(live, plan);
    RestoreClassified(revs, profile, Placed(k));
    PlacedPlain(revs, k, live);
    PlantedRecoverable(live, plan, clock);
    HasMarker(d, plan, m);
    RecoverableInspects(d, plan, m);
    CommitCleanIff(d, plan, m, 0);
    assert StepsBy(d, Advance(d, plan, m, 0), plan, m, 0);
  }

  lemma PlacedPlain(revs: seq<Envelope>, k: nat, live: map<Name, File>)
    requires 0 < k < |revs| && Contents(live) == RestoreListing(revs, Placed(k))
    ensures NoTemporary(live)
    ensures var plan := RestorePlan(revs, Placed(k)); RollsBack(plan) && plan.history != []
    ensures !RestoreRefused(revs, Placed(k))
  {
    hide RestoreMarker;
    HistoryIsRevisions(revs, k);
    assert |Ids(revs[..k])| == k && |Ids(revs)| == |revs|;
    forall n | n in live ensures !IsTemporary(n) {
      assert n in Contents(live);
    }
  }
}
