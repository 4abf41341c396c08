/** A crash followed by recovery, end to end: from every disk a publication or a
    restoration can stop at, on to the disk recovery ends with. */
module CrashRecovery {
  import opened Common
  import opened ProfileDocuments
  import opened ProfileInspection
  import opened InspectionSteps
  import opened ArchiveState
  import opened ManifestOrder
  import opened RecoverySteps
  import opened RecoveryProgress
  import opened RecoveryTheorems
  import opened RecoveryArchive
  import opened PublicationCrash
  import opened RestorationCrash
  import opened StoreFiles
  import opened PublicationStages
  import opened RestorationStages

  /** A run of recoveries of `d` that can go no further. */
  ghost predicate RecoversFrom(d: Disk, ds: seq<Disk>) {
    IsRun(ds) && ds[0] == d && Stopped(ds[|ds| - 1])
  }

  ghost predicate EndsClean(ds: seq<Disk>, c: Listing) {
    ds != [] && Inspect(ds[|ds| - 1]) == Clean && Contents(ds[|ds| - 1].live) == c
  }

  /** Whatever manifest recovery will work to, the archive has room for it. */
  ghost predicate HasRoom(d: Disk, plan: Plan) {
    forall m :: Offered(d, plan, m) ==> Fits(d, plan, m)
  }

  /** The archive of a clean store is untouched, and its marker, if there is
      one by now, is newer than every batch. */
  ghost predicate Since(d0: Disk, d: Disk) {
    && Inspect(d0) == Clean && Stamped(d0) && d.root == d0.root
    && (Marker in d.live ==> d0.clock <= d.live[Marker].ino)
  }

  lemma ArchiveIdle(d0: Disk, d: Disk, plan: Option<Plan>)
    requires Since(d0, d) && (plan.Some? ==> Marker in d.live)
    ensures ArchiveAccepts(d, plan)
    ensures plan.Some? ==> !HasBatch(d, BatchOf(d.live, plan.value))
  {
    hide InspectState, Complete, Load, Agrees, HintFor;
    if d.root.Some? {
      assert OthersComplete(d.root.value, None);
    }
  }

  lemma PendingMarked(c: Listing, plan: Plan)
    requires InspectState(c) == Pending(plan)
    ensures Marker in c
  {
    hide ClassifyTransaction, ClassifyRestoration, TransactionReadable, RestorationReadable, ChainOf;
  }

  /** Inspecting such a disk is inspecting the store alone. */
  lemma InspectionKept(d0: Disk, d: Disk)
    requires Since(d0, d)
    ensures Inspect(d) == InspectState(Contents(d.live))
  {
    hide Since, InspectState, ArchiveAccepts;
    var state := InspectState(Contents(d.live));
    if state.Clean? {
      ArchiveIdle(d0, d, None);
    } else if state.Pending? {
      PendingMarked(Contents(d.live), state.plan);
      ArchiveIdle(d0, d, Some(state.plan));
    }
  }

  /** A recovery it offers starts with a fresh manifest, and with room for it
      is sound. */
  lemma FreshSound(d0: Disk, d: Disk, plan: Plan) returns (m: Content)
    requires Since(d0, d) && Inspect(d) == Pending(plan)
    ensures Marker in d.live && m.Manifest? && Offered(d, plan, m) && ListsHistory(plan, m) && HonestCandidate(d, plan)
    ensures Fits(d, plan, m) ==> Sound(d, plan, m)
  {
    hide Inspect, InspectState, ManifestOk, Agrees, OthersComplete, Prepare, Since, Fits, HintFor, Listed;
    m := InspectionOffers(d, plan);
    ArchiveIdle(d0, d, Some(plan));
    EmptyLoads(BatchOf(d.live, plan), HintFor(d.live, plan));
    FreshManifestLists(d, plan, m);
  }

  lemma EmptyLoads(id: BatchId, hint: Hint)
    ensures Load(map[], id, hint) == Empty
  {
    var b: Batch := map[];
    assert PlanTmp !in b.Keys;
  }

  /** Every run of recoveries from there stays on course, is bounded, and once
      it can go no further is clean with the outcome fixed at the start. */
  lemma FreshRun(d0: Disk, d: Disk, plan: Plan, m: Content, ds: seq<Disk>)
    requires Since(d0, d) && Sound(d, plan, m) && IsRun(ds) && ds[0] == d
    ensures forall x <- ds :: OnCourse(x, plan.marker, Outcome(Contents(d.live), plan))
    ensures Stopped(ds[|ds| - 1]) ==>
              Inspect(ds[|ds| - 1]) == Clean && Contents(ds[|ds| - 1].live) == Outcome(Contents(d.live), plan)
  {
    hide Since, Sound, Inspect, Stopped, OnCourse, IsRun, Outcome;
    SoundParts(d, plan, m);
    RunResumes(ds, plan, m);
  }

  /** The whole disk at each stage of a publication is classified as its
      listing is. */
  lemma StageInspected(d0: Disk, revs: seq<Envelope>, e: Envelope, stage: Stage, d: Disk)
    requires Inspect(d0) == Clean && Stamped(d0) && MayPublish(Contents(d0.live), revs, e)
    requires AtStage(d0, revs, e, stage, d)
    ensures Since(d0, d)
    ensures Inspect(d) == if StageRefused(revs, e, stage) then Refused
                          else if stage.NotStarted? || stage.Finished? then Clean
                          else Pending(StagePlan(revs, e, stage))
  {
    hide Inspect, InspectState, MayPublish, StageListing, StageRefused, StagePlan, Stamped;
    CrashClassified(Contents(d0.live), revs, e, stage);
    InspectionKept(d0, d);
  }

  /** Stop a publication at any stage that is not refused; then recover, any
      number of times, each stopped anywhere.  Once no recovery has anything
      left to do the store is clean, and holds what it held before the
      publication if the revision was not in place, and the whole publication
      if it was. */
  lemma PublicationRecovered(d0: Disk, revs: seq<Envelope>, e: Envelope, stage: Stage, d: Disk, ds: seq<Disk>)
    requires Inspect(d0) == Clean && Stamped(d0) && MayPublish(Contents(d0.live), revs, e)
    requires AtStage(d0, revs, e, stage, d) && !StageRefused(revs, e, stage)
    requires HasRoom(d, StagePlan(revs, e, stage)) && RecoversFrom(d, ds)
    ensures EndsClean(ds, if Published(stage) then Committed(Contents(d0.live), revs, e) else Contents(d0.live))
  {
    hide Inspect, InspectState, MayPublish, StageListing, StageRefused, StagePlan, Stamped, Since,
         Offered, Fits, Sound, Stopped, RecoveryStep, Outcome, OnCourse;
    StageInspected(d0, revs, e, stage, d);
    if stage.NotStarted? || stage.Finished? {
      CleanStops(d);
      OnlyOne(ds);
      CommittedIs(d0, revs, e, stage, d);
    } else {
      var plan := StagePlan(revs, e, stage);
      var m := FreshSound(d0, d, plan);
      FreshRun(d0, d, plan, m, ds);
      StageOutcome(d0, revs, e, stage, d);
    }
  }

  lemma CommittedIs(d0: Disk, revs: seq<Envelope>, e: Envelope, stage: Stage, d: Disk)
    requires AtStage(d0, revs, e, stage, d) && (stage.NotStarted? || stage.Finished?)
    ensures Contents(d.live) == if Published(stage) then Committed(Contents(d0.live), revs, e) else Contents(d0.live)
  {
    hide MarkerFor, Without;
  }

  lemma StageOutcome(d0: Disk, revs: seq<Envelope>, e: Envelope, stage: Stage, d: Disk)
    requires AtStage(d0, revs, e, stage, d) && MayPublish(Contents(d0.live), revs, e)
    requires !StageRefused(revs, e, stage) && !stage.NotStarted? && !stage.Finished?
    ensures Outcome(Contents(d.live), StagePlan(revs, e, stage))
         == if Published(stage) then Committed(Contents(d0.live), revs, e) else Contents(d0.live)
  {
    hide InspectState, MayPublish, StageListing, StageRefused, StagePlan, Committed, Outcome, Published;
    CrashRecovers(Contents(d0.live), revs, e, stage);
  }

  // ----- restoration --------------------------------------------------------

  lemma RestoreStageInspected(d0: Disk, revs: seq<Envelope>, profile: Bytes, stage: RestoreStage, d: Disk)
    requires revs != [] && StageFits(revs, stage)
    requires Inspect(d0) == Clean && Stamped(d0) && SnapshotOk(revs, profile)
    requires AtRestoreStage(d0, revs, stage, d)
    ensures Since(d0, d)
    ensures Inspect(d) == if RestoreRefused(revs, stage) then Refused
                          else if Marked(stage) then Pending(RestorePlan(revs, stage)) else Clean
  {
    hide Inspect, InspectState, SnapshotOk, RestoreListing, RestoreRefused, RestorePlan, Stamped, Marked;
    RestoreClassified(revs, profile, stage);
    InspectionKept(d0, d);
  }

  /** Stop a restoration of any length at any stage that is not refused, then
      recover to the end: an absent profile and an empty history again, or
      exactly the snapshot. */
  lemma RestorationRecovered(d0: Disk, revs: seq<Envelope>, profile: Bytes, stage: RestoreStage, d: Disk, ds: seq<Disk>)
    requires revs != [] && StageFits(revs, stage) && !RestoreRefused(revs, stage)
    requires Inspect(d0) == Clean && Stamped(d0) && SnapshotOk(revs, profile)
    requires AtRestoreStage(d0, revs, stage, d)
    requires HasRoom(d, RestorePlan(revs, stage)) && RecoversFrom(d, ds)
    ensures EndsClean(ds, RestoreEnd(revs, stage))
  {
    hide RestoreEnd, Inspect, InspectState, SnapshotOk, RestoreRefused, RestorePlan, Stamped, Since, Marked,
         Offered, Fits, Sound, Stopped, RecoveryStep, Outcome, OnCourse, RestoreListing, AtRestoreStage, StageFits, InPlace;
    RestoreStageInspected(d0, revs, profile, stage, d);
    if Marked(stage) {
      var plan := RestorePlan(revs, stage);
      var m := FreshSound(d0, d, plan);
      FreshRun(d0, d, plan, m, ds);
      RestoreOutcome(d0, revs, stage, d);
    } else {
      CleanStops(d);
      OnlyOne(ds);
      UnmarkedOutcome(d0, revs, stage, d);
    }
  }

  /** All or nothing. */
  function RestoreEnd(revs: seq<Envelope>, stage: RestoreStage): Listing {
    if revs == [] || stage.Absent? || InPlace(revs, stage) < |revs| then map[] else RestoreListing(revs, Restored)
  }

  lemma RestoreOutcome(d0: Disk, revs: seq<Envelope>, stage: RestoreStage, d: Disk)
    requires AtRestoreStage(d0, revs, stage, d) && Marked(stage)
    ensures Outcome(Contents(d.live), RestorePlan(revs, stage))
         == RestoreEnd(revs, stage)
  {
    hide RestorePlan, Outcome, RestoreListing, StageFits, InPlace;
    RestoreAllOrNothing(revs, stage);
  }

  lemma UnmarkedOutcome(d0: Disk, revs: seq<Envelope>, stage: RestoreStage, d: Disk)
    requires AtRestoreStage(d0, revs, stage, d) && !Marked(stage) && !RestoreRefused(revs, stage)
    ensures Contents(d.live)
         == RestoreEnd(revs, stage)
  {
    hide RestoreMarker, History;
  }
}
