/** Carrying out a recovery, call by call, from whatever an earlier run of it
    left behind. */
module RecoveryArchive {
  import opened Common
  import opened ProfileDocuments
  import opened ProfileInspection
  import opened InspectionSteps
  import opened ArchiveState
  import opened ManifestOrder
  import opened RecoverySteps
  import opened RecoveryProgress
  import opened RecoveryTheorems
  import opened StoreReader
  import opened StoreFiles

  /** A recovery under way: at this point of it, `plan` is what inspection
      would offer and `outcome` is where it will end. */
  ghost predicate Underway(d: Disk, id: BatchId, plan: Plan, m: Content, outcome: Listing) {
    && Recoverable(d, plan, m)
    && BatchOf(d.live, plan) == id
    && Outcome(Contents(d.live), plan) == outcome
  }

  /** The trace from its element `n - 1` on is one run of recovery steps. */
  ghost predicate RunSince(trace: seq<Disk>, n: nat) {
    0 < n <= |trace| && IsRun(trace[n - 1..])
  }

  lemma RunStarts(trace: seq<Disk>)
    requires trace != []
    ensures RunSince(trace, |trace|)
  {
  }

  lemma RunExtends(trace: seq<Disk>, n: nat, d: Disk)
    requires RunSince(trace, n) && RecoveryStep(trace[|trace| - 1], d)
    ensures RunSince(trace + [d], n)
  {
    hide RecoveryStep;
    var run, longer := trace[n - 1..], (trace + [d])[n - 1..];
    assert longer == run + [d];
    forall i | 0 <= i < |longer| - 1 ensures RecoveryStep(longer[i], longer[i + 1]) {
      if i < |run| - 1 {
        assert RecoveryStep(run[i], run[i + 1]);
      }
    }
  }

  /** One step short of the commit keeps a recovery under way. */
  lemma StaysUnderway(d: Disk, id: BatchId, plan: Plan, m: Content, outcome: Listing, chunk: nat)
    requires Underway(d, id, plan, m, outcome) && NextStep(d, plan, m) != ReleaseMarker
    requires HonestFor(BatchAt(d, id), plan, NextStep(d, plan, m))
    ensures var step := NextStep(d, plan, m);
            && Underway(Perform(d, plan, m, step, chunk), id, PlanAfter(plan, step), m, outcome)
            && RecoveryStep(d, Perform(d, plan, m, step, chunk))
  {
    assert Marker in d.live && m.Manifest?;
    AdvanceRecoverable(d, plan, m, chunk);
    OutcomeKept(d, plan, m, chunk);
    MarkerStays(d, plan, m, chunk);
    hide NextStep, Recoverable, InspectState, Outcome, Perform, HonestFor;
    assert StepsBy(d, Advance(d, plan, m, chunk), plan, m, chunk);
  }

  /** Recovery gives up a rolled-back restoration's history only where the
      manifest lists it. */
  lemma StaysListed(d: Disk, id: BatchId, plan: Plan, m: Content, outcome: Listing)
    requires Underway(d, id, plan, m, outcome) && Marker in d.live && m.Manifest?
    ensures ListsHistory(PlanAfter(plan, NextStep(d, plan, m)), m) <==> ListsHistory(plan, m)
  {
    hide InspectState, OthersComplete, Fits, WorksTo, ManifestOk, Agrees, Listed, Outcome;
    StepFacts(d, plan, m);
    hide NextStep;
    assert NextStep(d, plan, m).RetireFile? && NextStep(d, plan, m).name.Revision? ==> Listed(m.files) by {
      if NextStep(d, plan, m).RetireFile? && NextStep(d, plan, m).name.Revision? {
        ListedBy(m.files, Waiting(d.live, m.files, 0));
      }
    }
  }

  lemma ListedBy(files: seq<Record>, k: nat)
    requires k < |files| && files[k].name.Revision?
    ensures Listed(files)
  {
    assert files[k] in files;
  }

  /** No step gives out a stamp twice. */
  lemma PerformStamped(d: Disk, plan: Plan, m: Content, step: Step, chunk: nat)
    requires Stamped(d) && Marker in d.live
    ensures Stamped(Perform(d, plan, m, step, chunk))
  {
  }

  class Archive {
    const files: Files

    constructor (files: Files)
      ensures this.files == files
    {
      this.files := files;
    }

    /** The step recovery is due to take, as one system call. */
    method RecoveryCall(next: Disk, id: BatchId, ghost plan: Plan, ghost m: Content, ghost outcome: Listing,
                        ghost step: Step, ghost chunk: nat, ghost n: nat)
      returns (ok: bool, ghost after: Plan)
      requires files.Valid() && RunSince(files.trace, n)
      requires Underway(files.disk, id, plan, m, outcome)
      requires Marker in files.disk.live && m.Manifest? && NextStep(files.disk, plan, m) == step != ReleaseMarker
      requires next == Perform(files.disk, plan, m, step, chunk) && HonestFor(BatchAt(files.disk, id), plan, step)
      modifies files`disk, files`trace, files`refusals
      ensures files.Valid() && RunSince(files.trace, n) && old(files.trace) <= files.trace
      ensures after == if ok then PlanAfter(plan, step) else plan
      ensures files.disk == if ok then next else old(files.disk)
      ensures Underway(files.disk, id, after, m, outcome)
      ensures files.refusals == old(files.refusals) + (if ok then 0 else 1)
      ensures ListsHistory(after, m) <==> ListsHistory(plan, m)
    {
      hide Underway, NextStep, Perform, PlanAfter, RunSince, RecoveryStep, Stamped, ListsHistory, HonestFor;
      StaysListed(files.disk, id, plan, m, outcome);
      StaysUnderway(files.disk, id, plan, m, outcome, chunk);
      PerformStamped(files.disk, plan, m, step, chunk);
      ok := files.SystemCall(next);
      after := if ok then PlanAfter(plan, step) else plan;
      if ok {
        RunExtends(old(files.trace), n, next);
      }
    }

    /** Brings `plan.tmp` to the whole manifest, from wherever an earlier run
        left it, then clones it to `plan.json`. */
    method PublishManifest(id: BatchId, m: Content, ghost plan: Plan, ghost outcome: Listing, ghost n: nat)
      returns (ok: bool)
      requires files.Valid() && RunSince(files.trace, n)
      requires Underway(files.disk, id, plan, m, outcome) && HasBatch(files.disk, id)
      modifies files`disk, files`trace, files`refusals
      ensures files.Valid() && RunSince(files.trace, n) && old(files.trace) <= files.trace
      ensures Underway(files.disk, id, plan, m, outcome) && HasBatch(files.disk, id) && files.disk.live == old(files.disk).live
      ensures ok ==> PlanJson in BatchAt(files.disk, id)
      ensures Candidates(BatchAt(files.disk, id)) == Candidates(BatchAt(old(files.disk), id))
      ensures files.refusals >= old(files.refusals) && (ok <==> files.refusals == old(files.refusals))
    {
      hide Underway, ListsHistory;
      if PlanJson in BatchAt(files.disk, id) {
        return true;
      }
      ghost var after := plan;
      while PlanTmp !in BatchAt(files.disk, id) || BatchAt(files.disk, id)[PlanTmp].content != m
        invariant files.Valid() && RunSince(files.trace, n) && old(files.trace) <= files.trace
        invariant Underway(files.disk, id, plan, m, outcome) && HasBatch(files.disk, id) && files.disk.live == old(files.disk).live
        invariant PlanJson !in BatchAt(files.disk, id) && files.refusals == old(files.refusals)
        invariant Candidates(BatchAt(files.disk, id)) == Candidates(BatchAt(old(files.disk), id))
        decreases Left(BatchAt(files.disk, id), PlanTmp, m)
      {
        var chunk: nat :| chunk >= 0;
        var b := BatchAt(files.disk, id);
        DueManifest(files.disk, id, plan, m, outcome, chunk);
        ok, after := RecoveryCall(Put(files.disk, id, b[PlanTmp := Written(b, PlanTmp, m, chunk, files.disk.clock)]),
                                  id, plan, m, outcome, WriteManifest, chunk, n);
        if !ok {
          return;
        }
      }
      var b := BatchAt(files.disk, id);
      DueSeal(files.disk, id, plan, m, outcome);
      ok, after := RecoveryCall(Put(files.disk, id, b[PlanJson := File(m, files.disk.clock, files.disk.clock)]),
                                id, plan, m, outcome, SealManifest, 0, n);
    }

    /** Moves every file but the marker into the batch, in manifest order,
        skipping what an earlier run has moved. */
    method RetireFiles(id: BatchId, m: Content, ghost plan: Plan, ghost outcome: Listing, ghost n: nat)
      returns (ok: bool, ghost after: Plan)
      requires files.Valid() && RunSince(files.trace, n)
      requires Underway(files.disk, id, plan, m, outcome) && HasBatch(files.disk, id) && m.Manifest?
      requires PlanJson in BatchAt(files.disk, id)
      modifies files`disk, files`trace, files`refusals
      ensures files.Valid() && RunSince(files.trace, n) && old(files.trace) <= files.trace
      ensures Underway(files.disk, id, after, m, outcome) && HasBatch(files.disk, id)
      ensures after.action == plan.action && PlanJson in BatchAt(files.disk, id)
      ensures !RollsBack(plan) ==> after == plan
      ensures ok ==> Waiting(files.disk.live, m.files, 0) + 1 >= |m.files|
      ensures Candidates(BatchAt(files.disk, id)) == Candidates(BatchAt(old(files.disk), id))
      ensures files.refusals >= old(files.refusals) && (ok <==> files.refusals == old(files.refusals))
      ensures ListsHistory(after, m) <==> ListsHistory(plan, m)
    {
      hide Underway, RunSince, NextStep, Stamped, Waiting, ListsHistory, Match;
      after := plan;
      ok := true;
      var i := 0;
      while i + 1 < |m.files|
        invariant files.Valid() && RunSince(files.trace, n) && old(files.trace) <= files.trace
        invariant Underway(files.disk, id, after, m, outcome) && HasBatch(files.disk, id)
        invariant after.action == plan.action && after.restoring == plan.restoring && PlanJson in BatchAt(files.disk, id)
        invariant !RollsBack(plan) ==> after == plan
        invariant Candidates(BatchAt(files.disk, id)) == Candidates(BatchAt(old(files.disk), id))
        invariant ok && files.refusals == old(files.refusals) && (ListsHistory(after, m) <==> ListsHistory(plan, m))
        invariant i <= |m.files| && forall j :: 0 <= j < i ==> m.files[j].name !in files.disk.live
      {
        var record := m.files[i];
        ghost var due := DueRetire(files.disk, id, after, m, outcome, i);
        if Archived(record.name) !in BatchAt(files.disk, id) {
          if !(record.name in files.disk.live && Match(files.disk.live[record.name], record, false)) {
            return false, after;
          }
          ghost var live := files.disk.live;
          ok, after := RecoveryCall(Retire(files.disk, id, record.name), id, after, m, outcome, RetireFile(record.name), 0, n);
          if !ok {
            return;
          }
          assert files.disk.live == live - {record.name};
        }
        i := i + 1;
      }
      NoneWaiting(files.disk.live, m.files, i);
    }

    /** Brings the staged candidate to its whole length. */
    method StageCandidate(id: BatchId, m: Content, plan: Plan, ghost outcome: Listing, ghost n: nat) returns (ok: bool)
      requires files.Valid() && RunSince(files.trace, n)
      requires Underway(files.disk, id, plan, m, outcome) && HasBatch(files.disk, id) && m.Manifest?
      requires PlanJson in BatchAt(files.disk, id) && plan.action == PublishCandidate
      requires Waiting(files.disk.live, m.files, 0) + 1 >= |m.files|
      modifies files`disk, files`trace, files`refusals
      ensures files.Valid() && RunSince(files.trace, n) && old(files.trace) <= files.trace
      ensures Underway(files.disk, id, plan, m, outcome) && HasBatch(files.disk, id)
      ensures PlanJson in BatchAt(files.disk, id) && files.disk.live == old(files.disk).live
      ensures ok ==> var b := BatchAt(files.disk, id); CandidateTmp in b && b[CandidateTmp].content == plan.candidate
      ensures Candidates(BatchAt(files.disk, id)).1 == Candidates(BatchAt(old(files.disk), id)).1
      ensures files.refusals >= old(files.refusals)
      ensures ok <==> files.refusals == old(files.refusals) && StagedHonest(BatchAt(old(files.disk), id), plan)
    {
      hide Underway, RunSince, Waiting, Stamped, ListsHistory, IsPrefix, Written;
      ghost var after;
      while CandidateTmp !in BatchAt(files.disk, id) || BatchAt(files.disk, id)[CandidateTmp].content != plan.candidate
        invariant files.Valid() && RunSince(files.trace, n) && old(files.trace) <= files.trace
        invariant Underway(files.disk, id, plan, m, outcome) && HasBatch(files.disk, id)
        invariant PlanJson in BatchAt(files.disk, id) && files.disk.live == old(files.disk).live
        invariant files.refusals == old(files.refusals)
        invariant Candidates(BatchAt(files.disk, id)).1 == Candidates(BatchAt(old(files.disk), id)).1
        invariant StagedHonest(BatchAt(files.disk, id), plan) <==> StagedHonest(BatchAt(old(files.disk), id), plan)
        decreases Left(BatchAt(files.disk, id), CandidateTmp, plan.candidate)
      {
        var chunk: nat :| chunk >= 0;
        var b := BatchAt(files.disk, id);
        if CandidateTmp in b && !IsPrefix(b[CandidateTmp].content, plan.candidate) {
          return false;
        }
        DueCandidate(files.disk, id, plan, m, outcome, chunk);
        TornHonest(b, plan, chunk, files.disk.clock);
        ok, after := RecoveryCall(Put(files.disk, id, b[CandidateTmp := Written(b, CandidateTmp, plan.candidate, chunk, files.disk.clock)]),
                                  id, plan, m, outcome, WriteCandidate, chunk, n);
        if !ok {
          return;
        }
      }
      ok := true;
      WholeHonest(BatchAt(files.disk, id), plan);
    }

    /** Stages the candidate in the batch and publishes it as the profile:
        cloned when there was none, renamed over the old one otherwise. */
    method PublishCandidateProfile(id: BatchId, m: Content, plan: Plan, ghost outcome: Listing, ghost n: nat)
      returns (ok: bool, ghost after: Plan)
      requires files.Valid() && RunSince(files.trace, n)
      requires Underway(files.disk, id, plan, m, outcome) && HasBatch(files.disk, id) && m.Manifest?
      requires PlanJson in BatchAt(files.disk, id) && plan.action == PublishCandidate
      requires Waiting(files.disk.live, m.files, 0) + 1 >= |m.files|
      modifies files`disk, files`trace, files`refusals
      ensures files.Valid() && RunSince(files.trace, n) && old(files.trace) <= files.trace
      ensures Underway(files.disk, id, after, m, outcome) && after.marker == plan.marker
      ensures ok ==> HasBatch(files.disk, id) && PlanJson in BatchAt(files.disk, id) && after.action == ClearMarker
      ensures ok ==> Waiting(files.disk.live, m.files, 0) + 1 >= |m.files|
      ensures files.refusals >= old(files.refusals)
      ensures ok <==> files.refusals == old(files.refusals)
                      && StagedHonest(BatchAt(old(files.disk), id), plan) && ClonedHonest(BatchAt(old(files.disk), id), plan)
      ensures ListsHistory(after, m) <==> ListsHistory(plan, m)
    {
      hide Underway, RunSince, Waiting, Stamped, NextStep, ListsHistory, Contents, StagedHonest;
      after := plan;
      ok := StageCandidate(id, m, plan, outcome, n);
      if !ok {
        return;
      }
      DueProfile(files.disk, id, plan, m, outcome);
      if plan.current.None? {
        var f := File(plan.candidate, files.disk.clock, files.disk.clock);
        ok, after := RecoveryCall(files.disk.(live := files.disk.live[Profile := f], clock := files.disk.clock + 1),
                                  id, plan, m, outcome, PublishProfile, 0, n);
        return;
      }
      var b := BatchAt(files.disk, id);
      if CandidatePublish !in b {
        ok, after := RecoveryCall(Put(files.disk, id, b[CandidatePublish := File(plan.candidate, files.disk.clock, files.disk.clock)]),
                                  id, plan, m, outcome, CloneCandidate, 0, n);
        if !ok {
          return;
        }
      } else if b[CandidatePublish].content != plan.candidate {
        return false, after;
      }
      CurrentIs(files.disk, id, after, m, outcome);
      if At(Contents(files.disk.live), Profile) != plan.current {
        return false, after;
      }
      b := BatchAt(files.disk, id);
      DueProfile(files.disk, id, plan, m, outcome);
      ok, after := RecoveryCall(Put(files.disk.(live := files.disk.live[Profile := b[CandidatePublish].(ctime := files.disk.clock)]),
                                    id, b - {CandidatePublish}),
                                id, plan, m, outcome, ReplaceProfile, 0, n);
    }

    /** Checks the now-complete archival prefix, then moves the marker. */
    method Commit(id: BatchId, m: Content, ghost plan: Plan, ghost outcome: Listing, ghost n: nat) returns (ok: bool)
      requires files.Valid() && RunSince(files.trace, n) && m.Manifest?
      requires Underway(files.disk, id, plan, m, outcome) && HasBatch(files.disk, id)
      requires PlanJson in BatchAt(files.disk, id) && plan.action != PublishCandidate
      requires Waiting(files.disk.live, m.files, 0) + 1 >= |m.files|
      modifies files
      ensures files.Valid() && RunSince(files.trace, n) && old(files.trace) <= files.trace
      ensures ok ==> Inspect(files.disk) == Clean && Contents(files.disk.live) == outcome
      ensures files.refusals >= old(files.refusals)
      ensures ok <==> files.refusals == old(files.refusals) && ListsHistory(plan, m)
      ensures ok ==> Answered(old(files.answers), files.answers, [Anchor])
    {
      hide Underway, Inspect, RunSince, NextStep, Advance, Retire, RecoveryStep, ListsHistory;
      StillOffered(files.disk, id, plan, m, outcome);
      ok := files.Check(Anchor);
      if !ok {
        return;
      }
      var state := ReadDisk(files.disk);
      if !state.Pending? {
        return false;
      }
      DueRelease(files.disk, id, plan, m, outcome);
      MarkerStamped(files.disk, id);
      ghost var before, prior := files.disk, files.trace;
      ok := files.SystemCall(Retire(files.disk, id, Marker));
      if !ok {
        return;
      }
      RunExtends(prior, n, files.disk);
      var final := ReadDisk(files.disk);
      ok := final == Clean;
      CleanIff(before, id, plan, m, outcome);
      if ok {
        Released(before, id, plan, m, outcome);
      }
    }

    /** The part of a recovery that follows the reservation. */
    method Carry(id: BatchId, m: Content, plan: Plan, ghost outcome: Listing, ghost n: nat) returns (ok: bool)
      requires files.Valid() && RunSince(files.trace, n) && m.Manifest?
      requires Underway(files.disk, id, plan, m, outcome) && HasBatch(files.disk, id)
      modifies files
      ensures files.Valid() && RunSince(files.trace, n) && old(files.trace) <= files.trace
      ensures ok ==> Inspect(files.disk) == Clean && Contents(files.disk.live) == outcome
      ensures files.refusals >= old(files.refusals)
      ensures ok <==> files.refusals == old(files.refusals) && ListsHistory(plan, m) && HonestCandidate(old(files.disk), plan)
      ensures ok ==> Answered(old(files.answers), files.answers, [Anchor])
    {
      hide Underway, Inspect, RunSince, NextStep, ListsHistory, StagedHonest, ClonedHonest, HonestCandidate;
      HonestParts(files.disk, id, plan, m, outcome);
      ok := PublishManifest(id, m, plan, outcome, n);
      if !ok {
        return;
      }
      ghost var after;
      ok, after := RetireFiles(id, m, plan, outcome, n);
      if !ok {
        return;
      }
      if plan.action == PublishCandidate {
        HonestSame(BatchAt(old(files.disk), id), BatchAt(files.disk, id), plan);
        ok, after := PublishCandidateProfile(id, m, plan, outcome, n);
        if !ok {
          return;
        }
      }
      ok := Commit(id, m, after, outcome, n);
    }

    /** Creates the recovery directory where it is missing. */
    method OpenRoot(id: BatchId, ghost plan: Plan, ghost m: Content, ghost fits: bool, ghost n: nat) returns (ok: bool)
      requires files.Valid() && Preparing(files.disk, id, plan, m, fits) && (fits ==> RunSince(files.trace, n))
      modifies files`disk, files`trace, files`refusals
      ensures files.Valid() && old(files.trace) <= files.trace && files.disk.live == old(files.disk).live
      ensures Preparing(files.disk, id, plan, m, fits) && (fits ==> RunSince(files.trace, n))
      ensures ok ==> files.disk.root.Some?
      ensures OnlyDirectories(old(files.trace), n) ==> OnlyDirectories(files.trace, n)
      ensures BatchAt(files.disk, id) == BatchAt(old(files.disk), id)
      ensures files.refusals >= old(files.refusals) && (ok <==> files.refusals == old(files.refusals))
    {
      hide Preparing, RunSince, RecoveryStep, Stamped, OnlyDirectories, MakesDirectory, DirectoryStep;
      if files.disk.root.Some? {
        return true;
      }
      RootOffered(files.disk, id, plan, m, fits);
      ok := files.SystemCall(files.disk.(root := Some(map[])));
      if ok && OnlyDirectories(old(files.trace), n) {
        OneDirectory(old(files.trace), n, files.disk);
      }
      if ok && fits {
        RunExtends(old(files.trace), n, files.disk);
      }
    }

    /** Creates the batch directory where it is missing. */
    method OpenBatch(id: BatchId, ghost plan: Plan, ghost m: Content, ghost fits: bool, ghost n: nat) returns (ok: bool)
      requires files.Valid() && Preparing(files.disk, id, plan, m, fits) && (fits ==> RunSince(files.trace, n)) && files.disk.root.Some?
      modifies files`disk, files`trace, files`refusals
      ensures files.Valid() && old(files.trace) <= files.trace && files.disk.live == old(files.disk).live
      ensures Preparing(files.disk, id, plan, m, fits) && (fits ==> RunSince(files.trace, n))
      ensures ok ==> HasBatch(files.disk, id) && Retained(files.disk) == Retained(old(files.disk))
      ensures OnlyDirectories(old(files.trace), n) ==> OnlyDirectories(files.trace, n)
      ensures BatchAt(files.disk, id) == BatchAt(old(files.disk), id)
      ensures files.refusals >= old(files.refusals)
      ensures ok <==> files.refusals == old(files.refusals) && (id in old(files.disk).root.value || |old(files.disk).root.value| < MAX_BATCHES)
    {
      hide Preparing, RunSince, RecoveryStep, Retained, Stamped, Put, OnlyDirectories, MakesDirectory, DirectoryStep, BatchAt;
      if id in files.disk.root.value {
        return true;
      }
      if |files.disk.root.value| >= MAX_BATCHES {
        return false;
      }
      BatchOffered(files.disk, id, plan, m, fits);
      ok := files.SystemCall(Put(files.disk, id, map[]));
      if ok && OnlyDirectories(old(files.trace), n) {
        OneDirectory(old(files.trace), n, files.disk);
      }
      if ok && fits {
        RunExtends(old(files.trace), n, files.disk);
      }
    }

    /** Carries out the recovery `plan`.  It returns true only with the store
        clean and holding the outcome.  Where the reservation fits, every state
        on the way is one more step of one run; where it does not, nothing but
        empty directories has been made.  It succeeds exactly when the system
        refuses nothing, the reservation fits, the manifest lists the history a
        rolled-back restoration has left, and the batch holds nothing but the
        candidate under the candidate's names. */
    method Apply(plan: Plan) returns (ok: bool, ghost m: Content)
      requires files.Valid() && Inspect(files.disk) == Pending(plan)
      modifies files
      ensures files.Valid() && old(files.trace) <= files.trace
      ensures Offered(old(files.disk), plan, m) && Marker in old(files.disk).live && m.Manifest?
      ensures Fits(old(files.disk), plan, m) ==> RunSince(files.trace, |old(files.trace)|)
      ensures !Fits(old(files.disk), plan, m) ==> OnlyDirectories(files.trace, |old(files.trace)|)
      ensures !Fits(old(files.disk), plan, m) ==> !ok && files.disk.live == old(files.disk).live && Inspect(files.disk) == Pending(plan)
      ensures ok ==> Inspect(files.disk) == Clean && Contents(files.disk.live) == Outcome(Contents(old(files.disk).live), plan)
      ensures files.refusals >= old(files.refusals)
      ensures ok <==> files.refusals == old(files.refusals) && Fits(old(files.disk), plan, m) && ListsHistory(plan, m)
                      && HonestCandidate(old(files.disk), plan)
      ensures ok ==> Answered(old(files.answers), files.answers, [Anchor])
    {
      hide Inspect, Offered, Fits, HonestCandidate, Outcome, RunSince, Underway, InventoryAccepts, RootBytes, Retained,
           HintFor, Remaining, Overhead, Contents, Stamped, Preparing, ListsHistory, OnlyDirectories;
      var id, manifest := ReadManifest(files.disk, plan);
      m := manifest;
      RunStarts(files.trace);
      NoDirectory(files.trace);
      OfferedInspects(files.disk, plan, m);
      ghost var fits := Fits(files.disk, plan, m);
      IsPreparing(files.disk, id, plan, m, fits);
      ok := false;
      if Size(manifest) > MAX_MANIFEST {
        TooLong(files.disk, plan, m);
        return;
      }
      ok := OpenRoot(id, plan, m, fits, |old(files.trace)|);
      PreparingParts(files.disk, id, plan, m, fits);
      if !ok {
        return;
      }
      OfferedInventory(files.disk, id, plan, m);
      var readable, total := Inventory(files.disk.root.value, Some(id), HintFor(files.disk.live, plan));
      if id !in files.disk.root.value && |files.disk.root.value| >= MAX_BATCHES {
        TooMany(files.disk, plan, m);
      }
      ok := OpenBatch(id, plan, m, fits, |old(files.trace)|);
      PreparingParts(files.disk, id, plan, m, fits);
      if !ok {
        return;
      }
      Budget(files.disk, id, plan, m);
      if total + Remaining(files.disk.live, manifest.files) + Overhead(BatchAt(files.disk, id), plan, manifest) > MAX_RETAINED {
        ok := false;
        return;
      }
      SameCandidate(old(files.disk), files.disk, id, plan);
      ok := Carry(id, manifest, plan, Outcome(Contents(files.disk.live), plan), |old(files.trace)|);
    }
  }

  // ----- before the reservation ---------------------------------------------

  /** Everything inspection establishes; with `Fits`, all recovery needs. */
  ghost predicate Offered(d: Disk, plan: Plan, m: Content) {
    && Marker in d.live && m.Manifest?
    && InspectState(Contents(d.live)) == Pending(plan)
    && (d.root.Some? ==> OthersComplete(d.root.value, Some(BatchOf(d.live, plan))))
    && WorksTo(d.live, BatchAt(d, BatchOf(d.live, plan)), BatchOf(d.live, plan), plan, m)
    && ManifestOk(m, BatchOf(d.live, plan))
    && Agrees(d.live, BatchAt(d, BatchOf(d.live, plan)), m, plan)
  }

  /** The manifest to work to: the retained one, else a fresh one. */
  method ReadManifest(d: Disk, plan: Plan) returns (id: BatchId, m: Content)
    requires Inspect(d) == Pending(plan)
    ensures Offered(d, plan, m) && id == BatchOf(d.live, plan)
  {
    ghost var offered := InspectionOffers(d, plan);
    hide Inspect, InspectState, OthersComplete, Load, Prepare, ManifestOk, Agrees;
    id := BatchOf(d.live, plan);
    var loaded := Load(BatchAt(d, id), id, HintFor(d.live, plan));
    if loaded.Holding? {
      m := loaded.manifest;
    } else {
      m := Prepare(d.live, plan).value;
    }
  }

  lemma OfferedInspects(d: Disk, plan: Plan, m: Content)
    requires Offered(d, plan, m)
    ensures Inspect(d) == Pending(plan) && Marker in d.live && m.Manifest?
  {
    hide InspectState, ManifestOk, Agrees, OthersComplete, Load;
    var id := BatchOf(d.live, plan);
    EntriesBounded(BatchAt(d, id), id, HintFor(d.live, plan));
  }

  lemma TooLong(d: Disk, plan: Plan, m: Content)
    requires Marker in d.live && m.Manifest? && Size(m) > MAX_MANIFEST
    ensures !Fits(d, plan, m)
  {
  }

  lemma TooMany(d: Disk, plan: Plan, m: Content)
    requires Marker in d.live && m.Manifest? && d.root.Some? && BatchOf(d.live, plan) !in d.root.value
    requires |d.root.value| >= MAX_BATCHES
    ensures !Fits(d, plan, m)
  {
  }

  lemma OfferedFits(d: Disk, plan: Plan, m: Content)
    requires Offered(d, plan, m) && Fits(d, plan, m)
    ensures Recoverable(d, plan, m)
  {
    hide InspectState, ManifestOk, Agrees, OthersComplete, WorksTo;
  }

  /** The archive's directory, or the batch's, is made for a recovery. */
  ghost predicate MakesDirectory(d: Disk, d': Disk, plan: Plan, m: Content) {
    && Offered(d, plan, m) && Marker in d.live
    && (if d.root.None? then d' == d.(root := Some(map[]))
        else && BatchOf(d.live, plan) !in d.root.value && |d.root.value| < MAX_BATCHES
             && d' == Put(d, BatchOf(d.live, plan), map[]))
  }

  ghost predicate DirectoryStep(d: Disk, d': Disk) { exists plan, m :: MakesDirectory(d, d', plan, m) }

  /** From its element `n - 1` on the trace makes nothing but directories. */
  ghost predicate OnlyDirectories(trace: seq<Disk>, n: nat) {
    0 < n <= |trace| && forall i :: n - 1 <= i < |trace| - 1 ==> DirectoryStep(trace[i], trace[i + 1])
  }

  lemma OneDirectory(trace: seq<Disk>, n: nat, d: Disk)
    requires OnlyDirectories(trace, n) && DirectoryStep(trace[|trace| - 1], d)
    ensures OnlyDirectories(trace + [d], n)
  {
    hide DirectoryStep;
  }

  lemma NoDirectory(trace: seq<Disk>)
    requires trace != []
    ensures OnlyDirectories(trace, |trace|)
  {
  }

  /** A disk offers one plan and one manifest to work to. */
  lemma OneOffer(d: Disk, plan: Plan, m: Content, plan': Plan, m': Content)
    requires Offered(d, plan, m) && Offered(d, plan', m')
    ensures plan == plan' && m == m'
  {
    hide InspectState, Load, Prepare, ManifestOk, Agrees, OthersComplete;
  }

  lemma DirectoryOffered(d: Disk, d': Disk, plan: Plan, m: Content, plan': Plan, m': Content)
    requires Offered(d, plan, m) && MakesDirectory(d, d', plan', m') && Stamped(d)
    requires Marker in d.live && m.Manifest?
    ensures Offered(d', plan, m) && d'.live == d.live
    ensures HonestCandidate(d', plan) <==> HonestCandidate(d, plan)
  {
    OneOffer(d, plan, m, plan', m');
    hide Offered, Fits, HonestCandidate;
    var id, fits := BatchOf(d.live, plan), Fits(d, plan, m);
    IsPreparing(d, id, plan, m, fits);
    if d.root.None? {
      RootOffered(d, id, plan, m, fits);
    } else {
      BatchOffered(d, id, plan, m, fits);
    }
    PreparingParts(d', id, plan, m, fits);
    SameCandidate(d, d', id, plan);
  }

  /** Offered, with or without room for it. */
  ghost predicate Preparing(d: Disk, id: BatchId, plan: Plan, m: Content, fits: bool) {
    Offered(d, plan, m) && BatchOf(d.live, plan) == id && (fits <==> Fits(d, plan, m))
  }

  lemma IsPreparing(d: Disk, id: BatchId, plan: Plan, m: Content, fits: bool)
    requires Offered(d, plan, m) && Marker in d.live && m.Manifest? && BatchOf(d.live, plan) == id
    requires fits <==> Fits(d, plan, m)
    ensures Preparing(d, id, plan, m, fits)
  {
    hide Offered, Fits;
  }

  lemma PreparingParts(d: Disk, id: BatchId, plan: Plan, m: Content, fits: bool)
    requires Preparing(d, id, plan, m, fits)
    ensures Offered(d, plan, m) && Marker in d.live && m.Manifest? && BatchOf(d.live, plan) == id
    ensures (fits <==> Fits(d, plan, m)) && Inspect(d) == Pending(plan)
  {
    hide Inspect, Offered, Fits;
    OfferedInspects(d, plan, m);
  }

  lemma RootOffered(d: Disk, id: BatchId, plan: Plan, m: Content, fits: bool)
    requires Preparing(d, id, plan, m, fits) && d.root.None? && Stamped(d)
    ensures Stamped(d.(root := Some(map[])))
    ensures Preparing(d.(root := Some(map[])), id, plan, m, fits)
    ensures DirectoryStep(d, d.(root := Some(map[])))
    ensures BatchAt(d.(root := Some(map[])), id) == BatchAt(d, id)
    ensures fits ==> RecoveryStep(d, d.(root := Some(map[])))
  {
    hide InspectState, ManifestOk, Agrees, WorksTo, Overhead, Remaining;
    var d' := d.(root := Some(map[]));
    assert RootSizes(map[]) == map[];
    assert Retained(d') == 0;
    assert MakesDirectory(d, d', plan, m);
    if fits {
      assert StepsBy(d, d', plan, m, 0) by { OfferedFits(d, plan, m); }
    }
  }

  lemma BatchOffered(d: Disk, id: BatchId, plan: Plan, m: Content, fits: bool)
    requires Preparing(d, id, plan, m, fits) && d.root.Some? && id !in d.root.value && Stamped(d)
    requires |d.root.value| < MAX_BATCHES
    ensures Stamped(Put(d, id, map[])) && HasBatch(Put(d, id, map[]), id) && Put(d, id, map[]).live == d.live
    ensures Preparing(Put(d, id, map[]), id, plan, m, fits)
    ensures Retained(Put(d, id, map[])) == Retained(d)
    ensures DirectoryStep(d, Put(d, id, map[]))
    ensures BatchAt(Put(d, id, map[]), id) == BatchAt(d, id)
    ensures fits ==> RecoveryStep(d, Put(d, id, map[]))
  {
    hide InspectState, ManifestOk, Agrees, WorksTo, Overhead, Remaining, OthersComplete, Retained, BatchBytes;
    var d' := Put(d, id, map[]);
    RetainedPut(d, id, map[]);
    assert d'.root.value.Keys == d.root.value.Keys + {id};
    RetainedWithin(d, id);
    OthersKept(d, id, map[]);
    assert MakesDirectory(d, d', plan, m);
    if fits {
      assert StepsBy(d, d', plan, m, 0) by { OfferedFits(d, plan, m); }
    }
  }

  lemma RetainedWithin(d: Disk, id: BatchId)
    requires d.root.Some? && OthersComplete(d.root.value, Some(id))
    ensures Retained(d) <= MAX_RETAINED && Retained(d) == RootBytes(d.root.value)
  {
    hide Complete;
  }

  lemma OfferedInventory(d: Disk, id: BatchId, plan: Plan, m: Content)
    requires Offered(d, plan, m) && id == BatchOf(d.live, plan) && d.root.Some?
    ensures InventoryAccepts(d.root.value, Some(id), HintFor(d.live, plan))
    ensures RootBytes(d.root.value) == Retained(d)
  {
    OfferedInspects(d, plan, m);
    hide InspectState, ManifestOk, Agrees, OthersComplete, Load;
    EntriesBounded(BatchAt(d, id), id, HintFor(d.live, plan));
    InventoryMeans(d.root.value, Some(id), HintFor(d.live, plan));
    RetainedWithin(d, id);
    hide Inspect;
  }

  /** The reservation check is the whole of what is left of `Fits`. */
  lemma Budget(d: Disk, id: BatchId, plan: Plan, m: Content)
    requires Offered(d, plan, m) && HasBatch(d, id) && id == BatchOf(d.live, plan)
    requires Size(m) <= MAX_MANIFEST
    ensures m.Manifest? && (Fits(d, plan, m) <==>
              Retained(d) + Remaining(d.live, m.files) + Overhead(BatchAt(d, id), plan, m) <= MAX_RETAINED)
    ensures Fits(d, plan, m) ==> Underway(d, id, plan, m, Outcome(Contents(d.live), plan))
  {
    hide InspectState, ManifestOk, Agrees, WorksTo, Overhead, Remaining, OthersComplete, Retained, Outcome;
  }

  lemma MarkerStamped(d: Disk, id: BatchId)
    requires Stamped(d) && HasBatch(d, id) && Marker in d.live
    ensures Stamped(Retire(d, id, Marker))
  {
  }

  // ----- the commit ---------------------------------------------------------

  lemma DueRelease(d: Disk, id: BatchId, plan: Plan, m: Content, outcome: Listing)
    requires Underway(d, id, plan, m, outcome) && HasBatch(d, id) && m.Manifest?
    requires PlanJson in BatchAt(d, id) && plan.action != PublishCandidate
    requires Waiting(d.live, m.files, 0) + 1 >= |m.files|
    ensures Marker in d.live && NextStep(d, plan, m) == ReleaseMarker
    ensures RecoveryStep(d, Retire(d, id, Marker)) && Retire(d, id, Marker) == Advance(d, plan, m, 0)
  {
    hide InspectState, OthersComplete, Fits, ManifestOk, Agrees, Outcome, WorksTo;
    assert StepsBy(d, Retire(d, id, Marker), plan, m, 0);
  }

  lemma StillOffered(d: Disk, id: BatchId, plan: Plan, m: Content, outcome: Listing)
    requires Underway(d, id, plan, m, outcome)
    ensures Inspect(d) == Pending(plan)
  {
    hide Recoverable, Inspect, Outcome;
    RecoverableInspects(d, plan, m);
  }

  lemma CleanIff(d: Disk, id: BatchId, plan: Plan, m: Content, outcome: Listing)
    requires Underway(d, id, plan, m, outcome) && Marker in d.live && m.Manifest?
    requires NextStep(d, plan, m) == ReleaseMarker
    ensures Inspect(Advance(d, plan, m, 0)) == Clean <==> ListsHistory(plan, m)
  {
    hide Recoverable, Inspect, Advance, NextStep, Outcome, ListsHistory;
    CommitCleanIff(d, plan, m, 0);
  }

  lemma Released(d: Disk, id: BatchId, plan: Plan, m: Content, outcome: Listing)
    requires Underway(d, id, plan, m, outcome) && Marker in d.live && m.Manifest?
    requires NextStep(d, plan, m) == ReleaseMarker && Inspect(Advance(d, plan, m, 0)) == Clean
    ensures Contents(Advance(d, plan, m, 0).live) == outcome
  {
    hide Recoverable, Inspect, Advance, NextStep, Outcome, ListsHistory, HonestCandidate;
    CommitCleanIff(d, plan, m, 0);
    NothingStaged(d, plan, m);
    IsSound(d, plan, m);
    CommitClean(d, plan, m, 0);
  }

  /** At the commit point no candidate is looked at any more. */
  lemma NothingStaged(d: Disk, plan: Plan, m: Content)
    requires Marker in d.live && m.Manifest? && NextStep(d, plan, m) == ReleaseMarker
    ensures HonestCandidate(d, plan)
  {
    StepFacts(d, plan, m);
  }

  // ----- which step is due --------------------------------------------------

  lemma DueManifest(d: Disk, id: BatchId, plan: Plan, m: Content, outcome: Listing, chunk: nat)
    requires Underway(d, id, plan, m, outcome) && HasBatch(d, id) && PlanJson !in BatchAt(d, id)
    requires PlanTmp !in BatchAt(d, id) || BatchAt(d, id)[PlanTmp].content != m
    ensures Marker in d.live && m.Manifest? && NextStep(d, plan, m) == WriteManifest
    ensures var b := BatchAt(d, id);
            && Put(d, id, b[PlanTmp := Written(b, PlanTmp, m, chunk, d.clock)]) == Perform(d, plan, m, WriteManifest, chunk)
            && Left(b[PlanTmp := Written(b, PlanTmp, m, chunk, d.clock)], PlanTmp, m) < Left(b, PlanTmp, m)
  {
    hide InspectState, OthersComplete, Fits, ManifestOk, Agrees, Outcome, WorksTo;
    var b := BatchAt(d, id);
    ManifestStillPrepared(d.live, b, id, plan, m);
    WrittenLeft(b, PlanTmp, m, chunk, d.clock);
  }

  lemma DueSeal(d: Disk, id: BatchId, plan: Plan, m: Content, outcome: Listing)
    requires Underway(d, id, plan, m, outcome) && HasBatch(d, id) && PlanJson !in BatchAt(d, id)
    requires PlanTmp in BatchAt(d, id) && BatchAt(d, id)[PlanTmp].content == m
    ensures Marker in d.live && m.Manifest? && NextStep(d, plan, m) == SealManifest
    ensures Put(d, id, BatchAt(d, id)[PlanJson := File(m, d.clock, d.clock)]) == Perform(d, plan, m, SealManifest, 0)
  {
    hide InspectState, OthersComplete, Fits, ManifestOk, Agrees, Outcome, WorksTo;
  }

  /** A record not yet archived, all before it being archived, is next. */
  lemma DueRetire(d: Disk, id: BatchId, plan: Plan, m: Content, outcome: Listing, i: nat) returns (due: bool)
    requires Underway(d, id, plan, m, outcome) && HasBatch(d, id) && m.Manifest?
    requires PlanJson in BatchAt(d, id) && i + 1 < |m.files|
    requires forall j :: 0 <= j < i ==> m.files[j].name !in d.live
    ensures due == (Archived(m.files[i].name) !in BatchAt(d, id))
    ensures due ==> Marker in d.live && NextStep(d, plan, m) == RetireFile(m.files[i].name)
    ensures due ==> Retire(d, id, m.files[i].name) == Perform(d, plan, m, RetireFile(m.files[i].name), 0)
    ensures due && m.files[i].name.Revision? ==> RollsBack(plan)
    ensures due ==> m.files[i].name in d.live && Match(d.live[m.files[i].name], m.files[i], false)
    ensures !due ==> m.files[i].name !in d.live
  {
    hide InspectState, OthersComplete, Fits, ManifestOk, Outcome, WorksTo, Match;
    due := Archived(m.files[i].name) !in BatchAt(d, id);
    assert AtSource(d.live, m.files[i]) == !AtTarget(BatchAt(d, id), m.files[i]);
    hide Agrees;
    if due {
      RetiredKind(d, plan, m, m.files[i].name);
    }
  }

  // ----- what an earlier run left of the candidate --------------------------

  /** What a batch has under the two candidate names. */
  function Candidates(b: Batch): (Option<Content>, Option<Content>) {
    (if CandidateTmp in b then Some(b[CandidateTmp].content) else None,
     if CandidatePublish in b then Some(b[CandidatePublish].content) else None)
  }

  lemma HonestSame(b: Batch, b': Batch, plan: Plan)
    requires Candidates(b) == Candidates(b')
    ensures StagedHonest(b, plan) <==> StagedHonest(b', plan)
    ensures ClonedHonest(b, plan) <==> ClonedHonest(b', plan)
  {
    hide IsPrefix;
  }

  lemma HonestParts(d: Disk, id: BatchId, plan: Plan, m: Content, outcome: Listing)
    requires Underway(d, id, plan, m, outcome)
    ensures HonestCandidate(d, plan) <==>
            (plan.action == PublishCandidate ==> StagedHonest(BatchAt(d, id), plan) && ClonedHonest(BatchAt(d, id), plan))
  {
    hide Recoverable, StagedHonest, ClonedHonest, Outcome;
    HasMarker(d, plan, m);
  }

  lemma SameCandidate(d: Disk, d': Disk, id: BatchId, plan: Plan)
    requires d'.live == d.live && BatchAt(d', id) == BatchAt(d, id)
    requires Marker in d.live && id == BatchOf(d.live, plan)
    ensures HonestCandidate(d', plan) <==> HonestCandidate(d, plan)
  {
    hide StagedHonest, ClonedHonest, BatchAt;
  }

  lemma WholeHonest(b: Batch, plan: Plan)
    requires CandidateTmp in b && b[CandidateTmp].content == plan.candidate
    ensures StagedHonest(b, plan)
  {
  }

  lemma DueCandidate(d: Disk, id: BatchId, plan: Plan, m: Content, outcome: Listing, chunk: nat)
    requires Underway(d, id, plan, m, outcome) && HasBatch(d, id) && m.Manifest?
    requires PlanJson in BatchAt(d, id) && plan.action == PublishCandidate
    requires Waiting(d.live, m.files, 0) + 1 >= |m.files|
    requires var b := BatchAt(d, id); CandidateTmp !in b || b[CandidateTmp].content != plan.candidate
    requires var b := BatchAt(d, id); CandidateTmp in b ==> IsPrefix(b[CandidateTmp].content, plan.candidate)
    ensures Marker in d.live && NextStep(d, plan, m) == WriteCandidate
    ensures var b := BatchAt(d, id);
            var f := Written(b, CandidateTmp, plan.candidate, chunk, d.clock);
            && Put(d, id, b[CandidateTmp := f]) == Perform(d, plan, m, WriteCandidate, chunk)
            && Left(b[CandidateTmp := f], CandidateTmp, plan.candidate) < Left(b, CandidateTmp, plan.candidate)
  {
    hide InspectState, OthersComplete, Fits, ManifestOk, Agrees, Outcome, WorksTo;
    WrittenLeft(BatchAt(d, id), CandidateTmp, plan.candidate, chunk, d.clock);
  }

  lemma DueProfile(d: Disk, id: BatchId, plan: Plan, m: Content, outcome: Listing)
    requires Underway(d, id, plan, m, outcome) && HasBatch(d, id) && m.Manifest?
    requires PlanJson in BatchAt(d, id) && plan.action == PublishCandidate
    requires Waiting(d.live, m.files, 0) + 1 >= |m.files|
    requires var b := BatchAt(d, id); CandidateTmp in b && b[CandidateTmp].content == plan.candidate
    ensures Marker in d.live
    ensures var b := BatchAt(d, id);
            && NextStep(d, plan, m) == (if plan.current.None? then PublishProfile
                                        else if CandidatePublish !in b then CloneCandidate else ReplaceProfile)
            && Waiting(d.live[Profile := File(plan.candidate, d.clock, d.clock)], m.files, 0) + 1 >= |m.files|
            && BatchOf(d.live, plan) == id
            && (CandidatePublish in b ==>
                  Waiting(d.live[Profile := b[CandidatePublish].(ctime := d.clock)], m.files, 0) + 1 >= |m.files|)
  {
    hide InspectState, OthersComplete, Fits, ManifestOk, Agrees, Outcome, WorksTo;
    ProfileNotListed(m, id);
    WaitingIgnoresProfile(d.live, m.files, 0, File(plan.candidate, d.clock, d.clock));
    if CandidatePublish in BatchAt(d, id) {
      WaitingIgnoresProfile(d.live, m.files, 0, BatchAt(d, id)[CandidatePublish].(ctime := d.clock));
    }
  }

  /** The profile is still the one the plan saw. */
  lemma CurrentIs(d: Disk, id: BatchId, plan: Plan, m: Content, outcome: Listing)
    requires Underway(d, id, plan, m, outcome)
    ensures At(Contents(d.live), Profile) == plan.current
  {
    hide InspectState, OthersComplete, Fits, WorksTo, ManifestOk, Agrees, Outcome, Contents;
    var _ := PlanDescribes(Contents(d.live), plan);
  }

  lemma NoneWaiting(live: map<Name, File>, files: seq<Record>, i: nat)
    requires i <= |files| <= i + 1 && forall j :: 0 <= j < i ==> files[j].name !in live
    ensures Waiting(live, files, 0) + 1 >= |files|
  {
  }

  lemma {:induction false} WaitingIgnoresProfile(live: map<Name, File>, files: seq<Record>, from: nat, f: File)
    requires from <= |files| && forall r <- files :: r.name != Profile
    ensures Waiting(live[Profile := f], files, from) == Waiting(live, files, from)
    decreases |files| - from
  {
    if from < |files| {
      assert files[from].name != Profile;
      WaitingIgnoresProfile(live, files, from + 1, f);
    }
  }
}
