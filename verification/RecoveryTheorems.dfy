/** What a recovery promises, over every run: the outcome is fixed before the
    first step, work strictly shrinks, the archive stays within its bound and
    no private file is lost. */
module RecoveryTheorems {
  import opened Common
  import opened ProfileDocuments
  import opened ProfileInspection
  import opened InspectionSteps
  import opened ArchiveState
  import opened ManifestOrder
  import opened RecoverySteps
  import opened RecoveryProgress

  /** The listing a recovery under `plan` ends with: before the transaction if
      its revision never appeared, after it if it did. */
  function Outcome(c: Listing, plan: Plan): Listing {
    var kept := map n | n in c && !IsTemporary(n) && n != Marker && !(RollsBack(plan) && n.Revision?) :: c[n];
    if plan.action == PublishCandidate then kept[Profile := plan.candidate] else kept
  }

  // ----- work left ----------------------------------------------------------

  function Left(b: Batch, e: Entry, whole: Content): nat {
    if e !in b then Size(whole) + 1
    else if b[e].content == whole || Size(whole) <= Size(b[e].content) then 0
    else Size(whole) - Size(b[e].content)
  }

  function WaitingCount(live: map<Name, File>, files: seq<Record>): nat {
    if files == [] then 0 else (if files[0].name in live then 1 else 0) + WaitingCount(live, files[1..])
  }

  /** Documents the batch still lacks. */
  function BatchWork(b: Batch, plan: Plan, m: Content): nat {
    (if PlanJson in b then 0 else 1 + Left(b, PlanTmp, m))
    + (if plan.action != PublishCandidate then 0
       else 1 + Left(b, CandidateTmp, plan.candidate)
            + (if plan.current.Some? && CandidatePublish !in b then 1 else 0))
  }

  /** A bound on the durable steps still to come. */
  function Work(d: Disk, id: BatchId, plan: Plan, m: Content): nat
    requires m.Manifest?
  {
    (if d.root.None? then 1 else 0) + (if HasBatch(d, id) then 0 else 1)
    + WaitingCount(d.live, m.files) + BatchWork(BatchAt(d, id), plan, m)
  }

  lemma {:induction false} WaitingCountSame(live: map<Name, File>, live': map<Name, File>, files: seq<Record>)
    requires forall i :: 0 <= i < |files| ==> (files[i].name in live <==> files[i].name in live')
    ensures WaitingCount(live, files) == WaitingCount(live', files)
  {
    if files != [] {
      WaitingCountSame(live, live', files[1..]);
    }
  }

  lemma {:induction false} WaitingCountWithout(live: map<Name, File>, files: seq<Record>, k: nat)
    requires k < |files| && files[k].name in live
    ensures WaitingCount(live - {files[k].name}, files) < WaitingCount(live, files)
    decreases |files|
  {
    var live' := live - {files[k].name};
    if k == 0 {
      WaitingCountAtMost(live, live', files[1..]);
    } else {
      WaitingCountWithout(live, files[1..], k - 1);
    }
  }

  lemma {:induction false} WaitingCountAtMost(live: map<Name, File>, live': map<Name, File>, files: seq<Record>)
    requires live'.Keys <= live.Keys
    ensures WaitingCount(live', files) <= WaitingCount(live, files)
  {
    if files != [] {
      WaitingCountAtMost(live, live', files[1..]);
    }
  }

  lemma WrittenLeft(b: Batch, e: Entry, whole: Content, chunk: nat, clock: nat)
    requires e in b ==> b[e].content.Torn? && b[e].content.whole == whole && b[e].content.written < Size(whole)
    ensures Left(b[e := Written(b, e, whole, chunk, clock)], e, whole) < Left(b, e, whole)
  {
  }

  lemma WorkOfBatch(d: Disk, plan: Plan, m: Content, b: Batch)
    requires Marker in d.live && m.Manifest? && HasBatch(d, BatchOf(d.live, plan))
    requires BatchWork(b, plan, m) < BatchWork(BatchAt(d, BatchOf(d.live, plan)), plan, m)
    ensures Work(Put(d, BatchOf(d.live, plan), b), BatchOf(d.live, plan), plan, m) < Work(d, BatchOf(d.live, plan), plan, m)
  {
    hide BatchWork;
  }

  lemma ManifestWorkShrinks(d: Disk, plan: Plan, m: Content, chunk: nat)
    requires Recoverable(d, plan, m) && NextStep(d, plan, m) == WriteManifest
    ensures Work(Perform(d, plan, m, WriteManifest, chunk), BatchOf(d.live, plan), plan, m) < Work(d, BatchOf(d.live, plan), plan, m)
  {
    hide NextStep, InspectState, OthersComplete, Fits, ManifestOk, Agrees, Work, WorksTo;
    var id := BatchOf(d.live, plan);
    var b := BatchAt(d, id);
    StepFacts(d, plan, m);
    ManifestStillPrepared(d.live, b, id, plan, m);
    hide Recoverable;
    WrittenLeft(b, PlanTmp, m, chunk, d.clock);
    WorkOfBatch(d, plan, m, b[PlanTmp := Written(b, PlanTmp, m, chunk, d.clock)]);
  }

  lemma SealWorkShrinks(d: Disk, plan: Plan, m: Content, chunk: nat)
    requires Marker in d.live && m.Manifest? && NextStep(d, plan, m) == SealManifest
    ensures Work(Perform(d, plan, m, SealManifest, chunk), BatchOf(d.live, plan), plan, m) < Work(d, BatchOf(d.live, plan), plan, m)
  {
    hide NextStep, Work;
    var b := BatchAt(d, BatchOf(d.live, plan));
    StepFacts(d, plan, m);
    WorkOfBatch(d, plan, m, b[PlanJson := File(m, d.clock, d.clock)]);
  }

  lemma CandidateBatchWork(b: Batch, plan: Plan, m: Content, f: File)
    requires plan.action == PublishCandidate
    requires Left(b[CandidateTmp := f], CandidateTmp, plan.candidate) < Left(b, CandidateTmp, plan.candidate)
    ensures BatchWork(b[CandidateTmp := f], plan, m) < BatchWork(b, plan, m)
  {
  }

  lemma CandidateWorkShrinks(d: Disk, plan: Plan, m: Content, chunk: nat)
    requires Recoverable(d, plan, m) && NextStep(d, plan, m) == WriteCandidate
    requires HonestFor(BatchAt(d, BatchOf(d.live, plan)), plan, WriteCandidate)
    ensures Work(Perform(d, plan, m, WriteCandidate, chunk), BatchOf(d.live, plan), plan, m) < Work(d, BatchOf(d.live, plan), plan, m)
  {
    assert Marker in d.live && m.Manifest?;
    hide NextStep, Recoverable, HonestFor, Work, IsPrefix, Prefix, Size, Left, BatchWork, Written;
    var b := BatchAt(d, BatchOf(d.live, plan));
    CandidateTorn(d, plan, m);
    WrittenLeft(b, CandidateTmp, plan.candidate, chunk, d.clock);
    CandidateBatchWork(b, plan, m, Written(b, CandidateTmp, plan.candidate, chunk, d.clock));
    WorkOfBatch(d, plan, m, b[CandidateTmp := Written(b, CandidateTmp, plan.candidate, chunk, d.clock)]);
  }

  lemma CloneWorkShrinks(d: Disk, plan: Plan, m: Content, chunk: nat)
    requires Marker in d.live && m.Manifest? && NextStep(d, plan, m) == CloneCandidate
    ensures Work(Perform(d, plan, m, CloneCandidate, chunk), BatchOf(d.live, plan), plan, m) < Work(d, BatchOf(d.live, plan), plan, m)
  {
    hide NextStep, Work;
    var b := BatchAt(d, BatchOf(d.live, plan));
    StepFacts(d, plan, m);
    WorkOfBatch(d, plan, m, b[CandidatePublish := File(plan.candidate, d.clock, d.clock)]);
  }

  /** Publishing the profile leaves only the marker to release. */
  lemma ProfileWorkShrinks(d: Disk, plan: Plan, m: Content, chunk: nat)
    requires Recoverable(d, plan, m)
    requires NextStep(d, plan, m) in {PublishProfile, ReplaceProfile}
    ensures var step := NextStep(d, plan, m);
            var d' := Perform(d, plan, m, step, chunk);
            Work(d', BatchOf(d.live, plan), PlanAfter(plan, step), m) < Work(d, BatchOf(d.live, plan), plan, m)
  {
    hide NextStep, InspectState, OthersComplete, Fits, ManifestOk, Agrees, WorksTo;
    var id := BatchOf(d.live, plan);
    var b := BatchAt(d, id);
    StepFacts(d, plan, m);
    ProfileNotListed(m, id);
    var f := if NextStep(d, plan, m) == PublishProfile then File(plan.candidate, d.clock, d.clock)
             else b[CandidatePublish].(ctime := d.clock);
    WaitingCountSame(d.live, d.live[Profile := f], m.files);
    hide Recoverable, WaitingCount;
  }

  /** Every step short of the commit leaves strictly less to do. */
  lemma WorkShrinks(d: Disk, plan: Plan, m: Content, chunk: nat)
    requires Recoverable(d, plan, m) && NextStep(d, plan, m) != ReleaseMarker
    requires HonestFor(BatchAt(d, BatchOf(d.live, plan)), plan, NextStep(d, plan, m))
    ensures var step := NextStep(d, plan, m);
            var d' := Perform(d, plan, m, step, chunk);
            Work(d', BatchOf(d.live, plan), PlanAfter(plan, step), m) < Work(d, BatchOf(d.live, plan), plan, m)
  {
    hide NextStep, InspectState, OthersComplete, Fits, ManifestOk, Agrees, WorksTo, BatchWork, WaitingCount, HonestFor;
    StepFacts(d, plan, m);
    match NextStep(d, plan, m)
    case MakeRoot =>
      hide Recoverable;
    case MakeBatch =>
      hide Recoverable;
    case RetireFile(n) =>
      WaitingCountWithout(d.live, m.files, Waiting(d.live, m.files, 0));
      RetiredInspects(d, plan, m, n);
      RetiredBatchWork(BatchAt(d, BatchOf(d.live, plan)), plan, PlanAfter(plan, RetireFile(n)), m, n, Moved(d, n));
      hide Recoverable;
    case PublishProfile =>
      ProfileWorkShrinks(d, plan, m, chunk);
    case ReplaceProfile =>
      ProfileWorkShrinks(d, plan, m, chunk);
    case WriteManifest =>
      ManifestWorkShrinks(d, plan, m, chunk);
      hide Recoverable;
    case SealManifest =>
      SealWorkShrinks(d, plan, m, chunk);
      hide Recoverable;
    case WriteCandidate =>
      CandidateWorkShrinks(d, plan, m, chunk);
      hide Recoverable;
    case CloneCandidate =>
      CloneWorkShrinks(d, plan, m, chunk);
      hide Recoverable;
  }

  lemma RetiredBatchWork(b: Batch, plan: Plan, plan': Plan, m: Content, n: Name, f: File)
    requires plan'.action == plan.action && plan'.candidate == plan.candidate && plan'.current == plan.current
    ensures BatchWork(b[Archived(n) := f], plan', m) == BatchWork(b, plan, m)
  {
  }

  // ----- the outcome never changes ------------------------------------------

  lemma OutcomeRetired(c: Listing, plan: Plan, n: Name)
    requires n in c && (IsTemporary(n) || (n.Revision? && RollsBack(plan)))
    ensures Outcome(Without(c, n), PlanAfter(plan, RetireFile(n))) == Outcome(c, plan)
  {
  }

  lemma OutcomePublished(c: Listing, plan: Plan)
    requires plan.action == PublishCandidate
    ensures Outcome(c[Profile := plan.candidate], PlanAfter(plan, PublishProfile)) == Outcome(c, plan)
  {
  }

  lemma OutcomeReleased(c: Listing, plan: Plan, revs: seq<Envelope>)
    requires NoTemporaries(c) && plan.action != PublishCandidate
    requires IsChain(c, revs, true) && (RollsBack(plan) ==> revs == [])
    ensures Without(c, Marker) == Outcome(c, plan)
  {
    hide ValidChain;
    var kept := Outcome(c, plan);
    forall n | n in c && n != Marker ensures n in kept && kept[n] == c[n] {
      assert IsHistoryName(n) ==> n.Revision?;
    }
  }

  /** What one file to be retired is: a temporary, or the newest revision of a
      restoration being rolled back. */
  lemma RetiredKind(d: Disk, plan: Plan, m: Content, n: Name)
    requires Recoverable(d, plan, m) && NextStep(d, plan, m) == RetireFile(n)
    ensures n in d.live && (IsTemporary(n) || (n.Revision? && RollsBack(plan)))
  {
    hide InspectState, OthersComplete, Fits, WorksTo, NextStep, RetirementOrder, RecordsPlaced;
    StepFacts(d, plan, m);
    var k := Waiting(d.live, m.files, 0);
    var ids := if Listed(m.files) then m.historyIds else [];
    RevisionIndex(m.files, NameSet(NamesOf(m.files)), ids, k);
    if n.Revision? {
      NextIsLast(d, plan, m, k);
    }
  }

  /** The outcome of a recovery is the same before and after each of its steps. */
  lemma OutcomeKept(d: Disk, plan: Plan, m: Content, chunk: nat)
    requires Recoverable(d, plan, m) && NextStep(d, plan, m) != ReleaseMarker
    requires HonestFor(BatchAt(d, BatchOf(d.live, plan)), plan, NextStep(d, plan, m))
    ensures var step := NextStep(d, plan, m);
            Outcome(Contents(Perform(d, plan, m, step, chunk).live), PlanAfter(plan, step))
            == Outcome(Contents(d.live), plan)
  {
    hide NextStep, Outcome, InspectState, OthersComplete, Fits, WorksTo, ManifestOk, Agrees, HonestFor;
    StepFacts(d, plan, m);
    var c := Contents(d.live);
    match NextStep(d, plan, m)
    case RetireFile(n) =>
      RetiredKind(d, plan, m, n);
      OutcomeRetired(c, plan, n);
      ContentsWithout(d.live, n);
      hide Recoverable, HonestCandidate;
    case PublishProfile =>
      hide Recoverable, HonestCandidate;
      OutcomePublished(c, plan);
      assert Contents(d.live[Profile := File(plan.candidate, d.clock, d.clock)]) == c[Profile := plan.candidate];
    case ReplaceProfile =>
      CloneHonest(d, plan, m);
      hide Recoverable, HonestCandidate;
      OutcomePublished(c, plan);
      var f := BatchAt(d, BatchOf(d.live, plan))[CandidatePublish].(ctime := d.clock);
      assert Contents(d.live[Profile := f]) == c[Profile := plan.candidate];
    case _ =>
      hide Recoverable, HonestCandidate;
  }

  // ----- one step -----------------------------------------------------------

  lemma AdvanceRecoverable(d: Disk, plan: Plan, m: Content, chunk: nat)
    requires Recoverable(d, plan, m) && NextStep(d, plan, m) != ReleaseMarker
    requires HonestFor(BatchAt(d, BatchOf(d.live, plan)), plan, NextStep(d, plan, m))
    ensures Recoverable(Advance(d, plan, m, chunk), PlanAfter(plan, NextStep(d, plan, m)), m)
  {
    assert Marker in d.live && m.Manifest?;
    hide NextStep, HonestFor;
    StepFacts(d, plan, m);
    match NextStep(d, plan, m)
    case MakeRoot =>
      RootMade(d, plan, m);
      hide Recoverable;
    case MakeBatch =>
      BatchMade(d, plan, m);
      hide Recoverable;
    case WriteManifest =>
      ManifestWritten(d, plan, m, chunk);
      hide Recoverable;
    case SealManifest =>
      ManifestSealed(d, plan, m, chunk);
      hide Recoverable;
    case RetireFile(n) =>
      FileRetired(d, plan, m, n, chunk);
      hide Recoverable;
    case WriteCandidate =>
      CandidateWritten(d, plan, m, chunk);
      hide Recoverable;
    case CloneCandidate =>
      CandidateCloned(d, plan, m, chunk);
      hide Recoverable;
    case PublishProfile =>
      ProfilePublishes(d, plan, m, chunk);
      hide Recoverable;
    case ReplaceProfile =>
      ProfileReplaces(d, plan, m, chunk);
      hide Recoverable;
  }

  /** A disk in the middle of a recovery that can be carried to its end. */
  ghost predicate Sound(d: Disk, plan: Plan, m: Content) {
    Recoverable(d, plan, m) && HonestCandidate(d, plan) && ListsHistory(plan, m)
  }

  lemma SoundParts(d: Disk, plan: Plan, m: Content)
    requires Sound(d, plan, m)
    ensures Recoverable(d, plan, m) && HonestCandidate(d, plan) && Marker in d.live && m.Manifest?
  {
    hide HonestCandidate, ListsHistory;
  }

  lemma IsSound(d: Disk, plan: Plan, m: Content)
    requires Recoverable(d, plan, m) && HonestCandidate(d, plan) && m.Manifest? && ListsHistory(plan, m)
    ensures Sound(d, plan, m)
  {
    hide Recoverable, HonestCandidate, ListsHistory;
  }

  /** A staged candidate that is only begun is one after the next write too. */
  lemma TornHonest(b: Batch, plan: Plan, chunk: nat, clock: nat)
    requires StagedHonest(b, plan) && (CandidateTmp in b ==> b[CandidateTmp].content != plan.candidate)
    ensures StagedHonest(b[CandidateTmp := Written(b, CandidateTmp, plan.candidate, chunk, clock)], plan)
  {
    WrittenPrefix(b, CandidateTmp, plan.candidate, chunk, clock);
  }

  /** No step leaves anything else under the candidate names. */
  lemma HonestKept(d: Disk, plan: Plan, m: Content, chunk: nat)
    requires Recoverable(d, plan, m) && HonestCandidate(d, plan)
    requires Marker in d.live && m.Manifest? && NextStep(d, plan, m) != ReleaseMarker
    ensures HonestCandidate(Advance(d, plan, m, chunk), PlanAfter(plan, NextStep(d, plan, m)))
  {
    hide NextStep, Perform, HonestFor, IsPrefix, Recoverable, BatchAt;
    MarkerStays(d, plan, m, chunk);
    HonestStep(d, plan, m);
    StepFacts(d, plan, m);
    var step := NextStep(d, plan, m);
    if PlanAfter(plan, step).action == PublishCandidate {
      HonestEntries(d, plan, m, step, chunk);
    }
  }

  lemma HonestEntries(d: Disk, plan: Plan, m: Content, step: Step, chunk: nat)
    requires Marker in d.live && (step == MakeBatch ==> !HasBatch(d, BatchOf(d.live, plan)))
    requires step == MakeRoot ==> d.root.None?
    requires step == WriteCandidate ==>
      var b := BatchAt(d, BatchOf(d.live, plan)); !(CandidateTmp in b && b[CandidateTmp].content == plan.candidate)
    requires step != PublishProfile && step != ReplaceProfile && step != ReleaseMarker
    requires var b := BatchAt(d, BatchOf(d.live, plan)); StagedHonest(b, plan) && ClonedHonest(b, plan)
    ensures var b := BatchAt(Perform(d, plan, m, step, chunk), BatchOf(d.live, plan)); StagedHonest(b, plan) && ClonedHonest(b, plan)
  {
    hide IsPrefix, Prefix, Written, BatchOf;
    if step == WriteCandidate {
      TornHonest(BatchAt(d, BatchOf(d.live, plan)), plan, chunk, d.clock);
    }
  }

  lemma SoundPlan(d: Disk, plan: Plan, m: Content)
    requires Sound(d, plan, m)
    ensures ListsHistory(PlanAfter(plan, NextStep(d, plan, m)), m)
  {
    hide NextStep, InspectState, OthersComplete, Fits, WorksTo, ManifestOk, Agrees, Listed;
  }

  /** Every step short of the commit leaves a disk on which inspection offers
      the same recovery, one step further on: same marker, same outcome, less
      work, and the archive within its bound. */
  lemma StepSound(d: Disk, plan: Plan, m: Content, chunk: nat)
    requires Sound(d, plan, m) && NextStep(d, plan, m) != ReleaseMarker
    ensures var d', plan' := Advance(d, plan, m, chunk), PlanAfter(plan, NextStep(d, plan, m));
            && Sound(d', plan', m)
            && Inspect(d') == Pending(plan')
            && plan'.marker == plan.marker && plan'.planned == plan.planned
            && Outcome(Contents(d'.live), plan') == Outcome(Contents(d.live), plan)
            && Work(d', BatchOf(d.live, plan), plan', m) < Work(d, BatchOf(d.live, plan), plan, m)
            && Marker in d'.live && d'.live[Marker] == d.live[Marker]
  {
    hide Sound, NextStep, Recoverable, Outcome, Work, HonestCandidate, HonestFor, ListsHistory, Inspect, Perform, Contents, BatchOf;
    SoundParts(d, plan, m);
    SoundPlan(d, plan, m);
    HonestStep(d, plan, m);
    HonestKept(d, plan, m, chunk);
    AdvanceRecoverable(d, plan, m, chunk);
    WorkShrinks(d, plan, m, chunk);
    OutcomeKept(d, plan, m, chunk);
    MarkerStays(d, plan, m, chunk);
    RecoverableInspects(Advance(d, plan, m, chunk), PlanAfter(plan, NextStep(d, plan, m)), m);
    IsSound(Advance(d, plan, m, chunk), PlanAfter(plan, NextStep(d, plan, m)), m);
  }

  lemma MarkerStays(d: Disk, plan: Plan, m: Content, chunk: nat)
    requires Recoverable(d, plan, m) && NextStep(d, plan, m) != ReleaseMarker
    ensures var d' := Advance(d, plan, m, chunk); Marker in d'.live && d'.live[Marker] == d.live[Marker]
  {
    hide NextStep, InspectState, OthersComplete, Fits, WorksTo, ManifestOk, Agrees;
    if NextStep(d, plan, m).RetireFile? {
      RetiredKind(d, plan, m, NextStep(d, plan, m).name);
    }
    hide Recoverable;
  }

  /** The last step leaves a clean store, holding exactly the outcome. */
  lemma CommitClean(d: Disk, plan: Plan, m: Content, chunk: nat)
    requires Sound(d, plan, m) && NextStep(d, plan, m) == ReleaseMarker
    ensures Inspect(Advance(d, plan, m, chunk)) == Clean
    ensures Contents(Advance(d, plan, m, chunk).live) == Outcome(Contents(d.live), plan)
  {
    MarkerReleases(d, plan, m, chunk);
    OnlyMarkerWaits(d, plan, m);
    StepFacts(d, plan, m);
    HistoryGone(d, plan, m);
    hide InspectState, OthersComplete, Fits, WorksTo, ManifestOk, Agrees, NextStep, Inspect, HonestCandidate;
    var revs := PlanDescribes(Contents(d.live), plan);
    hide Recoverable;
    ContentsWithout(d.live, Marker);
    OutcomeReleased(Contents(d.live), plan, revs);
  }

  lemma HistoryGone(d: Disk, plan: Plan, m: Content)
    requires Sound(d, plan, m) && NextStep(d, plan, m) == ReleaseMarker
    ensures RollsBack(plan) ==> plan.history == []
  {
    if RollsBack(plan) && plan.history != [] {
      ListedAreGone(d, plan, m);
    }
  }

  /** At the commit point a recovery ends clean exactly when its manifest lists
      whatever history a rolled-back restoration still has. */
  lemma CommitCleanIff(d: Disk, plan: Plan, m: Content, chunk: nat)
    requires Recoverable(d, plan, m) && NextStep(d, plan, m) == ReleaseMarker
    ensures Inspect(Advance(d, plan, m, chunk)) == Clean <==> ListsHistory(plan, m)
    ensures !ListsHistory(plan, m) ==> Inspect(Advance(d, plan, m, chunk)) == Refused
  {
    if ListsHistory(plan, m) {
      MarkerReleases(d, plan, m, chunk);
    } else {
      OnlyMarkerWaits(d, plan, m);
      ContentsWithout(d.live, Marker);
      hide InspectState, Recoverable, OthersComplete, Complete, Listed;
      MarkerReleasedTooSoon(Contents(d.live), plan);
    }
  }

  /** A manifest prepared for this recovery always lists that history. */
  lemma FreshManifestLists(d: Disk, plan: Plan, m: Content)
    requires Inspect(d) == Pending(plan) && m.Manifest? && Prepare(d.live, plan) == Some(m)
    ensures ListsHistory(plan, m)
  {
    hide Prepare, Listed, ManifestOk, InspectState, Agrees, ArchiveAccepts;
    PreparedIs(d, plan);
  }

  // ----- whole runs ---------------------------------------------------------

  ghost predicate StepsBy(d: Disk, d': Disk, plan: Plan, m: Content, chunk: nat) {
    && Recoverable(d, plan, m) && d' == Advance(d, plan, m, chunk)
    && HonestFor(BatchAt(d, BatchOf(d.live, plan)), plan, NextStep(d, plan, m))
  }

  /** One durable step of a recovery that looked at the disk just before it. */
  ghost predicate RecoveryStep(d: Disk, d': Disk) {
    exists plan, m, chunk :: StepsBy(d, d', plan, m, chunk)
  }

  /** No recovery has anything left to do. */
  ghost predicate Stopped(d: Disk) { forall d' :: !RecoveryStep(d, d') }

  /** Any number of recoveries of one disk, each stopped after any step and
      started again, ending wherever the last one stopped. */
  ghost predicate IsRun(ds: seq<Disk>) {
    ds != [] && forall i :: 0 <= i < |ds| - 1 ==> RecoveryStep(ds[i], ds[i + 1])
  }

  /** Recovered, or still on the way to `outcome` under `marker`. */
  ghost predicate OnCourse(d: Disk, marker: Content, outcome: Listing) {
    || (Inspect(d) == Clean && Contents(d.live) == outcome)
    || (exists plan, m :: Sound(d, plan, m) && plan.marker == marker && Outcome(Contents(d.live), plan) == outcome)
  }

  /** The plan and the manifest are read off the disk, so there is one of each. */
  lemma OneManifest(d: Disk, plan: Plan, m: Content, plan': Plan, m': Content)
    requires Recoverable(d, plan, m) && Recoverable(d, plan', m')
    ensures plan == plan' && m == m'
  {
    hide InspectState, Load, Prepare, ManifestOk, Agrees, Fits, OthersComplete;
  }

  lemma RetainedBounded(d: Disk, marker: Content, outcome: Listing)
    requires OnCourse(d, marker, outcome)
    ensures Retained(d) <= MAX_RETAINED
  {
    hide InspectState, ManifestOk, Agrees, WorksTo, Complete;
    assert d.root.Some? && Inspect(d) == Clean ==> OthersComplete(d.root.value, None);
  }

  lemma StepTaken(d: Disk, d': Disk, plan: Plan, m: Content) returns (chunk: nat)
    requires RecoveryStep(d, d') && Sound(d, plan, m)
    ensures d' == Advance(d, plan, m, chunk)
  {
    hide Recoverable, HonestCandidate, ListsHistory, Advance;
    var p, n, k :| StepsBy(d, d', p, n, k);
    OneManifest(d, plan, m, p, n);
    chunk := k;
  }

  lemma StepAvailable(d: Disk, plan: Plan, m: Content)
    requires Sound(d, plan, m)
    ensures !Stopped(d)
  {
    assert Marker in d.live && m.Manifest?;
    HonestStep(d, plan, m);
    hide Recoverable, HonestCandidate, HonestFor, ListsHistory, Advance;
    assert StepsBy(d, Advance(d, plan, m, 0), plan, m, 0);
    assert RecoveryStep(d, Advance(d, plan, m, 0));
  }

  /** Where one step leads: to the end, or one step further along. */
  ghost predicate Leads(d: Disk, d': Disk, plan: Plan, m: Content, outcome: Listing) {
    || (Inspect(d') == Clean && Contents(d'.live) == outcome)
    || (exists plan' :: SoundAfter(d, d', plan, plan', m, outcome))
  }

  ghost predicate SoundAfter(d: Disk, d': Disk, plan: Plan, plan': Plan, m: Content, outcome: Listing) {
    && Sound(d', plan', m) && plan'.marker == plan.marker
    && Outcome(Contents(d'.live), plan') == outcome
    && Marker in d.live && Marker in d'.live && d'.live[Marker] == d.live[Marker]
    && Work(d', BatchOf(d.live, plan), plan', m) < Work(d, BatchOf(d.live, plan), plan, m)
  }

  lemma StepLeads(d: Disk, d': Disk, plan: Plan, m: Content)
    requires RecoveryStep(d, d') && Sound(d, plan, m)
    ensures Leads(d, d', plan, m, Outcome(Contents(d.live), plan))
  {
    var chunk := StepTaken(d, d', plan, m);
    assert Marker in d.live && m.Manifest?;
    hide RecoveryStep, Sound, Inspect, Outcome, Work, NextStep, Advance;
    if NextStep(d, plan, m) == ReleaseMarker {
      CommitClean(d, plan, m, chunk);
    } else {
      StepSound(d, plan, m, chunk);
      assert SoundAfter(d, d', plan, PlanAfter(plan, NextStep(d, plan, m)), m, Outcome(Contents(d.live), plan));
    }
  }

  /** Recovery is resumable: over every run, however often it was stopped, each
      disk is clean with the outcome fixed at the start or offers the rest of
      the same recovery; the run is bounded; and a run that can go no further
      has ended clean. */
  lemma {:induction false} RunResumes(ds: seq<Disk>, plan: Plan, m: Content)
    requires IsRun(ds) && Sound(ds[0], plan, m)
    requires Marker in ds[0].live && m.Manifest?
    ensures |ds| <= Work(ds[0], BatchOf(ds[0].live, plan), plan, m) + 2
    ensures forall d <- ds :: OnCourse(d, plan.marker, Outcome(Contents(ds[0].live), plan))
    ensures Stopped(ds[|ds| - 1]) ==>
              && Inspect(ds[|ds| - 1]) == Clean
              && Contents(ds[|ds| - 1].live) == Outcome(Contents(ds[0].live), plan)
    decreases |ds|
  {
    hide Sound, Inspect, Outcome, Work, Stopped, RecoveryStep;
    var outcome := Outcome(Contents(ds[0].live), plan);
    assert OnCourse(ds[0], plan.marker, outcome);
    if |ds| == 1 {
      StepAvailable(ds[0], plan, m);
    } else {
      var rest := ds[1..];
      forall i | 0 <= i < |rest| - 1 ensures RecoveryStep(rest[i], rest[i + 1]) {
        assert RecoveryStep(ds[i + 1], ds[i + 2]);
      }
      assert RecoveryStep(ds[0], ds[1]);
      StepLeads(ds[0], ds[1], plan, m);
      if Inspect(ds[1]) == Clean && Contents(ds[1].live) == outcome {
        assert OnCourse(ds[1], plan.marker, outcome);
        CleanStops(ds[1]);
        OnlyOne(rest);
      } else {
        var plan' :| SoundAfter(ds[0], ds[1], plan, plan', m, outcome);
        RunResumes(rest, plan', m);
      }
    }
  }

  lemma OnlyOne(ds: seq<Disk>)
    requires IsRun(ds) && Stopped(ds[0])
    ensures |ds| == 1
  {
    if |ds| > 1 {
      FirstStepOf(ds);
    }
  }

  lemma FirstStepOf(ds: seq<Disk>)
    requires IsRun(ds) && |ds| > 1
    ensures RecoveryStep(ds[0], ds[1])
  {
    hide RecoveryStep;
  }

  /** At every point of every run the archive is within its bound. */
  lemma RunBounded(ds: seq<Disk>, plan: Plan, m: Content)
    requires IsRun(ds) && Sound(ds[0], plan, m) && Marker in ds[0].live && m.Manifest?
    ensures forall d <- ds :: Retained(d) <= MAX_RETAINED
  {
    hide Sound, Inspect, Outcome, Retained, Stopped, OnCourse;
    RunResumes(ds, plan, m);
    forall d | d in ds ensures Retained(d) <= MAX_RETAINED {
      RetainedBounded(d, plan.marker, Outcome(Contents(ds[0].live), plan));
    }
  }

  /** A clean store has no recovery step. */
  lemma CleanStops(d: Disk)
    requires Inspect(d) == Clean
    ensures Stopped(d)
  {
    forall plan, m, chunk, d' ensures !StepsBy(d, d', plan, m, chunk) {
      if Recoverable(d, plan, m) {
        RecoverableInspects(d, plan, m);
      }
    }
  }
}
