/** Recovery as a machine whose next durable step depends on the disk alone.

    Because the next step is read off the disk, stopping after any step and
    inspecting again resumes exactly where the stopped run was: a recovery that
    is interrupted any number of times is one run of this machine. */
module RecoverySteps {
  import opened Common
  import opened ProfileDocuments
  import opened ProfileInspection
  import opened InspectionSteps
  import opened ArchiveState
  import opened ManifestOrder

  /** The batch recovery works in, empty while it does not exist. */
  function BatchAt(d: Disk, id: BatchId): Batch {
    if d.root.Some? && id in d.root.value then d.root.value[id] else map[]
  }

  predicate HasBatch(d: Disk, id: BatchId) { d.root.Some? && id in d.root.value }

  /** The manifest recovery works to: the retained one, else a fresh one. */
  ghost predicate WorksTo(live: map<Name, File>, b: Batch, id: BatchId, plan: Plan, m: Content) {
    var loaded := Load(b, id, HintFor(live, plan));
    || (loaded == Empty && Prepare(live, plan) == Some(m))
    || loaded == Holding(m)
  }

  /** The first record still in its original place. */
  function Waiting(live: map<Name, File>, files: seq<Record>, from: nat): (k: nat)
    requires from <= |files|
    ensures from <= k <= |files|
    ensures forall j :: from <= j < k ==> files[j].name !in live
    ensures k < |files| ==> files[k].name in live
    decreases |files| - from
  {
    if from == |files| || files[from].name in live then from else Waiting(live, files, from + 1)
  }

  datatype Step =
    | MakeRoot
    | MakeBatch
    | WriteManifest
    | SealManifest
    | RetireFile(name: Name)
    | WriteCandidate
    | CloneCandidate
    | PublishProfile
    | ReplaceProfile
    | ReleaseMarker

  /** What recovery does next, decided by what is on disk. */
  function NextStep(d: Disk, plan: Plan, m: Content): Step
    requires Marker in d.live && m.Manifest?
  {
    var id := BatchOf(d.live, plan);
    if d.root.None? then MakeRoot
    else if id !in d.root.value then MakeBatch
    else
      var b := d.root.value[id];
      if PlanJson !in b then
        if PlanTmp in b && b[PlanTmp].content == m then SealManifest else WriteManifest
      else
        var k := Waiting(d.live, m.files, 0);
        if k + 1 < |m.files| then RetireFile(m.files[k].name)
        else if plan.action != PublishCandidate then ReleaseMarker
        else if CandidateTmp !in b || b[CandidateTmp].content != plan.candidate then WriteCandidate
        else if plan.current.None? then PublishProfile
        else if CandidatePublish !in b then CloneCandidate
        else ReplaceProfile
  }

  /** What each choice of step says about the disk. */
  lemma StepFacts(d: Disk, plan: Plan, m: Content)
    requires Marker in d.live && m.Manifest?
    ensures var id := BatchOf(d.live, plan);
            var b := BatchAt(d, id);
            var k := Waiting(d.live, m.files, 0);
            match NextStep(d, plan, m)
            case MakeRoot => d.root.None?
            case MakeBatch => d.root.Some? && !HasBatch(d, id)
            case WriteManifest => HasBatch(d, id) && PlanJson !in b && !(PlanTmp in b && b[PlanTmp].content == m)
            case SealManifest => HasBatch(d, id) && PlanJson !in b && PlanTmp in b && b[PlanTmp].content == m
            case RetireFile(n) => HasBatch(d, id) && PlanJson in b && k + 1 < |m.files| && n == m.files[k].name && n in d.live
            case WriteCandidate =>
              && HasBatch(d, id) && PlanJson in b && k + 1 >= |m.files| && plan.action == PublishCandidate
              && !(CandidateTmp in b && b[CandidateTmp].content == plan.candidate)
            case CloneCandidate =>
              && HasBatch(d, id) && PlanJson in b && k + 1 >= |m.files| && plan.action == PublishCandidate
              && CandidateTmp in b && b[CandidateTmp].content == plan.candidate
              && plan.current.Some? && CandidatePublish !in b
            case PublishProfile =>
              && HasBatch(d, id) && PlanJson in b && k + 1 >= |m.files| && plan.action == PublishCandidate
              && CandidateTmp in b && b[CandidateTmp].content == plan.candidate && plan.current.None?
            case ReplaceProfile =>
              && HasBatch(d, id) && PlanJson in b && k + 1 >= |m.files| && plan.action == PublishCandidate
              && CandidateTmp in b && b[CandidateTmp].content == plan.candidate
              && plan.current.Some? && CandidatePublish in b
            case ReleaseMarker => HasBatch(d, id) && PlanJson in b && k + 1 >= |m.files| && plan.action != PublishCandidate
  {
  }

  // ----- the durable effect of each step ------------------------------------

  function Put(d: Disk, id: BatchId, b: Batch): Disk {
    d.(root := Some((if d.root.Some? then d.root.value else map[])[id := b]), clock := d.clock + 1)
  }

  /** A file created empty, or extended by `chunk + 1` bytes of `whole`. */
  function Written(b: Batch, e: Entry, whole: Content, chunk: nat, clock: nat): File {
    if e in b then File(Prefix(whole, Size(b[e].content) + chunk + 1), b[e].ino, clock)
    else File(Prefix(whole, 0), clock, clock)
  }

  function Moved(d: Disk, n: Name): File
    requires n in d.live
  {
    d.live[n].(ctime := d.clock)
  }

  function Retire(d: Disk, id: BatchId, n: Name): Disk
    requires n in d.live
  {
    Put(d.(live := d.live - {n}), id, BatchAt(d, id)[Archived(n) := Moved(d, n)])
  }

  function Perform(d: Disk, plan: Plan, m: Content, step: Step, chunk: nat): Disk
    requires Marker in d.live
  {
    var id := BatchOf(d.live, plan);
    var b := BatchAt(d, id);
    match step
    case MakeRoot => d.(root := Some(map[]))
    case MakeBatch => Put(d, id, map[])
    case WriteManifest => Put(d, id, b[PlanTmp := Written(b, PlanTmp, m, chunk, d.clock)])
    case SealManifest => Put(d, id, b[PlanJson := File(m, d.clock, d.clock)])
    case RetireFile(n) => if n in d.live then Retire(d, id, n) else d
    case WriteCandidate => Put(d, id, b[CandidateTmp := Written(b, CandidateTmp, plan.candidate, chunk, d.clock)])
    case CloneCandidate => Put(d, id, b[CandidatePublish := File(plan.candidate, d.clock, d.clock)])
    case PublishProfile => d.(live := d.live[Profile := File(plan.candidate, d.clock, d.clock)], clock := d.clock + 1)
    case ReplaceProfile =>
      if CandidatePublish in b then
        Put(d.(live := d.live[Profile := b[CandidatePublish].(ctime := d.clock)]), id, b - {CandidatePublish})
      else d
    case ReleaseMarker => Retire(d, id, Marker)
  }

  function Advance(d: Disk, plan: Plan, m: Content, chunk: nat): Disk
    requires Marker in d.live && m.Manifest?
  {
    Perform(d, plan, m, NextStep(d, plan, m), chunk)
  }

  // ----- the budget ---------------------------------------------------------

  function Remaining(live: map<Name, File>, files: seq<Record>): nat {
    if files == [] then 0
    else (if files[0].name in live then files[0].size else 0) + Remaining(live, files[1..])
  }

  function Growth(b: Batch, e: Entry, size: nat): nat {
    if e !in b then size else if size <= Size(b[e].content) then 0 else size - Size(b[e].content)
  }

  function Overhead(b: Batch, plan: Plan, m: Content): nat {
    Growth(b, PlanTmp, Size(m)) + Growth(b, PlanJson, Size(m))
    + (if plan.action != PublishCandidate then 0
       else Growth(b, CandidateTmp, Size(plan.candidate))
            + (if plan.current.Some? then Growth(b, CandidatePublish, Size(plan.candidate)) else 0))
  }

  /** What the archive holds plus everything this recovery may still add. */
  ghost function Reserved(d: Disk, plan: Plan, m: Content): nat
    requires Marker in d.live && m.Manifest?
  {
    Retained(d) + Remaining(d.live, m.files) + Overhead(BatchAt(d, BatchOf(d.live, plan)), plan, m)
  }

  /** The bounds recovery checks before it moves the first file. */
  ghost predicate Fits(d: Disk, plan: Plan, m: Content)
    requires Marker in d.live && m.Manifest?
  {
    && Size(m) <= MAX_MANIFEST
    && (d.root.Some? && BatchOf(d.live, plan) !in d.root.value ==> |d.root.value| < MAX_BATCHES)
    && Reserved(d, plan, m) <= MAX_RETAINED
  }

  /** A disk recovery can work on: inspection offers `plan`, and the archive's
      batch, if there is one, is at some stage of carrying out `m`. */
  ghost predicate Recoverable(d: Disk, plan: Plan, m: Content) {
    && Marker in d.live && m.Manifest?
    && InspectState(Contents(d.live)) == Pending(plan)
    && (d.root.Some? ==> OthersComplete(d.root.value, Some(BatchOf(d.live, plan))))
    && WorksTo(d.live, BatchAt(d, BatchOf(d.live, plan)), BatchOf(d.live, plan), plan, m)
    && ManifestOk(m, BatchOf(d.live, plan))
    && Agrees(d.live, BatchAt(d, BatchOf(d.live, plan)), m, plan)
    && Fits(d, plan, m)
  }

  lemma HasMarker(d: Disk, plan: Plan, m: Content)
    requires Recoverable(d, plan, m)
    ensures Marker in d.live && m.Manifest?
  {
    hide InspectState, OthersComplete, Fits, WorksTo, ManifestOk, Agrees;
  }

  /** Whether the retained manifest of a rolled-back restoration lists the
      revisions it must retire. */
  predicate ListsHistory(plan: Plan, m: Content)
    requires m.Manifest?
  {
    RollsBack(plan) && plan.history != [] ==> Listed(m.files)
  }

  /** What a step finds under the candidate names, where it looks at it, is the
      candidate's.  Anything else, even with the candidate's digest, stops the
      recovery there. */
  predicate HonestFor(b: Batch, plan: Plan, step: Step) {
    && (step == WriteCandidate ==> StagedHonest(b, plan))
    && (step == ReplaceProfile && CandidatePublish in b ==> b[CandidatePublish].content == plan.candidate)
  }

  predicate StagedHonest(b: Batch, plan: Plan) {
    CandidateTmp in b ==> IsPrefix(b[CandidateTmp].content, plan.candidate)
  }

  predicate ClonedHonest(b: Batch, plan: Plan) {
    plan.current.Some? && CandidatePublish in b ==> b[CandidatePublish].content == plan.candidate
  }

  /** What is under the candidate names, where a recovery will look at it, is
      the candidate's. */
  predicate HonestCandidate(d: Disk, plan: Plan) {
    Marker in d.live && plan.action == PublishCandidate ==>
      var b := BatchAt(d, BatchOf(d.live, plan));
      StagedHonest(b, plan) && ClonedHonest(b, plan)
  }

  lemma HonestStep(d: Disk, plan: Plan, m: Content)
    requires Marker in d.live && m.Manifest? && HonestCandidate(d, plan)
    ensures HonestFor(BatchAt(d, BatchOf(d.live, plan)), plan, NextStep(d, plan, m))
  {
    hide IsPrefix;
    StepFacts(d, plan, m);
    hide NextStep;
  }

  lemma {:induction false} RemainingWithout(live: map<Name, File>, files: seq<Record>, k: nat)
    requires k < |files| && Distinct(NamesOf(files)) && files[k].name in live
    ensures Remaining(live, files) == files[k].size + Remaining(live - {files[k].name}, files)
    decreases |files|
  {
    var n := files[k].name;
    assert NamesOf(files)[k] == n;
    if k == 0 {
      RemainingSame(live, live - {n}, files[1..]) by {
        forall i | 0 <= i < |files[1..]| ensures files[1..][i].name != n {
          assert NamesOf(files)[i + 1] == files[1..][i].name;
        }
      }
    } else {
      assert NamesOf(files)[0] == files[0].name;
      assert Distinct(NamesOf(files[1..])) by {
        forall i, j | 0 <= i < j < |files[1..]| ensures NamesOf(files[1..])[i] != NamesOf(files[1..])[j] {
          assert NamesOf(files)[i + 1] == NamesOf(files[1..])[i];
          assert NamesOf(files)[j + 1] == NamesOf(files[1..])[j];
        }
      }
      RemainingWithout(live, files[1..], k - 1);
    }
  }

  lemma {:induction false} RemainingSame(live: map<Name, File>, live': map<Name, File>, files: seq<Record>)
    requires forall i :: 0 <= i < |files| ==> (files[i].name in live <==> files[i].name in live')
    ensures Remaining(live, files) == Remaining(live', files)
  {
    if files != [] {
      RemainingSame(live, live', files[1..]);
    }
  }

  // ----- accounting for one entry -------------------------------------------

  function SizeAt(b: Batch, e: Entry): nat { if e in b then Size(b[e].content) else 0 }

  lemma BatchBytesPut(b: Batch, e: Entry, f: File)
    ensures BatchBytes(b[e := f]) == BatchBytes(b) - SizeAt(b, e) + Size(f.content)
  {
    SumWith(Sizes(b), e, Size(f.content));
    assert Sizes(b[e := f]) == Sizes(b)[e := Size(f.content)];
  }

  lemma BatchBytesCut(b: Batch, e: Entry)
    requires e in b
    ensures BatchBytes(b - {e}) == BatchBytes(b) - SizeAt(b, e)
  {
    SumWithout(Sizes(b), e);
    assert Sizes(b - {e}) == Sizes(b) - {e};
  }

  lemma RetainedPut(d: Disk, id: BatchId, b: Batch)
    ensures Retained(Put(d, id, b)) == Retained(d) - BatchBytes(BatchAt(d, id)) + BatchBytes(b)
  {
    var root := if d.root.Some? then d.root.value else map[];
    SumWith(RootSizes(root), id, BatchBytes(b));
    assert RootSizes(root[id := b]) == RootSizes(root)[id := BatchBytes(b)];
    assert BatchBytes(map[]) == 0;
  }
}
