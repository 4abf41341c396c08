/** Every step of recovery leaves a disk recovery can work on, until the last
    one leaves a clean store. */
module RecoveryProgress {
  import opened Common
  import opened ProfileDocuments
  import opened ProfileInspection
  import opened InspectionSteps
  import opened ArchiveState
  import opened ManifestOrder
  import opened RecoverySteps

  // ----- inspection and Recoverable say the same thing ----------------------

  lemma PreparedIs(d: Disk, plan: Plan)
    requires Marker in d.live && InspectState(Contents(d.live)) == Pending(plan)
    ensures Prepare(d.live, plan).Some?
    ensures ManifestOk(Prepare(d.live, plan).value, BatchOf(d.live, plan))
    ensures Listed(Prepare(d.live, plan).value.files) <==> (RollsBack(plan) && plan.history != [])
    ensures forall b: Batch :: (forall n :: Archived(n) !in b) ==> Agrees(d.live, b, Prepare(d.live, plan).value, plan)
  {
    hide InspectState, ManifestOk, Agrees, Prepare, Listed;
    var revs := PlanDescribes(Contents(d.live), plan);
    PreparedReads(d.live, plan, revs);
    forall b: Batch | forall n :: Archived(n) !in b ensures Agrees(d.live, b, Prepare(d.live, plan).value, plan) {
      PreparedAgrees(d.live, b, plan, revs);
    }
  }

  /** Whatever inspection offers, there is one manifest to work to. */
  lemma InspectionOffers(d: Disk, plan: Plan) returns (m: Content)
    requires Inspect(d) == Pending(plan)
    ensures Marker in d.live && m.Manifest?
    ensures InspectState(Contents(d.live)) == Pending(plan)
    ensures d.root.Some? ==> OthersComplete(d.root.value, Some(BatchOf(d.live, plan)))
    ensures WorksTo(d.live, BatchAt(d, BatchOf(d.live, plan)), BatchOf(d.live, plan), plan, m)
    ensures ManifestOk(m, BatchOf(d.live, plan))
    ensures Agrees(d.live, BatchAt(d, BatchOf(d.live, plan)), m, plan)
  {
    hide InspectState, ManifestOk, Agrees, Prepare, OthersComplete;
    PreparedIs(d, plan);
    var id := BatchOf(d.live, plan);
    var b := BatchAt(d, id);
    m := if Load(b, id, HintFor(d.live, plan)).Holding? then Load(b, id, HintFor(d.live, plan)).manifest
         else Prepare(d.live, plan).value;
  }

  lemma RecoverableInspects(d: Disk, plan: Plan, m: Content)
    requires Recoverable(d, plan, m)
    ensures Inspect(d) == Pending(plan)
  {
    hide InspectState, ManifestOk, Agrees, OthersComplete, Fits, Load;
    var id := BatchOf(d.live, plan);
    EntriesBounded(BatchAt(d, id), id, HintFor(d.live, plan));
  }

  // ----- steps that touch the archive only ----------------------------------

  lemma OthersKept(d: Disk, id: BatchId, b: Batch)
    requires d.root.Some? ==> OthersComplete(d.root.value, Some(id))
    requires Retained(Put(d, id, b)) <= MAX_RETAINED
    requires |Put(d, id, b).root.value| <= MAX_BATCHES
    ensures OthersComplete(Put(d, id, b).root.value, Some(id))
  {
    hide Complete;
  }

  lemma BatchCount(d: Disk, plan: Plan, m: Content, b: Batch)
    requires Recoverable(d, plan, m)
    ensures |Put(d, BatchOf(d.live, plan), b).root.value| <= MAX_BATCHES
  {
    hide InspectState, ManifestOk, Agrees, WorksTo, Retained;
    var root := if d.root.Some? then d.root.value else map[];
    var id := BatchOf(d.live, plan);
    if id in root {
      assert root[id := b].Keys == root.Keys;
    } else {
      assert root[id := b].Keys == root.Keys + {id};
    }
  }

  /** A new state of the pending batch, still working to `m` and no larger in
      what it holds and may still add. */
  lemma BatchStep(d: Disk, plan: Plan, m: Content, b: Batch)
    requires Recoverable(d, plan, m)
    requires WorksTo(d.live, b, BatchOf(d.live, plan), plan, m)
    requires Agrees(d.live, b, m, plan)
    requires BatchBytes(b) + Overhead(b, plan, m)
          <= BatchBytes(BatchAt(d, BatchOf(d.live, plan))) + Overhead(BatchAt(d, BatchOf(d.live, plan)), plan, m)
    ensures Recoverable(Put(d, BatchOf(d.live, plan), b), plan, m)
  {
    hide InspectState, ManifestOk, Agrees, WorksTo, OthersComplete, Retained, BatchBytes, Overhead, Remaining;
    var id := BatchOf(d.live, plan);
    RetainedPut(d, id, b);
    BatchCount(d, plan, m, b);
    OthersKept(d, id, b);
  }

  lemma RootMade(d: Disk, plan: Plan, m: Content)
    requires Recoverable(d, plan, m) && d.root.None?
    ensures Recoverable(d.(root := Some(map[])), plan, m)
  {
    hide InspectState, ManifestOk, Agrees, WorksTo, Overhead, Remaining;
    var d' := d.(root := Some(map[]));
    assert RootSizes(map[]) == map[];
    assert Retained(d') == 0;
  }

  lemma BatchMade(d: Disk, plan: Plan, m: Content)
    requires Recoverable(d, plan, m) && d.root.Some? && BatchOf(d.live, plan) !in d.root.value
    ensures Recoverable(Put(d, BatchOf(d.live, plan), map[]), plan, m)
  {
    hide InspectState, ManifestOk, Agrees, WorksTo, Overhead, Remaining, OthersComplete, Retained;
    BatchStep(d, plan, m, map[]);
  }

  // ----- writing the manifest -----------------------------------------------

  lemma GrowthPut(b: Batch, e: Entry, f: File, size: nat)
    requires SizeAt(b, e) <= Size(f.content) <= size
    ensures Growth(b[e := f], e, size) + Size(f.content) == Growth(b, e, size) + SizeAt(b, e)
  {
  }

  /** While the batch holds nothing but a manifest being written, the manifest
      is the one recovery would prepare again. */
  lemma ManifestStillPrepared(live: map<Name, File>, b: Batch, id: BatchId, plan: Plan, m: Content)
    requires WorksTo(live, b, id, plan, m) && PlanJson !in b
    requires !(PlanTmp in b && b[PlanTmp].content == m)
    ensures Prepare(live, plan) == Some(m) && b.Keys <= {PlanTmp}
    ensures PlanTmp in b ==> b[PlanTmp].content.Torn? && b[PlanTmp].content.whole == m
                             && b[PlanTmp].content.written < Size(m)
  {
    hide Prepare, ManifestOk, EntriesAllowed, CandidatesAllowed;
  }

  lemma ManifestWritten(d: Disk, plan: Plan, m: Content, chunk: nat)
    requires Recoverable(d, plan, m) && NextStep(d, plan, m) == WriteManifest
    ensures Recoverable(Perform(d, plan, m, WriteManifest, chunk), plan, m)
  {
    hide InspectState, Prepare, OthersComplete, Retained, BatchBytes, ManifestOk, Agrees, Remaining;
    var id := BatchOf(d.live, plan);
    var b := BatchAt(d, id);
    ManifestStillPrepared(d.live, b, id, plan, m);
    var f := Written(b, PlanTmp, m, chunk, d.clock);
    var b' := b[PlanTmp := f];
    assert b'.Keys == {PlanTmp};
    BatchBytesPut(b, PlanTmp, f);
    GrowthPut(b, PlanTmp, f, Size(m));
    assert Agrees(d.live, b', m, plan) by {
      PreparedIs(d, plan);
    }
    BatchStep(d, plan, m, b');
  }

  lemma ManifestSealed(d: Disk, plan: Plan, m: Content, chunk: nat)
    requires Recoverable(d, plan, m) && NextStep(d, plan, m) == SealManifest
    ensures Recoverable(Perform(d, plan, m, SealManifest, chunk), plan, m)
  {
    hide InspectState, Prepare, OthersComplete, Retained, BatchBytes, ManifestOk, Remaining;
    var id := BatchOf(d.live, plan);
    var b := BatchAt(d, id);
    var f := File(m, d.clock, d.clock);
    var b' := b[PlanJson := f];
    assert WorksTo(d.live, b', id, plan, m);
    BatchBytesPut(b, PlanJson, f);
    GrowthPut(b, PlanJson, f, Size(m));
    assert Agrees(d.live, b', m, plan);
    BatchStep(d, plan, m, b');
  }

  // ----- the candidate ------------------------------------------------------

  /** A document in the batch is not a record, so writing it moves no record. */
  lemma EntryAgrees(live: map<Name, File>, b: Batch, m: Content, plan: Plan, e: Entry, f: File)
    requires m.Manifest? && Agrees(live, b, m, plan) && !e.Archived?
    ensures Agrees(live, b[e := f], m, plan)
  {
    hide Listed, Match;
    assert RecordsPlaced(live, b[e := f], m.files);
    hide RecordsPlaced;
  }

  /** A sealed batch of a publication accepts more of its candidate. */
  lemma CandidateLoads(b: Batch, id: BatchId, hint: Hint, m: Content, candidate: Content, e: Entry, f: File)
    requires Load(b, id, hint) == Holding(m) && PlanJson in b && m.action == PublishCandidate
    requires hint.Hint? && hint.candidate == Some(candidate) && m.candidateSha == Sha256(candidate)
    requires Size(candidate) <= MAX_TOTAL
    requires (e == CandidateTmp && IsPrefix(f.content, candidate)) || (e == CandidatePublish && f.content == candidate)
    ensures Load(b[e := f], id, hint) == Holding(m)
  {
    hide ManifestOk;
    assert EntriesAllowed(b[e := f], m);
    assert CandidatesAllowed(b[e := f], m, hint);
  }

  /** What publishing starts from: a sealed batch and a short candidate. */
  lemma CandidateReady(d: Disk, plan: Plan, m: Content)
    requires Marker in d.live && m.Manifest? && Recoverable(d, plan, m) && plan.action == PublishCandidate
    requires PlanJson in BatchAt(d, BatchOf(d.live, plan))
    ensures var id := BatchOf(d.live, plan);
            var b := BatchAt(d, id);
            && Load(b, id, HintFor(d.live, plan)) == Holding(m) && Agrees(d.live, b, m, plan)
            && m.action == PublishCandidate && m.candidateSha == Sha256(plan.candidate)
            && Size(plan.candidate) <= MAX_PROFILE
  {
    var id := BatchOf(d.live, plan);
    CandidateReadable(d, plan);
    hide InspectState, OthersComplete, Fits, ManifestOk, RecordsPlaced, Prepare, Load;
    SealedLoads(d.live, BatchAt(d, id), id, plan, m);
  }

  lemma CandidateWritten(d: Disk, plan: Plan, m: Content, chunk: nat)
    requires Marker in d.live && m.Manifest? && Recoverable(d, plan, m)
    requires NextStep(d, plan, m) == WriteCandidate && HonestFor(BatchAt(d, BatchOf(d.live, plan)), plan, WriteCandidate)
    ensures Recoverable(Perform(d, plan, m, WriteCandidate, chunk), plan, m)
  {
    hide NextStep, HonestFor, Recoverable, Prepare, Agrees, Load, BatchBytes, Overhead, WorksTo, Written;
    var id := BatchOf(d.live, plan);
    var b := BatchAt(d, id);
    var f := Written(b, CandidateTmp, plan.candidate, chunk, d.clock);
    CandidateTorn(d, plan, m);
    CandidateReady(d, plan, m);
    WrittenPrefix(b, CandidateTmp, plan.candidate, chunk, d.clock);
    CandidateLoads(b, id, HintFor(d.live, plan), m, plan.candidate, CandidateTmp, f);
    LoadedWorks(d.live, b[CandidateTmp := f], id, plan, m);
    EntryAgrees(d.live, b, m, plan, CandidateTmp, f);
    CandidateBudget(b, plan, m, CandidateTmp, f);
    BatchStep(d, plan, m, b[CandidateTmp := f]);
  }

  lemma WrittenPrefix(b: Batch, e: Entry, whole: Content, chunk: nat, clock: nat)
    requires e in b ==> b[e].content.Torn? && b[e].content.whole == whole && b[e].content.written < Size(whole)
    ensures IsPrefix(Written(b, e, whole, chunk, clock).content, whole)
    ensures SizeAt(b, e) <= Size(Written(b, e, whole, chunk, clock).content) <= Size(whole)
  {
  }

  lemma CandidateBudget(b: Batch, plan: Plan, m: Content, e: Entry, f: File)
    requires plan.action == PublishCandidate && m.Manifest?
    requires e == CandidateTmp || (e == CandidatePublish && plan.current.Some?)
    requires SizeAt(b, e) <= Size(f.content) <= Size(plan.candidate)
    ensures BatchBytes(b[e := f]) + Overhead(b[e := f], plan, m) <= BatchBytes(b) + Overhead(b, plan, m)
  {
    hide BatchBytes;
    BatchBytesPut(b, e, f);
    GrowthPut(b, e, f, Size(plan.candidate));
  }

  /** An unfinished candidate is a prefix of the candidate. */
  lemma CandidateTorn(d: Disk, plan: Plan, m: Content)
    requires Marker in d.live && m.Manifest?
    requires NextStep(d, plan, m) == WriteCandidate && HonestFor(BatchAt(d, BatchOf(d.live, plan)), plan, WriteCandidate)
    ensures var b := BatchAt(d, BatchOf(d.live, plan));
            && PlanJson in b && plan.action == PublishCandidate && HasBatch(d, BatchOf(d.live, plan))
            && (CandidateTmp in b ==> && b[CandidateTmp].content.Torn?
                                      && b[CandidateTmp].content.whole == plan.candidate
                                      && b[CandidateTmp].content.written < Size(plan.candidate))
  {
    hide NextStep, Size;
    StepFacts(d, plan, m);
  }

  lemma CandidateReadable(d: Disk, plan: Plan)
    requires InspectState(Contents(d.live)) == Pending(plan)
    ensures plan.candidate.Raw? && Size(plan.candidate) <= MAX_PROFILE
  {
    hide InspectState;
    var _ := PlanDescribes(Contents(d.live), plan);
  }

  lemma CandidateCloned(d: Disk, plan: Plan, m: Content, chunk: nat)
    requires Marker in d.live && m.Manifest? && Recoverable(d, plan, m)
    requires NextStep(d, plan, m) == CloneCandidate
    ensures Recoverable(Perform(d, plan, m, CloneCandidate, chunk), plan, m)
  {
    var id := BatchOf(d.live, plan);
    var b := BatchAt(d, id);
    var f := File(plan.candidate, d.clock, d.clock);
    StepFacts(d, plan, m);
    hide NextStep, Recoverable, Prepare, ManifestOk, InspectState, Agrees, Load, BatchBytes, Overhead;
    CandidateReady(d, plan, m);
    CandidateLoads(b, id, HintFor(d.live, plan), m, plan.candidate, CandidatePublish, f);
    LoadedWorks(d.live, b[CandidatePublish := f], id, plan, m);
    EntryAgrees(d.live, b, m, plan, CandidatePublish, f);
    CandidateBudget(b, plan, m, CandidatePublish, f);
    BatchStep(d, plan, m, b[CandidatePublish := f]);
  }

  // ----- steps that move a live file ----------------------------------------

  lemma RetainedSame(d: Disk, d': Disk)
    requires d.root == d'.root
    ensures Retained(d) == Retained(d')
  {
  }

  /** A new state of the live files and of the pending batch together. */
  lemma LiveStep(d: Disk, plan: Plan, m: Content, live: map<Name, File>, b: Batch, plan': Plan)
    requires Recoverable(d, plan, m)
    requires Marker in live && live[Marker] == d.live[Marker] && plan'.marker == plan.marker
    requires InspectState(Contents(live)) == Pending(plan')
    requires WorksTo(live, b, BatchOf(d.live, plan), plan', m)
    requires Agrees(live, b, m, plan')
    requires BatchBytes(b) + Remaining(live, m.files) + Overhead(b, plan', m)
          <= BatchBytes(BatchAt(d, BatchOf(d.live, plan))) + Remaining(d.live, m.files)
             + Overhead(BatchAt(d, BatchOf(d.live, plan)), plan, m)
    ensures Recoverable(Put(d.(live := live), BatchOf(d.live, plan), b), plan', m)
  {
    hide InspectState, ManifestOk, Agrees, WorksTo, OthersComplete, Retained, BatchBytes, Overhead, Remaining;
    var id := BatchOf(d.live, plan);
    BatchCount(d, plan, m, b);
    RetainedPut(d, id, b);
    assert Put(d.(live := live), id, b).root == Put(d, id, b).root;
    RetainedSame(Put(d.(live := live), id, b), Put(d, id, b));
    OthersKept(d, id, b);
  }

  /** What inspection will offer once a step has been taken. */
  function PlanAfter(plan: Plan, step: Step): Plan {
    match step
    case RetireFile(n) =>
      if n.Revision? && plan.history != [] then plan.(history := plan.history[..|plan.history| - 1]) else plan
    case PublishProfile => plan.(action := ClearMarker, current := Some(plan.candidate))
    case ReplaceProfile => plan.(action := ClearMarker, current := Some(plan.candidate))
    case _ => plan
  }

  lemma ContentsWithout(live: map<Name, File>, n: Name)
    ensures Contents(live - {n}) == Without(Contents(live), n)
  {
  }

  /** Where a manifest puts one revision. */
  lemma RevisionIndex(files: seq<Record>, temporaries: set<Name>, ids: seq<Digest>, k: nat)
    requires k < |files| && NamesOf(files) == RetirementOrder(temporaries, ids)
    ensures IsTemporary(files[k].name) <==> k < |TempNames(temporaries)|
    ensures files[k].name.Revision? <==> |TempNames(temporaries)| <= k < |TempNames(temporaries)| + |ids|
    ensures files[k].name.Revision? ==> files[k].name.sequence == |TempNames(temporaries)| + |ids| - k
    ensures files[k].name == Marker <==> k == |files| - 1
    ensures |files| == |TempNames(temporaries)| + |ids| + 1
  {
    var t, r := TempNames(temporaries), RevisionNames(ids);
    assert NamesOf(files)[k] == (t + r + [Marker])[k];
  }

  predicate TemporariesListed(live: map<Name, File>, files: seq<Record>) {
    forall n <- [ProfileTmp, MarkerTmp, RevisionTmp] :: n in live ==> n in NamesOf(files)
  }

  /** Temporaries come first in the order, so they go first. */
  lemma TemporariesGone(live: map<Name, File>, m: Content, id: BatchId)
    requires ManifestOk(m, id) && TemporariesListed(live, m.files)
    requires Waiting(live, m.files, 0) < |m.files| ==> !IsTemporary(m.files[Waiting(live, m.files, 0)].name)
    ensures NoTemporaries(Contents(live))
  {
    hide RetirementOrder;
    var files := m.files;
    var k := Waiting(live, files, 0);
    var ids := if Listed(files) then m.historyIds else [];
    forall t | t in [ProfileTmp, MarkerTmp, RevisionTmp] ensures t !in live {
      if t in live {
        var i :| 0 <= i < |files| && NamesOf(files)[i] == t;
        RevisionIndex(files, NameSet(NamesOf(files)), ids, i);
        if k < |files| {
          RevisionIndex(files, NameSet(NamesOf(files)), ids, k);
        }
      }
    }
    assert ProfileTmp in [ProfileTmp, MarkerTmp, RevisionTmp];
    assert MarkerTmp in [ProfileTmp, MarkerTmp, RevisionTmp];
    assert RevisionTmp in [ProfileTmp, MarkerTmp, RevisionTmp];
  }

  /** The revision files in place are exactly those of `h`. */
  ghost predicate HistoryIs(live: map<Name, File>, h: seq<Digest>) {
    && (forall n <- live :: n.Revision? ==> IsRevisionOf(n, h))
    && (h != [] ==> Revision(|h|, h[|h| - 1]) in live)
  }

  lemma ChainHistory(live: map<Name, File>, revs: seq<Envelope>)
    requires IsChain(Contents(live), revs, true)
    ensures HistoryIs(live, Ids(revs))
  {
    hide ValidChain;
    var c := Contents(live);
    forall n | n in live && n.Revision? ensures IsRevisionOf(n, Ids(revs)) {
      assert n in c && IsHistoryName(n);
    }
    if revs != [] {
      assert NameAt(revs, |revs| - 1) in c;
    }
  }

  /** The listed revision that is next to go is the last one still in place. */
  lemma NextRevision(live: map<Name, File>, m: Content, id: BatchId, h: seq<Digest>, k: nat)
    requires ManifestOk(m, id) && Listed(m.files)
    requires HistoryIs(live, h) && h <= m.historyIds
    requires k == Waiting(live, m.files, 0) && k < |m.files| && m.files[k].name.Revision?
    ensures h != [] && m.files[k].name == Revision(|h|, h[|h| - 1])
  {
    hide RetirementOrder, Listed;
    var files := m.files;
    var temporaries := NameSet(NamesOf(files));
    RevisionIndex(files, temporaries, m.historyIds, k);
    var n := files[k].name;
    assert IsRevisionOf(n, h);
    var last := Revision(|h|, h[|h| - 1]);
    ManifestMembers(m, id, last);
    var j :| 0 <= j < |files| && NamesOf(files)[j] == last;
    RevisionIndex(files, temporaries, m.historyIds, j);
  }

  /** Nothing earlier in the order is left behind: temporaries are gone before
      the first revision goes, and later revisions before earlier ones. */
  lemma NextIsLast(d: Disk, plan: Plan, m: Content, k: nat)
    requires Marker in d.live && m.Manifest? && Recoverable(d, plan, m)
    requires k == Waiting(d.live, m.files, 0) && k < |m.files| && m.files[k].name.Revision?
    ensures RollsBack(plan) && plan.history != []
    ensures m.files[k].name == Revision(|plan.history|, plan.history[|plan.history| - 1])
    ensures NoTemporaries(Contents(d.live))
  {
    var id := BatchOf(d.live, plan);
    assert Listed(m.files);
    hide InspectState, WorksTo, OthersComplete, Fits, Listed, ManifestOk, NoTemporaries, Agrees, HistoryIs, Waiting;
    ListedHistory(d, plan);
    NextOfListed(d.live, BatchAt(d, id), m, id, plan, k);
    hide Recoverable;
  }

  lemma NextOfListed(live: map<Name, File>, b: Batch, m: Content, id: BatchId, plan: Plan, k: nat)
    requires ManifestOk(m, id) && Agrees(live, b, m, plan) && Listed(m.files) && HistoryIs(live, plan.history)
    requires k == Waiting(live, m.files, 0) && k < |m.files| && m.files[k].name.Revision?
    ensures RollsBack(plan) && plan.history != []
    ensures m.files[k].name == Revision(|plan.history|, plan.history[|plan.history| - 1])
    ensures NoTemporaries(Contents(live))
  {
    hide ManifestOk, Agrees, Listed, HistoryIs, TemporariesListed, NoTemporaries;
    ListedAgreement(live, b, m, plan, id);
    TemporariesGone(live, m, id);
    NextRevision(live, m, id, plan.history, k);
  }

  /** A manifest that lists revisions belongs to a restoration rolled back. */
  lemma ListedAgreement(live: map<Name, File>, b: Batch, m: Content, plan: Plan, id: BatchId)
    requires ManifestOk(m, id) && Agrees(live, b, m, plan) && Listed(m.files)
    ensures RollsBack(plan) && plan.history <= m.historyIds && TemporariesListed(live, m.files)
  {
    hide RecordsPlaced, Listed, RetirementOrder;
  }

  lemma ListedHistory(d: Disk, plan: Plan)
    requires InspectState(Contents(d.live)) == Pending(plan)
    ensures HistoryIs(d.live, plan.history)
  {
    hide InspectState, HistoryIs, IsChain;
    var revs := PlanDescribes(Contents(d.live), plan);
    ChainHistory(d.live, revs);
  }

  /** Inspection of the live files after one has been retired. */
  lemma RetiredInspects(d: Disk, plan: Plan, m: Content, n: Name)
    requires Recoverable(d, plan, m) && NextStep(d, plan, m) == RetireFile(n)
    ensures n in d.live && n != Marker
    ensures InspectState(Contents(d.live - {n})) == Pending(PlanAfter(plan, RetireFile(n)))
  {
    hide InspectState, WorksTo, OthersComplete, Fits, RetirementOrder, Agrees;
    var k := Waiting(d.live, m.files, 0);
    RevisionIndex(m.files, NameSet(NamesOf(m.files)), if Listed(m.files) then m.historyIds else [], k);
    ContentsWithout(d.live, n);
    assert NamesOf(m.files)[k] == n;
    ManifestMembers(m, BatchOf(d.live, plan), n);
    if IsTemporary(n) {
      TemporaryRetired(Contents(d.live), plan, n);
    } else {
      NextIsLast(d, plan, m, k);
      RevisionRetired(Contents(d.live), plan);
    }
  }

  lemma RetiredPlaced(live: map<Name, File>, b: Batch, files: seq<Record>, k: nat, f: File)
    requires RecordsPlaced(live, b, files) && Distinct(NamesOf(files))
    requires k < |files| && k == Waiting(live, files, 0) && f == live[files[k].name].(ctime := f.ctime)
    ensures var n := files[k].name; RecordsPlaced(live - {n}, b[Archived(n) := f], files)
  {
    var n := files[k].name;
    var live', b' := live - {n}, b[Archived(n) := f];
    forall i | 0 <= i < |files| ensures files[i].name == n <==> i == k {
      assert NamesOf(files)[i] == files[i].name && NamesOf(files)[k] == n;
    }
    assert forall i :: 0 <= i < k ==> AtTarget(b', files[i]) by {
      forall i | 0 <= i < k ensures AtTarget(b', files[i]) {
        assert AtSource(live, files[i]) != AtTarget(b, files[i]);
      }
    }
    assert forall j :: k < j < |files| ==> !AtTarget(b', files[j]) by {
      forall j | k < j < |files| ensures !AtTarget(b', files[j]) {
        assert !AtTarget(b, files[k]);
      }
    }
  }

  /** The record that is next, and the batch it goes to. */
  ghost predicate Retiring(live: map<Name, File>, b: Batch, files: seq<Record>, k: nat) {
    && k < |files| && k == Waiting(live, files, 0)
    && files[k].name in live && Archived(files[k].name) !in b
    && Match(live[files[k].name], files[k], false)
    && Distinct(NamesOf(files)) && RecordsPlaced(live, b, files)
  }

  lemma IsRetiring(d: Disk, plan: Plan, m: Content, n: Name)
    requires Marker in d.live && m.Manifest? && Recoverable(d, plan, m) && NextStep(d, plan, m) == RetireFile(n)
    ensures var id := BatchOf(d.live, plan);
            var b, k := BatchAt(d, id), Waiting(d.live, m.files, 0);
            && HasBatch(d, id) && PlanJson in b && Load(b, id, HintFor(d.live, plan)) == Holding(m)
            && Agrees(d.live, b, m, plan) && Retiring(d.live, b, m.files, k) && n == m.files[k].name && k + 1 < |m.files|
  {
    var id := BatchOf(d.live, plan);
    StepFacts(d, plan, m);
    ManifestNamesDistinct(m, id);
    hide InspectState, OthersComplete, Fits, ManifestOk, NextStep, Listed, Prepare, Load;
    SealedLoads(d.live, BatchAt(d, id), id, plan, m);
    var k := Waiting(d.live, m.files, 0);
    assert AtSource(d.live, m.files[k]) != AtTarget(BatchAt(d, id), m.files[k]);
  }

  lemma RetiredAgrees(live: map<Name, File>, b: Batch, m: Content, plan: Plan, plan': Plan, k: nat, f: File)
    requires m.Manifest? && Agrees(live, b, m, plan) && Retiring(live, b, m.files, k)
    requires f == live[m.files[k].name].(ctime := f.ctime)
    requires plan' == plan || (Listed(m.files) && plan.history != []
                               && plan' == plan.(history := plan.history[..|plan.history| - 1]))
    ensures var n := m.files[k].name; Agrees(live - {n}, b[Archived(n) := f], m, plan')
  {
    hide Listed, Match;
    RetiredPlaced(live, b, m.files, k, f);
    hide RecordsPlaced, Retiring;
  }

  /** A sealed batch reads the same whatever manifest would be prepared now. */
  lemma SealedHint(b: Batch, id: BatchId, hint: Hint, hint': Hint, m: Content)
    requires Load(b, id, hint) == Holding(m) && PlanJson in b
    requires hint.Hint? && hint'.Hint? && hint'.candidate == hint.candidate
    ensures Load(b, id, hint') == Holding(m)
  {
    hide ManifestOk, EntriesAllowed;
  }

  lemma RetiredLoads(live: map<Name, File>, b: Batch, id: BatchId, m: Content, plan: Plan, plan': Plan, k: nat, f: File)
    requires m.Manifest? && Load(b, id, HintFor(live, plan)) == Holding(m) && PlanJson in b
    requires Retiring(live, b, m.files, k)
    requires plan'.action == plan.action && plan'.candidate == plan.candidate
    ensures var n := m.files[k].name; WorksTo(live - {n}, b[Archived(n) := f], id, plan', m)
  {
    hide Load, Prepare, Match, RecordsPlaced;
    var n := m.files[k].name;
    assert NamesOf(m.files)[k] == n;
    MoreLoads(b, id, HintFor(live, plan), m, n, f);
    SealedHint(b[Archived(n) := f], id, HintFor(live, plan), HintFor(live - {n}, plan'), m);
  }

  lemma RetiredBudget(live: map<Name, File>, b: Batch, m: Content, plan: Plan, plan': Plan, k: nat, f: File)
    requires m.Manifest? && Retiring(live, b, m.files, k) && f.content == live[m.files[k].name].content
    requires plan'.action == plan.action && plan'.candidate == plan.candidate && plan'.current == plan.current
    ensures var n := m.files[k].name;
            BatchBytes(b[Archived(n) := f]) + Remaining(live - {n}, m.files) + Overhead(b[Archived(n) := f], plan', m)
            <= BatchBytes(b) + Remaining(live, m.files) + Overhead(b, plan, m)
  {
    hide BatchBytes, Remaining, RecordsPlaced;
    RemainingWithout(live, m.files, k);
    BatchBytesPut(b, Archived(m.files[k].name), f);
  }

  lemma FileRetired(d: Disk, plan: Plan, m: Content, n: Name, chunk: nat)
    requires Marker in d.live && m.Manifest? && Recoverable(d, plan, m) && NextStep(d, plan, m) == RetireFile(n)
    ensures Recoverable(Perform(d, plan, m, RetireFile(n), chunk), PlanAfter(plan, RetireFile(n)), m)
  {
    hide InspectState, OthersComplete, Fits, ManifestOk, Agrees, WorksTo, NextStep, BatchBytes, Remaining, Overhead,
         Load, Recoverable;
    var id := BatchOf(d.live, plan);
    var plan' := PlanAfter(plan, RetireFile(n));
    IsRetiring(d, plan, m, n);
    RetiredInspects(d, plan, m, n);
    var b, k, f := BatchAt(d, id), Waiting(d.live, m.files, 0), Moved(d, n);
    assert n.Revision? ==> Listed(m.files);
    hide Listed, Retiring;
    RetiredAgrees(d.live, b, m, plan, plan', k, f);
    RetiredLoads(d.live, b, id, m, plan, plan', k, f);
    RetiredBudget(d.live, b, m, plan, plan', k, f);
    LiveStep(d, plan, m, d.live - {n}, b[Archived(n) := f], plan');
  }

  // ----- publishing the candidate profile -----------------------------------

  /** Before the profile is touched nothing but the marker is left to retire. */
  lemma OnlyMarkerWaits(d: Disk, plan: Plan, m: Content)
    requires Marker in d.live && m.Manifest? && Recoverable(d, plan, m)
    requires NextStep(d, plan, m) in {WriteCandidate, CloneCandidate, PublishProfile, ReplaceProfile, ReleaseMarker}
    ensures NoTemporaries(Contents(d.live))
    ensures Waiting(d.live, m.files, 0) == |m.files| - 1
    ensures m.files[|m.files| - 1].name == Marker
  {
    hide InspectState, WorksTo, OthersComplete, Fits, RecordsPlaced, Listed, RetirementOrder;
    var k := Waiting(d.live, m.files, 0);
    ManifestMembers(m, BatchOf(d.live, plan), Marker);
    assert NamesOf(m.files)[|m.files| - 1] == m.files[|m.files| - 1].name;
    TemporariesGone(d.live, m, BatchOf(d.live, plan));
  }

  /** A manifest for a publication names only temporaries and the marker. */
  lemma ProfileNotListed(m: Content, id: BatchId)
    requires ManifestOk(m, id)
    ensures forall r <- m.files :: r.name != Profile
  {
    hide RetirementOrder;
    forall r | r in m.files ensures r.name != Profile {
      var i :| 0 <= i < |m.files| && m.files[i] == r;
      assert NamesOf(m.files)[i] == r.name;
      ManifestMembers(m, id, r.name);
    }
  }

  lemma ProfilePlaced(live: map<Name, File>, b0: Batch, b: Batch, files: seq<Record>, f: File)
    requires RecordsPlaced(live, b0, files) && forall r <- files :: r.name != Profile
    requires b == b0 || b == b0 - {CandidatePublish}
    ensures RecordsPlaced(live[Profile := f], b, files)
  {
    var live' := live[Profile := f];
    forall i | 0 <= i < |files|
      ensures AtSource(live', files[i]) == AtSource(live, files[i]) && AtTarget(b, files[i]) == AtTarget(b0, files[i])
      ensures AtSource(live, files[i]) ==> live'[files[i].name] == live[files[i].name]
      ensures AtTarget(b0, files[i]) ==> b[Archived(files[i].name)] == b0[Archived(files[i].name)]
    {
      assert files[i].name != Profile;
    }
  }

  /** The profile is not a record, so publishing it moves no record. */
  lemma ProfileAgrees(live: map<Name, File>, b0: Batch, b: Batch, id: BatchId, plan: Plan, m: Content, f: File)
    requires m.Manifest? && ManifestOk(m, id) && Agrees(live, b0, m, plan)
    requires plan.action == PublishCandidate
    requires b == b0 || b == b0 - {CandidatePublish}
    ensures Agrees(live[Profile := f], b, m, PlanAfter(plan, PublishProfile))
  {
    ProfileNotListed(m, id);
    hide ManifestOk, Listed;
    ProfilePlaced(live, b0, b, m.files, f);
    hide RecordsPlaced;
  }

  /** The batch still reads as the same manifest once the profile is in place,
      with or without the clone that was renamed into it. */
  lemma ProfileLoads(b0: Batch, b: Batch, id: BatchId, hint: Hint, hint': Hint, candidate: Content, m: Content)
    requires Load(b0, id, hint) == Holding(m) && PlanJson in b0
    requires Sha256(candidate) == m.candidateSha
    requires CandidateTmp in b0 && b0[CandidateTmp].content == candidate
    requires b == b0 || b == b0 - {CandidatePublish}
    ensures Load(b, id, hint') == Holding(m)
  {
    hide ManifestOk;
    assert PlanJson in b && CandidateTmp in b;
    assert EntriesAllowed(b, m);
    assert CandidatesAllowed(b, m, hint');
  }

  lemma ProfileBudget(live: map<Name, File>, b0: Batch, b: Batch, id: BatchId, plan: Plan, m: Content, f: File)
    requires m.Manifest? && ManifestOk(m, id)
    requires plan.action == PublishCandidate
    requires CandidateTmp in b0 && b0[CandidateTmp].content == plan.candidate
    requires b == b0 || (b == b0 - {CandidatePublish} && CandidatePublish in b0)
    ensures BatchBytes(b) + Remaining(live[Profile := f], m.files) + Overhead(b, PlanAfter(plan, PublishProfile), m)
         <= BatchBytes(b0) + Remaining(live, m.files) + Overhead(b0, plan, m)
  {
    hide BatchBytes;
    ProfileNotListed(m, id);
    RemainingSame(live, live[Profile := f], m.files);
    if b != b0 {
      BatchBytesCut(b0, CandidatePublish);
    }
  }

  /** Just before the profile is replaced, the batch holds the whole candidate. */
  lemma CandidateStaged(d: Disk, plan: Plan, m: Content)
    requires Recoverable(d, plan, m)
    requires NextStep(d, plan, m) in {PublishProfile, ReplaceProfile}
    ensures HasBatch(d, BatchOf(d.live, plan))
    ensures var b := BatchAt(d, BatchOf(d.live, plan));
            && PlanJson in b && CandidateTmp in b && b[CandidateTmp].content == plan.candidate
            && Load(b, BatchOf(d.live, plan), HintFor(d.live, plan)) == Holding(m)
            && (NextStep(d, plan, m) == ReplaceProfile ==> CandidatePublish in b)
    ensures plan.action == PublishCandidate
    ensures m.candidateSha == Sha256(plan.candidate)
  {
    hide InspectState, OthersComplete, Fits, ManifestOk, RecordsPlaced, Prepare, EntriesAllowed, CandidatesAllowed;
  }

  lemma ProfileWritten(d: Disk, plan: Plan, m: Content, f: File, b: Batch)
    requires Recoverable(d, plan, m) && f.content == plan.candidate
    requires NextStep(d, plan, m) in {PublishProfile, ReplaceProfile}
    requires var b0 := BatchAt(d, BatchOf(d.live, plan));
             b == b0 || (b == b0 - {CandidatePublish} && CandidatePublish in b0)
    ensures Recoverable(Put(d.(live := d.live[Profile := f]), BatchOf(d.live, plan), b),
                        PlanAfter(plan, PublishProfile), m)
  {
    hide InspectState, OthersComplete, Fits, ManifestOk, Agrees, WorksTo, NextStep, Load, Overhead, Remaining, BatchBytes;
    OnlyMarkerWaits(d, plan, m);
    CandidateStaged(d, plan, m);
    var id := BatchOf(d.live, plan);
    var b0 := BatchAt(d, id);
    var live', plan' := d.live[Profile := f], PlanAfter(plan, PublishProfile);
    CandidatePublished(Contents(d.live), plan);
    assert Contents(live') == Contents(d.live)[Profile := plan.candidate];
    ProfileAgrees(d.live, b0, b, id, plan, m, f);
    ProfileLoads(b0, b, id, HintFor(d.live, plan), HintFor(live', plan'), plan.candidate, m);
    LoadedWorks(live', b, id, plan', m);
    ProfileBudget(d.live, b0, b, id, plan, m, f);
    LiveStep(d, plan, m, live', b, plan');
  }

  lemma LoadedWorks(live: map<Name, File>, b: Batch, id: BatchId, plan: Plan, m: Content)
    requires Load(b, id, HintFor(live, plan)) == Holding(m)
    ensures WorksTo(live, b, id, plan, m)
  {
  }

  /** A clone there is to rename holds the candidate. */
  lemma CloneHonest(d: Disk, plan: Plan, m: Content)
    requires Recoverable(d, plan, m)
    requires NextStep(d, plan, m) == ReplaceProfile && HonestFor(BatchAt(d, BatchOf(d.live, plan)), plan, ReplaceProfile)
    ensures CandidatePublish in BatchAt(d, BatchOf(d.live, plan))
    ensures BatchAt(d, BatchOf(d.live, plan))[CandidatePublish].content == plan.candidate
  {
    CandidateStaged(d, plan, m);
    hide Recoverable, Prepare, ManifestOk, EntriesAllowed, NextStep;
  }

  lemma PutSame(d: Disk, id: BatchId)
    requires HasBatch(d, id)
    ensures Put(d, id, BatchAt(d, id)) == d.(clock := d.clock + 1)
  {
    assert d.root.value[id := BatchAt(d, id)] == d.root.value;
  }

  lemma ProfilePublishes(d: Disk, plan: Plan, m: Content, chunk: nat)
    requires Recoverable(d, plan, m)
    requires NextStep(d, plan, m) == PublishProfile
    ensures Recoverable(Perform(d, plan, m, PublishProfile, chunk), PlanAfter(plan, PublishProfile), m)
  {
    hide InspectState, OthersComplete, Fits, ManifestOk, Agrees, WorksTo, NextStep, Load, Prepare;
    var id := BatchOf(d.live, plan);
    CandidateStaged(d, plan, m);
    var f := File(plan.candidate, d.clock, d.clock);
    ProfileWritten(d, plan, m, f, BatchAt(d, id));
    PutSame(d.(live := d.live[Profile := f]), id);
    hide Recoverable;
  }

  lemma ProfileReplaces(d: Disk, plan: Plan, m: Content, chunk: nat)
    requires Recoverable(d, plan, m)
    requires NextStep(d, plan, m) == ReplaceProfile && HonestFor(BatchAt(d, BatchOf(d.live, plan)), plan, ReplaceProfile)
    ensures Recoverable(Perform(d, plan, m, ReplaceProfile, chunk), PlanAfter(plan, ReplaceProfile), m)
  {
    hide InspectState, OthersComplete, Fits, ManifestOk, Agrees, WorksTo, NextStep, Load, Prepare;
    var b := BatchAt(d, BatchOf(d.live, plan));
    CloneHonest(d, plan, m);
    ProfileWritten(d, plan, m, b[CandidatePublish].(ctime := d.clock), b - {CandidatePublish});
    hide Recoverable;
  }

  // ----- the commit point ---------------------------------------------------

  /** Once every file a manifest names is archived, its batch is complete. */
  lemma BatchCompletes(live: map<Name, File>, b: Batch, id: BatchId, plan: Plan, m: Content)
    requires Load(b, id, HintFor(live, plan)) == Holding(m) && PlanJson in b && b.Keys != {PlanTmp}
    requires plan.action != PublishCandidate
    requires forall r <- m.files :: Archived(r.name) in b && Match(b[Archived(r.name)], r, true)
    ensures Complete(b, id) && Load(b, id, NoHint) == Holding(m)
  {
    hide Prepare, ManifestOk;
    EntriesBounded(b, id, NoHint);
  }

  /** Moving the marker puts every record of the manifest in the batch. */
  lemma AllPlaced(live: map<Name, File>, b: Batch, files: seq<Record>, f: File)
    requires RecordsPlaced(live, b, files) && Marker in live && f == live[Marker].(ctime := f.ctime)
    requires files != [] && Waiting(live, files, 0) == |files| - 1 && files[|files| - 1].name == Marker
    ensures forall r <- files :: Archived(r.name) in b[Archived(Marker) := f]
                                 && Match(b[Archived(Marker) := f][Archived(r.name)], r, true)
  {
    var b' := b[Archived(Marker) := f];
    forall r | r in files ensures Archived(r.name) in b' && Match(b'[Archived(r.name)], r, true) {
      var i :| 0 <= i < |files| && files[i] == r;
      if i < |files| - 1 {
        assert !AtSource(live, files[i]);
      } else {
        assert AtSource(live, files[i]);
      }
    }
  }

  lemma MarkerPlaced(d: Disk, plan: Plan, m: Content)
    requires Marker in d.live && m.Manifest? && Recoverable(d, plan, m) && NextStep(d, plan, m) == ReleaseMarker
    ensures var b := BatchAt(d, BatchOf(d.live, plan))[Archived(Marker) := Moved(d, Marker)];
            forall r <- m.files :: Archived(r.name) in b && Match(b[Archived(r.name)], r, true)
  {
    OnlyMarkerWaits(d, plan, m);
    hide InspectState, WorksTo, OthersComplete, Fits, ManifestOk, Listed, NextStep, RecordsPlaced, Match;
    AllPlaced(d.live, BatchAt(d, BatchOf(d.live, plan)), m.files, Moved(d, Marker));
    hide Recoverable;
  }

  lemma MarkerLoads(d: Disk, plan: Plan, m: Content)
    requires Marker in d.live && m.Manifest? && Recoverable(d, plan, m) && NextStep(d, plan, m) == ReleaseMarker
    ensures var b := BatchAt(d, BatchOf(d.live, plan))[Archived(Marker) := Moved(d, Marker)];
            Complete(b, BatchOf(d.live, plan))
  {
    StepFacts(d, plan, m);
    MarkerPlaced(d, plan, m);
    ManifestMembers(m, BatchOf(d.live, plan), Marker);
    var id := BatchOf(d.live, plan);
    var b0 := BatchAt(d, id);
    hide InspectState, Prepare, OthersComplete, Fits, ManifestOk, Agrees, Listed, NextStep, Match, Complete;
    SealedLoads(d.live, b0, id, plan, m);
    var b := b0[Archived(Marker) := Moved(d, Marker)];
    assert NamesOf(m.files)[|m.files| - 1] == Marker;
    hide WorksTo, Recoverable;
    MoreLoads(b0, id, HintFor(d.live, plan), m, Marker, Moved(d, Marker));
    BatchCompletes(d.live, b, id, plan, m);
  }

  lemma SealedLoads(live: map<Name, File>, b: Batch, id: BatchId, plan: Plan, m: Content)
    requires WorksTo(live, b, id, plan, m) && b != map[]
    ensures Load(b, id, HintFor(live, plan)) == Holding(m)
  {
    hide Prepare, ManifestOk, EntriesAllowed, CandidatesAllowed;
  }

  /** Archiving one listed file does not change how a sealed batch reads. */
  lemma MoreLoads(b: Batch, id: BatchId, hint: Hint, m: Content, n: Name, f: File)
    requires Load(b, id, hint) == Holding(m) && PlanJson in b && n in NamesOf(m.files)
    ensures Load(b[Archived(n) := f], id, hint) == Holding(m)
  {
    hide ManifestOk;
    var b' := b[Archived(n) := f];
    assert EntriesAllowed(b', m);
    assert CandidatesAllowed(b', m, hint);
  }

  lemma MarkerBudget(d: Disk, plan: Plan, m: Content)
    requires Marker in d.live && m.Manifest? && Recoverable(d, plan, m) && NextStep(d, plan, m) == ReleaseMarker
    ensures var id := BatchOf(d.live, plan);
            Retained(Put(d, id, BatchAt(d, id)[Archived(Marker) := Moved(d, Marker)])) <= MAX_RETAINED
  {
    OnlyMarkerWaits(d, plan, m);
    ManifestNamesDistinct(m, BatchOf(d.live, plan));
    hide InspectState, Prepare, Retained, BatchBytes, ManifestOk, Listed, WorksTo, OthersComplete, Remaining, Overhead, NextStep;
    var id := BatchOf(d.live, plan);
    var b0 := BatchAt(d, id);
    var last := |m.files| - 1;
    RemainingWithout(d.live, m.files, last);
    assert AtSource(d.live, m.files[last]);
    assert Match(d.live[Marker], m.files[last], false) && !AtTarget(b0, m.files[last]);
    BatchBytesPut(b0, Archived(Marker), Moved(d, Marker));
    RetainedPut(d, id, b0[Archived(Marker) := Moved(d, Marker)]);
  }

  lemma MarkerArchived(d: Disk, plan: Plan, m: Content)
    requires Marker in d.live && m.Manifest? && Recoverable(d, plan, m) && NextStep(d, plan, m) == ReleaseMarker
    ensures var id := BatchOf(d.live, plan);
            OthersComplete(Put(d, id, BatchAt(d, id)[Archived(Marker) := Moved(d, Marker)]).root.value, None)
  {
    MarkerLoads(d, plan, m);
    MarkerBudget(d, plan, m);
    hide InspectState, Retained, Complete, WorksTo, ManifestOk, Agrees, Fits, NextStep;
    var id := BatchOf(d.live, plan);
    var b := BatchAt(d, id)[Archived(Marker) := Moved(d, Marker)];
    BatchCount(d, plan, m, b);
    OthersKept(d, id, b);
  }

  /** Moving the marker ends the recovery with a clean store. */
  lemma MarkerReleases(d: Disk, plan: Plan, m: Content, chunk: nat)
    requires Marker in d.live && m.Manifest? && Recoverable(d, plan, m) && NextStep(d, plan, m) == ReleaseMarker && ListsHistory(plan, m)
    ensures Inspect(Perform(d, plan, m, ReleaseMarker, chunk)) == Clean
  {
    hide InspectState, OthersComplete, Inspect, NextStep, ListsHistory, WorksTo, ManifestOk, Agrees, Fits, Retire;
    StepFacts(d, plan, m);
    MarkerArchived(d, plan, m);
    OnlyMarkerWaits(d, plan, m);
    HistoryReleased(d, plan, m);
    RetireIs(d, BatchOf(d.live, plan));
    ContentsWithout(d.live, Marker);
    MarkerReleased(Contents(d.live), plan);
    CleanInspects(Retire(d, BatchOf(d.live, plan), Marker));
  }

  lemma RetireIs(d: Disk, id: BatchId)
    requires Marker in d.live
    ensures Retire(d, id, Marker).live == d.live - {Marker}
    ensures Retire(d, id, Marker).root == Put(d, id, BatchAt(d, id)[Archived(Marker) := Moved(d, Marker)]).root
  {
  }

  lemma CleanInspects(d: Disk)
    requires InspectState(Contents(d.live)) == Clean && d.root.Some? && OthersComplete(d.root.value, None)
    ensures Inspect(d) == Clean
  {
    hide InspectState, OthersComplete;
  }

  lemma HistoryReleased(d: Disk, plan: Plan, m: Content)
    requires Marker in d.live && m.Manifest? && Recoverable(d, plan, m) && NextStep(d, plan, m) == ReleaseMarker && ListsHistory(plan, m)
    ensures RollsBack(plan) ==> plan.history == []
  {
    hide InspectState, WorksTo, OthersComplete, Fits, ManifestOk, Agrees, NextStep, Listed;
    if RollsBack(plan) && plan.history != [] {
      ListedAreGone(d, plan, m);
    }
  }

  /** A listed revision still in place would still be waiting. */
  lemma ListedAreGone(d: Disk, plan: Plan, m: Content)
    requires Marker in d.live && m.Manifest? && Recoverable(d, plan, m) && NextStep(d, plan, m) == ReleaseMarker && Listed(m.files)
    ensures plan.history == []
  {
    OnlyMarkerWaits(d, plan, m);
    hide InspectState, WorksTo, OthersComplete, Fits, RecordsPlaced, Listed, ManifestOk, NextStep;
    var revs := PlanDescribes(Contents(d.live), plan);
    ChainHistory(d.live, revs);
    assert plan.history == Ids(revs);
    hide IsChain, Describes;
    HistoryListed(d.live, m, BatchOf(d.live, plan), plan.history);
  }

  lemma HistoryListed(live: map<Name, File>, m: Content, id: BatchId, h: seq<Digest>)
    requires ManifestOk(m, id) && Listed(m.files) && HistoryIs(live, h) && h <= m.historyIds
    requires Waiting(live, m.files, 0) == |m.files| - 1 && m.files[|m.files| - 1].name == Marker
    ensures h == []
  {
    hide RetirementOrder, Listed;
    if h != [] {
      var last := Revision(|h|, h[|h| - 1]);
      assert IsRevisionOf(last, m.historyIds);
      forall i | 0 <= i < |m.files| ensures NamesOf(m.files)[i] != last {
        assert NamesOf(m.files)[i] == m.files[i].name;
      }
      ManifestMembers(m, id, last);
    }
  }
}
