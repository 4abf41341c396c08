/** The disk of one host-profile store, and the retained recovery archive: how
    a batch is read back, matched against its manifest and accounted for. */
module ArchiveState {
  import opened Common
  import opened ProfileDocuments
  import opened ProfileInspection

  /** A regular file.  `ino` stays with the file for life; `ctime` moves on when
      the file is renamed or written. */
  datatype File = File(content: Content, ino: nat, ctime: nat)

  datatype Entry =
    | PlanJson
    | PlanTmp
    | CandidateTmp
    | CandidatePublish
    | Archived(name: Name)
    | Stray(filename: string)

  type Batch = map<Entry, File>

  /** The name of a batch: the marker's digest and the marker file's identity. */
  datatype BatchId = BatchId(marker: Digest, ino: nat, ctime: nat)

  /** `live` is the local and the history directory, `root` the recovery
      directory once it exists, `clock` the next unused stamp. */
  datatype Disk = Disk(live: map<Name, File>, root: Option<map<BatchId, Batch>>, clock: nat)

  function Contents(live: map<Name, File>): Listing {
    map n | n in live :: live[n].content
  }

  const MAX_ENTRIES: nat := MAX_REVISIONS + 6

  // ----- manifests ----------------------------------------------------------

  function TempNames(present: set<Name>): seq<Name> {
    (if ProfileTmp in present then [ProfileTmp] else [])
    + (if MarkerTmp in present then [MarkerTmp] else [])
    + (if RevisionTmp in present then [RevisionTmp] else [])
  }

  /** Revision file names, last to first. */
  function RevisionNames(ids: seq<Digest>): (names: seq<Name>)
    ensures |names| == |ids|
    ensures forall i :: 0 <= i < |ids| ==> names[i] == Revision(|ids| - i, ids[|ids| - 1 - i])
  {
    seq(|ids|, i requires 0 <= i < |ids| => Revision(|ids| - i, ids[|ids| - 1 - i]))
  }

  function NamesOf(files: seq<Record>): (names: seq<Name>)
    ensures |names| == |files|
    ensures forall i :: 0 <= i < |files| ==> names[i] == files[i].name
  {
    seq(|files|, i requires 0 <= i < |files| => files[i].name)
  }

  predicate Listed(files: seq<Record>) { exists r <- files :: r.name.Revision? }

  function NameSet(names: seq<Name>): set<Name> { set n | n in names }

  function RetirementOrder(temporaries: set<Name>, ids: seq<Digest>): seq<Name> {
    TempNames(temporaries) + RevisionNames(ids) + [Marker]
  }

  predicate Distinct<T(==)>(s: seq<T>) {
    forall i, j :: 0 <= i < j < |s| ==> s[i] != s[j]
  }

  /** A manifest that reads back: temporaries in their fixed order, then either
      no revisions or every revision last to first, then the marker, whose
      identity names the batch. */
  predicate ManifestOk(m: Content, id: BatchId) {
    && m.Manifest?
    && |m.historyIds| <= MAX_REVISIONS && Distinct(m.historyIds)
    && 1 <= |m.files| <= MAX_REVISIONS + 4
    && (forall r <- m.files :: r.size <= MAX_TOTAL && (r.name.Revision? ==> r.sha == r.name.id))
    && NamesOf(m.files) == RetirementOrder(NameSet(NamesOf(m.files)), if Listed(m.files) then m.historyIds else [])
    && (Listed(m.files) ==> m.action == RemoveUntouchedMarker)
    && m.files[|m.files| - 1].sha == m.markerSha
    && id == BatchId(m.markerSha, m.files[|m.files| - 1].ino, m.files[|m.files| - 1].ctime)
  }

  function RecordOf(n: Name, f: File): Record {
    Record(n, Sha256(f.content), f.ino, f.ctime, Size(f.content))
  }

  function RecordsFor(live: map<Name, File>, names: seq<Name>): (files: seq<Record>)
    requires forall n <- names :: n in live
    ensures |files| == |names|
    ensures forall i :: 0 <= i < |names| ==> files[i] == RecordOf(names[i], live[names[i]])
  {
    seq(|names|, i requires 0 <= i < |names| => RecordOf(names[i], live[names[i]]))
  }

  /** The files one recovery retires.  Only the rollback of a restoration
      retires revisions. */
  function Selection(live: map<Name, File>, plan: Plan): seq<Name> {
    RetirementOrder(live.Keys, if RollsBack(plan) then plan.history else [])
  }

  predicate RollsBack(plan: Plan) { plan.restoring != [] && plan.action == RemoveUntouchedMarker }

  function Prepare(live: map<Name, File>, plan: Plan): (r: Option<Content>)
    ensures r.Some? ==> r.value.Manifest?
  {
    var names := Selection(live, plan);
    if forall n <- names :: n in live && Size(live[n].content) <= MAX_TOTAL then
      Some(Manifest(Sha256(plan.marker), Sha256(plan.candidate), plan.action, plan.history, RecordsFor(live, names)))
    else None
  }

  predicate Match(f: File, r: Record, moved: bool) {
    && f.ino == r.ino
    && (moved || f.ctime == r.ctime)
    && Sha256(f.content) == r.sha
    && Size(f.content) == r.size <= MAX_TOTAL
  }

  // ----- reading one batch --------------------------------------------------

  /** What a reader who knows the pending plan may accept beyond a complete
      batch: the manifest it would write and the candidate it would publish. */
  datatype Hint = NoHint | Hint(expected: Option<Content>, candidate: Option<Content>)

  datatype Loaded = Bad | Empty | Holding(manifest: Content)

  predicate EntriesAllowed(b: Batch, m: Content)
    requires m.Manifest?
  {
    forall e <- b :: e in {PlanJson, PlanTmp, CandidateTmp, CandidatePublish}
                     || (e.Archived? && e.name in NamesOf(m.files))
  }

  predicate CandidatesAllowed(b: Batch, m: Content, hint: Hint)
    requires m.Manifest?
  {
    && (CandidateTmp in b ==>
          && m.action == PublishCandidate && Size(b[CandidateTmp].content) <= MAX_TOTAL
          && (|| Sha256(b[CandidateTmp].content) == m.candidateSha
              || (hint.Hint? && hint.candidate.Some? && IsPrefix(b[CandidateTmp].content, hint.candidate.value))))
    && (CandidatePublish in b ==>
          && m.action == PublishCandidate && Size(b[CandidatePublish].content) <= MAX_TOTAL
          && Sha256(b[CandidatePublish].content) == m.candidateSha)
  }

  predicate PlansReadable(b: Batch) {
    && (PlanJson in b ==> Size(b[PlanJson].content) <= MAX_MANIFEST)
    && (PlanTmp in b ==> Size(b[PlanTmp].content) <= MAX_MANIFEST)
  }

  function Load(b: Batch, id: BatchId, hint: Hint): (r: Loaded)
    ensures r.Holding? ==> r.manifest.Manifest? && ManifestOk(r.manifest, id)
  {
    if !PlansReadable(b) then Bad
    else if hint.Hint? && b.Keys == {PlanTmp} then
      if hint.expected.Some? && IsPrefix(b[PlanTmp].content, hint.expected.value) && ManifestOk(hint.expected.value, id)
      then Holding(hint.expected.value) else Bad
    else if PlanJson !in b && PlanTmp !in b then
      if b == map[] then Empty else Bad
    else
      var m := b[if PlanJson in b then PlanJson else PlanTmp].content;
      if || (PlanJson in b && PlanTmp in b && b[PlanTmp].content != m)
         || !ManifestOk(m, id) || !EntriesAllowed(b, m) || !CandidatesAllowed(b, m, hint)
      then Bad else Holding(m)
  }

  /** A finished batch: every file its manifest names is in it. */
  predicate Complete(b: Batch, id: BatchId) {
    && |b| <= MAX_ENTRIES
    && Load(b, id, NoHint).Holding?
    && forall r <- Load(b, id, NoHint).manifest.files ::
         Archived(r.name) in b && Match(b[Archived(r.name)], r, true)
  }

  // ----- accounting ---------------------------------------------------------

  ghost function Sum<K>(m: map<K, nat>): nat {
    if m == map[] then 0 else
    var k :| k in m;
    m[k] + Sum(m - {k})
  }

  lemma {:induction false} SumWithout<K>(m: map<K, nat>, k: K)
    requires k in m
    ensures Sum(m) == m[k] + Sum(m - {k})
    decreases m
  {
    var p :| p in m && Sum(m) == m[p] + Sum(m - {p});
    if p != k {
      SumWithout(m - {p}, k);
      SumWithout(m - {k}, p);
      assert m - {p} - {k} == m - {k} - {p};
    }
  }

  lemma SumWith<K>(m: map<K, nat>, k: K, v: nat)
    ensures Sum(m[k := v]) == v + Sum(m) - (if k in m then m[k] else 0)
  {
    SumWithout(m[k := v], k);
    assert m[k := v] - {k} == m - {k};
    if k in m {
      SumWithout(m, k);
    } else {
      assert m - {k} == m;
    }
  }

  ghost function Sizes(b: Batch): map<Entry, nat> { map e | e in b :: Size(b[e].content) }

  ghost function BatchBytes(b: Batch): nat { Sum(Sizes(b)) }

  ghost function RootSizes(root: map<BatchId, Batch>): map<BatchId, nat> { map i | i in root :: BatchBytes(root[i]) }

  /** Every byte the archive holds. */
  ghost function Retained(d: Disk): nat {
    if d.root.None? then 0 else Sum(RootSizes(d.root.value))
  }

  // ----- the archive as a whole ---------------------------------------------

  function BatchOf(live: map<Name, File>, plan: Plan): BatchId
    requires Marker in live
  {
    BatchId(Sha256(plan.marker), live[Marker].ino, live[Marker].ctime)
  }

  function HintFor(live: map<Name, File>, plan: Plan): Hint {
    Hint(Prepare(live, plan), if plan.action == PublishCandidate then Some(plan.candidate) else None)
  }

  /** Every batch but the pending one is complete, and the bounds hold. */
  ghost predicate OthersComplete(root: map<BatchId, Batch>, pending: Option<BatchId>) {
    && |root| <= MAX_BATCHES
    && Sum(RootSizes(root)) <= MAX_RETAINED
    && forall i <- root :: pending == Some(i) || Complete(root[i], i)
  }

  predicate AtSource(live: map<Name, File>, r: Record) { r.name in live }

  predicate AtTarget(b: Batch, r: Record) { Archived(r.name) in b }

  /** Each record is in exactly one place, the archived ones form a prefix, and
      each file is the one the manifest names. */
  predicate RecordsPlaced(live: map<Name, File>, b: Batch, files: seq<Record>) {
    && (forall i :: 0 <= i < |files| ==> AtSource(live, files[i]) != AtTarget(b, files[i]))
    && (forall i, j :: 0 <= i < j < |files| && AtTarget(b, files[j]) ==> AtTarget(b, files[i]))
    && (forall i :: 0 <= i < |files| ==>
          if AtSource(live, files[i]) then Match(live[files[i].name], files[i], false)
          else AtTarget(b, files[i]) && Match(b[Archived(files[i].name)], files[i], true))
  }

  /** A loaded manifest agrees with the plan inspection derives now. */
  predicate Agrees(live: map<Name, File>, b: Batch, m: Content, plan: Plan)
    requires m.Manifest?
  {
    && m.markerSha == Sha256(plan.marker)
    && m.candidateSha == Sha256(plan.candidate)
    && (m.action == plan.action || (m.action == PublishCandidate && plan.action == ClearMarker))
    && (if Listed(m.files)
        then plan.restoring != [] && plan.history <= m.historyIds <= plan.restoring
        else m.historyIds == plan.history)
    && (forall n <- [ProfileTmp, MarkerTmp, RevisionTmp] :: n in live ==> n in NamesOf(m.files))
    && RecordsPlaced(live, b, m.files)
  }

  ghost predicate ArchiveAccepts(d: Disk, plan: Option<Plan>)
    requires plan.Some? ==> Marker in d.live
  {
    d.root.Some? ==>
      match plan
      case None => OthersComplete(d.root.value, None)
      case Some(p) =>
        var id := BatchOf(d.live, p);
        && OthersComplete(d.root.value, Some(id))
        && (id in d.root.value ==>
              var b := d.root.value[id];
              && |b| <= MAX_ENTRIES
              && match Load(b, id, HintFor(d.live, p))
                 case Bad => false
                 case Empty => true
                 case Holding(m) => Agrees(d.live, b, m, p))
  }

  /** The full inspection: the store's own state, then the archive. */
  ghost function Inspect(d: Disk): Inspection {
    match InspectState(Contents(d.live))
    case Refused => Refused
    case Clean => if ArchiveAccepts(d, None) then Clean else Refused
    case Pending(plan) => if Marker in d.live && ArchiveAccepts(d, Some(plan)) then Pending(plan) else Refused
  }
}
