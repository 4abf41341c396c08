/** Reading one batch of the archive back, step by step: its manifest, the
    entries beside it, and each file against its record. */
module BatchReader {
  import opened Common
  import opened ProfileDocuments
  import opened ProfileInspection
  import opened InspectionSteps
  import opened ArchiveState
  import opened ManifestOrder

  /** Reads a file against its record. */
  method CheckFile(f: File, r: Record, moved: bool) returns (ok: bool)
    ensures ok <==> Match(f, r, moved)
  {
    if Size(f.content) > MAX_TOTAL || f.ino != r.ino || Size(f.content) != r.size {
      return false;
    }
    if !moved && f.ctime != r.ctime {
      return false;
    }
    ok := Sha256(f.content) == r.sha;
  }

  // ----- the manifest -------------------------------------------------------

  /** The identities must be few enough and no two alike. */
  method CheckIds(ids: seq<Digest>) returns (ok: bool)
    ensures ok <==> |ids| <= MAX_REVISIONS && Distinct(ids)
  {
    if |ids| > MAX_REVISIONS {
      return false;
    }
    var seen: set<Digest> := {};
    var k := 0;
    while k < |ids|
      invariant k <= |ids| && seen == (set i | 0 <= i < k :: ids[i])
      invariant Distinct(ids[..k])
    {
      if ids[k] in seen {
        return false;
      }
      assert ids[..k + 1] == ids[..k] + [ids[k]];
      seen := seen + {ids[k]};
      k := k + 1;
    }
    assert ids[..k] == ids;
    ok := true;
  }

  /** What a record of a manifest may name, and what it must say of a revision. */
  predicate RecordFits(r: Record, ids: seq<Digest>) {
    && (r.name in {ProfileTmp, MarkerTmp, RevisionTmp, Marker} || (IsRevisionOf(r.name, ids) && r.sha == r.name.id))
    && r.size <= MAX_TOTAL
  }

  /** Reads the records one by one, noting the names. */
  method CheckRecords(files: seq<Record>, ids: seq<Digest>) returns (ok: bool, seen: set<Name>)
    ensures ok <==> (forall r <- files :: RecordFits(r, ids)) && Distinct(NamesOf(files))
    ensures ok ==> seen == NameSet(NamesOf(files))
  {
    hide RecordFits;
    seen := {};
    var k := 0;
    while k < |files|
      invariant k <= |files| && seen == (set i | 0 <= i < k :: files[i].name)
      invariant forall i :: 0 <= i < k ==> RecordFits(files[i], ids)
      invariant forall i, j :: 0 <= i < j < k ==> files[i].name != files[j].name
    {
      if !RecordFits(files[k], ids) || files[k].name in seen {
        assert files[k] in files && NamesOf(files)[k] == files[k].name;
        return false, seen;
      }
      seen := seen + {files[k].name};
      k := k + 1;
    }
    ok := true;
    assert forall i :: 0 <= i < |files| ==> NamesOf(files)[i] == files[i].name;
  }

  /** The revisions that were seen, last to first. */
  method SeenRevisions(ids: seq<Digest>, seen: set<Name>) returns (found: seq<Name>)
    ensures |found| <= |ids|
    ensures found == [] <==> forall i :: 0 <= i < |ids| ==> Revision(i + 1, ids[i]) !in seen
    ensures |found| == |ids| ==> found == RevisionNames(ids)
    ensures |found| == |ids| <==> forall i :: 0 <= i < |ids| ==> Revision(i + 1, ids[i]) in seen
  {
    found := [];
    var k := |ids|;
    while k > 0
      invariant 0 <= k <= |ids| && |found| <= |ids| - k
      invariant found == [] <==> forall i :: k <= i < |ids| ==> Revision(i + 1, ids[i]) !in seen
      invariant |found| == |ids| - k ==>
                  forall j :: 0 <= j < |found| ==> found[j] == Revision(|ids| - j, ids[|ids| - 1 - j])
      invariant |found| == |ids| - k <==> forall i :: k <= i < |ids| ==> Revision(i + 1, ids[i]) in seen
    {
      k := k - 1;
      if Revision(k + 1, ids[k]) in seen {
        found := found + [Revision(k + 1, ids[k])];
      }
    }
  }

  /** Reads a manifest: its identities, its records, the order they stand in,
      and the marker at their end. */
  method ParseManifest(m: Content, id: BatchId) returns (ok: bool)
    ensures ok <==> ManifestOk(m, id)
  {
    hide RecordFits, Distinct, RetirementOrder;
    if !m.Manifest? || !(1 <= |m.files| <= MAX_REVISIONS + 4) {
      return false;
    }
    var unique := CheckIds(m.historyIds);
    if !unique {
      return false;
    }
    var seen;
    ok, seen := CheckRecords(m.files, m.historyIds);
    RecordsFit(m, id);
    if !ok {
      return;
    }
    var archived := SeenRevisions(m.historyIds, seen);
    SeenListed(m, archived);
    if archived != [] && (m.action != RemoveUntouchedMarker || |archived| != |m.historyIds|) {
      ListsAll(m, id, archived);
      return false;
    }
    var last := m.files[|m.files| - 1];
    ok := NamesOf(m.files) == TempNames(seen) + archived + [Marker] && last.sha == m.markerSha
          && id == BatchId(last.sha, last.ino, last.ctime);
    OrderIs(m, archived);
    ParsedIs(m, id, last);
  }

  /** A manifest in order passes the reading of its records. */
  lemma RecordsFit(m: Content, id: BatchId)
    requires m.Manifest?
    ensures ManifestOk(m, id) ==> (forall r <- m.files :: RecordFits(r, m.historyIds)) && Distinct(NamesOf(m.files))
    ensures (forall r <- m.files :: RecordFits(r, m.historyIds)) ==>
              forall r <- m.files :: r.size <= MAX_TOTAL && (r.name.Revision? ==> r.sha == r.name.id && IsRevisionOf(r.name, m.historyIds))
  {
    if ManifestOk(m, id) {
      ManifestNamesDistinct(m, id);
      forall r | r in m.files ensures RecordFits(r, m.historyIds) {
        var i :| 0 <= i < |m.files| && m.files[i] == r;
        assert NamesOf(m.files)[i] == r.name;
        ManifestMembers(m, id, r.name);
      }
    }
  }

  /** Revisions were seen exactly where some are recorded. */
  lemma SeenListed(m: Content, archived: seq<Name>)
    requires m.Manifest? && forall r <- m.files :: RecordFits(r, m.historyIds)
    requires archived == [] <==>
             forall i :: 0 <= i < |m.historyIds| ==> Revision(i + 1, m.historyIds[i]) !in NameSet(NamesOf(m.files))
    ensures Listed(m.files) <==> archived != []
  {
    if Listed(m.files) {
      var r :| r in m.files && r.name.Revision?;
      var k :| 0 <= k < |m.files| && m.files[k] == r;
      assert NamesOf(m.files)[k] == r.name && IsRevisionOf(r.name, m.historyIds);
      assert Revision((r.name.sequence - 1) + 1, m.historyIds[r.name.sequence - 1]) == r.name;
    }
    if archived != [] {
      var i :| 0 <= i < |m.historyIds| && Revision(i + 1, m.historyIds[i]) in NameSet(NamesOf(m.files));
      var k :| 0 <= k < |m.files| && NamesOf(m.files)[k] == Revision(i + 1, m.historyIds[i]);
      assert m.files[k].name.Revision?;
    }
  }

  lemma ListsAll(m: Content, id: BatchId, archived: seq<Name>)
    requires m.Manifest? && Listed(m.files) && |archived| <= |m.historyIds|
    requires |archived| == |m.historyIds| <==>
             forall i :: 0 <= i < |m.historyIds| ==> Revision(i + 1, m.historyIds[i]) in NameSet(NamesOf(m.files))
    requires m.action != RemoveUntouchedMarker || |archived| != |m.historyIds|
    ensures !ManifestOk(m, id)
  {
    if ManifestOk(m, id) {
      forall i | 0 <= i < |m.historyIds| ensures Revision(i + 1, m.historyIds[i]) in NameSet(NamesOf(m.files)) {
        ManifestMembers(m, id, Revision(i + 1, m.historyIds[i]));
      }
    }
  }

  lemma OrderIs(m: Content, archived: seq<Name>)
    requires m.Manifest? && (Listed(m.files) <==> archived != [])
    requires |archived| == |m.historyIds| ==> archived == RevisionNames(m.historyIds)
    requires archived != [] ==> |archived| == |m.historyIds|
    ensures TempNames(NameSet(NamesOf(m.files))) + archived + [Marker]
            == RetirementOrder(NameSet(NamesOf(m.files)), if Listed(m.files) then m.historyIds else [])
  {
  }

  lemma ParsedIs(m: Content, id: BatchId, last: Record)
    requires m.Manifest? && 1 <= |m.files| <= MAX_REVISIONS + 4 && last == m.files[|m.files| - 1]
    requires |m.historyIds| <= MAX_REVISIONS && Distinct(m.historyIds)
    requires forall r <- m.files :: r.size <= MAX_TOTAL && (r.name.Revision? ==> r.sha == r.name.id)
    requires Listed(m.files) ==> m.action == RemoveUntouchedMarker
    ensures ManifestOk(m, id) <==>
            && NamesOf(m.files) == RetirementOrder(NameSet(NamesOf(m.files)), if Listed(m.files) then m.historyIds else [])
            && last.sha == m.markerSha && id == BatchId(last.sha, last.ino, last.ctime)
  {
  }

  // ----- one batch ----------------------------------------------------------

  /** No entry may stand beside a manifest that it does not account for. */
  method CheckEntries(b: Batch, m: Content) returns (ok: bool)
    requires m.Manifest?
    ensures ok <==> EntriesAllowed(b, m)
  {
    var known := {PlanJson, PlanTmp, CandidateTmp, CandidatePublish} + set r | r in m.files :: Archived(r.name);
    forall e ensures e in known <==> (e in {PlanJson, PlanTmp, CandidateTmp, CandidatePublish}
                                      || (e.Archived? && e.name in NamesOf(m.files))) {
      KnownEntry(m, e);
    }
    ok := b.Keys - known == {};
    if ok {
      forall e | e in b ensures e in known {
        assert e !in b.Keys - known;
      }
    } else {
      var e :| e in b.Keys - known;
      assert e in b;
    }
  }

  lemma KnownEntry(m: Content, e: Entry)
    requires m.Manifest?
    ensures e in (set r | r in m.files :: Archived(r.name)) <==> e.Archived? && e.name in NamesOf(m.files)
  {
    if e.Archived? && e.name in NamesOf(m.files) {
      var k :| 0 <= k < |m.files| && NamesOf(m.files)[k] == e.name;
      assert m.files[k] in m.files && Archived(m.files[k].name) == e;
    }
    if r :| r in m.files && Archived(r.name) == e {
      var k :| 0 <= k < |m.files| && m.files[k] == r;
      assert NamesOf(m.files)[k] == e.name;
    }
  }

  /** A candidate is what the manifest is about, whole; one that was being
      written may be a prefix of what the pending plan would publish. */
  method CheckCandidates(b: Batch, m: Content, hint: Hint) returns (ok: bool)
    requires m.Manifest?
    ensures ok <==> CandidatesAllowed(b, m, hint)
  {
    if CandidateTmp in b {
      var data := b[CandidateTmp].content;
      if Size(data) > MAX_TOTAL || m.action != PublishCandidate {
        return false;
      }
      if Sha256(data) != m.candidateSha && (hint.NoHint? || hint.candidate.None? || !IsPrefix(data, hint.candidate.value)) {
        return false;
      }
    }
    if CandidatePublish in b {
      var data := b[CandidatePublish].content;
      if Size(data) > MAX_TOTAL || m.action != PublishCandidate || Sha256(data) != m.candidateSha {
        return false;
      }
    }
    ok := true;
  }

  /** Reads a batch.  Before anything was moved a plan that is only staged may
      be a prefix of the manifest the pending plan would write. */
  method LoadBatch(b: Batch, id: BatchId, hint: Hint) returns (r: Loaded)
    ensures r == Load(b, id, hint)
  {
    hide ManifestOk, EntriesAllowed, CandidatesAllowed;
    if PlanJson in b && Size(b[PlanJson].content) > MAX_MANIFEST {
      return Bad;
    }
    if PlanTmp in b && Size(b[PlanTmp].content) > MAX_MANIFEST {
      return Bad;
    }
    if PlanJson !in b && PlanTmp in b && hint.Hint? && b.Keys == {PlanTmp} {
      if hint.expected.None? || !IsPrefix(b[PlanTmp].content, hint.expected.value) {
        return Bad;
      }
      var parsed := ParseManifest(hint.expected.value, id);
      return if parsed then Holding(hint.expected.value) else Bad;
    }
    if PlanJson !in b && PlanTmp !in b {
      return if b == map[] then Empty else Bad;
    }
    var m := b[if PlanJson in b then PlanJson else PlanTmp].content;
    if PlanTmp in b && b[PlanTmp].content != m {
      return Bad;
    }
    var ok := ParseManifest(m, id);
    if !ok {
      return Bad;
    }
    IsManifest(m, id);
    ok := CheckEntries(b, m);
    if !ok {
      return Bad;
    }
    ok := CheckCandidates(b, m, hint);
    r := if ok then Holding(m) else Bad;
  }

  lemma IsManifest(m: Content, id: BatchId)
    requires ManifestOk(m, id)
    ensures m.Manifest?
  {
  }

  predicate Filed(b: Batch, r: Record) { Archived(r.name) in b && Match(b[Archived(r.name)], r, true) }

  /** Finds every recorded file in the batch. */
  method CheckFiled(b: Batch, files: seq<Record>) returns (ok: bool)
    ensures ok <==> forall r <- files :: Filed(b, r)
  {
    hide Match;
    var k := 0;
    while k < |files|
      invariant k <= |files|
      invariant forall i :: 0 <= i < k ==> Filed(b, files[i])
    {
      if Archived(files[k].name) !in b {
        assert !Filed(b, files[k]);
        return false;
      }
      ok := CheckFile(b[Archived(files[k].name)], files[k], true);
      if !ok {
        assert !Filed(b, files[k]);
        return;
      }
      k := k + 1;
    }
    ok := true;
  }

  /** A finished batch holds every file its manifest names. */
  method ReadFinished(b: Batch, id: BatchId) returns (ok: bool)
    ensures ok <==> Complete(b, id)
  {
    hide *;
    CompleteIs(b, id);
    if |b| > MAX_ENTRIES {
      return false;
    }
    var loaded := LoadBatch(b, id, NoHint);
    if !loaded.Holding? {
      return false;
    }
    LoadedManifest(b, id, NoHint);
    ok := CheckFiled(b, loaded.manifest.files);
  }

  lemma LoadedManifest(b: Batch, id: BatchId, hint: Hint)
    ensures Load(b, id, hint).Holding? ==> Load(b, id, hint).manifest.Manifest?
  {
  }

  lemma CompleteIs(b: Batch, id: BatchId)
    ensures Load(b, id, NoHint).Holding? ==> Load(b, id, NoHint).manifest.Manifest?
    ensures Complete(b, id) <==>
            && |b| <= MAX_ENTRIES && Load(b, id, NoHint).Holding?
            && forall r <- Load(b, id, NoHint).manifest.files :: Filed(b, r)
  {
    hide Load, Match, ManifestOk;
  }

  // ----- the pending batch --------------------------------------------------

  /** Each record's file is live or archived, never both; once one waits so do
      all after it. */
  method CheckPlaces(live: map<Name, File>, b: Batch, files: seq<Record>) returns (ok: bool)
    ensures ok <==> RecordsPlaced(live, b, files)
  {
    hide Match;
    var waiting := false;
    var k := 0;
    while k < |files|
      invariant k <= |files|
      invariant forall i :: 0 <= i < k ==> AtSource(live, files[i]) != AtTarget(b, files[i])
      invariant forall i, j :: 0 <= i < j < k && AtTarget(b, files[j]) ==> AtTarget(b, files[i])
      invariant waiting <==> exists i :: 0 <= i < k && AtSource(live, files[i])
      invariant forall i :: 0 <= i < k ==>
                  if AtSource(live, files[i]) then Match(live[files[i].name], files[i], false)
                  else AtTarget(b, files[i]) && Match(b[Archived(files[i].name)], files[i], true)
    {
      var r := files[k];
      var atSource, atTarget := r.name in live, Archived(r.name) in b;
      assert atSource == AtSource(live, files[k]) && atTarget == AtTarget(b, files[k]);
      if atSource == atTarget || (atTarget && waiting) {
        return false;
      }
      waiting := waiting || atSource;
      if atSource {
        ok := CheckFile(live[r.name], r, false);
      } else {
        ok := CheckFile(b[Archived(r.name)], r, true);
      }
      if !ok {
        return;
      }
      k := k + 1;
    }
    ok := true;
  }

  /** The manifest found must be about the plan at hand. */
  method CheckPending(live: map<Name, File>, b: Batch, m: Content, plan: Plan) returns (ok: bool)
    requires m.Manifest?
    ensures ok <==> Agrees(live, b, m, plan)
  {
    hide RecordsPlaced;
    if m.markerSha != Sha256(plan.marker) || m.candidateSha != Sha256(plan.candidate) {
      return false;
    }
    if m.action != plan.action && !(m.action == PublishCandidate && plan.action == ClearMarker) {
      return false;
    }
    var revisions := exists r <- m.files :: r.name.Revision?;
    if revisions && (plan.restoring == [] || !(plan.history <= m.historyIds) || !(m.historyIds <= plan.restoring)) {
      return false;
    }
    if !revisions && m.historyIds != plan.history {
      return false;
    }
    var temporaries := [ProfileTmp, MarkerTmp, RevisionTmp];
    var k := 0;
    while k < |temporaries|
      invariant k <= |temporaries|
      invariant forall i :: 0 <= i < k ==> temporaries[i] in live ==> temporaries[i] in NamesOf(m.files)
    {
      if temporaries[k] in live && temporaries[k] !in NamesOf(m.files) {
        return false;
      }
      k := k + 1;
    }
    ok := CheckPlaces(live, b, m.files);
  }
}
