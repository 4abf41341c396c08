/** What an inspection that does not refuse says of every recovery that is over,
    in terms of the files it left, and that no damage to them goes unnoticed. */
module FinishedBatches {
  import opened Common
  import opened ProfileDocuments
  import opened ProfileInspection
  import opened ArchiveState
  import opened ManifestOrder

  /** The batch is one of a recovery that is over. */
  ghost predicate IsOver(d: Disk, id: BatchId) {
    && d.root.Some? && id in d.root.value
    && match Inspect(d)
       case Refused => false
       case Clean => true
       case Pending(plan) => Marker in d.live && id != BatchOf(d.live, plan)
  }

  /** The plan a batch is read by. */
  function PlanIn(b: Batch): Option<Content> {
    if PlanJson in b then Some(b[PlanJson].content) else if PlanTmp in b then Some(b[PlanTmp].content) else None
  }

  lemma IsOverComplete(d: Disk, id: BatchId)
    requires IsOver(d, id)
    ensures d.root.Some? && id in d.root.value && Complete(d.root.value[id], id)
  {
    hide InspectState, Complete, Agrees, Load;
  }

  /** Every file the manifest names is there as it was, and nothing else but
      the manifest and what a recovery publishes from; the marker is the last
      and names the batch. */
  predicate Whole(b: Batch, id: BatchId, files: seq<Record>) {
    && (forall r <- files ::
          && Archived(r.name) in b && b[Archived(r.name)].ino == r.ino
          && Sha256(b[Archived(r.name)].content) == r.sha && Size(b[Archived(r.name)].content) == r.size)
    && (forall e <- b :: !e.Stray? && (e.Archived? ==> exists r <- files :: r.name == e.name))
    && files != [] && files[|files| - 1].name == Marker
    && id == BatchId(files[|files| - 1].sha, files[|files| - 1].ino, files[|files| - 1].ctime)
  }

  /** Every recovery that is over has its manifest, and every file the manifest
      names. */
  lemma OverIsWhole(d: Disk, id: BatchId)
    requires IsOver(d, id)
    ensures var b := d.root.value[id];
            && PlanIn(b).Some? && PlanIn(b).value.Manifest? && (PlanTmp in b ==> b[PlanTmp].content == PlanIn(b).value)
            && PlanIn(b).value.markerSha == id.marker
            && Whole(b, id, PlanIn(b).value.files)
  {
    hide Inspect, IsOver, Complete, Whole, PlanIn;
    IsOverComplete(d, id);
    CompleteReads(d.root.value[id], id);
    CompleteWhole(d.root.value[id], id, PlanIn(d.root.value[id]).value);
  }

  lemma CompleteReads(b: Batch, id: BatchId)
    requires Complete(b, id)
    ensures PlanIn(b).Some? && PlanIn(b).value.Manifest? && (PlanTmp in b ==> b[PlanTmp].content == PlanIn(b).value)
    ensures ManifestOk(PlanIn(b).value, id) && EntriesAllowed(b, PlanIn(b).value) && PlanIn(b).value.markerSha == id.marker
    ensures forall r <- PlanIn(b).value.files :: Archived(r.name) in b && Match(b[Archived(r.name)], r, true)
  {
    assert ManifestOk(PlanIn(b).value, id);
  }

  lemma CompleteWhole(b: Batch, id: BatchId, m: Content)
    requires ManifestOk(m, id) && EntriesAllowed(b, m)
    requires forall r <- m.files :: Archived(r.name) in b && Match(b[Archived(r.name)], r, true)
    ensures Whole(b, id, m.files)
  {
    ManifestMembers(m, id, Marker);
    hide RetirementOrder;
    assert NamesOf(m.files)[|m.files| - 1] == m.files[|m.files| - 1].name;
    forall e | e in b ensures !e.Stray? && (e.Archived? ==> exists r <- m.files :: r.name == e.name) {
      if e.Archived? {
        RecordNamed(m.files, e.name);
      }
    }
  }

  lemma RecordNamed(files: seq<Record>, n: Name)
    requires n in NamesOf(files)
    ensures exists r <- files :: r.name == n
  {
    var k :| 0 <= k < |files| && NamesOf(files)[k] == n;
    assert files[k] in files;
  }

  /** The batch with one archived file gone, or another in its place. */
  function Damaged(b: Batch, n: Name, f: Option<File>): Batch {
    match f
    case None => b - {Archived(n)}
    case Some(file) => b[Archived(n) := file]
  }

  /** The other file is not the one that was archived. */
  predicate Differs(was: File, f: Option<File>) {
    match f
    case None => true
    case Some(file) => file.ino != was.ino || Sha256(file.content) != Sha256(was.content) || Size(file.content) != Size(was.content)
  }

  lemma DamagedIncomplete(b: Batch, id: BatchId, n: Name, f: Option<File>)
    requires Complete(b, id) && Archived(n) in b && Differs(b[Archived(n)], f)
    ensures !Complete(Damaged(b, n, f), id)
  {
    hide ManifestOk;
    var m := Load(b, id, NoHint).manifest;
    RecordNamed(m.files, n);
    var r :| r in m.files && r.name == n;
    var b' := Damaged(b, n, f);
    assert PlanIn(b') == PlanIn(b) == Some(m);
    if Load(b', id, NoHint).Holding? {
      assert Load(b', id, NoHint).manifest == m;
      assert Match(b[Archived(n)], r, true);
    }
  }

  /** A file of a recovery that is over cannot be removed, replaced by another
      file, or overwritten by other bytes without the store being refused. */
  lemma DamageRefused(d: Disk, id: BatchId, n: Name, f: Option<File>)
    requires IsOver(d, id) && Archived(n) in d.root.value[id] && Differs(d.root.value[id][Archived(n)], f)
    ensures Inspect(d.(root := Some(d.root.value[id := Damaged(d.root.value[id], n, f)]))) == Refused
  {
    IsOverComplete(d, id);
    DamagedIncomplete(d.root.value[id], id, n, f);
    hide InspectState, Complete, Agrees, Load, Damaged, Differs;
    var root' := d.root.value[id := Damaged(d.root.value[id], n, f)];
    assert id in root' && !Complete(root'[id], id);
  }

  /** Neither can its manifest be lost. */
  lemma LostPlanRefused(d: Disk, id: BatchId)
    requires IsOver(d, id)
    ensures Inspect(d.(root := Some(d.root.value[id := d.root.value[id] - {PlanJson, PlanTmp}]))) == Refused
  {
    var b := d.root.value[id] - {PlanJson, PlanTmp};
    assert !Complete(b, id) by {
      hide Inspect, IsOver, ManifestOk;
    }
    hide InspectState, Complete, Agrees, Load;
    var root' := d.root.value[id := b];
    assert id in root' && !Complete(root'[id], id);
  }
}
