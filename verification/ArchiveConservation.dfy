/** Recovery deletes no private file: whatever was on disk is still there, or
    in a batch, or, for the one profile that is overwritten, in a revision. */
module ArchiveConservation {
  import opened Common
  import opened ProfileDocuments
  import opened ProfileInspection
  import opened InspectionSteps
  import opened ArchiveState
  import opened ManifestOrder
  import opened RecoverySteps
  import opened RecoveryProgress
  import opened RecoveryTheorems

  /** The same file, whatever its directory: same inode, same bytes. */
  predicate SameFile(f: File, g: File) { f.ino == g.ino && f.content == g.content }

  ghost predicate InBatch(f: File, n: Name, d: Disk, id: BatchId) {
    HasBatch(d, id) && Archived(n) in d.root.value[id] && SameFile(f, d.root.value[id][Archived(n)])
  }

  ghost predicate Present(f: File, n: Name, d: Disk) {
    || (n in d.live && SameFile(f, d.live[n]))
    || (exists id :: InBatch(f, n, d, id))
  }

  ghost predicate RevisionHolds(g: File, n: Name, bytes: Content, d: Disk) {
    n.Revision? && g.content.Sealed? && Raw(g.content.envelope.registry) == bytes && Present(g, n, d)
  }

  /** The file is present, or it was the profile and a revision has its bytes. */
  ghost predicate Preserved(f: File, n: Name, d: Disk) {
    || Present(f, n, d)
    || (n == Profile && exists g, r :: RevisionHolds(g, r, f.content, d))
  }

  /** Batches only gain: nothing archived is ever removed or changed. */
  lemma ArchiveGrows(d: Disk, plan: Plan, m: Content, chunk: nat, f: File, n: Name, id: BatchId)
    requires Recoverable(d, plan, m) && InBatch(f, n, d, id)
    ensures InBatch(f, n, Advance(d, plan, m, chunk), id)
  {
    hide Recoverable, NextStep;
    HasMarker(d, plan, m);
    StepFacts(d, plan, m);
    if NextStep(d, plan, m).RetireFile? || NextStep(d, plan, m) == ReleaseMarker {
      WaitingNotArchived(d, plan, m);
    }
  }

  /** The record that moves next is not in the batch already. */
  lemma WaitingNotArchived(d: Disk, plan: Plan, m: Content)
    requires Recoverable(d, plan, m)
    requires NextStep(d, plan, m).RetireFile? || NextStep(d, plan, m) == ReleaseMarker
    ensures var n := if NextStep(d, plan, m).RetireFile? then NextStep(d, plan, m).name else Marker;
            Archived(n) !in BatchAt(d, BatchOf(d.live, plan))
  {
    if NextStep(d, plan, m) == ReleaseMarker {
      OnlyMarkerWaits(d, plan, m);
    }
    hide InspectState, OthersComplete, Fits, WorksTo, ManifestOk, NextStep;
    StepFacts(d, plan, m);
    var k := Waiting(d.live, m.files, 0);
    assert AtSource(d.live, m.files[k]);
    assert !AtTarget(BatchAt(d, BatchOf(d.live, plan)), m.files[k]);
  }

  /** A step moves a file into the batch, leaves it alone, or replaces the
      profile. */
  lemma LiveKept(d: Disk, plan: Plan, m: Content, chunk: nat, n: Name)
    requires Marker in d.live && m.Manifest? && n in d.live
    requires n != Profile || NextStep(d, plan, m) !in {PublishProfile, ReplaceProfile}
    ensures Present(d.live[n], n, Advance(d, plan, m, chunk))
  {
    hide NextStep;
    StepFacts(d, plan, m);
    var d' := Advance(d, plan, m, chunk);
    var step := NextStep(d, plan, m);
    var id := BatchOf(d.live, plan);
    if step == RetireFile(n) || (step == ReleaseMarker && n == Marker) {
      assert InBatch(d.live[n], n, d', id);
    } else {
      assert n in d'.live && SameFile(d.live[n], d'.live[n]);
    }
  }

  lemma PresentKept(d: Disk, plan: Plan, m: Content, chunk: nat, f: File, n: Name)
    requires Recoverable(d, plan, m) && Present(f, n, d)
    requires n != Profile || !(n in d.live && SameFile(f, d.live[n]))
             || NextStep(d, plan, m) !in {PublishProfile, ReplaceProfile}
    ensures Present(f, n, Advance(d, plan, m, chunk))
  {
    assert Marker in d.live && m.Manifest?;
    hide Recoverable, Advance, NextStep;
    if n in d.live && SameFile(f, d.live[n]) {
      LiveKept(d, plan, m, chunk, n);
      var d' := Advance(d, plan, m, chunk);
      if !(n in d'.live && SameFile(d.live[n], d'.live[n])) {
        var id :| InBatch(d.live[n], n, d', id);
        assert InBatch(f, n, d', id);
      }
    } else {
      var id :| InBatch(f, n, d, id);
      ArchiveGrows(d, plan, m, chunk, f, n, id);
    }
  }

  /** A profile about to be overwritten is the tip of the chain before it. */
  lemma OverwrittenProfile(d: Disk, plan: Plan) returns (r: Name)
    requires InspectState(Contents(d.live)) == Pending(plan)
    requires plan.action == PublishCandidate && Profile in d.live
    ensures r in d.live && RevisionHolds(d.live[r], r, d.live[Profile].content, d)
  {
    hide ValidChain, Holds;
    var c := Contents(d.live);
    var revs := ChainOf(c, true).value;
    assert c[Marker].Transaction? && |revs| > 1;
    r := NameAt(revs, |revs| - 2);
    TipFile(c, revs, |revs| - 2);
    assert c[r] == d.live[r].content;
  }

  lemma TipFile(c: Listing, revs: seq<Envelope>, i: nat)
    requires IsChain(c, revs, true) && i < |revs|
    ensures NameAt(revs, i) in c && c[NameAt(revs, i)] == Sealed(revs[i])
  {
    hide ValidChain;
  }

  /** One step loses nothing. */
  lemma StepPreserves(d: Disk, plan: Plan, m: Content, chunk: nat, f: File, n: Name)
    requires Recoverable(d, plan, m) && Preserved(f, n, d)
    ensures Preserved(f, n, Advance(d, plan, m, chunk))
  {
    hide InspectState, OthersComplete, Fits, WorksTo, ManifestOk, Agrees, Advance, NextStep;
    var d' := Advance(d, plan, m, chunk);
    if Present(f, n, d) {
      if n == Profile && n in d.live && SameFile(f, d.live[n]) && NextStep(d, plan, m) in {PublishProfile, ReplaceProfile} {
        StepFacts(d, plan, m);
        var r := OverwrittenProfile(d, plan);
        PresentKept(d, plan, m, chunk, d.live[r], r);
        assert RevisionHolds(d.live[r], r, f.content, d');
      } else {
        PresentKept(d, plan, m, chunk, f, n);
      }
    } else {
      var g, r :| RevisionHolds(g, r, f.content, d);
      PresentKept(d, plan, m, chunk, g, r);
      assert RevisionHolds(g, r, f.content, d');
    }
  }

  /** A whole run, however often it is stopped, loses nothing. */
  lemma {:induction false} RunPreserves(ds: seq<Disk>, f: File, n: Name)
    requires IsRun(ds) && Preserved(f, n, ds[0])
    ensures forall d <- ds :: Preserved(f, n, d)
    decreases |ds|
  {
    hide Preserved, RecoveryStep;
    if |ds| > 1 {
      var rest := ds[1..];
      forall i | 0 <= i < |rest| - 1 ensures RecoveryStep(rest[i], rest[i + 1]) {
        assert RecoveryStep(ds[i + 1], ds[i + 2]);
      }
      FirstStepOf(ds);
      StepRunPreserves(ds[0], ds[1], f, n);
      RunPreserves(rest, f, n);
    }
  }

  lemma StepRunPreserves(d: Disk, d': Disk, f: File, n: Name)
    requires RecoveryStep(d, d') && Preserved(f, n, d)
    ensures Preserved(f, n, d')
  {
    hide Preserved, Recoverable, Advance;
    var plan, m, chunk :| StepsBy(d, d', plan, m, chunk);
    StepPreserves(d, plan, m, chunk, f, n);
  }
}
