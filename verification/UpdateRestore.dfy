/** Undoing a publication: every target back, then the temporaries, then the
    directories deepest first, then the record. */
module UpdateRestore {
  import opened Common
  import opened FileTree
  import opened UpdateTree
  import opened UpdateFiles

  /** Every state gained on the way is one that can be undone or is finished. */
  ghost predicate Points(before: seq<World>, after: seq<World>, changes: seq<Change>, t0: Tree) {
    before <= after && forall i :: |before| <= i < |after| ==> Atomic(after[i], changes, t0)
  }

  /** Every state gained while cleaning up has only the record's names left. */
  ghost predicate Cleaning(before: seq<World>, after: seq<World>, r: UndoRecord, t0: Tree, record: Option<UndoRecord>) {
    before <= after && forall i :: |before| <= i < |after| ==> after[i].record == record && Cleanable(after[i].tree, r, t0)
  }

  /** The paths a record may hold. */
  predicate PathsOk(r: UndoRecord) {
    && (forall s <- r.files :: s.path != [] && Visible(s.path))
    && (forall d <- r.directories :: d != [])
  }

  lemma PointsJoin(a: seq<World>, b: seq<World>, c: seq<World>, changes: seq<Change>, t0: Tree)
    requires Points(a, b, changes, t0) && Points(b, c, changes, t0)
    ensures Points(a, c, changes, t0)
  {
    hide Atomic;
    forall i | |a| <= i < |c| ensures Atomic(c[i], changes, t0) {
      if i < |b| {
        assert c[i] == b[i];
      }
    }
  }

  lemma CleaningNothing(trace: seq<World>, r: UndoRecord, t0: Tree, record: Option<UndoRecord>)
    ensures Cleaning(trace, trace, r, t0, record)
  {
  }

  lemma CleaningMore(before: seq<World>, after: seq<World>, r: UndoRecord, t0: Tree, w: World)
    requires Cleaning(before, after, r, t0, w.record) && Cleanable(w.tree, r, t0)
    ensures Cleaning(before, after + [w], r, t0, w.record)
  {
    hide Cleanable;
  }

  lemma CleaningPoints(before: seq<World>, after: seq<World>, r: UndoRecord, changes: seq<Change>, t0: Tree)
    requires Cleaning(before, after, r, t0, Some(r))
    requires ChangesOk(t0, changes) && PrefixFree(changes) && Records(r, changes, t0)
    ensures Points(before, after, changes, t0)
  {
    hide Cleanable, ChangesOk, PrefixFree, Records, Atomic;
    forall i | |before| <= i < |after| ensures Atomic(after[i], changes, t0) {
      assert after[i].record == Some(r) && Cleanable(after[i].tree, r, t0);
      CleanableUndoes(after[i].tree, r, changes, t0);
      assert after[i] == World(after[i].tree, Some(r));
    }
  }

  /** With its temporary beside it, a target that is no directory can be
      replaced unless the system refuses. */
  lemma OnlyRefused(was: Tree, t: Tree, temporary: Path, target: Path)
    requires temporary !in was && PartWritten(was, t, temporary) && IsDir(was, Parent(target)) && target != [] && temporary != target
    ensures temporary in t && t[temporary].File? && IsDir(t, Parent(target))
    ensures !IsDir(was, target) ==> !(target in t && t[target].Dir?)
  {
  }

  class Restorer {
    const repository: Repository

    constructor (repository: Repository)
      ensures this.repository == repository
    {
      this.repository := repository;
    }

    /** Removes what is left of the temporaries. */
    method RemoveTemporaries(temporaries: seq<Path>, ghost r: UndoRecord, ghost t0: Tree) returns (ok: bool)
      requires repository.Valid()
      modifies repository`tree, repository`record, repository`trace, repository`refusals, repository`next
      ensures repository.Valid() && repository.record == old(repository.record)
      ensures repository.refusals >= old(repository.refusals) && old(repository.trace) <= repository.trace
      ensures temporaries <= r.temporaries && old(Cleanable(repository.tree, r, t0)) ==>
                && Cleanable(repository.tree, r, t0)
                && Cleaning(old(repository.trace), repository.trace, r, t0, repository.record)
                && (ok || repository.refusals > old(repository.refusals))
      ensures ok ==> forall p <- temporaries :: p !in repository.tree
    {
      hide Cleanable, Cleaning, Rooted, StampedBelow;
      CleaningNothing(repository.trace, r, t0, repository.record);
      ghost var good := temporaries <= r.temporaries && Cleanable(repository.tree, r, t0);
      var k := 0;
      while k < |temporaries|
        invariant k <= |temporaries| && repository.Valid() && repository.record == old(repository.record)
        invariant repository.refusals >= old(repository.refusals) && old(repository.trace) <= repository.trace
        invariant good ==> Cleanable(repository.tree, r, t0)
        invariant good ==> Cleaning(old(repository.trace), repository.trace, r, t0, repository.record)
        invariant forall j :: 0 <= j < k ==> temporaries[j] !in repository.tree
      {
        ghost var sofar := repository.trace;
        if good {
          assert temporaries[k] == r.temporaries[k];
          CleanableFile(repository.tree, r, t0, temporaries[k]);
          CleanableStep(repository.tree, r, t0, temporaries[k]);
        }
        var result := repository.Unlink(temporaries[k]);
        if result.Failed? {
          return false;
        }
        if good && result.Succeeded? {
          CleaningMore(old(repository.trace), sofar, r, t0, repository.Now());
        }
        k := k + 1;
      }
      ok := true;
    }

    /** Removes the directories, deepest first; one already gone is passed over
        and one that will not go stops it. */
    method RemoveDirectories(directories: seq<Path>, ghost r: UndoRecord, ghost t0: Tree) returns (ok: bool)
      requires repository.Valid() && forall d <- directories :: d != []
      modifies repository`tree, repository`record, repository`trace, repository`refusals, repository`next
      ensures repository.Valid() && repository.record == old(repository.record)
      ensures repository.refusals >= old(repository.refusals) && old(repository.trace) <= repository.trace
      ensures directories == r.directories && old(Cleanable(repository.tree, r, t0)) ==>
                && Cleanable(repository.tree, r, t0)
                && Cleaning(old(repository.trace), repository.trace, r, t0, repository.record)
                && ((forall p <- r.temporaries :: p !in old(repository.tree)) ==>
                      if ok then Back(repository.tree, t0) else repository.refusals > old(repository.refusals))
    {
      hide Cleanable, Cleaning, Rooted, StampedBelow, Back, IsDir;
      CleaningNothing(repository.trace, r, t0, repository.record);
      ghost var good := directories == r.directories && Cleanable(repository.tree, r, t0);
      ghost var bare := forall p <- r.temporaries :: p !in repository.tree;
      var left := set d | d in directories;
      while left != {}
        invariant left <= (set d | d in directories) && repository.Valid() && repository.record == old(repository.record)
        invariant repository.refusals >= old(repository.refusals) && old(repository.trace) <= repository.trace
        invariant good ==> Cleanable(repository.tree, r, t0)
        invariant good ==> Cleaning(old(repository.trace), repository.trace, r, t0, repository.record)
        invariant forall d <- directories :: d in left || d !in repository.tree
        invariant bare ==> forall p <- r.temporaries :: p !in repository.tree
        decreases |left|
      {
        ghost var sofar := repository.trace;
        DeepestExists(left);
        var d :| d in left && forall e <- left :: |e| <= |d|;
        if good {
          CleanableDirectory(repository.tree, r, t0, d);
          CleanableStep(repository.tree, r, t0, d);
          if bare {
            DeepestEmpty(repository.tree, r, t0, d, left);
          }
        }
        var result := repository.Rmdir(d);
        if result.Failed? {
          return false;
        }
        if good && result.Succeeded? {
          CleaningMore(old(repository.trace), sofar, r, t0, repository.Now());
        }
        left := left - {d};
      }
      ok := true;
      if good && bare {
        CleanedBack(repository.tree, r, t0);
      }
    }

    /** Brings one target that was there back, through a temporary beside it. */
    method RestorePresent(s: Saved, ghost r: UndoRecord, ghost changes: seq<Change>, ghost t0: Tree) returns (ok: bool)
      requires repository.Valid() && repository.record == Some(r) && s.path != [] && Visible(s.path)
      requires s.Present? && s in r.files
      modifies repository`tree, repository`record, repository`trace, repository`refusals, repository`next
      ensures repository.Valid() && repository.record == Some(r)
      ensures repository.refusals >= old(repository.refusals) && old(repository.trace) <= repository.trace
      ensures old(Undoing(repository.tree, r, changes, t0)) && IsTarget(changes, s.path) && s.path in t0 ==>
                && Undoing(repository.tree, r, changes, t0)
                && Points(old(repository.trace), repository.trace, changes, t0)
                && (ok || repository.refusals > old(repository.refusals))
      ensures ok ==> NodeAt(repository.tree, s.path) == Some(File(s.bytes, s.mode))
      ensures !ok && (repository.refusals == old(repository.refusals)
                      || (repository.refusals == old(repository.refusals) + 1 && !IsDir(old(repository.tree), s.path))) ==>
                repository.tree == old(repository.tree)
      ensures ok ==> forall q :: q != s.path && Visible(q) ==> NodeAt(repository.tree, q) == NodeAt(old(repository.tree), q)
      ensures DirectoriesKept(old(repository.tree), repository.tree)
      ensures Keeping(old(repository.trace), repository.trace, old(repository.tree), Some(r))
    {
      hide Undoing, Points, Rooted, StampedBelow, Visible, IsDir, Atomic, DirectoriesKept, Staging, PartWritten, IsTarget, Keeping;
      ghost var before, was := repository.trace, repository.tree;
      ghost var good := Undoing(was, r, changes, t0) && IsTarget(changes, s.path) && s.path in t0;
      var temporary;
      ok, temporary := repository.StageTemporary(Parent(s.path), s.bytes, s.mode);
      ghost var written, sofar := repository.tree, repository.trace;
      FreshHidden(temporary, Parent(s.path), old(repository.next));
      StagingKeeps(before, sofar, was, written, temporary, repository.record);
      if good {
        ParentStays0(was, r, changes, t0, s.path);
        StagingUndoes(before, sofar, was, written, r, changes, t0, temporary, s.path);
      }
      if !ok {
        return;
      }
      if good {
        ParentStays0(written, r, changes, t0, s.path);
        NotDirectory(written, r, changes, t0, s.path);
      }
      OnlyRefused(was, written, temporary, s.path);
      AllKept(was);
      WrittenUnlinks(was, written, temporary);
      ok := ReplaceOrDiscard(temporary, s.path);
      if ok {
        BroughtBack(was, repository.tree, temporary, s.path, File(s.bytes, s.mode));
        KeepingMore(before, sofar, was, repository.Now());
        if good {
          UndoingTarget(was, repository.tree, r, changes, t0, s.path);
          PointsMore(before, sofar, changes, t0, repository.Now());
        }
      } else if repository.tree == was {
        KeepingMore(before, sofar, was, repository.Now());
        if good {
          UndoingAtomic(was, r, changes, t0);
          PointsMore(before, sofar, changes, t0, repository.Now());
        }
      }
    }

    /** Renames a temporary over its target, or unlinks it where that fails. */
    method ReplaceOrDiscard(temporary: Path, target: Path) returns (ok: bool)
      requires repository.Valid() && temporary != target && target != [] && Visible(target)
      requires temporary in repository.tree && repository.tree[temporary].File?
      modifies repository`tree, repository`record, repository`trace, repository`refusals
      ensures repository.Valid() && repository.record == old(repository.record) && repository.next == old(repository.next)
      ensures repository.refusals >= old(repository.refusals)
      ensures ok ==> (target in old(repository.tree) ==> old(repository.tree)[target].File?)
                     && repository.tree == Without(old(repository.tree), temporary)[target := old(repository.tree)[temporary]]
      ensures !ok ==> repository.tree == old(repository.tree) || repository.tree == Without(old(repository.tree), temporary)
      ensures if repository.tree == old(repository.tree) && !ok then repository.trace == old(repository.trace)
              else repository.trace == old(repository.trace) + [repository.Now()]
      ensures ok ==> repository.refusals == old(repository.refusals)
      ensures var t := old(repository.tree);
              var clear := !(target in t && t[target].Dir?) && IsDir(t, Parent(target));
              && (!ok && clear ==> repository.refusals > old(repository.refusals))
              && (!ok && repository.refusals <= old(repository.refusals) + (if clear then 1 else 0) ==>
                    repository.tree == Without(t, temporary))
    {
      hide Rooted, StampedBelow, Visible;
      ok := repository.Replace(temporary, target);
      if !ok {
        var result := repository.Unlink(temporary);
        assert result.Succeeded? ==> temporary !in repository.tree;
      }
    }

    /** Brings one target back to what the record says. */
    method RestoreFile(s: Saved, ghost r: UndoRecord, ghost changes: seq<Change>, ghost t0: Tree, ghost k: nat)
      returns (ok: bool)
      requires repository.Valid() && repository.record == Some(r) && s.path != [] && Visible(s.path)
      requires k < |r.files| && s == r.files[k]
      modifies repository`tree, repository`record, repository`trace, repository`refusals, repository`next
      ensures repository.Valid() && repository.record == Some(r)
      ensures repository.refusals >= old(repository.refusals) && old(repository.trace) <= repository.trace
      ensures old(Undoing(repository.tree, r, changes, t0)) ==>
                && Undoing(repository.tree, r, changes, t0)
                && Points(old(repository.trace), repository.trace, changes, t0)
                && (ok || repository.refusals > old(repository.refusals))
                && (ok && k < |changes| && old(TargetsBack(repository.tree, changes, t0, k)) ==>
                      TargetsBack(repository.tree, changes, t0, k + 1))
      ensures DirectoriesKept(old(repository.tree), repository.tree)
      ensures Keeping(old(repository.trace), repository.trace, old(repository.tree), Some(r))
      ensures Blocks(old(repository.tree), s) ==> !ok
    {
      hide Undoing, Points, Rooted, StampedBelow, TargetsBack, Visible, IsDir, Atomic, Keeping;
      ghost var good, before, was := Undoing(repository.tree, r, changes, t0), repository.trace, repository.tree;
      PointsNothing(before, changes, t0);
      KeepingNothing(before, was, Some(r));
      if good {
        RecordsTarget(was, r, changes, t0, k);
      }
      if s.Absent? {
        if good {
          UndoingTarget(was, was - {s.path}, r, changes, t0, s.path);
        }
        var result := repository.Unlink(s.path);
        if result.Succeeded? {
          KeepingMore(before, before, was, repository.Now());
        }
        if good && result.Succeeded? {
          PointsMore(before, before, changes, t0, repository.Now());
        }
        ok := !result.Failed?;
      } else {
        ok := RestorePresent(s, r, changes, t0);
      }
      if good && ok {
        TargetDone(was, repository.tree, r, changes, t0, k);
      }
    }

    /** Undoes a publication.  From any state of one it either finishes, with
        everything as it was and the record gone, or stops because the system
        refused something, with everything still to be undone by trying again. */
    method Restore(r: UndoRecord, ghost changes: seq<Change>, ghost t0: Tree) returns (ok: bool)
      requires repository.Valid() && repository.record == Some(r) && PathsOk(r)
      modifies repository`tree, repository`record, repository`trace, repository`refusals, repository`next
      ensures repository.Valid() && old(repository.trace) <= repository.trace && repository.refusals >= old(repository.refusals)
      ensures old(Undoing(repository.tree, r, changes, t0)) ==>
                && Points(old(repository.trace), repository.trace, changes, t0)
                && (if ok then repository.record == None && Back(repository.tree, t0)
                    else repository.record == Some(r) && Undoing(repository.tree, r, changes, t0)
                         && repository.refusals > old(repository.refusals))
      ensures Blocked(old(repository.tree), r) ==> !ok && repository.record == Some(r) && Blocked(repository.tree, r)
      ensures Blocked(old(repository.tree), r) ==> Stuck(old(repository.trace), repository.trace, r)
    {
      hide Undoing, Points, Rooted, StampedBelow, TargetsBack, Visible, IsDir, Atomic, Cleanable, Cleaning, Back, Keeping, Stuck,
           DirectoriesKept;
      StuckNothing(repository.trace, r);
      ghost var good, before := Undoing(repository.tree, r, changes, t0), repository.trace;
      ghost var b :| Blocked(repository.tree, r) ==> b in r.files && Blocks(repository.tree, b);
      ghost var blocked := Blocked(repository.tree, r);
      PointsNothing(before, changes, t0);
      NoneBack(repository.tree, changes, t0);
      var k := 0;
      while k < |r.files|
        invariant k <= |r.files| && repository.Valid() && repository.record == Some(r)
        invariant before <= repository.trace && repository.refusals >= old(repository.refusals)
        invariant good ==> Undoing(repository.tree, r, changes, t0) && Points(before, repository.trace, changes, t0)
        invariant good ==> k <= |changes| && TargetsBack(repository.tree, changes, t0, k)
        invariant blocked ==> Blocks(repository.tree, b) && b in r.files[k..]
        invariant blocked ==> Stuck(before, repository.trace, r)
      {
        ghost var sofar, was := repository.trace, repository.tree;
        if good {
          SameLength(repository.tree, r, changes, t0);
        }
        ok := RestoreFile(r.files[k], r, changes, t0, k);
        if blocked {
          KeepingStuck(before, sofar, repository.trace, was, repository.tree, r, b);
        }
        if good {
          PointsJoin(before, sofar, repository.trace, changes, t0);
        }
        if !ok {
          return;
        }
        k := k + 1;
      }
      ghost var sofar := repository.trace;
      if good {
        SameLength(repository.tree, r, changes, t0);
        TargetsBackCleanable(repository.tree, r, changes, t0);
      }
      ok := RemoveTemporaries(r.temporaries, r, t0);
      if good {
        CleaningUndoes(sofar, repository.trace, repository.tree, r, changes, t0);
        PointsJoin(before, sofar, repository.trace, changes, t0);
      }
      if !ok {
        return;
      }
      sofar := repository.trace;
      ok := RemoveDirectories(r.directories, r, t0);
      if good {
        CleaningUndoes(sofar, repository.trace, repository.tree, r, changes, t0);
        PointsJoin(before, sofar, repository.trace, changes, t0);
      }
      if !ok {
        return;
      }
      sofar := repository.trace;
      ok := repository.ClearRecord();
      if good && ok {
        BackAtomic(repository.tree, r, changes, t0);
        PointsMore(before, sofar, changes, t0, repository.Now());
      }
    }
  }

  /** No directory has gone. */
  predicate DirectoriesKept(was: Tree, t: Tree) {
    forall d <- was :: was[d].Dir? ==> d in t && t[d].Dir?
  }

  /** Every state gained has the record and every directory there was. */
  ghost predicate Keeping(before: seq<World>, after: seq<World>, was: Tree, record: Option<UndoRecord>) {
    before <= after && forall i :: |before| <= i < |after| ==> after[i].record == record && DirectoriesKept(was, after[i].tree)
  }

  /** Every state gained has the record, and something undoing cannot get past. */
  ghost predicate Stuck(before: seq<World>, after: seq<World>, r: UndoRecord) {
    before <= after && forall i :: |before| <= i < |after| ==> after[i].record == Some(r) && Blocked(after[i].tree, r)
  }

  lemma KeepingNothing(trace: seq<World>, was: Tree, record: Option<UndoRecord>)
    ensures Keeping(trace, trace, was, record)
  {
  }

  lemma KeepingMore(before: seq<World>, after: seq<World>, was: Tree, w: World)
    requires Keeping(before, after, was, w.record) && DirectoriesKept(was, w.tree)
    ensures Keeping(before, after + [w], was, w.record)
  {
    hide DirectoriesKept;
  }

  lemma StuckNothing(trace: seq<World>, r: UndoRecord)
    ensures Stuck(trace, trace, r)
  {
  }

  lemma StuckMore(before: seq<World>, after: seq<World>, r: UndoRecord, w: World)
    requires Stuck(before, after, r) && w.record == Some(r) && Blocked(w.tree, r)
    ensures Stuck(before, after + [w], r)
  {
    hide Blocked;
  }

  /** What blocks at the start blocks for as long as no directory goes. */
  lemma KeepingStuck(before: seq<World>, sofar: seq<World>, after: seq<World>, was: Tree, t: Tree, r: UndoRecord, s: Saved)
    requires Stuck(before, sofar, r) && Keeping(sofar, after, was, Some(r)) && DirectoriesKept(was, t)
    requires s in r.files && Blocks(was, s)
    ensures Stuck(before, after, r) && Blocks(t, s)
  {
    forall i | |before| <= i < |after| ensures after[i].record == Some(r) && Blocked(after[i].tree, r) {
      if i < |sofar| {
        assert after[i] == sofar[i];
      } else {
        assert DirectoriesKept(was, after[i].tree);
        assert Blocks(after[i].tree, s);
      }
    }
  }

  lemma AllKept(t: Tree)
    ensures DirectoriesKept(t, t)
  {
  }

  lemma PointsNothing(trace: seq<World>, changes: seq<Change>, t0: Tree)
    ensures Points(trace, trace, changes, t0)
  {
  }

  lemma PointsMore(before: seq<World>, after: seq<World>, changes: seq<Change>, t0: Tree, w: World)
    requires Points(before, after, changes, t0) && Atomic(w, changes, t0)
    ensures Points(before, after + [w], changes, t0)
  {
    hide Atomic;
  }

  lemma CleanableFile(t: Tree, r: UndoRecord, t0: Tree, p: Path)
    requires Cleanable(t, r, t0) && p in r.temporaries
    ensures p in t ==> t[p].File?
  {
    assert Allowed(NodeAt(t, p), p, r, [], t0);
  }

  lemma CleanableDirectory(t: Tree, r: UndoRecord, t0: Tree, p: Path)
    requires Cleanable(t, r, t0) && p in r.directories
    ensures p in t ==> t[p].Dir?
  {
    assert Allowed(NodeAt(t, p), p, r, [], t0);
  }

  lemma {:induction false} DeepestExists(paths: set<Path>)
    requires paths != {}
    ensures exists d :: d in paths && forall e <- paths :: |e| <= |d|
    decreases |paths|
  {
    var p :| p in paths;
    if paths == {p} {
      assert p in paths && forall e <- paths :: |e| <= |p|;
    } else {
      DeepestExists(paths - {p});
      var d :| d in paths - {p} && forall e <- paths - {p} :: |e| <= |d|;
      var deepest := if |d| < |p| then p else d;
      assert deepest in paths && forall e <- paths :: |e| <= |deepest|;
    }
  }

  lemma RecordsTarget(t: Tree, r: UndoRecord, changes: seq<Change>, t0: Tree, k: nat)
    requires Undoing(t, r, changes, t0) && k < |r.files|
    ensures k < |changes| && r.files[k] == Save(t0, changes[k].path) && r.files[k].path == changes[k].path
    ensures IsTarget(changes, r.files[k].path)
    ensures r.files[k].Absent? <==> r.files[k].path !in t0
    ensures r.files[k].path in t ==> t[r.files[k].path].File?
  {
    hide PrefixFree, Rooted;
    assert changes[k] in changes;
    TargetVisible(t0, changes, changes[k].path);
    assert Allowed(NodeAt(t, changes[k].path), changes[k].path, r, changes, t0);
  }

  lemma ParentStays0(t: Tree, r: UndoRecord, changes: seq<Change>, t0: Tree, p: Path)
    requires Undoing(t, r, changes, t0) && IsTarget(changes, p) && p in t0
    ensures IsDir(t, Parent(p))
  {
    hide Undoable, Records, PrefixFree, Rooted, ChangesOk;
    ParentStays(t, r, changes, t0, p);
  }

  lemma NotDirectory(t: Tree, r: UndoRecord, changes: seq<Change>, t0: Tree, p: Path)
    requires Undoing(t, r, changes, t0) && IsTarget(changes, p)
    ensures p in t ==> t[p].File?
  {
    assert Allowed(NodeAt(t, p), p, r, changes, t0);
  }

  lemma FreshHidden(p: Path, d: Path, stamp: nat)
    requires p == d + [Fresh(stamp)]
    ensures p != [] && !Visible(p) && Parent(p) == d
  {
    assert p[|d|] in p;
  }

  lemma UndoingAtomic(t: Tree, r: UndoRecord, changes: seq<Change>, t0: Tree)
    requires Undoing(t, r, changes, t0)
    ensures Atomic(World(t, Some(r)), changes, t0)
  {
  }

  lemma PartUndoes(was: Tree, t: Tree, r: UndoRecord, changes: seq<Change>, t0: Tree, p: Path, target: Path)
    requires Undoing(was, r, changes, t0) && IsTarget(changes, target) && target in t0
    requires p != [] && !Visible(p) && Parent(p) == Parent(target) && p !in was
    requires t == was || PartWritten(was, t, p)
    ensures Undoing(t, r, changes, t0) && Atomic(World(t, Some(r)), changes, t0)
  {
    hide Undoing, Atomic, Visible, IsTarget;
    NewIsNew(was, r, changes, t0, p);
    UndoingAtomic(was, r, changes, t0);
    if t != was {
      var f: Node :| f.File? && t == was[p := f];
      UndoingTemporary(was, t, r, changes, t0, p, target);
    }
  }

  /** Staging a temporary leaves everything as undoable as it was. */
  lemma StagingUndoes(before: seq<World>, after: seq<World>, was: Tree, t: Tree, r: UndoRecord, changes: seq<Change>, t0: Tree,
                      p: Path, target: Path)
    requires Undoing(was, r, changes, t0) && IsTarget(changes, target) && target in t0
    requires p != [] && !Visible(p) && Parent(p) == Parent(target) && p !in was
    requires Staging(before, after, was, p, Some(r)) && (t == was || PartWritten(was, t, p))
    ensures Undoing(t, r, changes, t0) && Points(before, after, changes, t0)
  {
    hide Undoing, Atomic, Visible, IsTarget;
    PartUndoes(was, t, r, changes, t0, p, target);
    forall i | |before| <= i < |after| ensures Atomic(after[i], changes, t0) {
      PartUndoes(was, after[i].tree, r, changes, t0, p, target);
      assert after[i] == World(after[i].tree, Some(r));
    }
  }

  lemma StagingKeeps(before: seq<World>, after: seq<World>, was: Tree, t: Tree, p: Path, record: Option<UndoRecord>)
    requires Staging(before, after, was, p, record) && p !in was
    requires t == was || PartWritten(was, t, p)
    ensures before <= after && DirectoriesKept(was, t)
    ensures Keeping(before, after, was, record)
  {
  }

  /** The whole effect of bringing one file back. */
  lemma BroughtBack(was: Tree, t: Tree, p: Path, path: Path, f: Node)
    requires p !in was && !Visible(p) && f.File? && (path in was ==> was[path].File?)
    requires t == Without(was[p := f], p)[path := f]
    ensures NodeAt(t, path) == Some(f) && DirectoriesKept(was, t)
    ensures forall q :: q != path && Visible(q) ==> NodeAt(t, q) == NodeAt(was, q)
  {
  }

  lemma NoneBack(t: Tree, changes: seq<Change>, t0: Tree)
    ensures TargetsBack(t, changes, t0, 0)
  {
  }

  lemma SameLength(t: Tree, r: UndoRecord, changes: seq<Change>, t0: Tree)
    requires Undoing(t, r, changes, t0)
    ensures |changes| == |r.files|
  {
  }

  /** One more target is back, and no other moved. */
  lemma TargetDone(was: Tree, t: Tree, r: UndoRecord, changes: seq<Change>, t0: Tree, k: nat)
    requires Undoing(was, r, changes, t0) && k < |changes| && k < |r.files|
    requires forall q :: q != r.files[k].path && Visible(q) ==> NodeAt(t, q) == NodeAt(was, q)
    ensures TargetsBack(was, changes, t0, k) && NodeAt(t, r.files[k].path) == NodeAt(t0, r.files[k].path)
            ==> TargetsBack(t, changes, t0, k + 1)
  {
    hide PrefixFree, Rooted;
    RecordsTarget(was, r, changes, t0, k);
    forall j | 0 <= j < k ensures NodeAt(t, changes[j].path) == NodeAt(was, changes[j].path) {
      assert changes[j] in changes;
      TargetVisible(t0, changes, changes[j].path);
    }
  }

  lemma CleaningUndoes(before: seq<World>, after: seq<World>, t: Tree, r: UndoRecord, changes: seq<Change>, t0: Tree)
    requires Cleaning(before, after, r, t0, Some(r)) && Cleanable(t, r, t0)
    requires exists u :: Undoing(u, r, changes, t0)
    ensures Points(before, after, changes, t0) && Undoing(t, r, changes, t0)
  {
    hide Cleaning, Cleanable, ChangesOk, PrefixFree, Records, Points;
    CleaningPoints(before, after, r, changes, t0);
    CleanableUndoes(t, r, changes, t0);
  }

  lemma BackAtomic(t: Tree, r: UndoRecord, changes: seq<Change>, t0: Tree)
    requires Back(t, t0) && exists u :: Undoing(u, r, changes, t0)
    ensures Atomic(World(t, None), changes, t0)
  {
    hide Back, PrefixFree, Records, Rooted;
    BackIsKept(t, changes, t0);
  }
}
