/** Preparing a publication: missing directories made, every new content
    written beside its target, and what was there recorded. */
module UpdatePreparation {
  import opened Common
  import opened FileTree
  import opened UpdateTree
  import opened UpdateFiles
  import opened UpdateRestore

  /** Part of the way through preparing: nothing that was there has changed, and
      `r` names everything new. */
  ghost predicate Preparing(t: Tree, r: UndoRecord, changes: seq<Change>, t0: Tree) {
    Cleanable(t, r, t0) && ChangesOk(t0, changes) && forall d <- r.directories :: UnderTarget(changes, d)
  }

  /** Nothing but directories is where a target's parents are to be. */
  predicate ParentsClear(t: Tree, p: Path) {
    forall n :: 0 < n < |p| && p[..n] in t ==> t[p[..n]].Dir?
  }

  predicate AllClear(t: Tree, changes: seq<Change>) { forall c <- changes :: ParentsClear(t, c.path) }

  /** A state without a record and with every target as before. */
  ghost predicate Untouched(w: World, changes: seq<Change>, t0: Tree) {
    w.record.None? && Unchanged(w.tree, t0) && (PrefixFree(changes) ==> Kept(w.tree, changes, t0))
  }

  ghost predicate AllUntouched(before: seq<World>, after: seq<World>, changes: seq<Change>, t0: Tree) {
    before <= after && forall i :: |before| <= i < |after| ==> Untouched(after[i], changes, t0)
  }

  predicate OnlyNamed(t: Tree, r: UndoRecord, t0: Tree) { forall p <- t :: Visible(p) || p in t0 || p in r.temporaries }

  predicate FilesReady(r: UndoRecord, changes: seq<Change>, t0: Tree, k: nat)
    requires k <= |changes|
  {
    |r.files| == k && forall i :: 0 <= i < k ==> r.files[i] == Save(t0, changes[i].path)
  }

  predicate ParentsReady(t: Tree, changes: seq<Change>, k: nat)
    requires k <= |changes|
  {
    forall i :: 0 <= i < k ==> IsDir(t, Parent(changes[i].path))
  }

  /** The new content of one change is in its own temporary. */
  predicate ContentReady(t: Tree, r: UndoRecord, prepared: map<Path, Path>, c: Change, t0: Tree) {
    c.after.Some? ==>
      && c.path in prepared && prepared[c.path] in r.temporaries
      && prepared[c.path] in t && Some(t[prepared[c.path]]) == AfterOf(c, t0)
  }

  predicate HasTemporary(prepared: map<Path, Path>, c: Change, q: Path) {
    c.after.Some? && c.path in prepared && prepared[c.path] == q
  }

  predicate Injective(prepared: map<Path, Path>) {
    forall a <- prepared, b <- prepared :: prepared[a] == prepared[b] ==> a == b
  }

  ghost predicate TemporariesUsed(r: UndoRecord, prepared: map<Path, Path>, changes: seq<Change>, k: nat)
    requires k <= |changes|
  {
    && (forall q <- r.temporaries :: exists i :: 0 <= i < k && HasTemporary(prepared, changes[i], q))
    && (forall a <- prepared :: prepared[a] in r.temporaries)
  }

  /** One temporary for a change at most, each beside a target, and each
      directory made once. */
  predicate NamedOnce(t: Tree, r: UndoRecord, changes: seq<Change>, k: nat) {
    && |r.temporaries| <= k && (forall p <- r.temporaries :: Beside(changes, p))
    && (forall d <- r.directories :: d in t) && Unrepeated(r.directories)
  }

  /** The first `k` changes are ready to be made. */
  ghost predicate Ready(t: Tree, r: UndoRecord, prepared: map<Path, Path>, changes: seq<Change>, t0: Tree, k: nat)
    requires k <= |changes|
  {
    && FilesReady(r, changes, t0, k) && ParentsReady(t, changes, k)
    && (forall i :: 0 <= i < k ==> ContentReady(t, r, prepared, changes[i], t0))
    && Injective(prepared) && TemporariesUsed(r, prepared, changes, k) && OnlyNamed(t, r, t0)
    && NamedOnce(t, r, changes, k)
  }

  ghost predicate Prepared(t: Tree, r: UndoRecord, prepared: map<Path, Path>, changes: seq<Change>, t0: Tree) {
    Preparing(t, r, changes, t0) && Ready(t, r, prepared, changes, t0, |changes|)
  }

  lemma PreparingUntouched(t: Tree, r: UndoRecord, changes: seq<Change>, t0: Tree)
    requires Preparing(t, r, changes, t0)
    ensures Untouched(World(t, None), changes, t0)
  {
    hide Kept;
    CleanableUnchanged(t, r, t0);
    if PrefixFree(changes) {
      forall d | d in r.directories ensures !IsTarget(changes, d) {
        var c :| c in changes && Inside(c.path, d);
        OutsideTargets(changes, c.path, d);
      }
      CleanableKept(t, r, changes, t0);
    }
  }

  lemma AllUntouchedJoin(a: seq<World>, b: seq<World>, c: seq<World>, changes: seq<Change>, t0: Tree)
    requires AllUntouched(a, b, changes, t0) && AllUntouched(b, c, changes, t0)
    ensures AllUntouched(a, c, changes, t0)
  {
    hide Untouched;
    forall i | |a| <= i < |c| ensures Untouched(c[i], changes, t0) {
      if i < |b| {
        assert c[i] == b[i];
      }
    }
  }

  lemma AllUntouchedNothing(trace: seq<World>, changes: seq<Change>, t0: Tree)
    ensures AllUntouched(trace, trace, changes, t0)
  {
  }

  lemma AllUntouchedMore(before: seq<World>, after: seq<World>, changes: seq<Change>, t0: Tree, w: World)
    requires AllUntouched(before, after, changes, t0) && Untouched(w, changes, t0)
    ensures AllUntouched(before, after + [w], changes, t0)
  {
    hide Untouched;
  }

  lemma CleaningUntouched(before: seq<World>, after: seq<World>, r: UndoRecord, changes: seq<Change>, t0: Tree)
    requires Cleaning(before, after, r, t0, None) && ChangesOk(t0, changes)
    requires forall d <- r.directories :: UnderTarget(changes, d)
    ensures AllUntouched(before, after, changes, t0)
  {
    hide Cleanable, ChangesOk, Untouched, UnderTarget;
    forall i | |before| <= i < |after| ensures Untouched(after[i], changes, t0) {
      PreparingUntouched(after[i].tree, r, changes, t0);
      assert after[i] == World(after[i].tree, None);
    }
  }

  // ----- growing ------------------------------------------------------------

  function WithDirectory(r: UndoRecord, d: Path): UndoRecord { r.(directories := r.directories + [d]) }

  function WithTemporary(r: UndoRecord, p: Path): UndoRecord { r.(temporaries := r.temporaries + [p]) }

  lemma CleanableNew(t: Tree, r: UndoRecord, t0: Tree, p: Path)
    requires Cleanable(t, r, t0) && p !in t
    ensures p !in t0
  {
    CleanableUnchanged(t, r, t0);
    assert p in t0 ==> NodeAt(t, p).Some?;
  }

  lemma CleanableMade(t: Tree, r: UndoRecord, t0: Tree, d: Path)
    requires Cleanable(t, r, t0) && d !in t && d != [] && Visible(d)
    ensures Cleanable(t[d := Dir], WithDirectory(r, d), t0)
  {
    CleanableNew(t, r, t0, d);
    var r', t' := WithDirectory(r, d), t[d := Dir];
    forall p ensures Allowed(NodeAt(t', p), p, r', [], t0) {
      assert Allowed(NodeAt(t, p), p, r, [], t0);
    }
  }

  lemma CleanableStaged(was: Tree, t: Tree, r: UndoRecord, t0: Tree, p: Path)
    requires Cleanable(was, r, t0) && p !in was && !Visible(p) && (t == was || PartWritten(was, t, p))
    ensures Cleanable(t, WithTemporary(r, p), t0)
  {
    CleanableNew(was, r, t0, p);
    var r' := WithTemporary(r, p);
    forall q ensures Allowed(NodeAt(t, q), q, r', [], t0) {
      assert Allowed(NodeAt(was, q), q, r, [], t0);
    }
  }

  lemma PreparingMade(t: Tree, r: UndoRecord, changes: seq<Change>, t0: Tree, d: Path)
    requires Preparing(t, r, changes, t0) && d !in t && d != [] && Visible(d) && UnderTarget(changes, d)
    ensures Preparing(t[d := Dir], WithDirectory(r, d), changes, t0)
  {
    hide Cleanable, ChangesOk, UnderTarget;
    CleanableMade(t, r, t0, d);
  }

  lemma PreparingStaged(was: Tree, t: Tree, r: UndoRecord, changes: seq<Change>, t0: Tree, p: Path)
    requires Preparing(was, r, changes, t0) && p !in was && !Visible(p) && (t == was || PartWritten(was, t, p))
    ensures Preparing(t, WithTemporary(r, p), changes, t0) && p !in t0
    ensures Untouched(World(t, None), changes, t0)
  {
    hide Cleanable, ChangesOk, UnderTarget, Visible, PartWritten, Untouched;
    CleanableStaged(was, t, r, t0, p);
    CleanableNew(was, r, t0, p);
    PreparingUntouched(t, WithTemporary(r, p), changes, t0);
  }

  lemma StagingUntouched(before: seq<World>, after: seq<World>, was: Tree, r: UndoRecord, changes: seq<Change>, t0: Tree, p: Path)
    requires Preparing(was, r, changes, t0) && p !in was && !Visible(p) && Staging(before, after, was, p, None)
    ensures AllUntouched(before, after, changes, t0)
  {
    hide Preparing, Untouched, Visible, PartWritten;
    forall i | |before| <= i < |after| ensures Untouched(after[i], changes, t0) {
      PreparingStaged(was, after[i].tree, r, changes, t0, p);
      assert after[i] == World(after[i].tree, None);
    }
  }

  lemma NamedOnceMore(t: Tree, r: UndoRecord, changes: seq<Change>, k: nat, d: Path)
    requires NamedOnce(t, r, changes, k) && d !in t
    ensures NamedOnce(t[d := Dir], WithDirectory(r, d), changes, k)
  {
    hide Beside;
    assert d !in r.directories;
  }

  /** Making a directory keeps what is ready. */
  lemma ReadyMade(t: Tree, r: UndoRecord, prepared: map<Path, Path>, changes: seq<Change>, t0: Tree, k: nat, d: Path)
    requires k <= |changes| && Ready(t, r, prepared, changes, t0, k) && d !in t && Visible(d)
    ensures Ready(t[d := Dir], WithDirectory(r, d), prepared, changes, t0, k)
  {
    hide Visible, AfterOf, HasTemporary, Injective, Beside;
    var t', r' := t[d := Dir], WithDirectory(r, d);
    NamedOnceMore(t, r, changes, k, d);
    forall i | 0 <= i < k
      ensures IsDir(t', Parent(changes[i].path)) && ContentReady(t', r', prepared, changes[i], t0)
    {
      assert IsDir(t, Parent(changes[i].path)) && ContentReady(t, r, prepared, changes[i], t0);
    }
  }

  /** A change that removes its target is ready once that is recorded. */
  lemma ReadyToRemove(t: Tree, r: UndoRecord, prepared: map<Path, Path>, changes: seq<Change>, t0: Tree, k: nat)
    requires k < |changes| && Ready(t, r, prepared, changes, t0, k)
    requires IsDir(t, Parent(changes[k].path)) && changes[k].after.None?
    ensures Ready(t, r.(files := r.files + [Save(t0, changes[k].path)]), prepared, changes, t0, k + 1)
  {
    hide Visible, AfterOf, HasTemporary, Injective, IsDir, Beside;
    var r' := r.(files := r.files + [Save(t0, changes[k].path)]);
    forall i | 0 <= i < k + 1 ensures ContentReady(t, r', prepared, changes[i], t0) {
      if i < k {
        assert ContentReady(t, r, prepared, changes[i], t0);
      }
    }
  }

  lemma TemporariesUsedMore(r: UndoRecord, prepared: map<Path, Path>, changes: seq<Change>, k: nat, p: Path)
    requires k < |changes| && TemporariesUsed(r, prepared, changes, k) && changes[k].after.Some?
    requires Distinct(changes)
    ensures TemporariesUsed(WithTemporary(r, p), prepared[changes[k].path := p], changes, k + 1)
  {
    var m, r' := prepared[changes[k].path := p], WithTemporary(r, p);
    forall q | q in r'.temporaries ensures exists i :: 0 <= i < k + 1 && HasTemporary(m, changes[i], q) {
      if q in r.temporaries {
        var i :| 0 <= i < k && HasTemporary(prepared, changes[i], q);
        assert HasTemporary(m, changes[i], q);
      } else {
        assert HasTemporary(m, changes[k], q);
      }
    }
  }

  predicate Distinct(changes: seq<Change>) {
    forall i, j :: 0 <= i < j < |changes| ==> changes[i].path != changes[j].path
  }

  /** A change with new content is ready once that is in its temporary. */
  lemma ReadyToReplace(was: Tree, r: UndoRecord, prepared: map<Path, Path>, changes: seq<Change>, t0: Tree, k: nat, p: Path,
                       f: Node)
    requires k < |changes| && Ready(was, r, prepared, changes, t0, k) && Distinct(changes)
    requires (forall q <- r.temporaries :: q in was) && IsDir(was, Parent(changes[k].path))
    requires changes[k].after.Some? && AfterOf(changes[k], t0) == Some(f)
    requires p !in was && !Visible(p) && Beside(changes, p)
    ensures Ready(was[p := f], WithTemporary(r.(files := r.files + [Save(t0, changes[k].path)]), p),
                  prepared[changes[k].path := p], changes, t0, k + 1)
  {
    hide Visible, AfterOf, HasTemporary, TemporariesUsed, ContentReady, Injective, FilesReady, IsDir, OnlyNamed, Beside;
    var c, r0 := changes[k], r.(files := r.files + [Save(t0, changes[k].path)]);
    var t', r', m := was[p := f], WithTemporary(r0, p), prepared[c.path := p];
    TemporariesKnown(r, prepared, changes, k);
    InjectiveMore(prepared, c.path, p);
    FilesMore(r, p, changes, t0, k);
    OnlyNamedMore(was, r, r', t0, p, f);
    UsedSame(r, r0, prepared, changes, k);
    TemporariesUsedMore(r0, prepared, changes, k, p);
    forall i | 0 <= i < k + 1
      ensures IsDir(t', Parent(changes[i].path)) && ContentReady(t', r', m, changes[i], t0)
    {
      if i < k {
        assert IsDir(was, Parent(changes[i].path)) && ContentReady(was, r, prepared, changes[i], t0);
        ContentKept(was, r, prepared, changes[i], t0, c.path, p, f, r');
      } else {
        ContentAdded(was, prepared, c, t0, p, f, r');
      }
      DirStays(was, Parent(changes[i].path), p, f);
    }
  }

  lemma DirStays(t: Tree, d: Path, p: Path, f: Node)
    requires IsDir(t, d) && p !in t
    ensures IsDir(t[p := f], d)
  {
  }

  lemma ContentAdded(was: Tree, prepared: map<Path, Path>, c: Change, t0: Tree, p: Path, f: Node, r': UndoRecord)
    requires AfterOf(c, t0) == Some(f) && p in r'.temporaries
    ensures ContentReady(was[p := f], r', prepared[c.path := p], c, t0)
  {
  }

  lemma ContentKept(was: Tree, r: UndoRecord, prepared: map<Path, Path>, c: Change, t0: Tree, path: Path, p: Path, f: Node,
                    r': UndoRecord)
    requires ContentReady(was, r, prepared, c, t0) && c.path != path && p !in was
    requires forall q <- r.temporaries :: q in r'.temporaries
    ensures ContentReady(was[p := f], r', prepared[path := p], c, t0)
  {
    hide AfterOf;
  }

  lemma InjectiveMore(prepared: map<Path, Path>, path: Path, p: Path)
    requires Injective(prepared) && forall a <- prepared :: prepared[a] != p
    ensures Injective(prepared[path := p])
  {
  }

  lemma FilesMore(r: UndoRecord, p: Path, changes: seq<Change>, t0: Tree, k: nat)
    requires k < |changes| && FilesReady(r, changes, t0, k)
    ensures FilesReady(WithTemporary(r.(files := r.files + [Save(t0, changes[k].path)]), p), changes, t0, k + 1)
  {
    hide Save;
  }

  lemma OnlyNamedMore(t: Tree, r: UndoRecord, r': UndoRecord, t0: Tree, p: Path, f: Node)
    requires OnlyNamed(t, r, t0) && p in r'.temporaries && forall q <- r.temporaries :: q in r'.temporaries
    ensures OnlyNamed(t[p := f], r', t0)
  {
    hide Visible;
  }

  lemma UsedSame(r: UndoRecord, r': UndoRecord, prepared: map<Path, Path>, changes: seq<Change>, k: nat)
    requires k <= |changes| && TemporariesUsed(r, prepared, changes, k) && r'.temporaries == r.temporaries
    ensures TemporariesUsed(r', prepared, changes, k)
  {
  }

  lemma TemporariesKnown(r: UndoRecord, prepared: map<Path, Path>, changes: seq<Change>, k: nat)
    requires k <= |changes| && TemporariesUsed(r, prepared, changes, k)
    ensures forall a <- prepared :: prepared[a] in r.temporaries
  {
  }

  /** Every temporary that is ready is there. */
  lemma TemporariesThere(t: Tree, r: UndoRecord, prepared: map<Path, Path>, changes: seq<Change>, t0: Tree, k: nat)
    requires k <= |changes| && Ready(t, r, prepared, changes, t0, k)
    ensures forall q <- r.temporaries :: q in t
  {
    hide Visible, AfterOf, Injective, IsDir;
    forall q | q in r.temporaries ensures q in t {
      var i :| 0 <= i < k && HasTemporary(prepared, changes[i], q);
      assert ContentReady(t, r, prepared, changes[i], t0);
    }
  }

  class Preparer {
    const repository: Repository
    const restorer: Restorer

    constructor (repository: Repository)
      ensures this.repository == repository && restorer.repository == repository && fresh(restorer)
    {
      this.repository := repository;
      this.restorer := new Restorer(repository);
    }

    /** Makes the directories a target is to be in, from the first that is
        missing down.  What was made is reported even where it stops short. */
    method MakeParents(path: Path, ghost r: UndoRecord, ghost prepared: map<Path, Path>, ghost changes: seq<Change>,
                       ghost t0: Tree, ghost k: nat)
      returns (ok: bool, made: seq<Path>)
      requires repository.Valid() && repository.record.None? && Preparing(repository.tree, r, changes, t0)
      requires k <= |changes| && Ready(repository.tree, r, prepared, changes, t0, k) && IsTarget(changes, path)
      modifies repository`tree, repository`record, repository`trace, repository`refusals, repository`next
      ensures repository.Valid() && repository.record.None? && repository.refusals >= old(repository.refusals)
      ensures var r' := r.(directories := r.directories + made);
              Preparing(repository.tree, r', changes, t0) && Ready(repository.tree, r', prepared, changes, t0, k)
      ensures AllUntouched(old(repository.trace), repository.trace, changes, t0)
      ensures ok ==> IsDir(repository.tree, Parent(path)) && repository.refusals == old(repository.refusals)
      ensures !ok ==> repository.refusals > old(repository.refusals) || !ParentsClear(t0, path)
    {
      hide Preparing, Ready, AllUntouched, Untouched, Rooted, StampedBelow, Visible, ChangesOk, UnderTarget;
      AllUntouchedNothing(repository.trace, changes, t0);
      PathShape(repository.tree, r, changes, t0, path);
      made := [];
      assert r == r.(directories := r.directories + made);
      var n := |path| - 1;
      while n > 0 && path[..n] !in repository.tree
        invariant 0 <= n <= |path| - 1
        invariant n < |path| - 1 ==> path[..n + 1] !in repository.tree
      {
        n := n - 1;
      }
      if n > 0 {
        NewAreDirectories(repository.tree, r, changes, t0, path, n);
      }
      if !IsDir(repository.tree, path[..n]) {
        return false, made;
      }
      while n < |path| - 1
        invariant 0 <= n <= |path| - 1 && IsDir(repository.tree, path[..n])
        invariant repository.Valid() && repository.record.None? && repository.refusals == old(repository.refusals)
        invariant n < |path| - 1 ==> path[..n + 1] !in repository.tree
        invariant Preparing(repository.tree, r.(directories := r.directories + made), changes, t0)
        invariant Ready(repository.tree, r.(directories := r.directories + made), prepared, changes, t0, k)
        invariant AllUntouched(old(repository.trace), repository.trace, changes, t0)
      {
        var d := path[..n + 1];
        ghost var was, before, r' := repository.tree, repository.trace, r.(directories := r.directories + made);
        PrefixUnder(changes, path, n + 1);
        assert Parent(d) == path[..n];
        if n + 2 <= |path| {
          assert Parent(path[..n + 2]) == d;
          NoneBelow(was, path[..n + 2]);
        }
        ok := repository.Mkdir(d);
        if !ok {
          return;
        }
        PreparingMade(was, r', changes, t0, d);
        ReadyMade(was, r', prepared, changes, t0, k, d);
        made := made + [d];
        assert WithDirectory(r', d) == r.(directories := r.directories + made);
        PreparingUntouched(repository.tree, WithDirectory(r', d), changes, t0);
        AllUntouchedMore(old(repository.trace), before, changes, t0, repository.Now());
        n := n + 1;
      }
      ok := true;
      assert path[..n] == Parent(path);
    }

    /** Removes what preparing has made so far. */
    method CleanUp(temporaries: seq<Path>, directories: seq<Path>, ghost r: UndoRecord, ghost changes: seq<Change>, ghost t0: Tree)
      returns (ok: bool)
      requires repository.Valid() && repository.record.None? && Preparing(repository.tree, r, changes, t0)
      requires temporaries <= r.temporaries && directories == r.directories && restorer.repository == repository
      modifies repository`tree, repository`record, repository`trace, repository`refusals, repository`next
      ensures repository.Valid() && repository.record.None? && repository.refusals >= old(repository.refusals)
      ensures AllUntouched(old(repository.trace), repository.trace, changes, t0)
      ensures Untouched(repository.Now(), changes, t0)
      ensures temporaries == r.temporaries ==> if ok then Back(repository.tree, t0) else repository.refusals > old(repository.refusals)
    {
      hide Cleanable, Untouched, AllUntouched, Cleaning, Back, ChangesOk, UnderTarget;
      ghost var before := repository.trace;
      PreparingUntouched(repository.tree, r, changes, t0);
      DirectoriesNamed(repository.tree, r, t0);
      ok := restorer.RemoveTemporaries(temporaries, r, t0);
      CleaningUntouched(before, repository.trace, r, changes, t0);
      PreparingUntouched(repository.tree, r, changes, t0);
      if !ok {
        return;
      }
      ghost var middle := repository.trace;
      ok := restorer.RemoveDirectories(directories, r, t0);
      CleaningUntouched(middle, repository.trace, r, changes, t0);
      AllUntouchedJoin(before, middle, repository.trace, changes, t0);
      PreparingUntouched(repository.tree, r, changes, t0);
    }

    /** Prepares every change, or removes what it made and gives up. */
    method Prepare(changes: seq<Change>) returns (ok: bool, r: UndoRecord, prepared: map<Path, Path>)
      requires repository.Valid() && repository.record.None? && ChangesOk(repository.tree, changes)
      requires restorer.repository == repository
      modifies repository`tree, repository`record, repository`trace, repository`refusals, repository`next
      ensures repository.Valid() && repository.record.None? && repository.refusals >= old(repository.refusals)
      ensures AllUntouched(old(repository.trace), repository.trace, changes, old(repository.tree))
      ensures Untouched(repository.Now(), changes, old(repository.tree))
      ensures ok ==> Prepared(repository.tree, r, prepared, changes, old(repository.tree)) && repository.refusals == old(repository.refusals)
      ensures !ok ==> repository.refusals > old(repository.refusals) || !AllClear(old(repository.tree), changes)
      ensures !ok ==> Back(repository.tree, old(repository.tree)) || repository.refusals > old(repository.refusals)
    {
      hide Preparing, Ready, AllUntouched, Untouched, Rooted, StampedBelow, Visible, ChangesOk, UnderTarget, IsDir, Back,
           Staging, PartWritten, ParentsClear;
      ghost var t0, before := repository.tree, repository.trace;
      AllUntouchedNothing(before, changes, t0);
      NothingPrepared(t0, changes);
      PreparingUntouched(t0, NOTHING, changes, t0);
      r, prepared := NOTHING, map[];
      var k := 0;
      while k < |changes|
        invariant k <= |changes| && repository.Valid() && repository.record.None? && repository.refusals == old(repository.refusals)
        invariant Preparing(repository.tree, r, changes, t0) && Ready(repository.tree, r, prepared, changes, t0, k)
        invariant AllUntouched(before, repository.trace, changes, t0) && Untouched(repository.Now(), changes, t0)
      {
        var c := changes[k];
        ghost var sofar := repository.trace;
        var made;
        ok, made := MakeParents(c.path, r, prepared, changes, t0, k);
        r := r.(directories := r.directories + made);
        AllUntouchedJoin(before, sofar, repository.trace, changes, t0);
        sofar := repository.trace;
        if !ok {
          ok := CleanUp(r.temporaries, r.directories, r, changes, t0);
          AllUntouchedJoin(before, sofar, repository.trace, changes, t0);
          return false, r, prepared;
        }
        FilePresent(repository.tree, r, changes, t0, k);
        var mode := if c.before.Some? then repository.tree[c.path].mode else DEFAULT_MODE;
        var saved := if c.before.Some? then Present(c.path, c.before.value, mode) else Absent(c.path);
        ghost var was, was' := repository.tree, r;
        if c.after.Some? {
          ghost var stamp := repository.next;
          var temporary;
          ok, temporary := repository.StageTemporary(Parent(c.path), c.after.value, mode);
          FreshHidden(temporary, Parent(c.path), stamp);
          StagingUntouched(sofar, repository.trace, was, r, changes, t0, temporary);
          AllUntouchedJoin(before, sofar, repository.trace, changes, t0);
          PreparingStaged(was, repository.tree, r, changes, t0, temporary);
          sofar := repository.trace;
          if !ok {
            ok := CleanUp(r.temporaries, r.directories, WithTemporary(r, temporary), changes, t0);
            AllUntouchedJoin(before, sofar, repository.trace, changes, t0);
            return false, r, prepared;
          }
          TemporariesThere(was, r, prepared, changes, t0, k);
          DistinctPaths(t0, changes);
          assert Beside(changes, temporary);
          ReadyToReplace(was, r, prepared, changes, t0, k, temporary, File(c.after.value, mode));
          r := r.(files := r.files + [saved], temporaries := r.temporaries + [temporary]);
          prepared := prepared[c.path := temporary];
        } else {
          ReadyToRemove(was, r, prepared, changes, t0, k);
          r := r.(files := r.files + [saved]);
        }
        FilesIgnored(repository.tree, if c.after.None? then was' else WithTemporary(was', r.temporaries[|r.temporaries| - 1]), r, changes, t0);
        PreparingUntouched(repository.tree, r, changes, t0);
        k := k + 1;
      }
      ok := true;
    }
  }

  lemma DistinctPaths(t0: Tree, changes: seq<Change>)
    requires ChangesOk(t0, changes)
    ensures Distinct(changes)
  {
  }

  /** What is visible and was not there before is a directory. */
  lemma NewAreDirectories(t: Tree, r: UndoRecord, changes: seq<Change>, t0: Tree, path: Path, n: nat)
    requires Preparing(t, r, changes, t0) && IsTarget(changes, path) && 0 < n < |path| && path[..n] in t
    ensures t[path[..n]].Dir? || !ParentsClear(t0, path)
  {
    hide ChangesOk, UnderTarget;
    TargetVisible(t0, changes, path);
    VisiblePrefix(path, n);
    assert Allowed(NodeAt(t, path[..n]), path[..n], r, [], t0);
  }

  lemma NoneBelow(t: Tree, p: Path)
    requires Rooted(t) && p != [] && Parent(p) != [] && Parent(p) !in t
    ensures p !in t
  {
  }

  lemma PathShape(t: Tree, r: UndoRecord, changes: seq<Change>, t0: Tree, path: Path)
    requires Preparing(t, r, changes, t0) && IsTarget(changes, path)
    ensures path != [] && Visible(path)
  {
    TargetVisible(t0, changes, path);
  }

  lemma PrefixUnder(changes: seq<Change>, path: Path, n: nat)
    requires IsTarget(changes, path) && Visible(path) && 0 < n < |path|
    ensures UnderTarget(changes, path[..n]) && Visible(path[..n]) && Parent(path[..n]) == path[..n - 1]
  {
    var c :| c in changes && c.path == path;
    VisiblePrefix(path, n);
    assert Inside(c.path, path[..n]);
  }

  lemma DirectoriesNamed(t: Tree, r: UndoRecord, t0: Tree)
    requires Cleanable(t, r, t0)
    ensures forall d <- r.directories :: d != []
  {
  }

  lemma NothingPrepared(t0: Tree, changes: seq<Change>)
    requires Rooted(t0) && ChangesOk(t0, changes)
    ensures Preparing(t0, NOTHING, changes, t0) && Ready(t0, NOTHING, map[], changes, t0, 0)
  {
    forall p ensures Allowed(NodeAt(t0, p), p, NOTHING, [], t0) {
    }
  }

  /** The file a change starts from is as the plan says, now as before. */
  lemma FilePresent(t: Tree, r: UndoRecord, changes: seq<Change>, t0: Tree, k: nat)
    requires Preparing(t, r, changes, t0) && k < |changes|
    ensures var c := changes[k];
            && IsTarget(changes, c.path)
            && (c.before.Some? ==> c.path in t && t[c.path].File? && t[c.path].bytes == c.before.value)
            && Save(t0, c.path) == (if c.before.Some? then Present(c.path, c.before.value, t[c.path].mode) else Absent(c.path))
            && (c.after.Some? ==>
                  AfterOf(c, t0) == Some(File(c.after.value, if c.before.Some? then t[c.path].mode else DEFAULT_MODE)))
  {
    CleanableUnchanged(t, r, t0);
    hide Cleanable;
    var c := changes[k];
    assert c in changes && ChangeOk(t0, c);
    assert c.path in t0 ==> NodeAt(t, c.path) == Some(t0[c.path]);
  }

  /** The saved files play no part in what is still to be cleaned up. */
  lemma FilesIgnored(t: Tree, r: UndoRecord, r': UndoRecord, changes: seq<Change>, t0: Tree)
    requires Preparing(t, r, changes, t0) && r' == r.(files := r'.files)
    ensures Preparing(t, r', changes, t0)
  {
    forall p ensures Allowed(NodeAt(t, p), p, r', [], t0) {
      assert Allowed(NodeAt(t, p), p, r, [], t0);
    }
  }
}
