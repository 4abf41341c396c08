/** A repository as an update publisher sees it: a tree of files and
    directories, the changes to make to it, and the record that undoes them. */
module UpdateTree {
  import opened Common
  import opened FileTree

  datatype Change = Change(path: Path, before: Option<Bytes>, after: Option<Bytes>)

  /** A target as it was found: a file, or nothing. */
  datatype Saved = Absent(path: Path) | Present(path: Path, bytes: Bytes, mode: nat)

  datatype UndoRecord = UndoRecord(files: seq<Saved>, directories: seq<Path>, temporaries: seq<Path>)

  datatype World = World(tree: Tree, record: Option<UndoRecord>)

  const DEFAULT_MODE: nat := 420

  // ----- the changes --------------------------------------------------------

  predicate ChangeOk(t: Tree, c: Change) {
    && c.path != [] && Visible(c.path) && c.before != c.after
    && (if c.before.None? then c.path !in t
        else c.path in t && t[c.path].File? && t[c.path].bytes == c.before.value)
  }

  predicate ChangesOk(t: Tree, changes: seq<Change>) {
    && changes != []
    && (forall c <- changes :: ChangeOk(t, c))
    && (forall i, j :: 0 <= i < j < |changes| ==> changes[i].path != changes[j].path)
  }

  predicate Inside(p: Path, q: Path) { |q| < |p| && p[..|q|] == q }

  /** No target lies inside another. */
  predicate PrefixFree(changes: seq<Change>) {
    forall c <- changes, e <- changes :: !Inside(c.path, e.path)
  }

  predicate IsTarget(changes: seq<Change>, p: Path) { exists c <- changes :: c.path == p }

  /** What a change leaves at its target: the mode is the one that was there. */
  function AfterOf(c: Change, t0: Tree): Option<Node> {
    if c.after.None? then None
    else Some(File(c.after.value, if c.path in t0 && t0[c.path].File? then t0[c.path].mode else DEFAULT_MODE))
  }

  // ----- the record ---------------------------------------------------------

  function Save(t: Tree, p: Path): Saved {
    if p in t && t[p].File? then Present(p, t[p].bytes, t[p].mode) else Absent(p)
  }

  predicate UnderTarget(changes: seq<Change>, d: Path) { exists c <- changes :: Inside(c.path, d) }

  /** Everything the record names is new, and named as such things are. */
  predicate Names(r: UndoRecord, t0: Tree) {
    && (forall d <- r.directories :: d !in t0 && d != [] && Visible(d))
    && (forall p <- r.temporaries :: p !in t0 && !Visible(p))
  }

  predicate Unrepeated(paths: seq<Path>) { forall i, j :: 0 <= i < j < |paths| ==> paths[i] != paths[j] }

  /** A name the system made up, in the directory of some target. */
  predicate Beside(changes: seq<Change>, p: Path) {
    p != [] && p[|p| - 1].Fresh? && exists c <- changes :: Parent(c.path) == Parent(p)
  }

  /** The record tells how every target was, and names everything else the
      publication makes: each directory once, and temporaries beside the
      targets, no more than there are of those. */
  predicate Records(r: UndoRecord, changes: seq<Change>, t0: Tree) {
    && |r.files| == |changes|
    && (forall i :: 0 <= i < |changes| ==> r.files[i] == Save(t0, changes[i].path))
    && Names(r, t0)
    && (forall d <- r.directories :: UnderTarget(changes, d))
    && Unrepeated(r.directories)
    && |r.temporaries| <= |changes| && (forall p <- r.temporaries :: Beside(changes, p))
  }

  /** What may be found at one path while the record is there: anything that
      undoing can turn back into what was there before. */
  predicate Allowed(n: Option<Node>, p: Path, r: UndoRecord, changes: seq<Change>, t0: Tree) {
    if IsTarget(changes, p) then n.None? || n.value.File?
    else if p in r.directories then n.None? || n.value.Dir?
    else if p in r.temporaries then n.None? || n.value.File?
    else if p in t0 then n == Some(t0[p])
    else if Visible(p) then n.None?
    else n.None? || (n.value.File? && IsDir(t0, Parent(p)))
  }

  ghost predicate Undoable(t: Tree, r: UndoRecord, changes: seq<Change>, t0: Tree) {
    forall p :: Allowed(NodeAt(t, p), p, r, changes, t0)
  }

  const NOTHING: UndoRecord := UndoRecord([], [], [])

  /** Everything is as it was; all there can be besides are temporary files of
      interrupted restorations. */
  ghost predicate Back(t: Tree, t0: Tree) { Undoable(t, NOTHING, [], t0) }

  /** Nothing that was there has changed. */
  ghost predicate Unchanged(t: Tree, t0: Tree) { forall p <- t0 :: NodeAt(t, p) == Some(t0[p]) }

  /** Nothing that was there has changed, and no target has appeared. */
  ghost predicate Kept(t: Tree, changes: seq<Change>, t0: Tree) {
    Unchanged(t, t0) && forall c <- changes :: NodeAt(t, c.path) == NodeAt(t0, c.path)
  }

  /** Every change made, nothing else disturbed, and nothing left over but the
      directories the new targets are in. */
  ghost predicate Made(t: Tree, changes: seq<Change>, t0: Tree) {
    && (forall c <- changes :: NodeAt(t, c.path) == AfterOf(c, t0))
    && (forall p :: Elsewhere(NodeAt(t, p), p, changes, t0))
  }

  predicate Elsewhere(n: Option<Node>, p: Path, changes: seq<Change>, t0: Tree) {
    || IsTarget(changes, p)
    || (if p in t0 then n == Some(t0[p]) else n.None? || (n.value.Dir? && UnderTarget(changes, p)))
  }

  /** One point of a publication, or of undoing it.  With the record present
      everything can be undone; without it all targets are as before, or all
      are as after. */
  ghost predicate Atomic(w: World, changes: seq<Change>, t0: Tree) {
    match w.record
    case Some(r) => Records(r, changes, t0) && Undoable(w.tree, r, changes, t0)
    case None => Kept(w.tree, changes, t0) || Made(w.tree, changes, t0)
  }

  /** A record that undoing can never get past: a target that was absent is now
      a directory. */
  predicate Blocks(t: Tree, s: Saved) { s.Absent? && s.path in t && t[s.path].Dir? }

  predicate Blocked(t: Tree, r: UndoRecord) { exists s <- r.files :: Blocks(t, s) }

  // ----- single steps -------------------------------------------------------

  lemma UndoableStep(t: Tree, t': Tree, r: UndoRecord, changes: seq<Change>, t0: Tree, p: Path)
    requires Undoable(t, r, changes, t0)
    requires forall q :: q != p ==> NodeAt(t', q) == NodeAt(t, q)
    requires Allowed(NodeAt(t', p), p, r, changes, t0)
    ensures Undoable(t', r, changes, t0)
  {
    hide Allowed;
    forall q ensures Allowed(NodeAt(t', q), q, r, changes, t0) {
      assert Allowed(NodeAt(t, q), q, r, changes, t0);
    }
  }

  lemma OutsideTargets(changes: seq<Change>, p: Path, q: Path)
    requires PrefixFree(changes) && IsTarget(changes, p) && Inside(p, q)
    ensures !IsTarget(changes, q)
  {
    var c :| c in changes && c.path == p;
    forall e | e in changes ensures e.path != q {
      assert !Inside(c.path, e.path);
    }
  }

  lemma DirectoryNotTarget(r: UndoRecord, changes: seq<Change>, t0: Tree, d: Path)
    requires Records(r, changes, t0) && PrefixFree(changes) && d in r.directories
    ensures !IsTarget(changes, d)
  {
    var c :| c in changes && Inside(c.path, d);
    OutsideTargets(changes, c.path, d);
  }

  lemma TargetVisible(t0: Tree, changes: seq<Change>, p: Path)
    requires ChangesOk(t0, changes) && IsTarget(changes, p)
    ensures p != [] && Visible(p) && (p in t0 ==> t0[p].File?)
  {
    var c :| c in changes && c.path == p;
    assert ChangeOk(t0, c);
  }

  /** While a publication can be undone the directory of a target that was
      there is in place. */
  lemma ParentStays(t: Tree, r: UndoRecord, changes: seq<Change>, t0: Tree, p: Path)
    requires Undoable(t, r, changes, t0) && Records(r, changes, t0) && Rooted(t0) && PrefixFree(changes)
    requires ChangesOk(t0, changes) && IsTarget(changes, p) && p in t0
    ensures IsDir(t, Parent(p)) && IsDir(t0, Parent(p))
  {
    var q := Parent(p);
    TargetVisible(t0, changes, p);
    assert IsDir(t0, q);
    if q != [] {
      OutsideTargets(changes, p, q);
      VisiblePrefix(p, |p| - 1);
      assert Allowed(NodeAt(t, q), q, r, changes, t0);
    }
  }

  // ----- cleaning up --------------------------------------------------------

  /** Only what the record names is left to remove. */
  ghost predicate Cleanable(t: Tree, r: UndoRecord, t0: Tree) {
    Rooted(t0) && Names(r, t0) && Undoable(t, r, [], t0)
  }

  lemma CleanableStep(t: Tree, r: UndoRecord, t0: Tree, p: Path)
    requires Cleanable(t, r, t0) && (p in r.directories || p in r.temporaries)
    ensures Cleanable(t - {p}, r, t0)
  {
    UndoableStep(t, t - {p}, r, [], t0, p);
  }

  /** With the temporaries gone, the deepest directory still to be removed is
      empty. */
  lemma DeepestEmpty(t: Tree, r: UndoRecord, t0: Tree, d: Path, left: set<Path>)
    requires Cleanable(t, r, t0) && forall p <- r.temporaries :: p !in t
    requires d in left && (forall e <- left :: |e| <= |d|) && forall e <- r.directories :: e in left || e !in t
    requires d in r.directories
    ensures forall p <- t :: p != [] ==> Parent(p) != d
  {
    forall p | p != [] && Parent(p) == d ensures p !in t {
      assert Allowed(NodeAt(t, p), p, r, [], t0);
      assert p in t0 ==> IsDir(t0, Parent(p));
    }
  }

  lemma CleanedBack(t: Tree, r: UndoRecord, t0: Tree)
    requires Cleanable(t, r, t0)
    requires (forall p <- r.temporaries :: p !in t) && (forall d <- r.directories :: d !in t)
    ensures Back(t, t0)
  {
    forall p ensures Allowed(NodeAt(t, p), p, NOTHING, [], t0) {
      assert Allowed(NodeAt(t, p), p, r, [], t0);
    }
  }

  lemma CleanableUnchanged(t: Tree, r: UndoRecord, t0: Tree)
    requires Cleanable(t, r, t0)
    ensures Unchanged(t, t0)
  {
    forall p | p in t0 ensures NodeAt(t, p) == Some(t0[p]) {
      assert Allowed(NodeAt(t, p), p, r, [], t0);
    }
  }

  lemma CleanableKept(t: Tree, r: UndoRecord, changes: seq<Change>, t0: Tree)
    requires Cleanable(t, r, t0) && ChangesOk(t0, changes) && forall d <- r.directories :: !IsTarget(changes, d)
    ensures Kept(t, changes, t0)
  {
    CleanableUnchanged(t, r, t0);
    forall c | c in changes ensures NodeAt(t, c.path) == NodeAt(t0, c.path) {
      TargetVisible(t0, changes, c.path);
      assert Allowed(NodeAt(t, c.path), c.path, r, [], t0);
    }
  }

  lemma BackIsKept(t: Tree, changes: seq<Change>, t0: Tree)
    requires Back(t, t0) && Rooted(t0) && ChangesOk(t0, changes)
    ensures Kept(t, changes, t0)
  {
    CleanableKept(t, NOTHING, changes, t0);
  }

  // ----- undoing ------------------------------------------------------------

  /** A publication of prefix-free changes, somewhere between its record being
      written and being removed. */
  ghost predicate Undoing(t: Tree, r: UndoRecord, changes: seq<Change>, t0: Tree) {
    && ChangesOk(t0, changes) && PrefixFree(changes) && Rooted(t0)
    && Records(r, changes, t0) && Undoable(t, r, changes, t0)
  }

  predicate TargetsBack(t: Tree, changes: seq<Change>, t0: Tree, k: nat)
    requires k <= |changes|
  {
    forall j :: 0 <= j < k ==> NodeAt(t, changes[j].path) == NodeAt(t0, changes[j].path)
  }

  lemma TargetBack(t: Tree, changes: seq<Change>, t0: Tree, p: Path)
    requires TargetsBack(t, changes, t0, |changes|) && IsTarget(changes, p)
    ensures NodeAt(t, p) == NodeAt(t0, p)
  {
    var c :| c in changes && c.path == p;
    var j :| 0 <= j < |changes| && changes[j] == c;
    assert NodeAt(t, changes[j].path) == NodeAt(t0, p);
  }

  /** With every target back, only cleaning up is left. */
  lemma TargetsBackCleanable(t: Tree, r: UndoRecord, changes: seq<Change>, t0: Tree)
    requires Undoing(t, r, changes, t0) && TargetsBack(t, changes, t0, |changes|)
    ensures Cleanable(t, r, t0)
  {
    forall p ensures Allowed(NodeAt(t, p), p, r, [], t0) {
      assert Allowed(NodeAt(t, p), p, r, changes, t0);
      if IsTarget(changes, p) {
        TargetBack(t, changes, t0, p);
        TargetVisible(t0, changes, p);
      }
    }
  }

  /** Cleaning up is still undoing. */
  lemma CleanableUndoes(t: Tree, r: UndoRecord, changes: seq<Change>, t0: Tree)
    requires Cleanable(t, r, t0) && ChangesOk(t0, changes) && PrefixFree(changes) && Records(r, changes, t0)
    ensures Undoing(t, r, changes, t0) && Atomic(World(t, Some(r)), changes, t0)
  {
    forall p ensures Allowed(NodeAt(t, p), p, r, changes, t0) {
      assert Allowed(NodeAt(t, p), p, r, [], t0);
      if IsTarget(changes, p) {
        TargetVisible(t0, changes, p);
        if p in r.directories {
          DirectoryNotTarget(r, changes, t0, p);
        }
      }
    }
  }

  lemma UndoingTarget(t: Tree, t': Tree, r: UndoRecord, changes: seq<Change>, t0: Tree, p: Path)
    requires Undoing(t, r, changes, t0) && IsTarget(changes, p)
    requires (forall q :: q != p ==> NodeAt(t', q) == NodeAt(t, q)) && (NodeAt(t', p).None? || NodeAt(t', p).value.File?)
    ensures Undoing(t', r, changes, t0) && Atomic(World(t', Some(r)), changes, t0)
  {
    UndoableStep(t, t', r, changes, t0, p);
  }

  /** A temporary beside a target that was there may come, change and go. */
  lemma UndoingTemporary(t: Tree, t': Tree, r: UndoRecord, changes: seq<Change>, t0: Tree, p: Path, target: Path)
    requires Undoing(t, r, changes, t0) && IsTarget(changes, target) && target in t0
    requires p != [] && !Visible(p) && Parent(p) == Parent(target) && p !in t0
    requires (forall q :: q != p ==> NodeAt(t', q) == NodeAt(t, q)) && (NodeAt(t', p).None? || NodeAt(t', p).value.File?)
    ensures Undoing(t', r, changes, t0) && Atomic(World(t', Some(r)), changes, t0)
  {
    ParentStays(t, r, changes, t0, target);
    if IsTarget(changes, p) {
      TargetVisible(t0, changes, p);
    }
    UndoableStep(t, t', r, changes, t0, p);
  }

  /** A name that is new now was not there before either. */
  lemma NewIsNew(t: Tree, r: UndoRecord, changes: seq<Change>, t0: Tree, p: Path)
    requires Undoing(t, r, changes, t0) && p !in t && !Visible(p)
    ensures p !in t0 && !IsTarget(changes, p)
  {
    if IsTarget(changes, p) {
      TargetVisible(t0, changes, p);
    }
    assert Allowed(NodeAt(t, p), p, r, changes, t0);
  }

  /** One of this publication's own temporaries goes. */
  lemma UndoingOwn(t: Tree, r: UndoRecord, changes: seq<Change>, t0: Tree, p: Path)
    requires Undoing(t, r, changes, t0) && p in r.temporaries
    ensures Undoing(t - {p}, r, changes, t0) && !IsTarget(changes, p)
  {
    if IsTarget(changes, p) {
      TargetVisible(t0, changes, p);
    }
    UndoableStep(t, t - {p}, r, changes, t0, p);
  }
}
