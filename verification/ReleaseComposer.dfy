/** Composing a release: copied into a staging directory beside the output,
    then swapped in with two renames. */
module ReleaseComposer {
  import opened Common
  import opened FileTree
  import opened ReleaseTree
  import opened ReleaseCopying

  /** No part of the path is one the release must never contain. */
  const Protected: Path -> bool

  /** A source that exists, with nothing protected in it. */
  predicate SourceOk(t: Tree, source: Path) {
    source != [] && source in t && forall p <- t :: source <= p ==> !Protected(p)
  }

  /** The output directory is, file for file, what it was. */
  ghost predicate OutputSame(was: Tree, now: Tree, output: Path) {
    forall s :: NodeAt(now, output + s) == NodeAt(was, output + s)
  }

  /** The output directory is the release. */
  ghost predicate OutputIs(t0: Tree, now: Tree, output: Path, entries: seq<Entry>) {
    forall s :: NodeAt(now, output + s) == Composed(t0, entries, s)
  }

  /** Some other directory still has what the output had. */
  ghost predicate KeptAt(was: Tree, now: Tree, output: Path, aside: Path) {
    forall s :: NodeAt(now, aside + s) == NodeAt(was, output + s)
  }

  ghost predicate KeptAside(was: Tree, now: Tree, output: Path) { exists aside :: KeptAt(was, now, output, aside) }

  /** Nothing with an ordinary name has changed but what is in the output. */
  ghost predicate OthersKept(was: Tree, now: Tree, output: Path) {
    forall q :: Visible(q) && !(output <= q) ==> NodeAt(now, q) == NodeAt(was, q)
  }

  /** Nothing with an ordinary name has changed but what is in the output, and
      directories made to hold it. */
  ghost predicate OnlyOutput(was: Tree, now: Tree, output: Path) {
    forall q :: Visible(q) && !(output <= q) ==>
      NodeAt(now, q) == NodeAt(was, q) || (q <= Parent(output) && q !in was && NodeAt(now, q) == Some(Dir))
  }

  /** Nothing hidden is left that was not there, but in the output. */
  ghost predicate Tidy(was: Tree, now: Tree, output: Path) {
    forall q <- now :: output <= q || Visible(q) || q in was
  }

  /** Nothing at or above a path is a file. */
  predicate ClearTo(t: Tree, path: Path) { forall q :: q <= path && q in t ==> t[q].Dir? }

  /** What the tree and the entries must be for a release to be composed. */
  predicate Composable(t: Tree, output: Path, entries: seq<Entry>) {
    && output != [] && ClearTo(t, output)
    && forall e <- entries :: SourceOk(t, e.source) && !(e.source <= Parent(output))
  }

  /** The manifest check lets a source through that holds the output's own
      directory, and no tree makes such a release composable. */
  lemma EnclosingAccepted()
    ensures var output, entries := [Plain("site"), Plain("out")], [Entry([Plain("site")], [Plain("lib")])];
            && Apart(entries) && (forall e <- entries :: !(output <= e.source))
            && forall t :: !Composable(t, output, entries)
  {
    var output, e := [Plain("site"), Plain("out")], Entry([Plain("site")], [Plain("lib")]);
    assert Parent(output) == [Plain("site")] == e.source;
    forall t ensures !Composable(t, output, [e]) {
      assert e in [e];
    }
  }

  class Composer {
    var tree: Tree
    var next: nat
    /** How many calls the system refused, and how many of those were renames
        that put the old output back. */
    ghost var refusals: nat
    ghost var lostRestores: nat

    ghost predicate Valid()
      reads this
    {
      Rooted(tree) && StampedBelow(tree, next)
    }

    constructor (tree: Tree, next: nat)
      requires Rooted(tree) && StampedBelow(tree, next)
      ensures Valid() && this.tree == tree && lostRestores == refusals == 0
    {
      this.tree, this.next, lostRestores, refusals := tree, next, 0, 0;
    }

    method Call(t: Tree) returns (ok: bool)
      requires Valid() && Rooted(t) && StampedBelow(t, next)
      modifies this`tree, this`refusals
      ensures Valid() && tree == if ok then t else old(tree)
      ensures refusals == old(refusals) + (if ok then 0 else 1)
    {
      ok := *;
      if ok {
        tree := t;
      } else {
        refusals := refusals + 1;
      }
    }

    /** Makes a directory and every one above it that is missing. */
    method MakeDirs(path: Path, ghost stage: Path) returns (ok: bool)
      requires Valid() && (forall part <- path :: part.Fresh? ==> part.stamp < next)
      requires stage == [] || (stage in tree && stage <= path)
      modifies this`tree, this`refusals
      ensures refusals >= old(refusals) && (ok <==> refusals == old(refusals) && ClearTo(old(tree), path))
      ensures Valid() && OutsideSame(old(tree), tree, stage)
      ensures exists n :: 0 <= n <= |path| && DirsMade(old(tree), tree, path[..n])
      ensures ok ==> DirsMade(old(tree), tree, path) && IsDir(tree, path)
    {
      hide Rooted, StampedBelow, DirsMade, OutsideSame, ClearTo;
      ghost var was := tree;
      var n := 0;
      NoDirsMade(was);
      assert path[..0] == [];
      ClearToRoot(was);
      DirsInStageNone(was, path, stage);
      while n < |path|
        invariant n <= |path| && Valid() && DirsMade(was, tree, path[..n]) && OutsideSame(was, tree, stage)
        invariant n > 0 ==> IsDir(tree, path[..n])
        invariant refusals == old(refusals) && ClearTo(was, path[..n])
      {
        var d := path[..n + 1];
        assert Parent(d) == path[..n];
        ClearToNext(was, tree, path, n);
        OneMoreDir(was, tree, path, n);
        if d in tree {
          if tree[d].File? {
            return false;
          }
        } else {
          PrefixStamped(path, d, next);
          WithStamp(tree, next, d, Dir);
          DirAdded(tree, d);
          ok := Call(tree[d := Dir]);
          if !ok {
            return;
          }
        }
        if stage == [] {
          AllInRoot(was, tree);
        } else {
          StagePrefix(stage, path, n + 1);
          DirsInStage(was, tree, d, stage);
        }
        n := n + 1;
      }
      assert path[..|path|] == path;
      ok := true;
    }

    /** Copies one file and sets its mode. */
    method CopyFile(source: Path, dest: Path, ghost stage: Path) returns (ok: bool)
      requires Valid() && source in tree && tree[source].File? && source != []
      requires stage in tree && stage < dest && NothingUnder(tree, dest)
      requires forall part <- dest :: part.Fresh? ==> part.stamp < next
      requires ClearTo(tree, Parent(dest))
      modifies this`tree, this`refusals
      ensures Valid() && OutsideSame(old(tree), tree, stage)
      ensures ok ==> CopiedTo(old(tree), tree, source, dest)
      ensures refusals >= old(refusals) && (ok <==> refusals == old(refusals))
    {
      hide Rooted, StampedBelow, DirsMade, OutsideSame, CopiedTo, ClearTo;
      ghost var was := tree;
      var bytes, mode := tree[source].bytes, tree[source].mode;
      AboveParent(dest, stage);
      PrefixStamped(dest, Parent(dest), next);
      ok := MakeDirs(Parent(dest), stage);
      if !ok {
        return;
      }
      ghost var mid := tree;
      DestFree(was, mid, dest);
      var umasked: nat :| umasked >= 0;
      FileAdded(mid, dest, File(bytes, umasked));
      WithStamp(mid, next, dest, File(bytes, umasked));
      OnlyAt(was, mid, dest, File(bytes, umasked), stage);
      ok := Call(tree[dest := File(bytes, umasked)]);
      if !ok {
        return;
      }
      var copied := File(bytes, if Executable(mode) then 493 else 420);
      FileAdded(mid, dest, copied);
      WithStamp(mid, next, dest, copied);
      OnlyAt(was, mid, dest, copied, stage);
      assert mid[dest := File(bytes, umasked)][dest := copied] == mid[dest := copied];
      ok := Call(tree[dest := copied]);
      if ok {
        FileCopied(was, mid, tree, source, dest);
      }
    }

    /** Copies a file, or a directory child by child.  It ends because what is
        below the source is never added to. */
    method CopySource(source: Path, dest: Path, ghost stage: Path) returns (ok: bool)
      requires Valid() && source in tree && source != [] && !Overlap(source, stage)
      requires stage in tree && stage < dest && NothingUnder(tree, dest)
      requires forall part <- dest :: part.Fresh? ==> part.stamp < next
      requires ClearTo(tree, Parent(dest))
      modifies this`tree, this`refusals
      ensures Valid() && OutsideSame(old(tree), tree, stage)
      ensures ok ==> CopiedTo(old(tree), tree, source, dest)
      ensures refusals >= old(refusals) && (ok <==> refusals == old(refusals))
      decreases |Below(tree, source)|
    {
      hide Rooted, StampedBelow, DirsMade, OutsideSame, CopiedTo, Overlap, PartCopied, NothingUnder, Children, Below, ClearTo;
      ghost var was0 := tree;
      FreeIsClear(was0, dest);
      if tree[source].File? {
        ok := CopyFile(source, dest, stage);
        return;
      }
      SourceApart(source, stage, dest);
      ok := MakeDirs(dest, stage);
      if !ok {
        return;
      }
      ghost var was := tree;
      DirsMadeSource(was0, was, source, dest, stage);
      DirsInStageNone(was, dest, stage);
      var rest := Children(tree, source);
      NothingCopied(was, source, dest);
      while rest != {}
        invariant Valid() && OutsideSame(was0, tree, stage) && OutsideSame(was, tree, stage)
        invariant PartCopied(was, tree, source, dest, rest) && rest <= Children(was, source)
        invariant dest in tree && tree[dest].Dir? && stage in tree && refusals == old(refusals)
        decreases rest
      {
        var n :| n in rest;
        ghost var mid := tree;
        ChildReady(was0, was, mid, source, dest, rest, n, stage);
        DirIsClear(mid, dest, n);
        assert forall part <- dest + [n] :: part.Fresh? ==> part.stamp < next by { ChildStamped(was, source, dest, n, next); }
        ok := CopySource(source + [n], dest + [n], stage);
        SameOutside(was0, mid, tree, stage);
        SameOutside(was, mid, tree, stage);
        if !ok {
          return;
        }
        OneMoreChild(was, mid, tree, source, dest, rest, n);
        ChildDone(mid, tree, source, dest, n, stage);
        rest := rest - {n};
      }
      FinishedSource(was0, was, tree, source, dest);
      ok := true;
    }

    /** Looks at every source before anything is made. */
    method ValidateSources(entries: seq<Entry>) returns (ok: bool)
      ensures ok <==> forall e <- entries :: SourceOk(tree, e.source)
    {
      var k := 0;
      while k < |entries|
        invariant k <= |entries| && forall i :: 0 <= i < k ==> SourceOk(tree, entries[i].source)
      {
        if !SourceOk(tree, entries[k].source) {
          return false;
        }
        k := k + 1;
      }
      ok := true;
    }

    /** Copies every entry to its place in the stage.  Copying a source that
        contains the stage never finishes; it is only ever given up, with
        whatever it made inside the stage. */
    method CopyEntries(entries: seq<Entry>, stage: Path, ghost t0: Tree) returns (ok: bool)
      requires Valid() && Rooted(t0) && stage != [] && Staged(t0, tree, stage, []) && OutsideSame(t0, tree, stage)
      requires Apart(entries) && forall e <- entries :: e.target != [] && Visible(e.target)
      requires forall e <- entries :: e.source != [] && e.source in t0 && !(stage <= e.source)
      requires forall part <- stage :: part.Fresh? ==> part.stamp < next
      modifies this`tree, this`refusals
      ensures Valid() && OutsideSame(t0, tree, stage)
      ensures ok ==> Staged(t0, tree, stage, entries) && forall e <- entries :: !Overlap(e.source, stage)
      ensures refusals >= old(refusals)
      ensures ok <==> refusals == old(refusals) && forall e <- entries :: !(e.source <= stage)
    {
      hide Rooted, StampedBelow, OutsideSame, Staged, Overlap, CopiedTo, Apart, NothingUnder, ClearTo;
      var k := 0;
      assert entries[..0] == [];
      while k < |entries|
        invariant k <= |entries| && Valid() && OutsideSame(t0, tree, stage) && Staged(t0, tree, stage, entries[..k])
        invariant forall i :: 0 <= i < k ==> !Overlap(entries[i].source, stage) && !(entries[i].source <= stage)
        invariant refusals == old(refusals)
      {
        var e := entries[k];
        assert e in entries;
        if e.source <= stage {
          return false;
        }
        ghost var was := tree;
        EntryReady(t0, was, stage, entries, k, next);
        EntryClear(t0, was, stage, entries, k);
        ok := CopySource(e.source, stage + e.target, stage);
        SameOutside(t0, was, tree, stage);
        if !ok {
          return;
        }
        StagedMore(t0, was, tree, stage, entries, k);
        k := k + 1;
      }
      assert entries[..|entries|] == entries;
      ok := true;
    }

    method RemoveTree(d: Path)
      requires Valid() && d != []
      modifies this`tree, this`refusals
      ensures refusals >= old(refusals)
      ensures Valid() && (tree == old(tree) || tree == RemovedTree(old(tree), d))
      ensures refusals == old(refusals) ==> tree == RemovedTree(old(tree), d)
    {
      RemovedRooted(tree, d);
      var done := Call(RemovedTree(tree, d));
    }

    /** Renames a directory to a name nothing has, in the same directory. */
    method Rename(from: Path, to: Path) returns (ok: bool)
      requires Valid() && NothingUnder(tree, to) && !Overlap(from, to) && from != [] && to != []
      requires IsDir(tree, Parent(to)) && !(from <= Parent(to))
      requires forall part <- to :: part.Fresh? ==> part.stamp < next
      modifies this`tree, this`refusals
      ensures Valid() && tree == if ok then Moved(old(tree), from, to) else old(tree)
      ensures refusals == old(refusals) + (if ok then 0 else 1)
    {
      MovedRooted(tree, from, to);
      MovedStamped(tree, from, to, next);
      ok := Call(Moved(tree, from, to));
    }

    /** Makes a name for the old output and moves it there. */
    method SetAside(output: Path) returns (ok: bool, backup: Path)
      requires Valid() && output != [] && output in tree && Visible(output)
      modifies this`tree, this`next, this`refusals
      ensures refusals >= old(refusals) && (ok <==> refusals == old(refusals))
      ensures Valid() && next > old(next) && backup == Parent(output) + [Fresh(old(next))]
      ensures ok ==> tree == Moved(old(tree), output, backup)
      ensures !ok ==> tree == old(tree) || tree == old(tree)[backup := Dir]
      ensures NothingUnder(old(tree), backup) && IsDir(old(tree), Parent(output))
      ensures OthersKept(old(tree), tree, output)
    {
      hide Rooted, StampedBelow, Moved, NothingUnder, IsDir, Visible, Overlap, OthersKept;
      backup := Parent(output) + [Fresh(next)];
      ghost var was := tree;
      HasParent(was, output);
      FreshSibling(was, output, backup, next);
      SiblingApart(output, backup);
      next := next + 1;
      StillStamped(was, next);
      SiblingAdded(was, output, backup, next);
      OthersSame(was, output);
      OthersAdded(was, backup, output);
      OthersMoved(was, output, backup, output);
      ok := Call(tree[backup := Dir]);
      if !ok {
        return;
      }
      AddedRemoved(was, backup);
      ok := Call(tree - {backup});
      if !ok {
        return;
      }
      ok := Rename(output, backup);
    }

    /** Puts the stage in the output's place.  If that fails once the old output
        is aside, it is put back. */
    method Swap(output: Path, stage: Path) returns (ok: bool, backup: Option<Path>)
      requires Valid() && output != [] && Visible(output) && stage in tree && IsSibling(stage, output)
      requires IsDir(tree, Parent(output))
      requires stage[|stage| - 1].stamp < next
      modifies this
      ensures Valid() && lostRestores >= old(lostRestores)
      ensures ok ==> forall s :: NodeAt(tree, output + s) == NodeAt(old(tree), stage + s)
      ensures !ok ==> Held(old(tree), tree, output, stage, backup, lostRestores - old(lostRestores))
      ensures refusals >= old(refusals)
      ensures ok ==> !(output in old(tree) && old(tree)[output].File?)
      ensures !ok ==> refusals > old(refusals) || (output in old(tree) && old(tree)[output].File?)
      ensures refusals == old(refusals) ==>
                if ok then Tidy(old(tree), tree, output) && NothingUnder(tree, stage) else tree == old(tree) && backup.None?
      ensures OthersKept(old(tree), tree, output)
    {
      hide Tidy, RemovedTree, Rooted, StampedBelow, Moved, NothingUnder, Overlap, OutputSame, Displaced, Visible, IsDir, IsSibling, OthersKept;
      ghost var was := tree;
      OthersSame(was, output);
      backup := None;
      SameOutput(was, output);
      VisibleStamped(output, next);
      SiblingApart(output, stage);
      var aside := false;
      if output in tree {
        if tree[output].File? {
          return false, None;
        }
        ghost var stamp := next;
        var b;
        ok, b := SetAside(output);
        SetAsideMeans(was, tree, output, stage, b, stamp, ok);
        backup := Some(b);
        if !ok {
          return;
        }
        aside := true;
      } else {
        AbsentUnder(was, output);
      }
      ghost var mid := tree;
      VisibleStamped(output, next);
      OthersMoved(mid, stage, output, output);
      ok := Rename(stage, output);
      if ok {
        OthersJoin(was, mid, tree, output);
      }
      if !ok {
        if aside {
          SiblingApart(output, backup.value);
          OthersMoved(mid, backup.value, output, output);
          var restored := Rename(backup.value, output);
          if restored {
            OthersJoin(was, mid, tree, output);
            PutBack(was, mid, output, backup.value);
            backup := None;
          } else {
            lostRestores := lostRestores + 1;
          }
        }
        return;
      }
      SwappedIn(was, mid, output, stage);
      ghost var swapped := tree;
      if aside {
        SiblingApart(output, backup.value);
        RemoveTree(backup.value);
        RemovedKeeps(swapped, output, backup.value);
        OthersRemoved(swapped, tree, backup.value, output);
        OthersJoin(was, swapped, tree, output);
      }
      if refusals == old(refusals) {
        SwapTidy(was, mid, swapped, tree, output, stage, backup);
      }
    }

    /** What is done last, whatever happened: the stage goes, and an output that
        is still aside is put back. */
    method TidyUp(output: Path, stage: Path, backup: Option<Path>, ok: bool, ghost orig: Tree, ghost entries: seq<Entry>, ghost lost: nat)
      requires Valid() && output != [] && stage != [] && Visible(output) && IsSibling(stage, output)
      requires ok ==> OutputIs(orig, tree, output, entries)
      requires !ok ==> Held(orig, tree, output, stage, backup, lost)
      modifies this`tree, this`lostRestores, this`refusals
      ensures Valid() && lostRestores >= old(lostRestores) && refusals >= old(refusals)
      ensures ok ==> OutputIs(orig, tree, output, entries)
      ensures !ok ==> OutputSame(orig, tree, output)
                      || (lostRestores - old(lostRestores) + lost >= 2 && KeptAside(orig, tree, output))
      ensures OthersKept(old(tree), tree, output)
      ensures refusals == old(refusals) && (ok || backup.None?) ==> tree == RemovedTree(old(tree), stage)
    {
      hide RemovedTree, Rooted, StampedBelow, Visible, Overlap, OutputSame, OutputIs, KeptAside, Displaced, IsSibling, IsDir, Held, OthersKept;
      OthersSame(tree, output);
      RemovedAbsent(tree, stage);
      if stage in tree {
        ghost var was := tree;
        SiblingParts(stage, output);
        RemoveTree(stage);
        OthersRemoved(was, tree, stage, output);
        if ok {
          OutputIsKept(orig, was, tree, output, stage, entries);
        } else {
          HeldRemoved(orig, was, tree, output, stage, backup, lost);
        }
      }
      if ok {
        return;
      }
      ghost var last := tree;
      HeldMeans(orig, last, output, stage, backup, lost);
      if backup.Some? && backup.value in tree && output !in tree {
        VisibleStamped(output, next);
        OthersMoved(last, backup.value, output, output);
        var restored := Rename(backup.value, output);
        if restored {
          OthersJoin(old(tree), last, tree, output);
          PutBack(orig, last, output, backup.value);
        } else {
          lostRestores := lostRestores + 1;
        }
      }
    }

    /** Stages a release and swaps it in. */
    method StageAndSwap(output: Path, entries: seq<Entry>, ghost orig: Tree) returns (ok: bool)
      requires Valid() && output != [] && Visible(output) && Apart(entries) && IsDir(tree, Parent(output))
      requires DirsMade(orig, tree, Parent(output)) && OutputSame(orig, tree, output)
      requires forall e <- entries :: e.target != [] && Visible(e.target) && Visible(e.source) && SourceOk(orig, e.source)
      modifies this
      ensures Valid() && lostRestores >= old(lostRestores)
      ensures ok ==> OutputIs(orig, tree, output, entries) && forall e <- entries :: !(e.source <= Parent(output))
      ensures !ok ==> OutputSame(orig, tree, output)
                      || (lostRestores >= old(lostRestores) + 2 && KeptAside(orig, tree, output))
      ensures refusals >= old(refusals)
      ensures ok ==> !(output in orig && orig[output].File?)
      ensures !ok ==> refusals > old(refusals) || (output in orig && orig[output].File?)
                      || exists e <- entries :: e.source <= Parent(output)
      ensures OthersKept(old(tree), tree, output)
      ensures refusals == old(refusals) ==> Tidy(old(tree), tree, output)
    {
      hide Tidy, RemovedTree, Rooted, StampedBelow, Visible, Overlap, OutputSame, OutputIs, KeptAside, Displaced, Staged,
           OutsideSame, DirsMade, Apart,
           IsSibling, IsDir, Held, SourceOk, NothingUnder, OthersKept;
      ghost var t0 := tree;
      OthersSame(t0, output);
      var stage := Parent(output) + [Fresh(next)];
      FreshSibling(t0, output, stage, next);
      next := next + 1;
      StillStamped(t0, next);
      SiblingAdded(t0, output, stage, next);
      SiblingApart(output, stage);
      SiblingParts(stage, output);
      ok := Call(tree[stage := Dir]);
      if !ok {
        return;
      }
      StageStarts(orig, t0, output, stage, entries, next);
      SourcesAbove(entries, stage, output);
      ok := CopyEntries(entries, stage, t0);
      ghost var t1 := tree;
      StageKeepsOutput(orig, t0, t1, output, stage);
      OthersOutside(t0, t1, stage, output);
      var backup: Option<Path> := None;
      HeldAtFirst(orig, t1, output, stage);
      if ok {
        StageThere(t0, t1, output, stage, entries);
        SameNode(orig, t1, output);
        ok, backup := Swap(output, stage);
        OthersJoin(t0, t1, tree, output);
        if ok {
          ReleaseIs(orig, t0, t1, tree, output, stage, entries);
        } else {
          HeldSince(orig, t1, tree, output, stage, backup, lostRestores - old(lostRestores));
        }
      }
      ghost var t2 := tree;
      TidyUp(output, stage, backup, ok, orig, entries, lostRestores - old(lostRestores));
      OthersJoin(t0, t2, tree, output);
      if refusals == old(refusals) {
        StageTidy(t0, t1, t2, tree, output, stage, ok);
      }
    }

    /** Replaces the output by the release its entries declare.  Either the
        output is then exactly that release, or it is as it was, unless both
        attempts to put it back failed, and then it is whole under another
        name.  A source that contains the output's directory never composes;
        otherwise it composes unless the system refuses something or what is
        there already is in the way. */
    method Compose(output: Path, entries: seq<Entry>) returns (ok: bool)
      requires Valid() && Visible(output) && Apart(entries)
      requires forall e <- entries :: e.target != [] && Visible(e.target) && Visible(e.source)
      modifies this
      ensures Valid() && lostRestores >= old(lostRestores)
      ensures entries == [] ==> ok && tree == old(tree)
      ensures ok && entries != [] ==> OutputIs(old(tree), tree, output, entries) && forall e <- entries :: !(e.source <= Parent(output))
      ensures !ok ==> OutputSame(old(tree), tree, output)
                      || (lostRestores >= old(lostRestores) + 2 && KeptAside(old(tree), tree, output))
      ensures refusals >= old(refusals)
      ensures ok && entries != [] ==> Composable(old(tree), output, entries)
      ensures !ok ==> refusals > old(refusals) || !Composable(old(tree), output, entries)
      ensures OnlyOutput(old(tree), tree, output)
      ensures refusals == old(refusals) ==> Tidy(old(tree), tree, output)
    {
      hide Tidy, Rooted, StampedBelow, Visible, OutputSame, OutputIs, KeptAside, OutsideSame, DirsMade, Apart, IsDir, SourceOk, ClearTo,
           OthersKept, OnlyOutput;
      OnlyOutputSame(tree, output);
      SameTidy(tree, output);
      if entries == [] {
        return true;
      }
      ghost var orig := tree;
      SameOutput(orig, output);
      if output == [] {
        return false;
      }
      ok := ValidateSources(entries);
      if !ok {
        return;
      }
      VisibleParent(output);
      VisibleStamped(Parent(output), next);
      ClearToOutput(orig, output);
      ok := MakeDirs(Parent(output), []);
      DirsKeepOutput(orig, tree, output);
      DirsOnlyOutput(orig, tree, output);
      if ok {
        ghost var t0 := tree;
        ok := StageAndSwap(output, entries, orig);
        OnlyOutputThen(orig, t0, tree, output);
        if refusals == old(refusals) {
          DirsTidy(orig, t0, tree, output);
        }
      } else if refusals == old(refusals) {
        DirsOnlyTidy(orig, tree, output);
      }
    }
  }

  // ----- what is left -------------------------------------------------------

  lemma SameTidy(t: Tree, output: Path)
    ensures Tidy(t, t, output)
  {
  }

  lemma RemovedAbsent(t: Tree, d: Path)
    requires Rooted(t) && d != []
    ensures d !in t ==> RemovedTree(t, d) == t
  {
    forall p | p in t && d <= p ensures d in t {
      if d != p {
        AncestorsAreDirs(t, p, |d|);
        assert p[..|d|] == d;
      }
    }
  }

  /** The stage moved in, and what was there moved aside and removed. */
  lemma SwapTidy(was: Tree, mid: Tree, swapped: Tree, now: Tree, output: Path, stage: Path, backup: Option<Path>)
    requires IsSibling(stage, output) && Visible(output) && output != []
    requires swapped == Moved(mid, stage, output)
    requires if backup.Some? then mid == Moved(was, output, backup.value) && now == RemovedTree(swapped, backup.value)
             else mid == was && now == swapped
    ensures Tidy(was, now, output) && NothingUnder(now, stage)
  {
    hide Moved, MovedNode, Visible;
    SiblingApart(output, stage);
    forall q | q in now ensures !(stage <= q) && (output <= q || q in was) {
      MovedFrom(mid, stage, output, q);
      assert q in swapped && NodeAt(swapped, q).Some?;
      if !(output <= q) {
        assert NodeAt(mid, q).Some?;
        if backup.Some? {
          MovedFrom(was, output, backup.value, q);
        }
      }
    }
  }

  /** What a rename leaves outside the new name was there, outside the old. */
  lemma MovedFrom(t: Tree, from: Path, to: Path, q: Path)
    ensures !(to <= q) ==> NodeAt(Moved(t, from, to), q) == if from <= q then None else NodeAt(t, q)
  {
    MovedAt(t, from, to, q);
  }

  lemma StageTidy(t0: Tree, t1: Tree, t2: Tree, now: Tree, output: Path, stage: Path, ok: bool)
    requires OutsideSame(t0, t1, stage)
    requires if ok then Tidy(t1, t2, output) else t2 == t1
    requires now == RemovedTree(t2, stage)
    ensures Tidy(t0, now, output)
  {
    forall q | q in now ensures output <= q || Visible(q) || q in t0 {
      assert q in t2 && !(stage <= q);
      assert NodeAt(t1, q) == NodeAt(t0, q);
    }
  }

  lemma DirsOnlyTidy(orig: Tree, t: Tree, output: Path)
    requires exists n :: 0 <= n <= |Parent(output)| && DirsMade(orig, t, Parent(output)[..n])
    requires Visible(output) && output != []
    ensures Tidy(orig, t, output)
  {
    var n :| 0 <= n <= |Parent(output)| && DirsMade(orig, t, Parent(output)[..n]);
    forall q | q in t ensures Visible(q) || q in orig {
      assert NodeAt(t, q) == if q != [] && q <= Parent(output)[..n] && q !in orig then Some(Dir) else NodeAt(orig, q);
      if q <= Parent(output)[..n] {
        assert forall part <- q :: part in output;
      }
    }
  }

  lemma DirsTidy(orig: Tree, t0: Tree, now: Tree, output: Path)
    requires exists n :: 0 <= n <= |Parent(output)| && DirsMade(orig, t0, Parent(output)[..n])
    requires Tidy(t0, now, output) && Visible(output) && output != []
    ensures Tidy(orig, now, output)
  {
    DirsOnlyTidy(orig, t0, output);
    hide DirsMade, Visible;
  }

  predicate IsSibling(x: Path, output: Path) { x != [] && Parent(x) == Parent(output) && x[|x| - 1].Fresh? }

  /** The old output is aside, whole, and there is room to put it back. */
  ghost predicate Displaced(was: Tree, now: Tree, output: Path, stage: Path, backup: Path) {
    && NothingUnder(now, output) && KeptAt(was, now, output, backup) && IsDir(now, Parent(output))
    && IsSibling(backup, output) && backup != stage
  }

  /** After a failure the output is as it was, or aside with one attempt to put
      it back already lost. */
  ghost predicate Held(was: Tree, now: Tree, output: Path, stage: Path, backup: Option<Path>, lost: int) {
    || (OutputSame(was, now, output) && (backup.Some? ==> output in was))
    || (backup.Some? && Displaced(was, now, output, stage, backup.value) && output in was && lost >= 1)
  }

  // ----- what else there is -------------------------------------------------

  lemma OthersSame(t: Tree, output: Path)
    ensures OthersKept(t, t, output)
  {
  }

  lemma OthersJoin(a: Tree, b: Tree, c: Tree, output: Path)
    requires OthersKept(a, b, output) && OthersKept(b, c, output)
    ensures OthersKept(a, c, output)
  {
    forall q | Visible(q) && !(output <= q) ensures NodeAt(c, q) == NodeAt(a, q) {
      assert NodeAt(b, q) == NodeAt(a, q);
    }
  }

  /** Nothing with an ordinary name is under a sibling of the output. */
  lemma HiddenUnder(d: Path, output: Path, q: Path)
    requires d == output || IsSibling(d, output)
    requires Visible(q) && !(output <= q)
    ensures !(d <= q)
  {
    if d != [] && |d| <= |q| {
      assert q[|d| - 1] in q;
    }
  }

  lemma OthersMoved(t: Tree, from: Path, to: Path, output: Path)
    requires (from == output || IsSibling(from, output)) && (to == output || IsSibling(to, output))
    ensures OthersKept(t, Moved(t, from, to), output)
  {
    hide Moved, IsSibling, Visible;
    forall q | Visible(q) && !(output <= q) ensures NodeAt(Moved(t, from, to), q) == NodeAt(t, q) {
      HiddenUnder(from, output, q);
      HiddenUnder(to, output, q);
      MovedAt(t, from, to, q);
    }
  }

  lemma OthersRemoved(t: Tree, now: Tree, d: Path, output: Path)
    requires (now == t || now == RemovedTree(t, d)) && IsSibling(d, output)
    ensures OthersKept(t, now, output)
  {
    hide IsSibling, Visible;
    forall q | Visible(q) && !(output <= q) ensures NodeAt(now, q) == NodeAt(t, q) {
      HiddenUnder(d, output, q);
    }
  }

  lemma OthersAdded(t: Tree, x: Path, output: Path)
    requires IsSibling(x, output)
    ensures OthersKept(t, t[x := Dir], output)
  {
    hide IsSibling, Visible;
    forall q | Visible(q) && !(output <= q) ensures NodeAt(t[x := Dir], q) == NodeAt(t, q) {
      HiddenUnder(x, output, q);
      assert x <= x;
    }
  }

  /** What happens in the stage happens to nothing else. */
  lemma OthersOutside(t: Tree, now: Tree, stage: Path, output: Path)
    requires OutsideSame(t[stage := Dir], now, stage) || OutsideSame(t, now, stage)
    requires IsSibling(stage, output)
    ensures OthersKept(t, now, output)
  {
    hide IsSibling, Visible;
    forall q | Visible(q) && !(output <= q) ensures NodeAt(now, q) == NodeAt(t, q) {
      HiddenUnder(stage, output, q);
      assert stage <= stage;
    }
  }

  lemma OnlyOutputSame(t: Tree, output: Path)
    ensures OnlyOutput(t, t, output)
  {
  }

  lemma DirsOnlyOutput(was: Tree, now: Tree, output: Path)
    requires output != [] && exists n :: 0 <= n <= |Parent(output)| && DirsMade(was, now, Parent(output)[..n])
    ensures OnlyOutput(was, now, output)
  {
    var n :| 0 <= n <= |Parent(output)| && DirsMade(was, now, Parent(output)[..n]);
    var path := Parent(output)[..n];
    forall q | Visible(q) && !(output <= q)
      ensures NodeAt(now, q) == NodeAt(was, q) || (q <= Parent(output) && q !in was && NodeAt(now, q) == Some(Dir))
    {
      PrefixTransitive(q, path, Parent(output));
      assert NodeAt(now, q) == if q != [] && q <= path && q !in was then Some(Dir) else NodeAt(was, q);
    }
  }

  lemma OnlyOutputThen(a: Tree, b: Tree, c: Tree, output: Path)
    requires OnlyOutput(a, b, output) && OthersKept(b, c, output)
    ensures OnlyOutput(a, c, output)
  {
    hide Visible;
  }

  // ----- what is in the way -------------------------------------------------

  lemma ClearToRoot(t: Tree)
    requires Rooted(t)
    ensures ClearTo(t, [])
  {
  }

  lemma ClearToNext(was: Tree, mid: Tree, path: Path, n: nat)
    requires n < |path| && ClearTo(was, path[..n]) && DirsMade(was, mid, path[..n])
    ensures ClearTo(was, path[..n + 1]) <==> !(path[..n + 1] in mid && mid[path[..n + 1]].File?)
    ensures path[..n + 1] in mid && mid[path[..n + 1]].File? ==> !ClearTo(was, path)
  {
    var d := path[..n + 1];
    assert NodeAt(mid, d) == NodeAt(was, d) by { assert !(d <= path[..n]); }
    forall q | q in was && q <= d ensures q == d || q <= path[..n] {
      if q != d {
        assert q == d[..|q|] == path[..n][..|q|];
      }
    }
    assert d <= path && d <= d;
    assert path[..n] <= d;
    if ClearTo(was, d) {
      assert d in was ==> was[d].Dir?;
    }
  }

  lemma ProperPrefix(a: Path, b: Path)
    ensures a <= b ==> a == b || a < b
  {
    if a <= b {
      assert a == b[..|a|] && b[..|b|] == b;
    }
  }

  lemma ClearToOutput(t: Tree, output: Path)
    requires output != []
    ensures ClearTo(t, output) <==> ClearTo(t, Parent(output)) && !(output in t && t[output].File?)
  {
    assert output <= output;
    forall q | q in t && q <= output ensures q == output || q <= Parent(output) {
      AboveParent(output, q);
      ProperPrefix(q, output);
    }
    forall q | q in t && q <= Parent(output) ensures q <= output {
      AboveParent(output, q);
    }
  }

  lemma SameNode(was: Tree, now: Tree, output: Path)
    requires OutputSame(was, now, output)
    ensures NodeAt(now, output) == NodeAt(was, output)
  {
    assert output + [] == output;
    assert NodeAt(now, output + []) == NodeAt(was, output + []);
  }

  /** Only a source that is the output's directory or above it contains the
      stage. */
  lemma SourcesAbove(entries: seq<Entry>, stage: Path, output: Path)
    requires IsSibling(stage, output) && forall e <- entries :: Visible(e.source)
    ensures forall e <- entries :: e.source <= stage <==> e.source <= Parent(output)
  {
    assert stage[|stage| - 1] in stage && !Visible(stage);
    forall e | e in entries ensures e.source <= stage <==> e.source <= Parent(output) {
      AboveParent(stage, e.source);
      ProperPrefix(e.source, stage);
    }
  }

  lemma FreeIsClear(t: Tree, dest: Path)
    requires dest != [] && NothingUnder(t, dest) && ClearTo(t, Parent(dest))
    ensures ClearTo(t, dest)
  {
    forall q | q <= dest && q in t ensures t[q].Dir? {
      AboveParent(dest, q);
      ProperPrefix(q, dest);
    }
  }

  lemma DirIsClear(t: Tree, dest: Path, n: Part)
    requires Rooted(t) && dest in t && t[dest].Dir?
    ensures ClearTo(t, dest) && ClearTo(t, Parent(dest + [n]))
  {
    assert Parent(dest + [n]) == dest;
    forall q | q <= dest && q in t ensures t[q].Dir? {
      ProperPrefix(q, dest);
      if q != dest {
        assert q == dest[..|q|];
        AncestorsAreDirs(t, dest, |q|);
      }
    }
  }

  /** On the way to an entry's place there are only directories. */
  lemma EntryClear(t0: Tree, was: Tree, stage: Path, entries: seq<Entry>, k: nat)
    requires k < |entries| && Apart(entries) && entries[k].target != [] && Rooted(was)
    requires Staged(t0, was, stage, entries[..k]) && stage in was && stage != []
    ensures ClearTo(was, Parent(stage + entries[k].target))
  {
    var e := entries[k];
    var dest := stage + e.target;
    forall q | q <= Parent(dest) && q in was ensures was[q].Dir? {
      assert q == Parent(dest)[..|q|] == dest[..|q|];
      if stage <= q {
        InStage(stage, e.target, q);
        OnlyDirsAbove(t0, entries, k, q[|stage|..]);
        assert NodeAt(was, q) == Composed(t0, entries[..k], q[|stage|..]);
      } else {
        assert q == stage[..|q|];
        AncestorsAreDirs(was, stage, |q|);
      }
    }
  }

  lemma DirsInStageNone(t: Tree, path: Path, stage: Path)
    ensures OutsideSame(t, t, stage)
  {
  }

  lemma AllInRoot(was: Tree, now: Tree)
    ensures OutsideSame(was, now, [])
  {
  }

  lemma StagePrefix(stage: Path, path: Path, n: nat)
    requires stage <= path && n <= |path|
    ensures stage <= path[..n] || path[..n] <= stage
  {
    if n <= |stage| {
      assert path[..n] == stage[..n];
    } else {
      assert stage == path[..n][..|stage|];
    }
  }

  /** With the directories made, there is still nothing at the destination. */
  lemma DestFree(was: Tree, mid: Tree, dest: Path)
    requires DirsMade(was, mid, Parent(dest)) && NothingUnder(was, dest) && dest != []
    ensures dest !in mid && !IsDir(mid, dest)
  {
    assert !(dest <= Parent(dest));
    assert NodeAt(mid, dest) == NodeAt(was, dest);
  }

  lemma OnlyAt(was: Tree, mid: Tree, dest: Path, f: Node, stage: Path)
    requires OutsideSame(was, mid, stage) && stage <= dest
    ensures OutsideSame(was, mid[dest := f], stage)
  {
  }

  /** A source apart from the stage is apart from everything in it. */
  lemma SourceApart(source: Path, stage: Path, dest: Path)
    requires !Overlap(source, stage) && stage <= dest
    ensures !Overlap(source, dest) && forall s: Path :: !(stage <= source + s)
  {
    if source <= dest {
      PrefixesOverlap(source, stage, dest);
    }
    PrefixTransitive(stage, dest, source);
    forall s: Path ensures !(stage <= source + s) {
      NotBelow(source, stage, s);
    }
  }

  lemma DirsMadeSource(was0: Tree, was: Tree, source: Path, dest: Path, stage: Path)
    requires DirsMade(was0, was, dest) && NothingUnder(was0, dest) && dest != []
    requires stage in was0 && stage < dest && source in was0
    ensures dest !in was0 && dest in was && was[dest].Dir? && stage in was && source in was && was[source] == was0[source]
    ensures forall q <- was :: !(dest < q)
  {
    assert NodeAt(was, dest) == Some(Dir);
    assert NodeAt(was, stage) == NodeAt(was0, stage) && NodeAt(was, source) == NodeAt(was0, source);
    forall q | q in was ensures !(dest < q) {
      assert NodeAt(was, q) == if q != [] && q <= dest && q !in was0 then Some(Dir) else NodeAt(was0, q);
    }
  }

  lemma ChildStamped(t: Tree, source: Path, dest: Path, n: Part, next: nat)
    requires StampedBelow(t, next) && n in Children(t, source)
    requires forall part <- dest :: part.Fresh? ==> part.stamp < next
    ensures forall part <- dest + [n] :: part.Fresh? ==> part.stamp < next
  {
    var p :| p in t && |p| == |source| + 1 && source <= p && p[|source|] == n;
    assert n in p;
  }

  lemma ChildIs(t: Tree, source: Path, n: Part)
    requires n in Children(t, source)
    ensures source + [n] in t
  {
    var p :| p in t && |p| == |source| + 1 && source <= p && p[|source|] == n;
    assert p == source + [n];
  }

  lemma ChildApart(source: Path, stage: Path, n: Part)
    requires !Overlap(source, stage)
    ensures !Overlap(source + [n], stage)
  {
    if source + [n] <= stage {
      PrefixTransitive(source, source + [n], stage);
    }
    NotBelow(source, stage, [n]);
  }

  /** There is less below a child than below its parent. */
  lemma ChildBelow(was0: Tree, mid: Tree, source: Path, stage: Path, n: Part)
    requires OutsideSame(was0, mid, stage) && !Overlap(source, stage) && source in was0
    ensures |Below(mid, source + [n])| < |Below(was0, source)|
  {
    hide Overlap;
    forall p | p in Below(mid, source + [n]) ensures p in Below(was0, source) - {source} {
      PrefixTransitive(source, source + [n], p);
      assert p == source + p[|source|..];
      NotBelow(source, stage, p[|source|..]);
      assert NodeAt(mid, p) == NodeAt(was0, p);
    }
    assert Below(was0, source) == Below(was0, source) - {source} + {source};
    SubsetSize(Below(mid, source + [n]), Below(was0, source) - {source});
  }

  lemma ChildReady(was0: Tree, was: Tree, mid: Tree, source: Path, dest: Path, rest: set<Part>, n: Part, stage: Path)
    requires OutsideSame(was0, mid, stage) && OutsideSame(was, mid, stage) && !Overlap(source, stage) && source in was0
    requires PartCopied(was, mid, source, dest, rest) && n in rest && rest <= Children(was, source)
    requires stage < dest && forall q <- was :: !(dest < q)
    ensures source + [n] in mid && source + [n] != [] && !Overlap(source + [n], stage)
    ensures stage < dest + [n] && NothingUnder(mid, dest + [n])
    ensures |Below(mid, source + [n])| < |Below(was0, source)|
  {
    hide Children, Below, Overlap;
    ChildIs(was, source, n);
    ChildApart(source, stage, n);
    ChildBelow(was0, mid, source, stage, n);
    NotBelow(source, stage, [n]);
    assert NodeAt(mid, source + [n]) == NodeAt(was, source + [n]);
    PrefixTransitive(stage, dest, dest + [n]);
    forall q | q in mid ensures !(dest + [n] <= q) {
      if dest + [n] <= q {
        ChildPath(source, dest, n, q);
      }
    }
  }

  lemma ChildDone(mid: Tree, now: Tree, source: Path, dest: Path, n: Part, stage: Path)
    requires CopiedTo(mid, now, source + [n], dest + [n]) && dest in mid && stage in mid && stage < dest
    ensures dest in now && now[dest] == mid[dest] && stage in now
  {
    assert NodeAt(now, dest) == NodeAt(mid, dest);
    assert NodeAt(now, stage) == NodeAt(mid, stage);
  }

  lemma FinishedSource(was0: Tree, was: Tree, now: Tree, source: Path, dest: Path)
    requires PartCopied(was, now, source, dest, {}) && DirsMade(was0, was, dest)
    requires source in was0 && was0[source].Dir? && !Overlap(source, dest) && dest !in was0 && dest != []
    ensures CopiedTo(was0, now, source, dest)
  {
    hide Overlap;
    forall q ensures NodeAt(now, q) == if dest <= q then Copied(NodeAt(was0, source + q[|dest|..]))
                                       else if q != [] && q < dest && q !in was0 then Some(Dir) else NodeAt(was0, q)
    {
      if q == dest {
        assert source + q[|dest|..] == source;
      } else if dest <= q {
        var p := source + q[|dest|..];
        NotDest(source, dest, p);
      }
    }
  }

  lemma NotDest(source: Path, dest: Path, p: Path)
    requires !Overlap(source, dest) && source <= p
    ensures !(p <= dest)
  {
    PrefixTransitive(source, p, dest);
  }

  // ----- siblings of the output ---------------------------------------------

  lemma SiblingApart(output: Path, x: Path)
    requires output != [] && Visible(output) && IsSibling(x, output)
    ensures !Overlap(output, x) && !Overlap(x, output) && !(output <= Parent(x)) && !(x <= Parent(output))
    ensures forall s: Path :: !(output <= x + s) && !(x <= output + s)
  {
    assert |output| == |x|;
    assert x[|x| - 1] != output[|x| - 1] by { assert output[|x| - 1] in output; }
    forall s: Path ensures !(output <= x + s) && !(x <= output + s) {
      assert (x + s)[..|x|] == x && (output + s)[..|x|] == output;
    }
  }

  lemma SiblingsApart(x: Path, y: Path, output: Path)
    requires output != [] && IsSibling(x, output) && IsSibling(y, output) && x != y
    ensures forall s: Path :: !(x <= y + s)
  {
    assert |x| == |y|;
    forall s: Path ensures !(x <= y + s) {
      assert (y + s)[..|x|] == y;
    }
  }

  lemma FreshSibling(t: Tree, output: Path, x: Path, next: nat)
    requires StampedBelow(t, next) && x == Parent(output) + [Fresh(next)] && output != []
    ensures NothingUnder(t, x) && x !in t && IsSibling(x, output) && x[|x| - 1] == Fresh(next)
  {
    forall p | p in t ensures !(x <= p) {
      if x <= p {
        FreshPart(t, x, p, next);
      }
    }
  }

  lemma FreshPart(t: Tree, x: Path, p: Path, next: nat)
    requires x != [] && x[|x| - 1] == Fresh(next) && x <= p && StampedBelow(t, next)
    ensures p !in t
  {
    assert p[|x| - 1] == Fresh(next) && p[|x| - 1] in p;
  }

  lemma HasParent(t: Tree, p: Path)
    requires Rooted(t) && p in t
    ensures IsDir(t, Parent(p))
  {
  }

  lemma StillStamped(t: Tree, next: nat)
    requires next > 0 && StampedBelow(t, next - 1)
    ensures StampedBelow(t, next)
  {
  }

  lemma VisibleStamped(p: Path, next: nat)
    requires Visible(p)
    ensures forall part <- p :: part.Fresh? ==> part.stamp < next
  {
  }

  lemma VisibleParent(p: Path)
    requires Visible(p)
    ensures Visible(Parent(p))
  {
    forall part | part in Parent(p) ensures part.Plain? {
      assert part in p;
    }
  }

  lemma SiblingAdded(t: Tree, output: Path, x: Path, next: nat)
    requires Rooted(t) && StampedBelow(t, next) && output != [] && Visible(output)
    requires IsSibling(x, output) && x[|x| - 1].stamp < next && x !in t && IsDir(t, Parent(output))
    ensures Rooted(t[x := Dir]) && StampedBelow(t[x := Dir], next)
    ensures forall part <- x :: part.Fresh? ==> part.stamp < next
  {
    VisibleParent(output);
    assert x == Parent(x) + [x[|x| - 1]];
    DirAdded(t, x);
    WithStamp(t, next, x, Dir);
  }

  lemma AddedRemoved(t: Tree, x: Path)
    requires x !in t
    ensures t[x := Dir] - {x} == t
  {
  }

  lemma MovedStamped(t: Tree, from: Path, to: Path, next: nat)
    requires StampedBelow(t, next) && forall part <- to :: part.Fresh? ==> part.stamp < next
    ensures StampedBelow(Moved(t, from, to), next)
  {
    hide Moved;
    forall q, part | q in Moved(t, from, to) && part in q ensures part.Fresh? ==> part.stamp < next {
      MovedAt(t, from, to, q);
      if to <= q && part !in to {
        var s := q[|to|..];
        assert q == to + s && part in s && part in from + s;
      }
    }
  }

  // ----- what each rename leaves --------------------------------------------

  lemma SameOutput(t: Tree, output: Path)
    ensures OutputSame(t, t, output)
  {
  }

  lemma PathAbove(t: Tree, d: Path, p: Path)
    requires Rooted(t) && p in t && d <= p && d != []
    ensures d in t
  {
    assert p[..|d|] == d;
    if |d| < |p| {
      AncestorsAreDirs(t, p, |d|);
    } else {
      assert p == d;
    }
  }

  lemma AbsentUnder(t: Tree, d: Path)
    requires Rooted(t) && d !in t && d != []
    ensures NothingUnder(t, d)
  {
    forall p | p in t ensures !(d <= p) {
      if d <= p {
        PathAbove(t, d, p);
      }
    }
  }

  lemma SetAsideMeans(was: Tree, now: Tree, output: Path, stage: Path, b: Path, stamp: nat, ok: bool)
    requires output != [] && Visible(output) && output in was && IsDir(was, Parent(output)) && NothingUnder(was, b)
    requires IsSibling(stage, output) && stage in was && b == Parent(output) + [Fresh(stamp)]
    requires if ok then now == Moved(was, output, b) else now == was || now == was[b := Dir]
    ensures !ok ==> Held(was, now, output, stage, Some(b), 0)
    ensures ok ==> Displaced(was, now, output, stage, b) && IsSibling(b, output) && b != stage
                   && stage in now && NothingUnder(now, output) && IsDir(now, Parent(output)) && KeptAt(was, now, output, b)
                   && forall s :: NodeAt(now, stage + s) == NodeAt(was, stage + s)
  {
    hide Moved, Overlap, Visible, IsDir, NothingUnder, KeptAt;
    assert IsSibling(b, output);
    StageThereNot(was, stage, b);
    if ok {
      MovedAside(was, output, b);
      MovedBeside(was, output, stage, b);
    } else {
      SiblingApart(output, b);
    }
  }

  lemma StageThereNot(t: Tree, stage: Path, b: Path)
    requires stage in t && NothingUnder(t, b)
    ensures b != stage
  {
  }

  /** The output, moved aside. */
  lemma MovedAside(was: Tree, output: Path, b: Path)
    requires output != [] && Visible(output) && IsSibling(b, output) && IsDir(was, Parent(output))
    ensures var now := Moved(was, output, b);
            KeptAt(was, now, output, b) && NothingUnder(now, output) && IsDir(now, Parent(output))
  {
    hide Moved, Overlap, Visible, IsDir;
    var now := Moved(was, output, b);
    SiblingApart(output, b);
    forall s: Path ensures NodeAt(now, b + s) == NodeAt(was, output + s) {
      MovedAt(was, output, b, b + s);
      assert (b + s)[|b|..] == s && b <= b + s;
    }
    MovedAt(was, output, b, Parent(output));
    ParentKept(was, now, output, b);
    forall p | output <= p ensures p !in now {
      assert p == output + p[|output|..];
      MovedAt(was, output, b, p);
    }
  }

  /** What is beside it stays where it is. */
  lemma MovedBeside(was: Tree, output: Path, stage: Path, b: Path)
    requires output != [] && Visible(output) && IsSibling(b, output) && IsSibling(stage, output) && b != stage && stage in was
    ensures var now := Moved(was, output, b); stage in now && forall s :: NodeAt(now, stage + s) == NodeAt(was, stage + s)
  {
    hide Moved, Overlap, Visible, IsSibling;
    var now := Moved(was, output, b);
    SiblingApart(output, stage);
    SiblingsApart(b, stage, output);
    forall s: Path ensures NodeAt(now, stage + s) == NodeAt(was, stage + s) {
      MovedAt(was, output, b, stage + s);
    }
    assert stage + [] == stage && NodeAt(now, stage + []) == NodeAt(was, stage + []);
  }

  lemma ParentKept(was: Tree, now: Tree, output: Path, b: Path)
    requires NodeAt(now, Parent(output)) == MovedNode(was, output, b, Parent(output))
    requires IsDir(was, Parent(output)) && !(b <= Parent(output)) && !(output <= Parent(output))
    ensures IsDir(now, Parent(output))
  {
  }

  lemma PutBack(was: Tree, mid: Tree, output: Path, backup: Path)
    requires KeptAt(was, mid, output, backup)
    ensures OutputSame(was, Moved(mid, backup, output), output)
  {
    hide Moved;
    forall s ensures NodeAt(Moved(mid, backup, output), output + s) == NodeAt(was, output + s) {
      MovedAt(mid, backup, output, output + s);
      assert (output + s)[|output|..] == s && output <= output + s;
      assert NodeAt(mid, backup + s) == NodeAt(was, output + s);
    }
  }

  lemma SwappedIn(was: Tree, mid: Tree, output: Path, stage: Path)
    requires forall s :: NodeAt(mid, stage + s) == NodeAt(was, stage + s)
    ensures forall s :: NodeAt(Moved(mid, stage, output), output + s) == NodeAt(was, stage + s)
  {
    hide Moved;
    forall s: Path ensures NodeAt(Moved(mid, stage, output), output + s) == NodeAt(was, stage + s) {
      MovedAt(mid, stage, output, output + s);
      assert (output + s)[|output|..] == s && output <= output + s;
      assert NodeAt(mid, stage + s) == NodeAt(was, stage + s);
    }
  }

  lemma RemovedKeeps(t: Tree, output: Path, d: Path)
    requires forall s: Path :: !(d <= output + s)
    ensures forall s :: NodeAt(RemovedTree(t, d), output + s) == NodeAt(t, output + s)
  {
  }

  // ----- composing ----------------------------------------------------------

  lemma DirsKeepOutput(orig: Tree, t0: Tree, output: Path)
    requires output != [] && exists n :: 0 <= n <= |Parent(output)| && DirsMade(orig, t0, Parent(output)[..n])
    ensures OutputSame(orig, t0, output)
  {
    var n :| 0 <= n <= |Parent(output)| && DirsMade(orig, t0, Parent(output)[..n]);
    forall s ensures NodeAt(t0, output + s) == NodeAt(orig, output + s) {
    }
  }

  /** A new stage is the composition of nothing yet. */
  lemma StageStarts(orig: Tree, t0: Tree, output: Path, stage: Path, entries: seq<Entry>, next: nat)
    requires output != [] && IsSibling(stage, output) && NothingUnder(t0, stage) && DirsMade(orig, t0, Parent(output))
    requires forall e <- entries :: SourceOk(orig, e.source) && Visible(e.source)
    ensures Staged(t0, t0[stage := Dir], stage, []) && OutsideSame(t0, t0[stage := Dir], stage)
    ensures forall e <- entries :: e.source != [] && e.source in t0 && !(stage <= e.source)
  {
    forall q ensures NodeAt(t0[stage := Dir], q) == if stage <= q then Composed(t0, [], q[|stage|..]) else NodeAt(t0, q) {
      if stage <= q {
        assert q == stage <==> q[|stage|..] == [];
      }
    }
    forall e | e in entries ensures e.source != [] && e.source in t0 && !(stage <= e.source) {
      assert NodeAt(t0, e.source) == NodeAt(orig, e.source);
      if stage <= e.source {
        NotVisible(stage, e.source);
      }
    }
  }

  lemma NotVisible(stage: Path, p: Path)
    requires stage != [] && stage[|stage| - 1].Fresh? && stage <= p
    ensures !Visible(p)
  {
    assert p[|stage| - 1] in p;
  }

  /** The next entry's place in the stage is free. */
  lemma EntryReady(t0: Tree, was: Tree, stage: Path, entries: seq<Entry>, k: nat, next: nat)
    requires k < |entries| && Apart(entries) && entries[k].target != [] && Visible(entries[k].target)
    requires Staged(t0, was, stage, entries[..k]) && OutsideSame(t0, was, stage) && stage != []
    requires entries[k].source in t0 && !(stage <= entries[k].source) && !(entries[k].source <= stage)
    requires forall part <- stage :: part.Fresh? ==> part.stamp < next
    ensures entries[k].source in was && !Overlap(entries[k].source, stage)
    ensures stage in was && stage < stage + entries[k].target && NothingUnder(was, stage + entries[k].target)
    ensures forall part <- stage + entries[k].target :: part.Fresh? ==> part.stamp < next
  {
    var e := entries[k];
    assert NodeAt(was, e.source) == NodeAt(t0, e.source);
    assert stage[|stage|..] == [];
    StageItself(t0, entries[..k]);
    assert NodeAt(was, stage) == Composed(t0, entries[..k], stage[|stage|..]);
    hide Composed;
    forall q | q in was ensures !(stage + e.target <= q) {
      if stage + e.target <= q {
        PrefixTransitive(stage, stage + e.target, q);
        InStage(stage, e.target, q);
        NothingThere(t0, entries, k, q[|stage|..]);
      }
    }
  }

  lemma StageItself(t0: Tree, entries: seq<Entry>)
    ensures (forall e <- entries :: e.target != []) ==> Composed(t0, entries, []) == Some(Dir)
    ensures Composed(t0, entries, []) != None || exists e <- entries :: e.target == []
  {
    if forall e <- entries :: e.target != [] {
      ComposedElsewhere(t0, entries, []);
    }
  }

  lemma NothingThere(t0: Tree, entries: seq<Entry>, k: nat, s: Path)
    requires k < |entries| && Apart(entries) && entries[k].target <= s && entries[k].target != []
    ensures Composed(t0, entries[..k], s) == None
  {
    forall e | e in entries[..k] ensures !(e.target <= s) && !(s < e.target) {
      var i :| 0 <= i < k && entries[i] == e;
      assert !Overlap(entries[i].target, entries[k].target);
      if e.target <= s {
        PrefixesOverlap(e.target, entries[k].target, s);
      }
      if s < e.target {
        PrefixTransitive(entries[k].target, s, e.target);
      }
    }
    ComposedElsewhere(t0, entries[..k], s);
  }

  lemma StageKeepsOutput(orig: Tree, t0: Tree, t1: Tree, output: Path, stage: Path)
    requires OutputSame(orig, t0, output) && OutsideSame(t0, t1, stage) && forall s: Path :: !(stage <= output + s)
    ensures OutputSame(orig, t1, output)
  {
  }

  lemma HeldAtFirst(orig: Tree, t1: Tree, output: Path, stage: Path)
    requires OutputSame(orig, t1, output)
    ensures Held(orig, t1, output, stage, None, 0)
  {
    hide OutputSame, Displaced;
  }

  lemma StageThere(t0: Tree, t1: Tree, output: Path, stage: Path, entries: seq<Entry>)
    requires Staged(t0, t1, stage, entries) && OutsideSame(t0, t1, stage) && IsSibling(stage, output) && output != []
    requires IsDir(t0, Parent(output)) && !(stage <= Parent(output)) && forall e <- entries :: e.target != []
    ensures stage in t1 && IsDir(t1, Parent(output))
  {
    assert stage[|stage|..] == [];
    StageItself(t0, entries);
    assert NodeAt(t1, stage) == Composed(t0, entries, stage[|stage|..]);
    assert NodeAt(t1, Parent(output)) == NodeAt(t0, Parent(output));
  }

  /** Making the output's directory changes no source. */
  lemma {:induction false} ComposedSame(orig: Tree, t0: Tree, entries: seq<Entry>, s: Path)
    requires forall e <- entries, x :: NodeAt(t0, e.source + x) == NodeAt(orig, e.source + x)
    ensures Composed(t0, entries, s) == Composed(orig, entries, s)
    decreases |entries|
  {
    if entries != [] {
      var n := |entries| - 1;
      assert entries[n] in entries && forall e <- entries[..n] :: e in entries;
      ComposedSame(orig, t0, entries[..n], s);
    }
  }

  lemma SourceSame(orig: Tree, t0: Tree, output: Path, stage: Path, source: Path, x: Path)
    requires DirsMade(orig, t0, Parent(output)) && !Overlap(source, stage) && IsSibling(stage, output)
    ensures NodeAt(t0, source + x) == NodeAt(orig, source + x)
    ensures !(source <= Parent(output))
  {
    AboveParent(stage, source);
    if source + x <= Parent(output) {
      PrefixTransitive(source, source + x, Parent(output));
    }
  }

  /** What was swapped in is the release of the sources as they were. */
  lemma ReleaseIs(orig: Tree, t0: Tree, t1: Tree, now: Tree, output: Path, stage: Path, entries: seq<Entry>)
    requires DirsMade(orig, t0, Parent(output)) && IsSibling(stage, output) && Staged(t0, t1, stage, entries)
    requires forall e <- entries :: !Overlap(e.source, stage)
    requires forall s :: NodeAt(now, output + s) == NodeAt(t1, stage + s)
    ensures OutputIs(orig, now, output, entries) && forall e <- entries :: !(e.source <= Parent(output))
  {
    hide Composed, Overlap;
    forall e, x | e in entries ensures NodeAt(t0, e.source + x) == NodeAt(orig, e.source + x) {
      SourceSame(orig, t0, output, stage, e.source, x);
    }
    forall e | e in entries ensures !(e.source <= Parent(output)) {
      SourceSame(orig, t0, output, stage, e.source, []);
    }
    forall s ensures NodeAt(now, output + s) == Composed(orig, entries, s) {
      ComposedSame(orig, t0, entries, s);
      assert (stage + s)[|stage|..] == s && stage <= stage + s;
      assert NodeAt(t1, stage + s) == Composed(t0, entries, (stage + s)[|stage|..]);
    }
  }

  lemma OutputIsKept(orig: Tree, was: Tree, now: Tree, output: Path, stage: Path, entries: seq<Entry>)
    requires OutputIs(orig, was, output, entries) && (now == was || now == RemovedTree(was, stage))
    requires output != [] && Visible(output) && IsSibling(stage, output)
    ensures OutputIs(orig, now, output, entries)
  {
    hide Composed, Visible;
    SiblingApart(output, stage);
    RemovedKeeps(was, output, stage);
  }

  lemma SiblingParts(x: Path, output: Path)
    requires IsSibling(x, output)
    ensures x != [] && x[|x| - 1].Fresh?
  {
  }

  lemma HeldSince(orig: Tree, t1: Tree, now: Tree, output: Path, stage: Path, backup: Option<Path>, lost: int)
    requires OutputSame(orig, t1, output) && Held(t1, now, output, stage, backup, lost)
    ensures Held(orig, now, output, stage, backup, lost)
  {
    assert output + [] == output;
    assert NodeAt(t1, output + []) == NodeAt(orig, output + []);
    if OutputSame(t1, now, output) {
      assert OutputSame(orig, now, output);
    }
    if backup.Some? && Displaced(t1, now, output, stage, backup.value) {
      assert KeptAt(orig, now, output, backup.value);
    }
  }

  lemma HeldRemoved(orig: Tree, was: Tree, now: Tree, output: Path, stage: Path, backup: Option<Path>, lost: int)
    requires Held(orig, was, output, stage, backup, lost) && output != [] && Visible(output) && IsSibling(stage, output)
    requires now == was || now == RemovedTree(was, stage)
    ensures Held(orig, now, output, stage, backup, lost)
  {
    hide IsDir, Visible;
    SiblingApart(output, stage);
    if now != was {
      if OutputSame(orig, was, output) {
        RemovedKeeps(was, output, stage);
      } else {
        DisplacedRemoved(orig, was, output, stage, backup.value);
      }
    }
  }

  lemma DisplacedRemoved(orig: Tree, was: Tree, output: Path, stage: Path, backup: Path)
    requires Displaced(orig, was, output, stage, backup) && output != [] && IsSibling(stage, output)
    requires !(stage <= Parent(output))
    ensures Displaced(orig, RemovedTree(was, stage), output, stage, backup)
  {
    SiblingsApart(stage, backup, output);
    RemovedKeeps(was, backup, stage);
    var now := RemovedTree(was, stage);
    forall s ensures NodeAt(now, backup + s) == NodeAt(orig, output + s) {
      assert NodeAt(was, backup + s) == NodeAt(orig, output + s);
    }
  }

  /** What is known once everything else has been tried. */
  lemma HeldMeans(orig: Tree, now: Tree, output: Path, stage: Path, backup: Option<Path>, lost: int)
    requires Held(orig, now, output, stage, backup, lost) && output != [] && Visible(output)
    ensures OutputSame(orig, now, output) && backup.Some? ==> output in now
    ensures OutputSame(orig, now, output)
            || (&& backup.Some? && backup.value in now && output !in now && NothingUnder(now, output) && IsDir(now, Parent(output))
                && KeptAt(orig, now, output, backup.value) && KeptAside(orig, now, output) && lost >= 1
                && backup.value != [] && !Overlap(backup.value, output) && !(backup.value <= Parent(output))
                && IsSibling(backup.value, output))
  {
    hide IsDir, Overlap;
    assert output + [] == output;
    if OutputSame(orig, now, output) {
      assert NodeAt(now, output + []) == NodeAt(orig, output + []);
    } else {
      var b := backup.value;
      SiblingApart(output, b);
      OverlapBoth(output, b);
      assert b + [] == b;
      assert NodeAt(now, b + []) == NodeAt(orig, output + []);
    }
  }

  lemma OverlapBoth(a: Path, b: Path)
    ensures Overlap(a, b) <==> Overlap(b, a)
  {
  }
}
