/** Copying and renaming whole directories, as changes to a tree. */
module ReleaseCopying {
  import opened Common
  import opened FileTree
  import opened ReleaseTree

  // ----- whole directories --------------------------------------------------

  function MovedKeys(t: Tree, from: Path, to: Path): set<Path> {
    (set p | p in t && !(from <= p)) + set p | p in t && from <= p :: to + p[|from|..]
  }

  function MovedNode(t: Tree, from: Path, to: Path, q: Path): Option<Node> {
    if to <= q then NodeAt(t, from + q[|to|..]) else if from <= q then None else NodeAt(t, q)
  }

  /** Renames a directory, with everything in it, to a name nothing has. */
  function Moved(t: Tree, from: Path, to: Path): Tree {
    map q | q in MovedKeys(t, from, to) && MovedNode(t, from, to, q).Some? :: MovedNode(t, from, to, q).value
  }

  function RemovedTree(t: Tree, d: Path): Tree { map p | p in t && !(d <= p) :: t[p] }

  predicate NothingUnder(t: Tree, d: Path) { forall p <- t :: !(d <= p) }

  lemma MovedAt(t: Tree, from: Path, to: Path, q: Path)
    ensures NodeAt(Moved(t, from, to), q) == MovedNode(t, from, to, q)
  {
    if to <= q {
      var s := q[|to|..];
      assert (from + s)[|from|..] == s && to + s == q;
    }
  }

  lemma MovedRooted(t: Tree, from: Path, to: Path)
    requires Rooted(t) && NothingUnder(t, to) && !Overlap(from, to) && from != [] && to != []
    requires IsDir(t, Parent(to)) && !(from <= Parent(to))
    ensures Rooted(Moved(t, from, to))
  {
    hide Moved, Rooted, Overlap, NothingUnder, IsDir;
    forall q | q in Moved(t, from, to) ensures q != [] && IsDir(Moved(t, from, to), Parent(q)) {
      if to < q {
        MovedInside(t, from, to, q);
      } else {
        MovedOutside(t, from, to, q);
      }
    }
    AllRooted(Moved(t, from, to));
  }

  lemma AllRooted(t: Tree)
    requires forall p <- t :: p != [] && IsDir(t, Parent(p))
    ensures Rooted(t)
  {
  }

  lemma MovedInside(t: Tree, from: Path, to: Path, q: Path)
    requires Rooted(t) && from != [] && to != [] && to < q && q in Moved(t, from, to)
    ensures q != [] && IsDir(Moved(t, from, to), Parent(q))
  {
    hide Moved;
    MovedAt(t, from, to, q);
    MovedAt(t, from, to, Parent(q));
    var s := q[|to|..];
    assert IsDir(t, Parent(from + s));
    assert Parent(from + s) == from + Parent(s) && Parent(q) == to + Parent(s);
    assert (to + Parent(s))[|to|..] == Parent(s);
  }

  lemma MovedOutside(t: Tree, from: Path, to: Path, q: Path)
    requires Rooted(t) && from != [] && to != [] && !(to < q) && q in Moved(t, from, to)
    requires IsDir(t, Parent(to)) && !(from <= Parent(to))
    ensures q != [] && IsDir(Moved(t, from, to), Parent(q))
  {
    hide Moved;
    MovedAt(t, from, to, q);
    MovedAt(t, from, to, Parent(q));
    ParentPrefix(q, to);
    ParentPrefix(q, from);
    if q != to {
      assert IsDir(t, Parent(q));
    }
  }

  lemma ParentPrefix(q: Path, d: Path)
    ensures q != [] && d <= Parent(q) ==> d <= q
    ensures q != [] ==> !(q <= Parent(q))
  {
    if q != [] && d <= Parent(q) {
      assert d == Parent(q)[..|d|] == q[..|d|];
    }
  }

  lemma RemovedRooted(t: Tree, d: Path)
    requires Rooted(t) && d != []
    ensures Rooted(RemovedTree(t, d))
  {
    forall q | q in RemovedTree(t, d) ensures q != [] && IsDir(RemovedTree(t, d), Parent(q)) {
      assert IsDir(t, Parent(q));
      ParentPrefix(q, d);
    }
  }

  // ----- what copying does --------------------------------------------------

  /** Below `dest` what was below `source`, copied; the directories on the way
      there; and everything else as it was. */
  ghost predicate CopiedTo(was: Tree, now: Tree, source: Path, dest: Path) {
    forall q :: NodeAt(now, q) == if dest <= q then Copied(NodeAt(was, source + q[|dest|..]))
                                  else if q != [] && q < dest && q !in was then Some(Dir) else NodeAt(was, q)
  }

  ghost predicate OutsideSame(was: Tree, now: Tree, stage: Path) {
    forall q :: !(stage <= q) ==> NodeAt(now, q) == NodeAt(was, q)
  }

  function Children(t: Tree, d: Path): set<Part> {
    set p | p in t && |p| == |d| + 1 && d <= p :: p[|d|]
  }

  ghost function Below(t: Tree, d: Path): set<Path> { set p | p in t && d <= p }

  /** All children of `source` but those in `rest` have been copied. */
  ghost predicate PartCopied(was: Tree, now: Tree, source: Path, dest: Path, rest: set<Part>) {
    forall q :: NodeAt(now, q) == if dest < q && q[|dest|] !in rest then Copied(NodeAt(was, source + q[|dest|..])) else NodeAt(was, q)
  }

  lemma ChildOf(t: Tree, d: Path, s: Path)
    requires Rooted(t) && s != [] && d + s in t
    ensures s[0] in Children(t, d)
  {
    var p := d + s;
    if |s| > 1 {
      AncestorsAreDirs(t, p, |d| + 1);
    } else {
      assert s == [s[0]];
    }
    assert p[..|d| + 1] == d + [s[0]];
    assert d + [s[0]] in t && d <= d + [s[0]] && (d + [s[0]])[|d|] == s[0];
  }

  /** Before the first child. */
  lemma NothingCopied(was: Tree, source: Path, dest: Path)
    requires Rooted(was) && forall q <- was :: !(dest < q)
    ensures PartCopied(was, was, source, dest, Children(was, source))
  {
    forall q | dest < q && q[|dest|] !in Children(was, source)
      ensures NodeAt(was, q) == Copied(NodeAt(was, source + q[|dest|..]))
    {
      var s := q[|dest|..];
      assert s[0] == q[|dest|];
      if source + s in was {
        ChildOf(was, source, s);
      }
    }
  }

  /** Where the child is copied to. */
  lemma ChildPath(source: Path, dest: Path, n: Part, q: Path)
    requires dest + [n] <= q
    ensures dest < q && q[|dest|] == n
    ensures source + [n] + q[|dest + [n]|..] == source + q[|dest|..]
  {
    var s := q[|dest|..];
    assert q[..|dest| + 1] == dest + [n];
    assert q == dest + s && s == [n] + s[1..] && q[|dest| + 1..] == s[1..];
  }

  lemma NotBelow(source: Path, dest: Path, s: Path)
    requires !Overlap(source, dest)
    ensures !(dest <= source + s)
  {
    if dest <= source + s {
      PrefixesOverlap(source, dest, source + s);
    }
  }

  /** One more child. */
  lemma OneMoreChild(was: Tree, mid: Tree, now: Tree, source: Path, dest: Path, rest: set<Part>, n: Part)
    requires PartCopied(was, mid, source, dest, rest) && n in rest && CopiedTo(mid, now, source + [n], dest + [n])
    requires !Overlap(source, dest) && dest in mid && Rooted(mid)
    ensures PartCopied(was, now, source, dest, rest - {n})
  {
    hide Overlap, Rooted, Copied;
    forall q
      ensures NodeAt(now, q) == if dest < q && q[|dest|] !in rest - {n} then Copied(NodeAt(was, source + q[|dest|..])) else NodeAt(was, q)
    {
      if dest + [n] <= q {
        ChildPath(source, dest, n, q);
        NotBelow(source, dest, q[|dest|..]);
        assert NodeAt(mid, source + q[|dest|..]) == NodeAt(was, source + q[|dest|..]);
      } else {
        OtherChild(dest, n, q);
        StrictlyAbove(mid, dest, n, q);
        assert NodeAt(now, q) == NodeAt(mid, q);
      }
    }
  }

  lemma OtherChild(dest: Path, n: Part, q: Path)
    requires !(dest + [n] <= q)
    ensures dest < q ==> q[|dest|] != n
  {
    assert dest < q ==> q[..|dest| + 1] == dest + [q[|dest|]];
  }

  /** Everything above a directory that exists exists. */
  lemma StrictlyAbove(t: Tree, d: Path, n: Part, q: Path)
    requires Rooted(t) && d in t
    ensures q != [] && q < d + [n] ==> q in t
  {
    if q != [] && q < d + [n] {
      assert q == (d + [n])[..|q|] == d[..|q|];
      if |q| < |d| {
        AncestorsAreDirs(t, d, |q|);
      } else {
        assert q == d;
      }
    }
  }

  // ----- several entries ----------------------------------------------------

  /** The staging directory holds the composition of these entries. */
  ghost predicate Staged(t0: Tree, now: Tree, stage: Path, entries: seq<Entry>) {
    forall q :: NodeAt(now, q) == if stage <= q then Composed(t0, entries, q[|stage|..]) else NodeAt(t0, q)
  }

  lemma InStage(stage: Path, target: Path, q: Path)
    requires stage <= q
    ensures stage + target <= q <==> target <= q[|stage|..]
    ensures q < stage + target <==> q[|stage|..] < target
    ensures stage + target <= q ==> q[|stage + target|..] == q[|stage|..][|target|..]
  {
    var s := q[|stage|..];
    assert q == stage + s;
    if stage + target <= q {
      assert s[..|target|] == q[..|stage + target|][|stage|..];
    }
    if q < stage + target {
      assert (stage + target)[..|q|][|stage|..] == target[..|s|];
    }
    if target <= s {
      assert (stage + s)[..|stage + target|] == stage + s[..|target|];
    }
    if s < target {
      assert (stage + target)[..|q|] == stage + target[..|s|];
    }
  }

  lemma PrefixTransitive(a: Path, b: Path, c: Path)
    ensures a <= b && b <= c ==> a <= c
  {
    if a <= b && b <= c {
      assert a == b[..|a|] == c[..|a|];
    }
  }

  lemma OutsideStage(stage: Path, target: Path, q: Path)
    requires !(stage <= q)
    ensures !(stage + target <= q) && (q < stage + target ==> q < stage)
  {
    PrefixTransitive(stage, stage + target, q);
    if q < stage + target {
      PrefixesOverlap(q, stage, stage + target);
    }
  }

  /** On the way to a target there is nothing of an earlier entry but
      directories. */
  lemma OnlyDirsAbove(t0: Tree, entries: seq<Entry>, k: nat, s: Path)
    requires k < |entries| && Apart(entries) && s < entries[k].target
    ensures Composed(t0, entries[..k], s) in {None, Some(Dir)}
  {
    forall e | e in entries[..k] ensures !(e.target <= s) {
      var i :| 0 <= i < k && entries[i] == e;
      assert !Overlap(entries[i].target, entries[k].target);
      if e.target <= s {
        BetweenOverlap(e.target, s, entries[k].target);
      }
    }
    ComposedElsewhere(t0, entries[..k], s);
  }

  /** What one entry adds, at one path. */
  lemma StagedAt(t0: Tree, was: Tree, stage: Path, entries: seq<Entry>, k: nat, q: Path)
    requires k < |entries| && Apart(entries) && stage <= q
    requires NodeAt(was, q) == Composed(t0, entries[..k], q[|stage|..])
    requires forall p :: !(stage <= p) ==> NodeAt(was, p) == NodeAt(t0, p)
    requires !Overlap(entries[k].source, stage)
    ensures var dest := stage + entries[k].target;
            Composed(t0, entries[..k + 1], q[|stage|..])
            == if dest <= q then Copied(NodeAt(was, entries[k].source + q[|dest|..]))
               else if q < dest && q !in was then Some(Dir) else NodeAt(was, q)
  {
    var e, s := entries[k], q[|stage|..];
    assert entries[..k + 1][..k] == entries[..k];
    InStage(stage, e.target, q);
    if s < e.target {
      OnlyDirsAbove(t0, entries, k, s);
    } else if e.target <= s {
      var p := e.source + s[|e.target|..];
      if stage <= p {
        PrefixesOverlap(e.source, stage, p);
      }
    }
  }

  lemma StagedMore(t0: Tree, was: Tree, now: Tree, stage: Path, entries: seq<Entry>, k: nat)
    requires k < |entries| && Apart(entries) && Staged(t0, was, stage, entries[..k])
    requires CopiedTo(was, now, entries[k].source, stage + entries[k].target) && !Overlap(entries[k].source, stage)
    requires stage in was && Rooted(was) && stage != []
    ensures Staged(t0, now, stage, entries[..k + 1])
  {
    hide Composed, Overlap, Apart, Rooted;
    var dest := stage + entries[k].target;
    forall q ensures NodeAt(now, q) == if stage <= q then Composed(t0, entries[..k + 1], q[|stage|..]) else NodeAt(t0, q) {
      if stage <= q {
        StagedAt(t0, was, stage, entries, k, q);
        NotRoot(stage, q);
      } else {
        OutsideStage(stage, entries[k].target, q);
        AboveExists(was, stage, q);
      }
    }
  }

  lemma NotRoot(stage: Path, q: Path)
    requires stage <= q && stage != []
    ensures q != []
  {
  }

  lemma AboveExists(t: Tree, stage: Path, q: Path)
    requires Rooted(t) && stage in t
    ensures q != [] && q < stage ==> q in t
  {
    if q != [] && q < stage {
      AncestorsAreDirs(t, stage, |q|);
      assert stage[..|q|] == q;
    }
  }

  // ----- making directories -------------------------------------------------

  /** `path` and every directory above it exist now. */
  ghost predicate DirsMade(was: Tree, now: Tree, path: Path) {
    forall q :: NodeAt(now, q) == if q != [] && q <= path && q !in was then Some(Dir) else NodeAt(was, q)
  }

  lemma NoDirsMade(t: Tree)
    ensures DirsMade(t, t, [])
  {
  }

  lemma OneMoreDir(was: Tree, mid: Tree, path: Path, n: nat)
    requires n < |path| && DirsMade(was, mid, path[..n]) && Rooted(mid)
    ensures path[..n + 1] in mid ==> DirsMade(was, mid, path[..n + 1])
    ensures path[..n + 1] !in mid ==> DirsMade(was, mid[path[..n + 1] := Dir], path[..n + 1])
  {
    var d := path[..n + 1];
    assert Parent(d) == path[..n];
    var now := if d in mid then mid else mid[d := Dir];
    assert NodeAt(mid, d) == if d !in was && d <= Parent(d) then Some(Dir) else NodeAt(was, d);
    forall q ensures NodeAt(now, q) == if q != [] && q <= d && q !in was then Some(Dir) else NodeAt(was, q) {
      AboveParent(d, q);
      assert NodeAt(mid, q) == if q != [] && q <= Parent(d) && q !in was then Some(Dir) else NodeAt(was, q);
    }
  }

  ghost predicate UpTo(q: Path, d: Path) { q <= d <==> (q <= Parent(d) || q == d) }

  lemma AboveParent(d: Path, q: Path)
    requires d != []
    ensures q < d <==> q <= Parent(d)
    ensures UpTo(q, d)
  {
    if q < d {
      assert q == d[..|q|] == Parent(d)[..|q|];
    }
    if q <= Parent(d) {
      assert q == Parent(d)[..|q|] == d[..|q|];
    }
  }

  lemma DirAdded(t: Tree, d: Path)
    requires Rooted(t) && d != [] && IsDir(t, Parent(d)) && d !in t
    ensures Rooted(t[d := Dir])
  {
    forall q | q in t[d := Dir] ensures q != [] && IsDir(t[d := Dir], Parent(q)) {
      if q != d {
        assert IsDir(t, Parent(q));
      }
    }
  }

  /** Made directories change nothing outside the stage they are in. */
  lemma DirsInStage(was: Tree, now: Tree, path: Path, stage: Path)
    requires DirsMade(was, now, path) && stage in was && Rooted(was) && (stage <= path || path <= stage)
    ensures OutsideSame(was, now, stage)
  {
    forall q | !(stage <= q) ensures NodeAt(now, q) == NodeAt(was, q) {
      if q != [] && q <= path && q !in was {
        if stage <= path {
          PrefixesOverlap(q, stage, path);
        } else {
          PrefixTransitive(q, path, stage);
        }
        AboveExists(was, stage, q);
      }
    }
  }

  lemma FileHasNothing(t: Tree, source: Path, s: Path)
    requires Rooted(t) && source in t && t[source].File? && s != [] && source != []
    ensures source + s !in t
  {
    assert (source + s)[..|source|] == source;
    if source + s in t {
      AncestorsAreDirs(t, source + s, |source|);
    }
  }

  /** One file put at `dest` is a copy of the file it came from. */
  lemma FileCopied(was: Tree, mid: Tree, now: Tree, source: Path, dest: Path)
    requires Rooted(was) && source in was && was[source].File? && source != [] && dest != []
    requires NothingUnder(was, dest) && DirsMade(was, mid, Parent(dest)) && Copied(Some(was[source])).Some?
    requires now == mid[dest := Copied(Some(was[source])).value]
    ensures CopiedTo(was, now, source, dest)
  {
    hide Copied, Rooted;
    forall q ensures NodeAt(now, q) == if dest <= q then Copied(NodeAt(was, source + q[|dest|..]))
                                       else if q != [] && q < dest && q !in was then Some(Dir) else NodeAt(was, q)
    {
      AboveParent(dest, q);
      if q == dest {
        assert source + q[|dest|..] == source;
      } else if dest <= q {
        FileHasNothing(was, source, q[|dest|..]);
        NothingCopies();
        assert NodeAt(was, q) == None;
      }
    }
  }

  lemma NothingCopies()
    ensures Copied(None) == None
  {
  }

  lemma SameOutside(a: Tree, b: Tree, c: Tree, stage: Path)
    requires OutsideSame(a, b, stage) && OutsideSame(b, c, stage)
    ensures OutsideSame(a, c, stage)
  {
  }

  lemma WithStamp(t: Tree, next: nat, d: Path, n: Node)
    requires StampedBelow(t, next) && forall part <- d :: part.Fresh? ==> part.stamp < next
    ensures StampedBelow(t[d := n], next)
  {
  }

  lemma PrefixStamped(p: Path, q: Path, next: nat)
    requires q <= p && forall part <- p :: part.Fresh? ==> part.stamp < next
    ensures forall part <- q :: part.Fresh? ==> part.stamp < next
  {
    forall part | part in q ensures part.Fresh? ==> part.stamp < next {
      var i :| 0 <= i < |q| && q[i] == part;
      assert p[i] == part;
    }
  }
}
