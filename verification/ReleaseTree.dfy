/** What a composed release is: each source, copied to its target. */
module ReleaseTree {
  import opened Common
  import opened FileTree

  datatype Entry = Entry(source: Path, target: Path)

  predicate Overlap(a: Path, b: Path) { a <= b || b <= a }

  predicate Apart(entries: seq<Entry>) {
    forall i, j :: 0 <= i < j < |entries| ==> !Overlap(entries[i].target, entries[j].target)
  }

  predicate Executable(mode: nat) { mode % 2 == 1 || mode / 8 % 2 == 1 || mode / 64 % 2 == 1 }

  /** Any of the three permission bits makes a file executable. */
  lemma ExecutableBits(mode: nat)
    ensures Executable(mode) <==> exists bit <- [1, 8, 64] :: mode / bit % 2 == 1
  {
    assert [1, 8, 64][0] == 1 && [1, 8, 64][1] == 8 && [1, 8, 64][2] == 64;
    assert 1 in [1, 8, 64] && 8 in [1, 8, 64] && 64 in [1, 8, 64];
  }

  /** A copy keeps the bytes, and of the mode only whether it is executable. */
  function Copied(n: Option<Node>): Option<Node> {
    match n
    case None => None
    case Some(Dir) => Some(Dir)
    case Some(File(bytes, mode)) => Some(File(bytes, if Executable(mode) then 493 else 420))
  }

  function CopyAt(t: Tree, e: Entry, s: Path): Option<Node>
    requires e.target <= s
  {
    Copied(NodeAt(t, e.source + s[|e.target|..]))
  }

  /** What a release has at `s`: later entries are looked at first. */
  function Composed(t: Tree, entries: seq<Entry>, s: Path): Option<Node> {
    if entries == [] then (if s == [] then Some(Dir) else None)
    else
      var e := entries[|entries| - 1];
      if e.target <= s then CopyAt(t, e, s)
      else if s < e.target then Some(Dir)
      else Composed(t, entries[..|entries| - 1], s)
  }

  lemma ApartFront(entries: seq<Entry>)
    requires Apart(entries) && entries != []
    ensures Apart(entries[..|entries| - 1])
  {
  }

  lemma PrefixesOverlap(a: Path, b: Path, s: Path)
    requires a <= s && b <= s
    ensures Overlap(a, b)
  {
    if |a| <= |b| {
      assert a == b[..|a|];
    } else {
      assert b == a[..|b|];
    }
  }

  /** Under a target, a release is the copy of that target's source. */
  lemma {:induction false} ComposedUnder(t: Tree, entries: seq<Entry>, k: nat, s: Path)
    requires Apart(entries) && k < |entries| && entries[k].target <= s
    ensures Composed(t, entries, s) == CopyAt(t, entries[k], s)
    decreases |entries|
  {
    hide CopyAt;
    var n := |entries| - 1;
    var e := entries[n];
    if k < n {
      assert !Overlap(entries[k].target, e.target);
      if e.target <= s {
        PrefixesOverlap(entries[k].target, e.target, s);
      } else {
        BetweenOverlap(entries[k].target, s, e.target);
        ApartFront(entries);
        ComposedUnder(t, entries[..n], k, s);
      }
    }
  }

  lemma BetweenOverlap(a: Path, s: Path, b: Path)
    requires a <= s
    ensures s <= b ==> Overlap(a, b)
  {
    if s <= b {
      assert a == s[..|a|] == b[..|a|];
    }
  }

  predicate UnderSome(entries: seq<Entry>, s: Path) { exists e <- entries :: e.target <= s }

  predicate AboveSome(entries: seq<Entry>, s: Path) { exists e <- entries :: s < e.target }

  /** Elsewhere, a release has the directories its targets are in, and nothing. */
  lemma {:induction false} ComposedElsewhere(t: Tree, entries: seq<Entry>, s: Path)
    requires !UnderSome(entries, s)
    ensures Composed(t, entries, s) == if s == [] || AboveSome(entries, s) then Some(Dir) else None
    decreases |entries|
  {
    if entries != [] {
      var n := |entries| - 1;
      var e, front := entries[n], entries[..n];
      assert e in entries && forall f <- front :: f in entries;
      ComposedElsewhere(t, front, s);
      assert entries == front + [e];
    }
  }

  /** A release is the disjoint union of its entries, whatever their order. */
  lemma OrderIrrelevant(t: Tree, a: seq<Entry>, b: seq<Entry>, s: Path)
    requires Apart(a) && Apart(b) && forall e :: e in a <==> e in b
    ensures Composed(t, a, s) == Composed(t, b, s)
  {
    hide Composed, CopyAt;
    if UnderSome(a, s) {
      var e :| e in a && e.target <= s;
      var i :| 0 <= i < |a| && a[i] == e;
      var j :| 0 <= j < |b| && b[j] == e;
      ComposedUnder(t, a, i, s);
      ComposedUnder(t, b, j, s);
    } else {
      assert !UnderSome(b, s);
      ComposedElsewhere(t, a, s);
      ComposedElsewhere(t, b, s);
      assert AboveSome(a, s) <==> AboveSome(b, s);
    }
  }

  // ----- which entries a manifest may declare -------------------------------

  /** Reads the declared entries: no source inside the output, no two targets
      one inside the other. */
  method AcceptEntries(entries: seq<Entry>, output: Path) returns (ok: bool)
    ensures ok <==> entries != [] && Apart(entries) && forall e <- entries :: !(output <= e.source)
  {
    if entries == [] {
      return false;
    }
    var k := 0;
    while k < |entries|
      invariant k <= |entries| && forall i :: 0 <= i < k ==> !(output <= entries[i].source)
    {
      if output <= entries[k].source {
        return false;
      }
      k := k + 1;
    }
    k := 0;
    while k < |entries|
      invariant k <= |entries|
      invariant forall i, j :: 0 <= i < k && i < j < |entries| ==> !Overlap(entries[i].target, entries[j].target)
    {
      var j := k + 1;
      while j < |entries|
        invariant k < j <= |entries|
        invariant forall i :: k < i < j ==> !Overlap(entries[k].target, entries[i].target)
      {
        if Overlap(entries[k].target, entries[j].target) {
          return false;
        }
        j := j + 1;
      }
      k := k + 1;
    }
    ok := true;
  }

  /** The check made there leaves one case open: a source that contains the
      directory the release is staged in.  No finite tree is a finished copy of
      such a source, so composing one cannot succeed. */
  lemma NoFinishedCopy(t: Tree, source: Path, inner: Path)
    requires source in t && inner != []
    ensures !forall p :: source + p in t ==> source + inner + p in t
  {
    if forall p :: source + p in t ==> source + inner + p in t {
      Deeper(t, source, inner, Depth(t));
    }
  }

  /** A bound on the length of every path. */
  ghost function Depth(t: Tree): (n: nat)
    ensures forall p <- t :: |p| <= n
    decreases |t|
  {
    if t == map[] then 0
    else
      var p :| p in t;
      var rest := Depth(t - {p});
      if |p| <= rest then rest else |p|
  }

  function Repeated(inner: Path, n: nat): Path { if n == 0 then [] else inner + Repeated(inner, n - 1) }

  lemma {:induction false} RepeatedInside(t: Tree, source: Path, inner: Path, n: nat)
    requires source in t && forall p :: source + p in t ==> source + inner + p in t
    ensures source + Repeated(inner, n) in t && |Repeated(inner, n)| == n * |inner|
  {
    if n == 0 {
      assert source + [] == source;
    } else {
      RepeatedInside(t, source, inner, n - 1);
      assert source + inner + Repeated(inner, n - 1) == source + (inner + Repeated(inner, n - 1));
      OneMore(n, |inner|);
    }
  }

  lemma AtLeast(n: nat, k: nat)
    requires k > 0
    ensures n * k >= n
  {
  }

  /** There is a path longer than any bound. */
  lemma Deeper(t: Tree, source: Path, inner: Path, n: nat)
    requires source in t && inner != [] && forall p :: source + p in t ==> source + inner + p in t
    ensures source + Repeated(inner, n + 1) in t && |source + Repeated(inner, n + 1)| > n
  {
    RepeatedInside(t, source, inner, n + 1);
    AtLeast(n + 1, |inner|);
  }
}
