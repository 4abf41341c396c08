/** Trees of files and directories. */
module FileTree {
  import opened Common

  /** One part of a path.  A name the system makes up for a temporary file is
      never one a plan uses. */
  datatype Part = Plain(text: string) | Fresh(stamp: nat)

  type Path = seq<Part>

  datatype Node = Dir | File(bytes: Bytes, mode: nat)

  type Tree = map<Path, Node>

  function NodeAt(t: Tree, p: Path): Option<Node> { if p in t then Some(t[p]) else None }

  function Parent(p: Path): Path { if p == [] then [] else p[..|p| - 1] }

  predicate IsDir(t: Tree, p: Path) { p == [] || (p in t && t[p].Dir?) }

  /** Every entry is in a directory. */
  predicate Rooted(t: Tree) { forall p <- t :: p != [] && IsDir(t, Parent(p)) }

  predicate Visible(p: Path) { forall part <- p :: part.Plain? }

  predicate StampedBelow(t: Tree, next: nat) {
    forall p <- t, part <- p :: part.Fresh? ==> part.stamp < next
  }

  lemma {:induction false} AncestorsAreDirs(t: Tree, p: Path, k: nat)
    requires Rooted(t) && p in t && 0 < k < |p|
    ensures p[..k] in t && t[p[..k]].Dir?
    decreases |p|
  {
    assert IsDir(t, Parent(p));
    if k < |p| - 1 {
      AncestorsAreDirs(t, Parent(p), k);
      assert Parent(p)[..k] == p[..k];
    }
  }

  lemma VisiblePrefix(p: Path, k: nat)
    requires Visible(p) && k <= |p|
    ensures Visible(p[..k])
  {
    forall part | part in p[..k] ensures part.Plain? {
      assert part in p;
    }
  }

  function Without(t: Tree, p: Path): Tree { t - {p} }

  lemma FileRemoved(t: Tree, p: Path)
    requires Rooted(t) && p in t && t[p].File?
    ensures Rooted(Without(t, p))
  {
    forall q | q in Without(t, p) ensures q != [] && IsDir(Without(t, p), Parent(q)) {
      assert IsDir(t, Parent(q));
    }
  }

  lemma EmptyRemoved(t: Tree, p: Path)
    requires Rooted(t) && forall q <- t :: q != [] ==> Parent(q) != p
    ensures Rooted(Without(t, p))
  {
    forall q | q in Without(t, p) ensures q != [] && IsDir(Without(t, p), Parent(q)) {
      assert IsDir(t, Parent(q));
    }
  }

  lemma FileAdded(t: Tree, p: Path, n: Node)
    requires Rooted(t) && p != [] && IsDir(t, Parent(p)) && !IsDir(t, p) && n.File?
    ensures Rooted(t[p := n])
  {
    forall q | q in t[p := n] ensures q != [] && IsDir(t[p := n], Parent(q)) {
      if q != p {
        assert IsDir(t, Parent(q));
      }
    }
  }

  lemma FreshIsNew(t: Tree, next: nat, p: Path)
    requires StampedBelow(t, next) && p != [] && p[|p| - 1] == Fresh(next)
    ensures p !in t
  {
    assert p[|p| - 1] in p;
  }
}
