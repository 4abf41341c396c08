/** The repository an update is published into, call by call.  A call is
    refused where the file system must refuse it, and may be refused anyway;
    `refusals` counts the latter, `objections` how often the caller's own check
    of a publication failed, `validations` keeps what that check was shown and
    said, and `trace` keeps every state a crash could
    leave. */
module UpdateFiles {
  import opened Common
  import opened FileTree
  import opened UpdateTree

  datatype CallResult = Succeeded | Missing | Failed

  /** What the caller was shown, and whether it was content. */
  datatype Validation = Validation(world: World, ok: bool)

  class Repository {
    var tree: Tree
    var record: Option<UndoRecord>
    var next: nat
    ghost var trace: seq<World>
    ghost var refusals: nat
    ghost var objections: nat
    ghost var validations: seq<Validation>

    ghost predicate Valid()
      reads this
    {
      Rooted(tree) && StampedBelow(tree, next) && trace != [] && trace[|trace| - 1] == Now()
    }

    ghost function Now(): World
      reads this
    {
      World(tree, record)
    }

    constructor (tree: Tree, record: Option<UndoRecord>, next: nat)
      requires Rooted(tree) && StampedBelow(tree, next)
      ensures Valid() && this.tree == tree && this.record == record && trace == [World(tree, record)]
    {
      this.tree, this.record, this.next := tree, record, next;
      this.trace, this.refusals, this.objections, this.validations := [World(tree, record)], 0, 0, [];
    }

    /** One effect the file system could have, which the system may refuse. */
    method Call(t: Tree, r: Option<UndoRecord>) returns (ok: bool)
      requires Valid() && Rooted(t) && StampedBelow(t, next)
      modifies this`tree, this`record, this`trace, this`refusals
      ensures Valid() && next == old(next)
      ensures if ok then tree == t && record == r && trace == old(trace) + [World(t, r)] && refusals == old(refusals)
              else tree == old(tree) && record == old(record) && trace == old(trace) && refusals == old(refusals) + 1
    {
      ok := *;
      if ok {
        tree, record, trace := t, r, trace + [World(t, r)];
      } else {
        refusals := refusals + 1;
      }
    }

    /** The caller's check of what was published. */
    method Validate() returns (ok: bool)
      modifies this`objections, this`validations
      ensures objections == old(objections) + (if ok then 0 else 1)
      ensures validations == old(validations) + [Validation(Now(), ok)]
    {
      ok := *;
      validations := validations + [Validation(Now(), ok)];
      if !ok {
        objections := objections + 1;
      }
    }

    method Unlink(p: Path) returns (r: CallResult)
      requires Valid()
      modifies this`tree, this`record, this`trace, this`refusals
      ensures Valid() && next == old(next) && record == old(record)
      ensures r.Missing? <==> p !in old(tree)
      ensures if r.Succeeded? then tree == Without(old(tree), p) && trace == old(trace) + [Now()] && refusals == old(refusals)
              else tree == old(tree) && trace == old(trace)
      ensures r.Succeeded? ==> p in old(tree) && old(tree)[p].File?
      ensures r.Missing? ==> refusals == old(refusals)
      ensures r.Failed? ==> old(tree)[p].Dir? || refusals > old(refusals)
      ensures refusals >= old(refusals)
    {
      if p !in tree {
        return Missing;
      }
      if tree[p].Dir? {
        return Failed;
      }
      FileRemoved(tree, p);
      var ok := Call(Without(tree, p), record);
      r := if ok then Succeeded else Failed;
    }

    method Rmdir(p: Path) returns (r: CallResult)
      requires Valid() && p != []
      modifies this`tree, this`record, this`trace, this`refusals
      ensures Valid() && next == old(next) && record == old(record)
      ensures r.Missing? <==> p !in old(tree)
      ensures if r.Succeeded? then tree == Without(old(tree), p) && trace == old(trace) + [Now()] && refusals == old(refusals)
              else tree == old(tree) && trace == old(trace)
      ensures r.Succeeded? ==> old(tree)[p].Dir?
      ensures r.Missing? ==> refusals == old(refusals)
      ensures r.Failed? ==> old(tree)[p].File? || (exists q <- old(tree) :: q != [] && Parent(q) == p) || refusals > old(refusals)
      ensures refusals >= old(refusals)
    {
      if p !in tree {
        return Missing;
      }
      if tree[p].File? || exists q <- tree :: q != [] && Parent(q) == p {
        return Failed;
      }
      EmptyRemoved(tree, p);
      var ok := Call(Without(tree, p), record);
      r := if ok then Succeeded else Failed;
    }

    method Mkdir(p: Path) returns (ok: bool)
      requires Valid() && p != [] && Visible(p)
      modifies this`tree, this`record, this`trace, this`refusals
      ensures Valid() && next == old(next) && record == old(record)
      ensures if ok then p !in old(tree) && tree == old(tree)[p := Dir] && trace == old(trace) + [Now()] && refusals == old(refusals)
              else tree == old(tree) && trace == old(trace)
      ensures !ok ==> p in old(tree) || !IsDir(old(tree), Parent(p)) || refusals > old(refusals)
      ensures refusals >= old(refusals)
    {
      if p in tree || !IsDir(tree, Parent(p)) {
        return false;
      }
      ok := Call(tree[p := Dir], record);
    }

    /** Creates an empty file under a name nothing has. */
    method Mkstemp(d: Path) returns (ok: bool, p: Path)
      requires Valid()
      modifies this`tree, this`record, this`trace, this`refusals, this`next
      ensures Valid() && record == old(record) && p == d + [Fresh(old(next))] && p !in old(tree)
      ensures if ok then IsDir(old(tree), d) && tree == old(tree)[p := File([], 384)] && trace == old(trace) + [Now()] && refusals == old(refusals)
              else tree == old(tree) && trace == old(trace)
      ensures !ok ==> !IsDir(old(tree), d) || refusals > old(refusals)
      ensures refusals >= old(refusals)
    {
      p := d + [Fresh(next)];
      FreshIsNew(tree, next, p);
      next := next + 1;
      if !IsDir(tree, d) {
        return false, p;
      }
      assert Parent(p) == d;
      ok := Call(tree[p := File([], 384)], record);
    }

    /** Creates a temporary and writes it whole; if that fails the temporary is
        unlinked where it can be. */
    method StageTemporary(d: Path, bytes: Bytes, mode: nat) returns (ok: bool, p: Path)
      requires Valid()
      modifies this`tree, this`record, this`trace, this`refusals, this`next
      ensures Valid() && record == old(record) && p == d + [Fresh(old(next))] && p !in old(tree)
      ensures ok ==> refusals == old(refusals)
      ensures refusals >= old(refusals) && Staging(old(trace), trace, old(tree), p, record)
      ensures ok ==> IsDir(old(tree), d) && tree == old(tree)[p := File(bytes, mode)]
      ensures tree == old(tree) || PartWritten(old(tree), tree, p)
      ensures !ok ==> !IsDir(old(tree), d) || refusals > old(refusals)
      ensures !ok && refusals <= old(refusals) + 1 ==> tree == old(tree)
    {
      hide IsDir, StampedBelow, Rooted;
      ghost var was := tree;
      ok, p := Mkstemp(d);
      if !ok {
        return;
      }
      Overwritten(was, p, File([], 384), File([], mode));
      StillRooted(tree, p, File([], mode));
      StillRooted(tree, p, File(bytes, mode));
      ok := Call(tree[p := File([], mode)], record);
      if ok {
        Overwritten(was, p, File([], mode), File(bytes, mode));
        Overwritten(was, p, File([], 384), File(bytes, mode));
        ok := Call(tree[p := File(bytes, mode)], record);
        if ok {
          return;
        }
      }
      WrittenUnlinks(was, tree, p);
      var result := Unlink(p);
    }

    method Replace(from: Path, to: Path) returns (ok: bool)
      requires Valid() && from != to && to != [] && Visible(to)
      modifies this`tree, this`record, this`trace, this`refusals
      ensures Valid() && next == old(next) && record == old(record)
      ensures if ok then from in old(tree) && old(tree)[from].File? && (to in old(tree) ==> old(tree)[to].File?)
                         && tree == Without(old(tree), from)[to := old(tree)[from]]
                         && trace == old(trace) + [Now()] && refusals == old(refusals)
              else tree == old(tree) && trace == old(trace)
      ensures !ok ==> from !in old(tree) || old(tree)[from].Dir? || (to in old(tree) && old(tree)[to].Dir?)
                      || !IsDir(old(tree), Parent(to)) || refusals > old(refusals)
      ensures refusals >= old(refusals)
    {
      if from !in tree || tree[from].Dir? || (to in tree && tree[to].Dir?) || !IsDir(tree, Parent(to)) {
        return false;
      }
      FileRemoved(tree, from);
      FileAdded(Without(tree, from), to, tree[from]);
      ok := Call(Without(tree, from)[to := tree[from]], record);
    }

    /** The record is written beside the index and renamed into place. */
    method SetRecord(r: UndoRecord) returns (ok: bool)
      requires Valid()
      modifies this`tree, this`record, this`trace, this`refusals
      ensures Valid() && next == old(next) && tree == old(tree)
      ensures if ok then record == Some(r) && trace == old(trace) + [Now()] && refusals == old(refusals)
              else record == old(record) && trace == old(trace) && refusals == old(refusals) + 1
    {
      ok := Call(tree, Some(r));
    }

    method ClearRecord() returns (ok: bool)
      requires Valid()
      modifies this`tree, this`record, this`trace, this`refusals
      ensures Valid() && next == old(next) && tree == old(tree)
      ensures if ok then record == None && refusals == old(refusals) && (trace == old(trace) + [Now()] || (old(record).None? && trace == old(trace)))
              else record == old(record) && trace == old(trace) && refusals == old(refusals) + 1
    {
      if record.None? {
        return true;
      }
      ok := Call(tree, None);
    }
  }

  ghost predicate PartWritten(was: Tree, t: Tree, p: Path) { exists f: Node :: f.File? && t == was[p := f] }

  /** Every state gained has some of the temporary, or none of it. */
  ghost predicate Staging(before: seq<World>, after: seq<World>, was: Tree, p: Path, record: Option<UndoRecord>) {
    && before <= after
    && forall i :: |before| <= i < |after| ==>
         after[i].record == record && (after[i].tree == was || PartWritten(was, after[i].tree, p))
  }

  lemma Overwritten(was: Tree, p: Path, f: Node, g: Node)
    requires f.File? && g.File?
    ensures was[p := f][p := g] == was[p := g] && PartWritten(was, was[p := f], p) && PartWritten(was, was[p := g], p)
  {
  }

  lemma StillRooted(t: Tree, p: Path, f: Node)
    requires Rooted(t) && p in t && t[p].File? && f.File?
    ensures Rooted(t[p := f])
    ensures forall next :: StampedBelow(t, next) ==> StampedBelow(t[p := f], next)
  {
    forall q | q in t[p := f] ensures q != [] && IsDir(t[p := f], Parent(q)) {
      assert IsDir(t, Parent(q));
    }
  }

  lemma WrittenUnlinks(was: Tree, t: Tree, p: Path)
    requires p !in was && PartWritten(was, t, p)
    ensures p in t && t[p].File? && Without(t, p) == was
  {
  }
}
