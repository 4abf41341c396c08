/** Publishing an application update: all of its changes, or none of them, with
    a record on disk for as long as it is neither. */
module UpdatePublisher {
  import opened Common
  import opened FileTree
  import opened UpdateTree
  import opened UpdateFiles
  import opened UpdateRestore
  import opened UpdatePreparation
  import opened UpdateRecord

  datatype Outcome = Rejected | RolledBack | RecoveryRequired | Done

  // ----- making the changes -------------------------------------------------

  /** The first `k` changes are made, the rest are ready. */
  ghost predicate Applied(t: Tree, r: UndoRecord, prepared: map<Path, Path>, changes: seq<Change>, t0: Tree, k: nat)
    requires k <= |changes|
  {
    && (forall j :: 0 <= j < k ==> NodeAt(t, changes[j].path) == AfterOf(changes[j], t0))
    && (forall j :: 0 <= j < k && changes[j].path in prepared ==> prepared[changes[j].path] !in t)
    && (forall j :: k <= j < |changes| ==> NodeAt(t, changes[j].path) == NodeAt(t0, changes[j].path))
    && (forall j :: k <= j < |changes| ==> ContentReady(t, r, prepared, changes[j], t0))
    && ParentsReady(t, changes, |changes|)
    && OnlyNamed(t, r, t0)
  }

  /** What stays true of the temporaries' names while changes are made. */
  ghost predicate Named(r: UndoRecord, prepared: map<Path, Path>, changes: seq<Change>, t0: Tree) {
    Injective(prepared) && TemporariesUsed(r, prepared, changes, |changes|) && Names(r, t0) && ChangesOk(t0, changes)
  }

  lemma ReadyApplied(t: Tree, r: UndoRecord, prepared: map<Path, Path>, changes: seq<Change>, t0: Tree)
    requires Prepared(t, r, prepared, changes, t0) && PrefixFree(changes)
    ensures Applied(t, r, prepared, changes, t0, 0) && Named(r, prepared, changes, t0)
    ensures Undoing(t, r, changes, t0)
  {
    hide Injective, TemporariesUsed, ContentReady, ParentsReady, OnlyNamed, Undoing, Untouched, Undoable, ChangeOk;
    PreparedRecords(t, r, prepared, changes, t0);
    CleanableUndoes(t, r, changes, t0);
    PreparingUntouched(t, r, changes, t0);
    TargetsKept(t, changes, t0);
  }

  lemma TargetsKept(t: Tree, changes: seq<Change>, t0: Tree)
    requires Untouched(World(t, None), changes, t0) && PrefixFree(changes)
    ensures forall j :: 0 <= j < |changes| ==> NodeAt(t, changes[j].path) == NodeAt(t0, changes[j].path)
  {
    hide PrefixFree;
    forall j | 0 <= j < |changes| ensures NodeAt(t, changes[j].path) == NodeAt(t0, changes[j].path) {
      assert changes[j] in changes;
    }
  }

  lemma PreparedRecords(t: Tree, r: UndoRecord, prepared: map<Path, Path>, changes: seq<Change>, t0: Tree)
    requires Prepared(t, r, prepared, changes, t0)
    ensures Records(r, changes, t0) && Cleanable(t, r, t0) && ChangesOk(t0, changes)
  {
    hide ChangesOk, UnderTarget, Undoable, ContentReady, TemporariesUsed, Injective, OnlyNamed, ParentsReady;
  }

  /** What a change about to be made is, and that making it can only be refused
      by the system. */
  lemma ChangeDue(t: Tree, r: UndoRecord, prepared: map<Path, Path>, changes: seq<Change>, t0: Tree, k: nat)
    requires k < |changes| && Applied(t, r, prepared, changes, t0, k) && Named(r, prepared, changes, t0)
    ensures var c := changes[k];
            && IsTarget(changes, c.path) && c.path != [] && Visible(c.path)
            && (c.path in t ==> t[c.path].File?) && IsDir(t, Parent(c.path))
            && (if c.after.None? then c.path in t
                else c.path in prepared && prepared[c.path] in r.temporaries && !Visible(prepared[c.path])
                     && prepared[c.path] in t && t[prepared[c.path]].File?
                     && Some(t[prepared[c.path]]) == AfterOf(c, t0))
  {
    hide Injective, TemporariesUsed, OnlyNamed, Visible;
    var c := changes[k];
    assert c in changes && ChangeOk(t0, c);
    assert ContentReady(t, r, prepared, c, t0) && IsDir(t, Parent(c.path));
    assert NodeAt(t, c.path) == NodeAt(t0, c.path);
  }

  /** One change made: its target as it should be, its temporary gone, and every
      other target and temporary as it was. */
  lemma AppliedMore(was: Tree, t: Tree, r: UndoRecord, prepared: map<Path, Path>, changes: seq<Change>, t0: Tree, k: nat)
    requires k < |changes| && Applied(was, r, prepared, changes, t0, k) && Named(r, prepared, changes, t0)
    requires PrefixFree(changes)
    requires NodeAt(t, changes[k].path) == AfterOf(changes[k], t0)
    requires changes[k].path in prepared ==> prepared[changes[k].path] !in t
    requires forall q :: q != changes[k].path && !(changes[k].path in prepared && q == prepared[changes[k].path]) ==>
               NodeAt(t, q) == NodeAt(was, q)
    requires forall a <- prepared :: !Visible(prepared[a])
    ensures Applied(t, r, prepared, changes, t0, k + 1)
  {
    hide TemporariesUsed, Names, AfterOf, PrefixFree, Visible;
    var c := changes[k];
    TargetsVisible(t0, changes);
    forall j | 0 <= j < |changes| && j != k
      ensures NodeAt(t, changes[j].path) == NodeAt(was, changes[j].path)
      ensures changes[j].path in prepared ==> NodeAt(t, prepared[changes[j].path]) == NodeAt(was, prepared[changes[j].path])
      ensures changes[j].path != c.path
    {
      assert Visible(changes[j].path) && Visible(c.path);
    }
    forall j | k + 1 <= j < |changes| ensures ContentReady(t, r, prepared, changes[j], t0) {
      assert ContentReady(was, r, prepared, changes[j], t0);
      assert changes[j].path in prepared ==> NodeAt(t, prepared[changes[j].path]) == NodeAt(was, prepared[changes[j].path]);
    }
    forall j | 0 <= j < |changes| ensures IsDir(t, Parent(changes[j].path)) {
      ParentApart(t0, changes, j, c.path);
      assert IsDir(was, Parent(changes[j].path));
      assert NodeAt(t, Parent(changes[j].path)) == NodeAt(was, Parent(changes[j].path));
    }
    OnlyNamedKept(was, t, r, t0, c.path, if c.path in prepared then prepared[c.path] else c.path);
  }

  lemma OnlyNamedKept(was: Tree, t: Tree, r: UndoRecord, t0: Tree, p: Path, q: Path)
    requires OnlyNamed(was, r, t0) && Visible(p) && (q == p || q !in t)
    requires forall x :: x != p && x != q ==> NodeAt(t, x) == NodeAt(was, x)
    ensures OnlyNamed(t, r, t0)
  {
    hide Visible;
    forall x | x in t ensures Visible(x) || x in t0 || x in r.temporaries {
      assert x != p ==> NodeAt(t, x) == NodeAt(was, x);
    }
  }

  lemma TargetsVisible(t0: Tree, changes: seq<Change>)
    requires ChangesOk(t0, changes)
    ensures forall j :: 0 <= j < |changes| ==> Visible(changes[j].path) && changes[j].path != []
  {
    hide Visible;
    forall j | 0 <= j < |changes| ensures Visible(changes[j].path) && changes[j].path != [] {
      assert changes[j] in changes;
      assert ChangeOk(t0, changes[j]);
    }
  }

  /** A target's directory is no target, and never a temporary. */
  lemma ParentApart(t0: Tree, changes: seq<Change>, j: nat, target: Path)
    requires j < |changes| && ChangesOk(t0, changes) && PrefixFree(changes) && IsTarget(changes, target)
    ensures Parent(changes[j].path) != target && Visible(Parent(changes[j].path))
  {
    var p := changes[j].path;
    TargetsVisible(t0, changes);
    VisiblePrefix(p, |p| - 1);
    assert changes[j] in changes;
    OutsideTargets(changes, p, Parent(p));
  }

  /** All changes made is the publication made. */
  lemma AllApplied(t: Tree, r: UndoRecord, prepared: map<Path, Path>, changes: seq<Change>, t0: Tree)
    requires Applied(t, r, prepared, changes, t0, |changes|) && Named(r, prepared, changes, t0)
    requires Undoing(t, r, changes, t0)
    ensures Made(t, changes, t0)
  {
    TemporariesGone(t, r, prepared, changes, t0);
    hide PrefixFree, Rooted, ContentReady, ParentsReady, Injective, TemporariesUsed, Visible, AfterOf, ChangesOk;
    forall p ensures Elsewhere(NodeAt(t, p), p, changes, t0) {
      assert Allowed(NodeAt(t, p), p, r, changes, t0);
    }
    forall c | c in changes ensures NodeAt(t, c.path) == AfterOf(c, t0) {
      var j :| 0 <= j < |changes| && changes[j] == c;
    }
  }

  lemma TemporariesGone(t: Tree, r: UndoRecord, prepared: map<Path, Path>, changes: seq<Change>, t0: Tree)
    requires Applied(t, r, prepared, changes, t0, |changes|) && Named(r, prepared, changes, t0)
    ensures forall q <- r.temporaries :: q !in t
  {
    hide Injective, ChangesOk, Names, ContentReady, ParentsReady, OnlyNamed, AfterOf;
    forall q | q in r.temporaries ensures q !in t {
      var i :| 0 <= i < |changes| && HasTemporary(prepared, changes[i], q);
    }
  }

  lemma PreparedHidden(r: UndoRecord, prepared: map<Path, Path>, changes: seq<Change>, t0: Tree)
    requires Named(r, prepared, changes, t0)
    ensures forall a <- prepared :: !Visible(prepared[a])
  {
    hide Visible, Injective, ChangesOk;
  }

  // ----- targets inside targets ---------------------------------------------

  /** Which target of a clashing plan is in the way: one to be created whose
      name is by then a directory. */
  lemma ClashBlocks(t: Tree, r: UndoRecord, prepared: map<Path, Path>, changes: seq<Change>, t0: Tree) returns (b: nat)
    requires Prepared(t, r, prepared, changes, t0) && !PrefixFree(changes) && Rooted(t)
    ensures b < |changes| && |r.files| == |changes| && changes[b].before.None? && Blocks(t, r.files[b])
    ensures r.files[b].path == changes[b].path
  {
    hide ContentReady, TemporariesUsed, Injective, OnlyNamed, Cleanable;
    var c, e :| c in changes && e in changes && Inside(c.path, e.path);
    var i :| 0 <= i < |changes| && changes[i] == c;
    b :| 0 <= b < |changes| && changes[b] == e;
    assert ChangeOk(t0, e);
    assert IsDir(t, Parent(c.path)) by { assert ParentsReady(t, changes, |changes|); assert IsDir(t, Parent(changes[i].path)); }
    PrefixIsDir(t, Parent(c.path), |e.path|);
    assert Parent(c.path)[..|e.path|] == e.path;
    CleanableUnchanged(t, r, t0);
    WasNoFile(t, t0, e.path);
  }

  lemma WasNoFile(t: Tree, t0: Tree, p: Path)
    requires Unchanged(t, t0) && p in t && t[p].Dir? && (p in t0 ==> t0[p].File?)
    ensures p !in t0
  {
    assert p in t0 ==> NodeAt(t, p) == NodeAt(t0, p);
  }

  lemma PrefixIsDir(t: Tree, p: Path, k: nat)
    requires Rooted(t) && IsDir(t, p) && 0 < k <= |p|
    ensures p[..k] in t && t[p[..k]].Dir?
  {
    if k < |p| {
      AncestorsAreDirs(t, p, k);
    } else {
      assert p[..k] == p;
    }
  }

  lemma PlanPaths(r: UndoRecord, prepared: map<Path, Path>, changes: seq<Change>, t0: Tree, t: Tree)
    requires Prepared(t, r, prepared, changes, t0)
    ensures PathsOk(r)
  {
    hide Visible, UnderTarget, Undoable, ContentReady, TemporariesUsed, Injective, OnlyNamed, ParentsReady;
    TargetsVisible(t0, changes);
    forall s | s in r.files ensures s.path != [] && Visible(s.path) {
      var i :| 0 <= i < |r.files| && r.files[i] == s;
      assert Visible(changes[i].path);
    }
  }

  /** A change that cannot be made: at the root or under a hidden name, to
      what is there already, or to other bytes than are there. */
  predicate Unfit(t: Tree, c: Change) {
    || c.path == [] || (exists part <- c.path :: part.Fresh?) || c.after == c.before
    || match c.before
       case None => c.path in t
       case Some(bytes) => c.path !in t || t[c.path].Dir? || t[c.path].bytes != bytes
  }

  lemma UnfitIs(t: Tree, changes: seq<Change>)
    ensures ChangesOk(t, changes) <==>
            && changes != [] && (forall c <- changes :: !Unfit(t, c))
            && (forall i, j :: 0 <= i < j < |changes| ==> changes[i].path != changes[j].path)
  {
    forall c ensures ChangeOk(t, c) <==> !Unfit(t, c) {
    }
  }

  class UpdatePublisher {
    const repository: Repository
    const restorer: Restorer
    const preparer: Preparer

    constructor (repository: Repository)
      ensures this.repository == repository && restorer.repository == repository
      ensures preparer.repository == repository && preparer.restorer.repository == repository
    {
      this.repository := repository;
      this.restorer := new Restorer(repository);
      this.preparer := new Preparer(repository);
    }

    ghost predicate Wired()
      reads this, restorer, preparer
    {
      && restorer.repository == repository && preparer.repository == repository
      && preparer.restorer.repository == repository
    }

    /** Makes the changes one by one. */
    method Apply(changes: seq<Change>, r: UndoRecord, prepared: map<Path, Path>, ghost t0: Tree, ghost b: nat) returns (ok: bool)
      requires repository.Valid() && repository.record == Some(r)
      requires |r.files| == |changes| && Prepared(repository.tree, r, prepared, changes, t0)
      requires !PrefixFree(changes) ==> b < |changes| && changes[b].before.None? && Blocks(repository.tree, r.files[b])
                                        && r.files[b].path == changes[b].path
      modifies repository`tree, repository`record, repository`trace, repository`refusals, repository`next
      ensures repository.Valid() && repository.record == Some(r) && repository.refusals >= old(repository.refusals)
      ensures old(repository.trace) <= repository.trace
      ensures ok ==> repository.refusals == old(repository.refusals)
      ensures PrefixFree(changes) ==>
                && Undoing(repository.tree, r, changes, t0) && Points(old(repository.trace), repository.trace, changes, t0)
                && (if ok then Made(repository.tree, changes, t0) else repository.refusals > old(repository.refusals))
      ensures !PrefixFree(changes) ==> !ok && Blocks(repository.tree, r.files[b]) && Stuck(old(repository.trace), repository.trace, r)
    {
      hide Prepared, PrefixFree, Applied, Named, Undoing, Points, Atomic, Made, Rooted, StampedBelow, Visible, IsTarget, IsDir,
           AfterOf, ChangesOk, Stuck, Blocked;
      ghost var free, before := PrefixFree(changes), repository.trace;
      PointsNothing(before, changes, t0);
      StuckNothing(before, r);
      PreparedShape(repository.tree, r, prepared, changes, t0);
      if free {
        ReadyApplied(repository.tree, r, prepared, changes, t0);
        PreparedHidden(r, prepared, changes, t0);
      }
      var k := 0;
      while k < |changes|
        invariant k <= |changes| && repository.Valid() && repository.record == Some(r)
        invariant before <= repository.trace && repository.refusals == old(repository.refusals)
        invariant free ==> Applied(repository.tree, r, prepared, changes, t0, k)
        invariant free ==> Undoing(repository.tree, r, changes, t0) && Points(before, repository.trace, changes, t0)
        invariant !free ==> k <= b && Blocks(repository.tree, r.files[b]) && Stuck(before, repository.trace, r)
      {
        var c := changes[k];
        ghost var was, sofar := repository.tree, repository.trace;
        if free {
          ChangeDue(was, r, prepared, changes, t0, k);
        }
        assert c in changes && c.path != [] && Visible(c.path);
        if c.after.None? {
          if free {
            UndoingTarget(was, was - {c.path}, r, changes, t0, c.path);
          }
          var result := repository.Unlink(c.path);
          if !result.Succeeded? {
            return false;
          }
        } else {
          ok := c.path in prepared && prepared[c.path] != c.path;
          if ok {
            if free {
              UndoingOwn(was, r, changes, t0, prepared[c.path]);
            }
            ok := repository.Replace(prepared[c.path], c.path);
          }
          if !ok {
            return;
          }
          if free {
            UndoingTarget(was - {prepared[c.path]}, repository.tree, r, changes, t0, c.path);
          }
        }
        if free {
          DueMade(was, repository.tree, r, prepared, changes, t0, k);
          AppliedMore(was, repository.tree, r, prepared, changes, t0, k);
          PointsMore(before, sofar, changes, t0, repository.Now());
        } else {
          BlockedBy(repository.tree, r, b);
          StuckMore(before, sofar, r, repository.Now());
        }
        k := k + 1;
      }
      ok := true;
      if free {
        AllApplied(repository.tree, r, prepared, changes, t0);
      }
    }

    /** What follows the record: the changes made and accepted, or undone. */
    method Finish(changes: seq<Change>, r: UndoRecord, prepared: map<Path, Path>, ghost t0: Tree, ghost b: nat) returns (out: Outcome)
      requires repository.Valid() && Wired() && repository.record == Some(r) && PathsOk(r)
      requires |r.files| == |changes| && Prepared(repository.tree, r, prepared, changes, t0)
      requires PrefixFree(changes) ==> Undoing(repository.tree, r, changes, t0)
      requires !PrefixFree(changes) ==> b < |changes| && changes[b].before.None? && Blocks(repository.tree, r.files[b])
                                        && r.files[b].path == changes[b].path
      modifies repository
      ensures repository.Valid() && old(repository.trace) <= repository.trace && repository.refusals >= old(repository.refusals)
      ensures repository.objections >= old(repository.objections) && !out.Rejected?
      ensures PrefixFree(changes) ==> Points(old(repository.trace), repository.trace, changes, t0)
      ensures out.Done? ==> repository.record == None && PrefixFree(changes) && Made(repository.tree, changes, t0)
      ensures out.Done? ==> repository.validations == old(repository.validations) + [Validation(World(repository.tree, Some(r)), true)]
      ensures out.Done? <==> PrefixFree(changes) && repository.refusals == old(repository.refusals)
                             && repository.objections == old(repository.objections)
      ensures out.RolledBack? ==> repository.record == None && PrefixFree(changes) && Back(repository.tree, t0)
      ensures out.RecoveryRequired? ==> repository.record == Some(r)
      ensures out.RecoveryRequired? && PrefixFree(changes) ==>
                repository.refusals > old(repository.refusals) && Undoing(repository.tree, r, changes, t0)
      ensures !PrefixFree(changes) ==>
                out.RecoveryRequired? && Blocked(repository.tree, r) && Stuck(old(repository.trace), repository.trace, r)
    {
      hide Prepared, PrefixFree, Undoing, Points, Atomic, Made, Rooted, StampedBelow, Back, Blocks, PathsOk, Stuck, Blocked;
      ghost var before := repository.trace;
      var ok := Apply(changes, r, prepared, t0, b);
      ghost var sofar := repository.trace;
      if ok {
        var valid := repository.Validate();
        if valid {
          ok := repository.ClearRecord();
          if ok {
            MadeAtomic(repository.tree, changes, t0);
            PointsMore(before, sofar, changes, t0, repository.Now());
            return Done;
          }
        }
      }
      BlockedBy(repository.tree, r, b);
      ok := restorer.Restore(r, changes, t0);
      if PrefixFree(changes) {
        PointsJoin(before, sofar, repository.trace, changes, t0);
      } else {
        StuckJoin(before, sofar, repository.trace, r);
      }
      out := if ok then RolledBack else RecoveryRequired;
    }

    /** Publishes `changes`.  With no target inside another: `Done` is all of
        them made, `RolledBack` everything as before, and `RecoveryRequired`, which
        only a refusal by the system can cause, leaves a record from which
        everything can still be undone; no state on the way is any other.  It is
        done exactly when nothing is in the way of the targets' directories, the
        system refuses nothing and the caller does not object.  With
        a target inside another, a publication that gets as far as its record
        can be neither finished nor undone, and every state on the way has
        everything untouched or a record that is blocked. */
    method Publish(changes: seq<Change>) returns (out: Outcome)
      requires repository.Valid() && Wired()
      modifies repository
      ensures repository.Valid() && old(repository.trace) <= repository.trace && repository.refusals >= old(repository.refusals)
      ensures out.Rejected? <==>
                || old(repository.record).Some? || changes == [] || (exists c <- changes :: Unfit(old(repository.tree), c))
                || (exists i, j :: 0 <= i < j < |changes| && changes[i].path == changes[j].path)
      ensures out.Rejected? ==> repository.trace == old(repository.trace) && repository.Now() == old(repository.Now())
      ensures !out.Rejected? && PrefixFree(changes) ==> Points(old(repository.trace), repository.trace, changes, old(repository.tree))
      ensures !out.Rejected? && !PrefixFree(changes) ==>
                UntouchedOrBlocked(old(repository.trace), repository.trace, changes, old(repository.tree))
      ensures out.Done? ==> repository.record == None && PrefixFree(changes) && Made(repository.tree, changes, old(repository.tree))
      ensures out.Done? ==> exists r :: repository.validations
                                        == old(repository.validations) + [Validation(World(repository.tree, Some(r)), true)]
      ensures out.Done? <==> !out.Rejected? && PrefixFree(changes) && AllClear(old(repository.tree), changes)
                             && repository.refusals == old(repository.refusals) && repository.objections == old(repository.objections)
      ensures out.RolledBack? ==> repository.record == None && Untouched(repository.Now(), changes, old(repository.tree))
      ensures out.RolledBack? && repository.refusals == old(repository.refusals) ==> Back(repository.tree, old(repository.tree))
      ensures out.RecoveryRequired? && PrefixFree(changes) ==>
                && repository.refusals > old(repository.refusals)
                && match repository.record
                   case Some(r) => Undoing(repository.tree, r, changes, old(repository.tree))
                   case None => Untouched(repository.Now(), changes, old(repository.tree))
      ensures out.RecoveryRequired? && !PrefixFree(changes) && repository.record.Some? ==>
                Blocked(repository.tree, repository.record.value)
      ensures !PrefixFree(changes) && repository.refusals == old(repository.refusals) && !out.Rejected? ==>
                out.RolledBack? || (out.RecoveryRequired? && repository.record.Some?)
    {
      hide Prepared, PrefixFree, Undoing, Points, Atomic, Made, Rooted, StampedBelow, AllUntouched, Untouched, Back, Blocks,
           ChangesOk, PathsOk, Preparing, Cleanable, Stuck, Blocked, UntouchedOrBlocked, DirectoriesKept, Visible, Ready, ChangeOk, Unfit;
      UnfitIs(repository.tree, changes);
      if repository.record.Some? || !ChangesOk(repository.tree, changes) {
        return Rejected;
      }
      ghost var t0, before := repository.tree, repository.trace;
      var ok, r, prepared := preparer.Prepare(changes);
      UntouchedPoints(before, repository.trace, changes, t0);
      UntouchedHeld(before, before, repository.trace, changes, t0);
      if !ok {
        return RolledBack;
      }
      ghost var t, sofar := repository.tree, repository.trace;
      PlanPaths(r, prepared, changes, t0, t);
      PreparedShape(t, r, prepared, changes, t0);
      PreparedClear(t, r, prepared, changes, t0);
      hide AllClear;
      ghost var b := 0;
      if PrefixFree(changes) {
        ReadyApplied(t, r, prepared, changes, t0);
        UndoingAtomic(t, r, changes, t0);
      } else {
        b := ClashBlocks(t, r, prepared, changes, t0);
      }
      ok := repository.SetRecord(r);
      if !ok {
        PreparedPreparing(t, r, prepared, changes, t0);
        ok := preparer.CleanUp(r.temporaries, r.directories, r, changes, t0);
        UntouchedPoints(sofar, repository.trace, changes, t0);
        UntouchedHeld(before, sofar, repository.trace, changes, t0);
        if PrefixFree(changes) {
          PointsJoin(before, sofar, repository.trace, changes, t0);
        }
        return if ok then RolledBack else RecoveryRequired;
      }
      if PrefixFree(changes) {
        PointsMore(before, sofar, changes, t0, repository.Now());
      } else {
        BlockedBy(repository.tree, r, b);
        StuckNothing(sofar, r);
        StuckMore(sofar, sofar, r, repository.Now());
        StuckHeld(before, sofar, repository.trace, r, changes, t0);
      }
      sofar := repository.trace;
      out := Finish(changes, r, prepared, t0, b);
      if PrefixFree(changes) {
        PointsJoin(before, sofar, repository.trace, changes, t0);
        if out.RolledBack? {
          BackUntouched(repository.tree, r, changes, t0);
        }
      } else {
        StuckHeld(before, sofar, repository.trace, r, changes, t0);
      }
    }

    /** Undoes an interrupted publication from its record, if that is not too
        long to read back. */
    method Recover(ghost changes: seq<Change>, ghost t0: Tree) returns (out: Outcome)
      requires repository.Valid() && Wired() && (repository.record.Some? ==> PathsOk(repository.record.value))
      modifies repository
      ensures repository.Valid() && old(repository.trace) <= repository.trace && repository.refusals >= old(repository.refusals)
      ensures out.Rejected? <==> old(repository.record.None?)
      ensures out.Rejected? ==> repository.Now() == old(repository.Now())
      ensures old(repository.record).Some? && RecordLength(old(repository.record).value) > MAX_RECORD ==>
                out.RecoveryRequired? && repository.Now() == old(repository.Now())
      ensures old(repository.record.Some? && Undoing(repository.tree, repository.record.value, changes, t0))
              && RecordLength(old(repository.record).value) <= MAX_RECORD ==>
                && Points(old(repository.trace), repository.trace, changes, t0)
                && (if out.Done? then repository.record == None && Back(repository.tree, t0)
                    else out.RecoveryRequired? && repository.record == old(repository.record)
                         && Undoing(repository.tree, repository.record.value, changes, t0)
                         && repository.refusals > old(repository.refusals))
      ensures old(repository.record.Some? && Blocked(repository.tree, repository.record.value)) ==>
                && out.RecoveryRequired? && repository.record == old(repository.record)
                && Blocked(repository.tree, repository.record.value)
                && Stuck(old(repository.trace), repository.trace, repository.record.value)
    {
      hide Undoing, Points, Back, Blocks, PathsOk, Rooted, StampedBelow, Stuck;
      if repository.record.None? {
        return Rejected;
      }
      var r := repository.record.value;
      StuckNothing(repository.trace, r);
      if RecordLength(r) > MAX_RECORD {
        return RecoveryRequired;
      }
      var ok := restorer.Restore(r, changes, t0);
      out := if ok then Done else RecoveryRequired;
    }
  }

  lemma PreparedShape(t: Tree, r: UndoRecord, prepared: map<Path, Path>, changes: seq<Change>, t0: Tree)
    requires Prepared(t, r, prepared, changes, t0)
    ensures |r.files| == |changes|
    ensures forall c <- changes :: c.path != [] && Visible(c.path)
    ensures forall i, j :: 0 <= i < j < |changes| ==> changes[i].path != changes[j].path
    ensures forall a <- prepared :: !Visible(prepared[a])
  {
    hide Visible, Undoable, ContentReady, Injective, OnlyNamed, ParentsReady, UnderTarget, Rooted;
    forall c | c in changes ensures c.path != [] && Visible(c.path) {
      assert ChangeOk(t0, c);
    }
  }

  lemma PreparedPreparing(t: Tree, r: UndoRecord, prepared: map<Path, Path>, changes: seq<Change>, t0: Tree)
    requires Prepared(t, r, prepared, changes, t0)
    ensures Preparing(t, r, changes, t0)
  {
    hide Preparing, Ready;
  }

  /** The change just made left its target as it should be. */
  lemma DueMade(was: Tree, t: Tree, r: UndoRecord, prepared: map<Path, Path>, changes: seq<Change>, t0: Tree, k: nat)
    requires k < |changes| && Applied(was, r, prepared, changes, t0, k) && Named(r, prepared, changes, t0)
    requires var c := changes[k];
             if c.after.None? then t == Without(was, c.path)
             else c.path in prepared && prepared[c.path] in was && prepared[c.path] != c.path
                  && t == Without(was, prepared[c.path])[c.path := was[prepared[c.path]]]
    ensures NodeAt(t, changes[k].path) == AfterOf(changes[k], t0)
    ensures changes[k].path in prepared ==> prepared[changes[k].path] !in t
    ensures forall q :: q != changes[k].path && !(changes[k].path in prepared && q == prepared[changes[k].path]) ==>
              NodeAt(t, q) == NodeAt(was, q)
  {
    hide Injective, Visible, OnlyNamed;
    var c := changes[k];
    ChangeDue(was, r, prepared, changes, t0, k);
    if c.after.None? {
      NotPrepared(r, prepared, changes, t0, k);
    }
  }

  /** A temporary belongs to a change with new content. */
  lemma Owner(r: UndoRecord, prepared: map<Path, Path>, changes: seq<Change>, p: Path) returns (i: nat)
    requires Injective(prepared) && TemporariesUsed(r, prepared, changes, |changes|) && p in prepared
    ensures i < |changes| && changes[i].path == p && changes[i].after.Some?
  {
    i :| 0 <= i < |changes| && HasTemporary(prepared, changes[i], prepared[p]);
  }

  /** A change that removes its target has no temporary. */
  lemma NotPrepared(r: UndoRecord, prepared: map<Path, Path>, changes: seq<Change>, t0: Tree, k: nat)
    requires k < |changes| && changes[k].after.None? && Named(r, prepared, changes, t0)
    ensures changes[k].path !in prepared
  {
    hide Injective, TemporariesUsed;
    if changes[k].path in prepared {
      var i := Owner(r, prepared, changes, changes[k].path);
    }
  }

  /** Preparing succeeds only where nothing is in the way. */
  lemma PreparedClear(t: Tree, r: UndoRecord, prepared: map<Path, Path>, changes: seq<Change>, t0: Tree)
    requires Prepared(t, r, prepared, changes, t0) && Rooted(t)
    ensures AllClear(t0, changes)
  {
    hide ContentReady, Injective, TemporariesUsed, OnlyNamed, UnderTarget;
    CleanableUnchanged(t, r, t0);
    forall c, n | c in changes && 0 < n < |c.path| && c.path[..n] in t0 ensures t0[c.path[..n]].Dir? {
      var i :| 0 <= i < |changes| && changes[i] == c;
      assert IsDir(t, Parent(c.path)) && Parent(c.path)[..n] == c.path[..n];
      PrefixIsDir(t, Parent(c.path), n);
      assert NodeAt(t, c.path[..n]) == Some(t0[c.path[..n]]);
    }
  }

  lemma UntouchedPoints(before: seq<World>, after: seq<World>, changes: seq<Change>, t0: Tree)
    requires AllUntouched(before, after, changes, t0)
    ensures before <= after && (PrefixFree(changes) ==> Points(before, after, changes, t0))
  {
    hide PrefixFree, Kept, Unchanged;
    if PrefixFree(changes) {
      forall i | |before| <= i < |after| ensures Atomic(after[i], changes, t0) {
        assert Untouched(after[i], changes, t0);
      }
    }
  }

  /** Every state gained has everything untouched, or a record that is blocked. */
  ghost predicate UntouchedOrBlocked(before: seq<World>, after: seq<World>, changes: seq<Change>, t0: Tree) {
    && before <= after
    && forall i :: |before| <= i < |after| ==>
         Untouched(after[i], changes, t0) || (after[i].record.Some? && Blocked(after[i].tree, after[i].record.value))
  }

  lemma UntouchedHeld(before: seq<World>, sofar: seq<World>, after: seq<World>, changes: seq<Change>, t0: Tree)
    requires before == sofar || UntouchedOrBlocked(before, sofar, changes, t0)
    requires AllUntouched(sofar, after, changes, t0)
    ensures UntouchedOrBlocked(before, after, changes, t0)
  {
    hide Untouched, Blocked;
    forall i | |before| <= i < |after|
      ensures Untouched(after[i], changes, t0) || (after[i].record.Some? && Blocked(after[i].tree, after[i].record.value))
    {
      if i < |sofar| {
        assert after[i] == sofar[i];
      }
    }
  }

  lemma StuckJoin(a: seq<World>, b: seq<World>, c: seq<World>, r: UndoRecord)
    requires Stuck(a, b, r) && Stuck(b, c, r)
    ensures Stuck(a, c, r)
  {
    hide Blocked;
    forall i | |a| <= i < |c| ensures c[i].record == Some(r) && Blocked(c[i].tree, r) {
      if i < |b| {
        assert c[i] == b[i];
      }
    }
  }

  lemma StuckHeld(before: seq<World>, sofar: seq<World>, after: seq<World>, r: UndoRecord, changes: seq<Change>, t0: Tree)
    requires UntouchedOrBlocked(before, sofar, changes, t0) && Stuck(sofar, after, r)
    ensures UntouchedOrBlocked(before, after, changes, t0)
  {
    hide Untouched, Blocked;
    forall i | |before| <= i < |after|
      ensures Untouched(after[i], changes, t0) || (after[i].record.Some? && Blocked(after[i].tree, after[i].record.value))
    {
      if i < |sofar| {
        assert after[i] == sofar[i];
      }
    }
  }

  lemma MadeAtomic(t: Tree, changes: seq<Change>, t0: Tree)
    requires Made(t, changes, t0)
    ensures Atomic(World(t, None), changes, t0)
  {
    hide Made;
  }

  lemma BackUntouched(t: Tree, r: UndoRecord, changes: seq<Change>, t0: Tree)
    requires Back(t, t0) && ChangesOk(t0, changes) && Rooted(t0)
    ensures Untouched(World(t, None), changes, t0)
  {
    hide PrefixFree;
    BackIsKept(t, changes, t0);
  }

  lemma BlockedBy(t: Tree, r: UndoRecord, b: nat)
    ensures b < |r.files| && Blocks(t, r.files[b]) ==> Blocked(t, r)
  {
  }

  // ----- what a crash finds -------------------------------------------------

  /** Stopped at any point, with the record there: recovery can undo it, and if
      recovery is stopped too, the next one can. */
  lemma InterruptedRecovers(before: seq<World>, after: seq<World>, changes: seq<Change>, t0: Tree, i: nat)
    requires Points(before, after, changes, t0) && |before| <= i < |after|
    requires ChangesOk(t0, changes) && PrefixFree(changes) && Rooted(t0)
    ensures after[i].record.Some? ==> Undoing(after[i].tree, after[i].record.value, changes, t0)
    ensures after[i].record.None? ==> Kept(after[i].tree, changes, t0) || Made(after[i].tree, changes, t0)
  {
    hide ChangesOk, PrefixFree, Rooted, Kept, Made, Records, Undoable;
    assert Atomic(after[i], changes, t0);
  }

  /** Changes to some of the planner's six targets, each of which it has read
      under its limit. */
  predicate FromPlanner(changes: seq<Change>, t0: Tree) {
    forall c <- changes ::
      && c.path in TARGETS
      && (c.path in t0 && t0[c.path].File? ==> |t0[c.path].bytes| <= Limit(c.path) && t0[c.path].mode <= MAX_MODE)
  }

  /** None of the six targets is inside another, and only one has a directory. */
  lemma TargetsFlat(p: Path, q: Path)
    requires p in TARGETS && Inside(p, q)
    ensures q !in TARGETS && (q != [] ==> q == [Plain("vendor")])
  {
    var i :| 0 <= i < |TARGETS| && p == TARGETS[i];
    assert q == [] || (i == 5 && q == [Plain("vendor")]);
    forall j | 0 <= j < |TARGETS| ensures TARGETS[j] != q {
      assert j == 5 || |TARGETS[j][0].text| != |"vendor"|;
    }
  }

  lemma PlannerPrefixFree(changes: seq<Change>, t0: Tree)
    requires FromPlanner(changes, t0)
    ensures PrefixFree(changes)
  {
    forall c, e | c in changes && e in changes ensures !Inside(c.path, e.path) {
      if Inside(c.path, e.path) {
        TargetsFlat(c.path, e.path);
      }
    }
  }

  lemma AllTheSame(paths: seq<Path>, p: Path)
    requires |paths| > 1 && forall i :: 0 <= i < |paths| ==> paths[i] == p
    ensures !Unrepeated(paths)
  {
    assert paths[0] == paths[1];
  }

  /** What is beside a target is in the repository or in its one directory. */
  lemma BesideShort(changes: seq<Change>, t0: Tree, p: Path)
    requires FromPlanner(changes, t0) && Beside(changes, p) && forall n :: |TemporaryName(n)| <= MAX_NAME
    ensures Short(p)
  {
    var c :| c in changes && Parent(c.path) == Parent(p);
    var i :| 0 <= i < |TARGETS| && c.path == TARGETS[i];
    assert Parent(c.path) == if i == 5 then [Plain("vendor")] else [];
    assert p == Parent(p) + [p[|p| - 1]];
  }

  lemma PlannerRecord(r: UndoRecord, changes: seq<Change>, t0: Tree)
    requires ChangesOk(t0, changes) && Records(r, changes, t0) && FromPlanner(changes, t0)
    requires forall n :: |TemporaryName(n)| <= MAX_NAME
    ensures Planned(r)
  {
    hide Limit, Short, ChangeOk, Beside;
    forall i | 0 <= i < |r.files|
      ensures r.files[i].path == changes[i].path && r.files[i].path in TARGETS
      ensures r.files[i].Present? ==> |r.files[i].bytes| <= Limit(r.files[i].path) && r.files[i].mode <= MAX_MODE
    {
      assert changes[i] in changes;
    }
    forall i | 0 <= i < |r.directories| ensures r.directories[i] == [Plain("vendor")] {
      var d := r.directories[i];
      assert d in r.directories;
      var c :| c in changes && Inside(c.path, d);
      TargetsFlat(c.path, d);
    }
    if |r.directories| > 1 {
      AllTheSame(r.directories, [Plain("vendor")]);
    }
    assert r.directories != [] ==> r.directories == [[Plain("vendor")]];
    forall p | p in r.temporaries ensures Short(p) {
      BesideShort(changes, t0, p);
    }
  }

  /** Whatever the planner asks for, a crash at any state of its publication
      leaves a record that undoes it and is short enough to be read back, or no
      record and the targets all before or all after. */
  lemma PlannedRecovers(before: seq<World>, after: seq<World>, changes: seq<Change>, t0: Tree, i: nat)
    requires Points(before, after, changes, t0) && |before| <= i < |after|
    requires ChangesOk(t0, changes) && Rooted(t0) && FromPlanner(changes, t0)
    requires forall n :: |TemporaryName(n)| <= MAX_NAME
    ensures after[i].record.Some? ==> Undoing(after[i].tree, after[i].record.value, changes, t0)
                                      && RecordLength(after[i].record.value) <= MAX_RECORD
    ensures after[i].record.None? ==> Kept(after[i].tree, changes, t0) || Made(after[i].tree, changes, t0)
  {
    hide Points, ChangesOk, Rooted, Kept, Made, FromPlanner, Short, PrefixFree, Records, Undoable, Planned, RecordLength;
    PlannerPrefixFree(changes, t0);
    InterruptedRecovers(before, after, changes, t0, i);
    if after[i].record.Some? {
      var r := after[i].record.value;
      PlannerRecord(r, changes, t0);
      PlannedRecordFits(r);
    }
  }

  /** A plan every check accepts although one target is inside another: create
      `a`, and create `a/b`. */
  lemma ClashAccepted()
    ensures var a, b: Path := [Plain("a")], [Plain("a"), Plain("b")];
            var changes := [Change(a, None, Some([])), Change(b, None, Some([]))];
            ChangesOk(map[], changes) && !PrefixFree(changes)
  {
    var a, b: Path := [Plain("a")], [Plain("a"), Plain("b")];
    var changes := [Change(a, None, Some([])), Change(b, None, Some([]))];
    assert b[..1] == a;
    assert changes[0] in changes && changes[1] in changes && Inside(changes[1].path, changes[0].path);
  }
}
