/** Committing an update, or its reversal: exactly the planned files, exactly
    the planned bytes, on exactly the expected head. */
module PlatformCommit {
  import opened Common
  import opened AppRepository

  predicate PlanOk(changes: seq<FileChange>) {
    && changes != []
    && (forall c <- changes :: c.before != c.after)
    && (forall i, j :: 0 <= i < j < |changes| ==> changes[i].path != changes[j].path)
  }

  function From(c: FileChange, restoring: bool): Option<Bytes> { if restoring then c.after else c.before }

  function To(c: FileChange, restoring: bool): Option<Bytes> { if restoring then c.before else c.after }

  predicate IsTarget(changes: seq<FileChange>, p: FilePath) { exists c <- changes :: c.path == p }

  /** `to` is `from` with every change made, and nothing else different. */
  ghost predicate Differ(from: Files, to: Files, changes: seq<FileChange>, restoring: bool) {
    && (forall c <- changes :: ContentAt(from, c.path) == From(c, restoring) && ContentAt(to, c.path) == To(c, restoring))
    && (forall p :: IsTarget(changes, p) || SameAt(from, to, p))
  }

  /** `git diff --name-only` between two trees. */
  function Changed(a: Files, b: Files): set<FilePath> {
    set p | p in a.Keys + b.Keys && !SameAt(a, b, p)
  }

  lemma ChangedIff(a: Files, b: Files, p: FilePath)
    ensures p in Changed(a, b) <==> !SameAt(a, b, p)
  {
  }

  function Targets(changes: seq<FileChange>): set<FilePath> { set c | c in changes :: c.path }

  /** Forward and back again is where it began. */
  lemma RestoredIsOriginal(original: Files, updated: Files, restored: Files, changes: seq<FileChange>)
    requires Differ(original, updated, changes, false) && Differ(updated, restored, changes, true)
    ensures restored == original
  {
    forall p ensures SameAt(restored, original, p) {
      assert IsTarget(changes, p) || SameAt(original, updated, p);
      assert IsTarget(changes, p) || SameAt(updated, restored, p);
    }
    SameFiles(restored, original);
  }

  lemma SameFiles(a: Files, b: Files)
    requires forall p :: SameAt(a, b, p)
    ensures a == b
  {
    forall p ensures p in a <==> p in b {
      assert SameAt(a, b, p);
    }
    forall p | p in a ensures a[p] == b[p] {
      assert SameAt(a, b, p);
    }
  }

  predicate HeldBefore(files: Files, changes: seq<FileChange>, restoring: bool) {
    forall c <- changes :: ContentAt(files, c.path) == From(c, restoring)
  }

  predicate HeldAfter(files: Files, changes: seq<FileChange>, restoring: bool) {
    forall c <- changes :: ContentAt(files, c.path) == To(c, restoring)
  }

  /** A pass over the targets, one `git show` each. */
  method HeadHolds(app: App, files: Files, changes: seq<FileChange>, restoring: bool) returns (ok: bool)
    modifies app`faults
    ensures app.faults >= old(app.faults)
    ensures ok <==> app.faults == old(app.faults) && HeldBefore(files, changes, restoring)
  {
    var k := 0;
    while k < |changes|
      invariant k <= |changes| && app.faults == old(app.faults)
      invariant forall i :: 0 <= i < k ==> ContentAt(files, changes[i].path) == From(changes[i], restoring)
    {
      var answered := app.Ask();
      if !answered || ContentAt(files, changes[k].path) != From(changes[k], restoring) {
        return false;
      }
      k := k + 1;
    }
    ok := true;
  }

  method WorktreeHolds(files: Files, changes: seq<FileChange>, restoring: bool) returns (ok: bool)
    ensures ok <==> HeldAfter(files, changes, restoring)
  {
    var k := 0;
    while k < |changes|
      invariant k <= |changes|
      invariant forall i :: 0 <= i < k ==> ContentAt(files, changes[i].path) == To(changes[i], restoring)
    {
      if ContentAt(files, changes[k].path) != To(changes[k], restoring) {
        return false;
      }
      k := k + 1;
    }
    ok := true;
  }

  /** Tracked files the working tree differs in, and files it has untracked. */
  function TrackedChanges(head: Files, worktree: Files): set<FilePath> {
    set p | p in head && !SameAt(head, worktree, p)
  }

  function Untracked(head: Files, worktree: Files, intent: set<FilePath>): set<FilePath> {
    set p | p in worktree && p !in head && p !in intent
  }

  function ExpectedTracked(changes: seq<FileChange>, restoring: bool): set<FilePath> {
    set c | c in changes && From(c, restoring).Some? :: c.path
  }

  function ExpectedUntracked(changes: seq<FileChange>, restoring: bool): set<FilePath> {
    set c | c in changes && From(c, restoring).None? && To(c, restoring).Some? :: c.path
  }

  /** The listings match the plan exactly when the working tree is the head
      with every change made. */
  lemma ListingsMean(head: Files, worktree: Files, changes: seq<FileChange>, restoring: bool)
    requires PlanOk(changes)
    requires forall c <- changes :: ContentAt(head, c.path) == From(c, restoring) && ContentAt(worktree, c.path) == To(c, restoring)
    ensures TrackedChanges(head, worktree) == ExpectedTracked(changes, restoring)
            && Untracked(head, worktree, {}) == ExpectedUntracked(changes, restoring)
            <==> Differ(head, worktree, changes, restoring)
  {
    if TrackedChanges(head, worktree) == ExpectedTracked(changes, restoring)
       && Untracked(head, worktree, {}) == ExpectedUntracked(changes, restoring) {
      forall p ensures IsTarget(changes, p) || SameAt(head, worktree, p) {
        if !SameAt(head, worktree, p) {
          assert p in TrackedChanges(head, worktree) || p in Untracked(head, worktree, {});
        }
      }
    }
    if Differ(head, worktree, changes, restoring) {
      forall p ensures p in TrackedChanges(head, worktree) <==> p in ExpectedTracked(changes, restoring) {
        ListedAt(head, worktree, changes, restoring, p);
      }
      forall p ensures p in Untracked(head, worktree, {}) <==> p in ExpectedUntracked(changes, restoring) {
        ListedAt(head, worktree, changes, restoring, p);
      }
    }
  }

  lemma ListedAt(head: Files, worktree: Files, changes: seq<FileChange>, restoring: bool, p: FilePath)
    requires PlanOk(changes) && Differ(head, worktree, changes, restoring)
    ensures p in TrackedChanges(head, worktree) <==> p in ExpectedTracked(changes, restoring)
    ensures p in Untracked(head, worktree, {}) <==> p in ExpectedUntracked(changes, restoring)
  {
    if IsTarget(changes, p) {
      var c :| c in changes && c.path == p;
      assert From(c, restoring) != To(c, restoring);
      forall e | e in changes && e.path == p ensures e == c {
        var i :| 0 <= i < |changes| && changes[i] == c;
        var j :| 0 <= j < |changes| && changes[j] == e;
      }
    } else {
      assert SameAt(head, worktree, p);
      forall e | e in changes ensures e.path != p {
      }
    }
  }

  /** The working tree must be the head with exactly the planned changes made,
      and the index untouched. */
  method RequireExpectedWorktree(app: App, changes: seq<FileChange>, restoring: bool) returns (ok: bool)
    requires app.state.head in app.state.commits && PlanOk(changes)
    modifies app`faults
    ensures app.faults >= old(app.faults)
    ensures ok <==> app.faults == old(app.faults) && app.state.intent == {}
                    && Differ(app.state.commits[app.state.head].files, app.state.worktree, changes, restoring)
  {
    hide Differ, PlanOk;
    var head := app.state.commits[app.state.head].files;
    DifferHolds(head, app.state.worktree, changes, restoring);
    ok := HeadHolds(app, head, changes, restoring);
    if ok {
      ok := WorktreeHolds(app.state.worktree, changes, restoring);
    }
    if ok {
      ListingsMean(head, app.state.worktree, changes, restoring);
      var answered := app.Ask();
      ok := answered && app.state.intent == {}
            && TrackedChanges(head, app.state.worktree) == ExpectedTracked(changes, restoring)
            && Untracked(head, app.state.worktree, {}) == ExpectedUntracked(changes, restoring);
    }
  }

  lemma DifferHolds(from: Files, to: Files, changes: seq<FileChange>, restoring: bool)
    ensures Differ(from, to, changes, restoring) ==> HeldBefore(from, changes, restoring) && HeldAfter(to, changes, restoring)
  {
  }

  /** Paths that are new to the index. */
  function IntentPaths(changes: seq<FileChange>, restoring: bool): set<FilePath> { ExpectedUntracked(changes, restoring) }

  /** What a finished commit must be. */
  ghost predicate Committed(s: AppState, commit: CommitId, expected: CommitId, changes: seq<FileChange>, restoring: bool) {
    && CleanAt(s, commit) && expected in s.commits && s.commits[commit].parent == Some(expected)
    && Differ(s.commits[expected].files, s.commits[commit].files, changes, restoring)
  }

  /** The commit a reversal goes back to, holding what it must. */
  predicate HasBaseline(s: AppState, expected: CommitId, changes: seq<FileChange>) {
    && expected in s.commits && s.commits[expected].parent.Some? && s.commits[expected].parent.value in s.commits
    && HeldBefore(s.commits[s.commits[expected].parent.value].files, changes, false)
  }

  /** The files a commit touched are the targets exactly when it is its parent
      with the changes made. */
  lemma TouchedMean(from: Files, to: Files, changes: seq<FileChange>, restoring: bool)
    requires PlanOk(changes) && HeldBefore(from, changes, restoring)
    ensures Changed(from, to) == Targets(changes) && HeldAfter(to, changes, restoring) <==> Differ(from, to, changes, restoring)
  {
    if Changed(from, to) == Targets(changes) && HeldAfter(to, changes, restoring) {
      forall p ensures IsTarget(changes, p) || SameAt(from, to, p) {
        ChangedIff(from, to, p);
        if !SameAt(from, to, p) {
          assert p in Targets(changes);
        }
      }
    }
    if Differ(from, to, changes, restoring) {
      forall p ensures p in Changed(from, to) <==> p in Targets(changes) {
        ChangedIff(from, to, p);
        if IsTarget(changes, p) {
          var c :| c in changes && c.path == p;
          assert From(c, restoring) != To(c, restoring);
        }
      }
    }
  }

  /** Reads the new commit back: its parent, the paths it touched, the bytes at
      each target, and the repository clean again. */
  method VerifyCommit(app: App, expected: CommitId, changes: seq<FileChange>, restoring: bool) returns (ok: bool, commit: CommitId)
    requires PlanOk(changes) && expected in app.state.commits && HeldBefore(app.state.commits[expected].files, changes, restoring)
    requires restoring ==> HasBaseline(app.state, expected, changes)
    modifies app`faults
    ensures app.faults >= old(app.faults) && commit == app.state.head
    ensures ok <==> app.faults == old(app.faults) && Committed(app.state, commit, expected, changes, restoring)
  {
    hide Differ, PlanOk, HeldBefore, HeldAfter;
    commit := app.state.head;
    var answered := app.Ask();
    if !answered || commit !in app.state.commits || app.state.commits[commit].parent != Some(expected) {
      return false, commit;
    }
    var from, to := app.state.commits[expected].files, app.state.commits[commit].files;
    TouchedMean(from, to, changes, restoring);
    if Changed(from, to) != Targets(changes) {
      return false, commit;
    }
    ok := WorktreeHolds(to, changes, restoring);
    if ok && restoring {
      var baseline := app.state.commits[app.state.commits[expected].parent.value].files;
      SameAsBaseline(baseline, to, changes);
      ok := forall c <- changes :: SameAt(baseline, to, c.path);
    }
    if ok {
      var clean, head := app.InspectCleanMain();
      ok := clean && head == commit;
    }
  }

  lemma SameAsBaseline(baseline: Files, to: Files, changes: seq<FileChange>)
    requires HeldBefore(baseline, changes, false) && HeldAfter(to, changes, true)
    ensures forall c <- changes :: SameAt(baseline, to, c.path)
  {
  }

  /** Everything `Commit` asks of the repository before it commits. */
  ghost predicate Committable(s: AppState, changes: seq<FileChange>, expected: CommitId, restoring: bool) {
    && changes != [] && (forall c <- changes :: c.before != c.after)
    && (forall i, j :: 0 <= i < j < |changes| ==> changes[i].path != changes[j].path)
    && s.head == expected && expected in s.commits && s.intent == {}
    && Differ(s.commits[expected].files, s.worktree, changes, restoring)
    && (restoring ==> HasBaseline(s, expected, changes))
  }

  /** A plan changes something, really, and no path twice. */
  lemma PlanIs(changes: seq<FileChange>)
    ensures PlanOk(changes) <==>
            && changes != [] && (forall c <- changes :: c.before != c.after)
            && (forall i, j :: 0 <= i < j < |changes| ==> changes[i].path != changes[j].path)
  {
  }

  /** Commits the planned changes, or their reversal, and nothing else.  It
      succeeds exactly when the repository calls for it and no command fails. */
  method Commit(app: App, changes: seq<FileChange>, expected: CommitId, restoring: bool) returns (ok: bool, commit: CommitId)
    modifies app`state, app`faults
    ensures Grows(old(app.state).commits, app.state.commits) && app.faults >= old(app.faults)
    ensures ok <==> app.faults == old(app.faults) && Committable(old(app.state), changes, expected, restoring)
    ensures ok ==> Committed(app.state, commit, expected, changes, restoring) && expected in old(app.state).commits
    ensures ok ==> app.state.live == old(app.state).live
  {
    hide Differ, PlanOk, HeldBefore, HeldAfter, CommittedFiles, IntentPaths;
    commit := expected;
    PlanIs(changes);
    var answered := app.Ask();
    if !answered || !PlanOk(changes) || app.state.head != expected || app.state.head !in app.state.commits {
      return false, commit;
    }
    ok := RequireExpectedWorktree(app, changes, restoring);
    if !ok {
      return;
    }
    ghost var head, worktree := app.state.commits[expected].files, app.state.worktree;
    if restoring {
      var parent := app.state.commits[expected].parent;
      if parent.None? || parent.value !in app.state.commits {
        return false, commit;
      }
      ok := HeadHolds(app, app.state.commits[parent.value].files, changes, false);
      if !ok {
        return;
      }
    }
    var intent := IntentPaths(changes, restoring);
    if intent != {} {
      ok := app.AddIntent(intent);
      if !ok {
        return;
      }
    }
    var paths := seq(|changes|, i requires 0 <= i < |changes| => changes[i].path);
    CommitsWorktree(head, worktree, changes, restoring, paths);
    DifferHolds(head, worktree, changes, restoring);
    IntentWithin(changes, restoring, paths);
    PathsKnown(app.state, changes, restoring, paths);
    ghost var start := app.state;
    ok := app.CommitOnly(paths);
    if !ok {
      app.ClearIntent(intent);
      return;
    }
    assert app.state.commits[app.state.head].files == worktree && app.state.commits[expected] == start.commits[expected];
    ok, commit := VerifyCommit(app, expected, changes, restoring);
  }

  /** Committing the targets commits the whole of an expected working tree. */
  lemma CommitsWorktree(head: Files, worktree: Files, changes: seq<FileChange>, restoring: bool, paths: seq<FilePath>)
    requires Differ(head, worktree, changes, restoring)
    requires |paths| == |changes| && forall i :: 0 <= i < |paths| ==> paths[i] == changes[i].path
    ensures CommittedFiles(head, worktree, paths) == worktree
  {
    forall p ensures SameAt(CommittedFiles(head, worktree, paths), worktree, p) {
      if IsTarget(changes, p) {
        var c :| c in changes && c.path == p;
        var i :| 0 <= i < |changes| && changes[i] == c;
        assert paths[i] == p;
      }
    }
    SameFiles(CommittedFiles(head, worktree, paths), worktree);
  }

  /** Every target is in the head, or new and in the index. */
  lemma PathsKnown(s: AppState, changes: seq<FileChange>, restoring: bool, paths: seq<FilePath>)
    requires PlanOk(changes) && s.head in s.commits && HeldBefore(s.commits[s.head].files, changes, restoring)
    requires |paths| == |changes| && forall i :: 0 <= i < |paths| ==> paths[i] == changes[i].path
    requires s.intent == IntentPaths(changes, restoring)
    ensures KnownTo(s, paths)
  {
    forall p | p in paths ensures p in s.commits[s.head].files || p in s.intent {
      var i :| 0 <= i < |paths| && paths[i] == p;
      assert changes[i] in changes && changes[i].before != changes[i].after;
      assert ContentAt(s.commits[s.head].files, p) == From(changes[i], restoring);
    }
  }

  lemma IntentWithin(changes: seq<FileChange>, restoring: bool, paths: seq<FilePath>)
    requires |paths| == |changes| && forall i :: 0 <= i < |paths| ==> paths[i] == changes[i].path
    ensures IntentPaths(changes, restoring) - (set p | p in paths) == {}
  {
    forall p | p in IntentPaths(changes, restoring) ensures p in paths {
      var c :| c in changes && c.path == p;
      var i :| 0 <= i < |changes| && changes[i] == c;
      assert paths[i] == p;
    }
  }
}
