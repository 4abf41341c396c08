/** Updating every registered application in turn, each recoverable by itself. */
module FleetUpdate {
  import opened Common
  import opened AppRepository
  import opened PlatformCommit

  datatype Preview = CurrentApp | Ready | SkippedApp | BlockedApp

  datatype Status = Updated | Current | Skipped | Blocked | FailedRecovered | RecoveryFailed

  datatype AppPlan = AppPlan(
    id: string,
    status: Preview,
    changes: seq<FileChange>,
    sourceHead: Option<CommitId>,
    deployed: Option<CommitId>)

  datatype AppResult = AppResult(
    id: string,
    status: Status,
    sourceHead: Option<CommitId>,
    deployed: Option<CommitId>,
    verified: bool)

  /** Clean, with its head live. */
  predicate InPlace(s: AppState) { CleanAt(s, s.head) && s.live == Some(s.head) }

  /** There is an update to make, and nothing in its way. */
  predicate Updatable(s: AppState, a: Answers) {
    InPlace(s) && a.contract.Readable? && a.offer.Refresh? && a.offer.changes != [] && a.activation.Routine?
  }

  /** There is nothing to update. */
  predicate UpToDate(s: AppState, a: Answers) {
    InPlace(s) && a.contract.Readable? && a.offer.NothingNew? && a.activation.Routine?
  }

  /** Somebody has to adopt something first. */
  predicate Passed(s: AppState, a: Answers) {
    && CleanAt(s, s.head)
    && (a.contract.Legacy?
        || (a.contract.Readable? && (a.offer.Adoption? || (!a.offer.NoOffer? && a.activation.Transition?))))
  }

  /** What previewing establishes of an application that is ready, or current. */
  ghost predicate Previewed(p: AppPlan, s: AppState, a: Answers) {
    && (p.status.Ready? ==> Updatable(s, a) && p.changes == a.offer.changes)
    && (p.status.CurrentApp? ==> UpToDate(s, a))
    && (p.status.SkippedApp? ==> Passed(s, a))
    && (p.status.Ready? || p.status.CurrentApp? ==> p.sourceHead == Some(s.head) && p.deployed == s.live)
  }

  /** What is previewed where nothing fails. */
  ghost predicate PreviewedAll(p: AppPlan, s: AppState, a: Answers) {
    && (p.status.Ready? <==> Updatable(s, a)) && (p.status.CurrentApp? <==> UpToDate(s, a))
    && (p.status.SkippedApp? <==> Passed(s, a))
  }

  function UnchangedStatus(p: Preview): Status {
    match p
    case CurrentApp => Current
    case Ready => Blocked
    case SkippedApp => Skipped
    case BlockedApp => Blocked
  }

  function Unchanged(p: AppPlan): AppResult {
    AppResult(p.id, UnchangedStatus(p.status), p.sourceHead, p.deployed,
              p.status.CurrentApp? && p.sourceHead.Some? && p.sourceHead == p.deployed)
  }

  function BlockedResult(p: AppPlan): AppResult { AppResult(p.id, Blocked, p.sourceHead, p.deployed, false) }

  /** The update, as a commit on the head that was there, live. */
  ghost predicate IsUpdated(p: AppPlan, before: AppState, r: AppResult, s: AppState) {
    && r.sourceHead.Some? && r.sourceHead == r.deployed == s.live && CleanAt(s, r.sourceHead.value)
    && CleanAt(before, before.head) && before.head in s.commits && s.commits[before.head] == before.commits[before.head]
    && s.commits[r.sourceHead.value].parent == Some(before.head)
    && Differ(before.commits[before.head].files, s.commits[r.sourceHead.value].files, p.changes, false)
  }

  /** Every file as it was, committed, clean and live. */
  ghost predicate IsRecovered(before: AppState, r: AppResult, s: AppState) {
    && r.sourceHead.Some? && r.sourceHead == r.deployed == s.live && CleanAt(s, r.sourceHead.value)
    && CleanAt(before, before.head)
    && s.commits[r.sourceHead.value].files == before.commits[before.head].files
  }

  /** Nothing anyone can see has changed. */
  predicate Unmutated(before: AppState, s: AppState) {
    s.head == before.head && s.worktree == before.worktree && s.intent == before.intent && s.live == before.live
  }

  /** What an update takes, in order. */
  const UPDATING: seq<Deed> := [Replanning, Updating] + ACTIVATING

  const ACTIVATING: seq<Deed> := [Checking, Foreseeing, Activating, Comparing]

  /** An update that went through: every step of it, the first two on what was
      there before, the check on the commit. */
  ghost predicate UpdateDone(before: AppState, r: AppResult, was: seq<Entry>, log: seq<Entry>) {
    && Did(was, log, UPDATING) && log[|was|].state == before && log[|was| + 1].state == before
    && r.sourceHead.Some? && CleanAt(log[|was| + 2].state, r.sourceHead.value)
  }

  /** An update that was taken back: it failed of itself, or could not be
      committed and was reversed, or its reversal was activated like an update. */
  ghost predicate RecoveryDone(was: seq<Entry>, log: seq<Entry>) {
    || (|log| == |was| + 2 && Did(was, log[..|was| + 1], [Replanning]) && log[|was| + 1].deed.Updating? && log[|was| + 1].ending.Failed?)
    || Did(was, log, [Replanning, Updating, Reversing])
    || exists n :: |was| + 2 < n <= |log| && Did(was, log[..|was| + 2], [Replanning, Updating]) && Did(log[..n], log, [Reversing] + ACTIVATING)
  }

  /** An update that did not start, or was refused. */
  ghost predicate BlockedDone(was: seq<Entry>, log: seq<Entry>) {
    || log == was
    || (|log| == |was| + 1 && was < log && log[|was|].deed.Replanning?)
    || (|log| == |was| + 2 && Did(was, log[..|was| + 1], [Replanning]) && log[|was| + 1].deed.Updating? && log[|was| + 1].ending.Refused?)
  }

  /** What each status says about the application it is reported for, and about
      what was done there. */
  ghost predicate Means(p: AppPlan, before: AppState, r: AppResult, s: AppState, was: seq<Entry>, log: seq<Entry>) {
    && r.id == p.id
    && (match r.status
        case Updated => IsUpdated(p, before, r, s) && r.verified && UpdateDone(before, r, was, log)
        case FailedRecovered => IsRecovered(before, r, s) && r.verified && RecoveryDone(was, log)
        case RecoveryFailed => !r.verified
        case Current => s == before && log == was && r.verified && InPlace(s) && r.sourceHead == Some(s.head) == r.deployed
        case Skipped => s == before && log == was && !r.verified
        case Blocked => Unmutated(before, s) && !r.verified && BlockedDone(was, log))
  }

  /** The state is the one before but for the working tree, which has every
      change made. */
  ghost predicate Edited(before: AppState, changes: seq<FileChange>, restoring: bool, s: AppState) {
    s == before.(worktree := s.worktree) && Differ(before.worktree, s.worktree, changes, restoring)
  }

  /** Looks at one application without changing it.  Where nothing fails it is
      exactly what it is said to be; otherwise it is blocked. */
  method PreviewApp(app: App, id: string) returns (p: AppPlan)
    modifies app`faults
    ensures app.faults >= old(app.faults)
    ensures p.id == id && Previewed(p, app.state, app.answers)
    ensures app.faults == old(app.faults) ==>
              && (p.status.Ready? <==> Updatable(app.state, app.answers))
              && (p.status.CurrentApp? <==> UpToDate(app.state, app.answers))
              && (p.status.SkippedApp? <==> Passed(app.state, app.answers))
    ensures app.faults > old(app.faults) ==> p.status.BlockedApp?
  {
    var blocked := AppPlan(id, BlockedApp, [], None, None);
    var ok, head := app.InspectCleanMain();
    if !ok {
      return blocked;
    }
    blocked := blocked.(sourceHead := Some(head));
    var contract := app.ReadContract();
    if contract.None? || contract.value.Unreadable? {
      return blocked;
    }
    if contract.value.Legacy? {
      return blocked.(status := SkippedApp);
    }
    var offer := app.PlanUpdate();
    if offer.None? || offer.value.NoOffer? {
      return blocked;
    }
    if offer.value.Adoption? {
      return blocked.(status := SkippedApp);
    }
    var activation := app.PlanActivation();
    if activation.None? || activation.value.NoActivation? {
      return blocked;
    }
    if activation.value.Transition? {
      return blocked.(status := SkippedApp);
    }
    p := PreviewLive(app, blocked, head, offer.value);
  }

  /** The last of looking at it: whether its head is what is live. */
  method PreviewLive(app: App, blocked: AppPlan, head: CommitId, offer: Offer) returns (p: AppPlan)
    requires offer.NothingNew? || offer.Refresh?
    requires blocked.status.BlockedApp? && blocked.sourceHead == Some(head)
    modifies app`faults
    ensures app.faults >= old(app.faults) && p.id == blocked.id && p.sourceHead == Some(head)
    ensures app.faults > old(app.faults) ==> p.status.BlockedApp?
    ensures p.status.Ready? || p.status.CurrentApp? ==> p.deployed == app.state.live == Some(head)
    ensures p.status.Ready? ==> offer.Refresh? && offer.changes != [] && p.changes == offer.changes
    ensures p.status.CurrentApp? ==> offer.NothingNew?
    ensures app.faults == old(app.faults) && app.state.live == Some(head) ==>
              p.status == if offer.NothingNew? then CurrentApp else if offer.changes != [] then Ready else BlockedApp
    ensures !p.status.SkippedApp?
  {
    var ok, live := app.InspectLive();
    if !ok || live != Some(head) {
      return blocked.(deployed := if ok then live else None);
    }
    if offer.NothingNew? {
      return blocked.(status := CurrentApp, deployed := live);
    }
    if offer.changes != [] {
      return blocked.(status := Ready, deployed := live, changes := offer.changes);
    }
    p := blocked;
  }

  /** Looks again just before changing anything. */
  method StillAsPlanned(app: App, p: AppPlan) returns (same: bool)
    requires p.sourceHead.Some? && p.deployed.Some?
    modifies app`faults, app`log
    ensures app.faults >= old(app.faults)
    ensures same <==> app.faults == old(app.faults) && CleanAt(app.state, p.sourceHead.value) && app.state.live == p.deployed
    ensures |app.log| == |old(app.log)| + 1 && old(app.log) < app.log && app.log[|old(app.log)|].deed.Replanning?
    ensures same ==> app.log == old(app.log) + [Entry(Replanning, app.state, Went)]
  {
    var planned := app.Compare(Replanning);
    var ok, head := app.InspectCleanMain();
    var ok', live := app.InspectLive();
    same := planned && ok && ok' && head == p.sourceHead.value && live == p.deployed;
  }

  /** The update's commit could not be made: publish the inverse and check. */
  method RecoverUncommitted(app: App, p: AppPlan, ghost before: AppState) returns (r: AppResult)
    requires p.sourceHead.Some? && p.deployed == p.sourceHead && CleanAt(before, p.sourceHead.value) && before.live == p.deployed
    requires Grows(before.commits, app.state.commits)
    modifies app
    ensures app.faults >= old(app.faults)
    ensures r.id == p.id && r.status in {FailedRecovered, RecoveryFailed} && (r.verified <==> r.status.FailedRecovered?)
    ensures r.status.FailedRecovered? ==> IsRecovered(before, r, app.state) && Did(old(app.log), app.log, [Reversing])
    ensures app.faults == old(app.faults) && Edited(before, p.changes, false, old(app.state)) ==> r.status.FailedRecovered?
  {
    hide Differ;
    ghost var edited := app.state;
    var reversed := app.Run(Reversing, s => Edited(edited, p.changes, true, s));
    var ok := reversed.Went?;
    if ok && app.faults == old(app.faults) && Edited(before, p.changes, false, edited) {
      RestoredIsOriginal(before.worktree, edited.worktree, app.state.worktree, p.changes);
    }
    if ok {
      ok := app.IsExactState(p.sourceHead.value);
    }
    if ok {
      ok := app.IsExactLive(p.deployed);
    }
    r := if ok then AppResult(p.id, FailedRecovered, p.sourceHead, p.deployed, true)
         else AppResult(p.id, RecoveryFailed, p.sourceHead, p.deployed, false);
  }

  /** The update is committed but not wanted: publish the inverse, commit it,
      check it, activate it and look at everything again.  Where something
      neither former nor new is live, nothing is touched. */
  method RecoverApp(app: App, p: AppPlan, update: CommitId, ghost before: AppState) returns (r: AppResult, ghost looked: bool)
    requires p.sourceHead.Some? && p.deployed == p.sourceHead && CleanAt(before, p.sourceHead.value)
    requires Grows(before.commits, app.state.commits)
    requires update in app.state.commits && app.state.commits[update].parent == Some(before.head)
             && Differ(before.commits[before.head].files, app.state.commits[update].files, p.changes, false)
    modifies app
    ensures app.faults >= old(app.faults)
    ensures r.id == p.id && r.status in {FailedRecovered, RecoveryFailed} && (r.verified <==> r.status.FailedRecovered?)
    ensures r.status.FailedRecovered? ==> IsRecovered(before, r, app.state) && Did(old(app.log), app.log, [Reversing] + ACTIVATING)
    ensures !looked ==> app.faults > old(app.faults)
    ensures !looked || old(app.state).live !in {p.deployed, Some(update)} ==>
              r.status.RecoveryFailed? && app.state == old(app.state) && app.log == old(app.log)
    ensures app.faults == old(app.faults) && PlanOk(p.changes) && CleanAt(old(app.state), update) ==>
              (r.status.FailedRecovered? <==> old(app.state).live in {p.deployed, Some(update)})
  {
    hide Differ, PlanOk, HeldBefore, Did;
    ghost var updated, start := app.state.commits[update].files, app.state;
    var ok, live := app.InspectLive();
    looked := ok || live.None?;
    if !ok || (live != p.deployed && live != Some(update)) {
      return AppResult(p.id, RecoveryFailed, Some(update), if ok then live else None, false), looked;
    }
    var restoration := update;
    BaselineThere(before, app.state, update, p.changes);
    PlanIs(p.changes);
    var reversed := app.Run(Reversing, s => Edited(start, p.changes, true, s));
    ok := reversed.Went?;
    if ok {
      ok, restoration := Commit(app, p.changes, update, true);
    }
    if ok {
      RestoredAgain(before, app.state, restoration, update, updated, p.changes);
      ghost var log := app.log;
      ok := ActivateUpdate(app, restoration);
      if ok {
        DidBoth(old(app.log), log, app.log, start, Reversing, ACTIVATING);
      }
    }
    if ok {
      return AppResult(p.id, FailedRecovered, Some(restoration), Some(restoration), true), looked;
    }
    var seen;
    ok, seen := app.InspectLive();
    r := AppResult(p.id, RecoveryFailed, Some(restoration), if ok then seen else None, false);
  }

  lemma DidBoth(a: seq<Entry>, b: seq<Entry>, c: seq<Entry>, s: AppState, deed: Deed, deeds: seq<Deed>)
    requires b == a + [Entry(deed, s, Went)] && Did(b, c, deeds)
    ensures Did(a, c, [deed] + deeds)
  {
    forall k | 0 <= k < |deeds| + 1
      ensures c[|a| + k].deed == ([deed] + deeds)[k] && c[|a| + k].ending.Went?
    {
      if k > 0 {
        assert c[|b| + (k - 1)].deed == deeds[k - 1];
      }
    }
  }

  /** The commit before the update still holds what the update replaced. */
  lemma BaselineThere(before: AppState, s: AppState, update: CommitId, changes: seq<FileChange>)
    requires before.head in before.commits && Grows(before.commits, s.commits)
    requires update in s.commits && s.commits[update].parent == Some(before.head)
    requires Differ(before.commits[before.head].files, s.commits[update].files, changes, false)
    ensures HasBaseline(s, update, changes)
  {
  }

  lemma RestoredAgain(before: AppState, s: AppState, restoration: CommitId, update: CommitId, updated: Files, changes: seq<FileChange>)
    requires Committed(s, restoration, update, changes, true) && s.commits[update].files == updated
    requires before.head in before.commits && Differ(before.commits[before.head].files, updated, changes, false)
    ensures restoration in s.commits && s.commits[restoration].files == before.commits[before.head].files
  {
    RestoredIsOriginal(before.commits[before.head].files, updated, s.commits[restoration].files, changes);
  }

  /** Updates one application, or leaves it as it was, or puts it back, or says
      that it could not.  Unless a command fails, an application that is as it
      was planned is updated. */
  method ApplyApp(app: App, p: AppPlan) returns (r: AppResult)
    requires p.sourceHead.Some? && p.deployed == p.sourceHead
    modifies app
    ensures app.faults >= old(app.faults)
    ensures Means(p, old(app.state), r, app.state, old(app.log), app.log)
    ensures r.status in {Updated, Blocked, FailedRecovered, RecoveryFailed}
    ensures r.status in {Updated, FailedRecovered} ==> CleanAt(old(app.state), p.sourceHead.value) && old(app.state).live == p.deployed
    ensures app.faults == old(app.faults) && CleanAt(old(app.state), p.sourceHead.value) && old(app.state).live == p.deployed
            && PlanOk(p.changes) ==>
              r.status.Updated?
  {
    hide Differ, IsUpdated, IsRecovered, PlanOk, HeldBefore, Committed, Committable, Did;
    var same := StillAsPlanned(app, p);
    if !same {
      return BlockedResult(p);
    }
    ghost var before, log := app.state, app.log;
    var source := p.sourceHead.value;
    var updated := app.Run(Updating, s => Edited(before, p.changes, false, s));
    DidOne(old(app.log), log, before, Replanning);
    if !updated.Went? {
      r := SettleUntouched(app, p, before, old(app.log), updated);
      return;
    }
    DidOne(log, app.log, before, Updating);
    DidBoth(old(app.log), log, app.log, before, Replanning, [Updating]);
    assert [Replanning] + [Updating] == [Replanning, Updating];
    if app.faults == old(app.faults) && PlanOk(p.changes) {
      EditedCommits(before, app.state, source, p.changes);
    }
    r := CommitUpdate(app, p, before, old(app.log));
  }

  /** A failed update must have left everything as it was. */
  method SettleUntouched(app: App, p: AppPlan, ghost before: AppState, ghost was: seq<Entry>, updated: Ending) returns (r: AppResult)
    requires p.sourceHead.Some? && p.deployed == p.sourceHead && CleanAt(before, p.sourceHead.value) && before.live == p.deployed
    requires Grows(before.commits, app.state.commits) && !updated.Went?
    requires |app.log| == |was| + 2 && Did(was, app.log[..|was| + 1], [Replanning])
    requires app.log[|was| + 1].deed.Updating? && app.log[|was| + 1].ending == updated
    modifies app`faults
    ensures app.faults >= old(app.faults)
    ensures Means(p, before, r, app.state, was, app.log) && r.status in {Blocked, FailedRecovered, RecoveryFailed}
    ensures app.faults == old(app.faults) && CleanAt(app.state, p.sourceHead.value) && app.state.live == p.deployed ==>
              r.status == if updated.Refused? then Blocked else FailedRecovered
  {
    hide Did, IsRecovered;
    var ok := app.IsExactState(p.sourceHead.value);
    if ok {
      ok := app.IsExactLive(p.deployed);
    }
    if !ok {
      return AppResult(p.id, RecoveryFailed, p.sourceHead, p.deployed, false);
    }
    PutBack(p, before, app.state);
    r := if updated.Refused? then BlockedResult(p) else AppResult(p.id, FailedRecovered, p.sourceHead, p.deployed, true);
  }

  /** Commits an update that was made, and has the commit activated. */
  method CommitUpdate(app: App, p: AppPlan, ghost before: AppState, ghost was: seq<Entry>) returns (r: AppResult)
    requires p.sourceHead.Some? && p.deployed == p.sourceHead && CleanAt(before, p.sourceHead.value) && before.live == p.deployed
    requires Grows(before.commits, app.state.commits) && Did(was, app.log, [Replanning, Updating])
    requires app.log[|was|].state == before && app.log[|was| + 1].state == before
    modifies app
    ensures app.faults >= old(app.faults)
    ensures Means(p, before, r, app.state, was, app.log) && r.status in {Updated, FailedRecovered, RecoveryFailed}
    ensures app.faults == old(app.faults) && Committable(old(app.state), p.changes, p.sourceHead.value, false) ==> r.status.Updated?
  {
    hide Differ, IsUpdated, IsRecovered, PlanOk, HeldBefore, Committed, Committable, Did;
    ghost var edited := app.log;
    var source := p.sourceHead.value;
    var ok, update := Commit(app, p.changes, source, false);
    if !ok {
      r := RecoverUncommitted(app, p, before);
      if r.status.FailedRecovered? {
        DidAfter(was, edited, app.log, [Replanning, Updating], [Reversing]);
        assert [Replanning, Updating] + [Reversing] == [Replanning, Updating, Reversing];
      }
      return;
    }
    UpdateDiffers(before, app.state, source, update, p.changes);
    ok := ActivateUpdate(app, update);
    if !ok {
      ghost var log := app.log;
      ghost var looked;
      r, looked := RecoverApp(app, p, update, before);
      if r.status.FailedRecovered? {
        RecoveredLater(was, edited, log, app.log);
      }
      return;
    }
    r := AppResult(p.id, Updated, Some(update), Some(update), true);
    IsUpdate(p, before, r, app.state, update);
    DidAfter(was, edited, app.log, [Replanning, Updating], ACTIVATING);
    DoneUpdate(before, r, was, edited, app.log);
  }

  lemma DidOne(a: seq<Entry>, b: seq<Entry>, s: AppState, deed: Deed)
    ensures b == a + [Entry(deed, s, Went)] ==> Did(a, b, [deed])
  {
  }

  lemma DidAfter(a: seq<Entry>, b: seq<Entry>, c: seq<Entry>, deeds: seq<Deed>, deeds': seq<Deed>)
    requires Did(a, b, deeds) && Did(b, c, deeds')
    ensures Did(a, c, deeds + deeds') && c[..|a| + |deeds|] == b
  {
    forall k | 0 <= k < |deeds + deeds'|
      ensures c[|a| + k].deed == (deeds + deeds')[k] && c[|a| + k].ending.Went?
    {
      if k < |deeds| {
        assert b[|a| + k].deed == deeds[k];
      } else {
        assert c[|b| + (k - |deeds|)].deed == deeds'[k - |deeds|];
      }
    }
  }

  lemma DoneUpdate(before: AppState, r: AppResult, was: seq<Entry>, edited: seq<Entry>, log: seq<Entry>)
    requires Did(was, edited, [Replanning, Updating]) && Did(was, log, [Replanning, Updating] + ACTIVATING) && edited <= log
    requires edited[|was|].state == before && edited[|was| + 1].state == before
    requires r.sourceHead.Some? && CleanAt(log[|edited|].state, r.sourceHead.value)
    ensures UpdateDone(before, r, was, log)
  {
  }

  lemma RecoveredLater(was: seq<Entry>, edited: seq<Entry>, mid: seq<Entry>, log: seq<Entry>)
    requires Did(was, edited, [Replanning, Updating]) && edited < mid && Did(mid, log, [Reversing] + ACTIVATING)
    ensures RecoveryDone(was, log)
  {
    hide Did;
    DidPrefix(was, edited, [Replanning, Updating]);
    DidPrefix(mid, log, [Reversing] + ACTIVATING);
    assert log[..|was| + 2] == edited && log[..|mid|] == mid;
  }

  lemma DidPrefix(a: seq<Entry>, b: seq<Entry>, deeds: seq<Deed>)
    requires Did(a, b, deeds)
    ensures a <= b && |b| == |a| + |deeds|
  {
  }

  /** An update that did what it was asked is ready to commit. */
  lemma EditedCommits(before: AppState, s: AppState, source: CommitId, changes: seq<FileChange>)
    requires CleanAt(before, source) && PlanOk(changes) && Edited(before, changes, false, s)
    ensures Committable(s, changes, source, false)
  {
    hide Differ;
  }

  /** Checks a commit, previews its activation, activates it, and looks at the
      repository and at what is live. */
  method ActivateUpdate(app: App, update: CommitId) returns (ok: bool)
    modifies app
    ensures Grows(old(app.state).commits, app.state.commits) && app.faults >= old(app.faults)
    ensures ok ==> CleanAt(app.state, update) && app.state.live == Some(update)
    ensures app.faults == old(app.faults) && CleanAt(old(app.state), update) ==> ok
    ensures old(app.log) < app.log && app.log[|old(app.log)|].state == old(app.state)
    ensures ok ==> Did(old(app.log), app.log, ACTIVATING)
  {
    ghost var start := app.state;
    var ending := app.Run(Checking, s => s == start);
    if ending.Went? {
      ending := app.Run(Foreseeing, s => s == start);
    }
    if ending.Went? {
      ending := app.Run(Activating, s => s == start.(live := Some(update)));
    }
    ok := ending.Went?;
    if ok {
      ok := app.Compare(Comparing);
    }
    if ok {
      ok := app.IsExactState(update);
    }
    if ok {
      ok := app.IsExactLive(Some(update));
    }
  }

  lemma PutBack(p: AppPlan, before: AppState, s: AppState)
    requires p.sourceHead.Some? && p.deployed == p.sourceHead
    requires CleanAt(before, p.sourceHead.value) && before.live == p.deployed && Grows(before.commits, s.commits)
    requires CleanAt(s, p.sourceHead.value) && s.live == p.deployed
    ensures Unmutated(before, s) && IsRecovered(before, AppResult(p.id, FailedRecovered, p.sourceHead, p.deployed, true), s)
  {
  }

  lemma UpdateDiffers(before: AppState, s: AppState, source: CommitId, update: CommitId, changes: seq<FileChange>)
    requires Committed(s, update, source, changes, false) && CleanAt(before, source) && Grows(before.commits, s.commits)
    ensures update in s.commits && before.head == source && source in before.commits && s.commits[update].parent == Some(source)
    ensures CleanAt(s, update)
    ensures Differ(before.commits[before.head].files, s.commits[update].files, changes, false)
  {
    hide Differ;
  }

  lemma IsUpdate(p: AppPlan, before: AppState, r: AppResult, s: AppState, update: CommitId)
    requires r.sourceHead == Some(update) && r.deployed == Some(update) && s.live == Some(update) && CleanAt(s, update)
    requires CleanAt(before, before.head) && Grows(before.commits, s.commits)
    requires s.commits[update].parent == Some(before.head)
    requires Differ(before.commits[before.head].files, s.commits[update].files, p.changes, false)
    ensures IsUpdated(p, before, r, s)
  {
    hide Differ;
  }

  /** An application as it was planned, and how often looking at it failed. */
  ghost predicate Planned(p: AppPlan, id: string, s: AppState, a: Answers, faults: nat) {
    p.id == id && Previewed(p, s, a) && (faults == 0 ==> PreviewedAll(p, s, a))
  }

  /** Looks at every application in order. */
  method PreviewAll(apps: seq<App>, ids: seq<string>) returns (plan: seq<AppPlan>, ghost start: seq<nat>)
    requires |apps| == |ids| && forall i, j :: 0 <= i < j < |apps| ==> apps[i] != apps[j]
    modifies set a | a in apps
    ensures |plan| == |start| == |apps|
    ensures forall i :: 0 <= i < |apps| ==> apps[i].state == old(apps[i].state) && start[i] == old(apps[i].faults) <= apps[i].faults
                                            && apps[i].answers == old(apps[i].answers) && apps[i].log == old(apps[i].log)
    ensures forall i :: 0 <= i < |apps| ==> plan[i].id == ids[i]
    ensures forall i :: 0 <= i < |apps| ==>
              Planned(plan[i], ids[i], apps[i].state, apps[i].answers, apps[i].faults - start[i])
  {
    hide Planned;
    plan, start := [], [];
    while |plan| < |apps|
      invariant |start| == |plan| <= |apps| && forall i :: 0 <= i < |plan| ==> plan[i].id == ids[i]
      invariant forall i :: 0 <= i < |apps| ==> apps[i].state == old(apps[i].state)
                                                && apps[i].answers == old(apps[i].answers) && apps[i].log == old(apps[i].log)
      invariant forall i :: 0 <= i < |plan| ==> start[i] == old(apps[i].faults) <= apps[i].faults
      invariant forall i :: 0 <= i < |plan| ==> Planned(plan[i], ids[i], apps[i].state, apps[i].answers, apps[i].faults - start[i])
      invariant forall i :: |plan| <= i < |apps| ==> apps[i].faults == old(apps[i].faults)
    {
      var k := |plan|;
      var p := PreviewApp(apps[k], ids[k]);
      IsPlanned(p, ids[k], apps[k].state, apps[k].answers, apps[k].faults - old(apps[k].faults));
      plan, start := plan + [p], start + [old(apps[k].faults)];
    }
  }

  lemma IsPlanned(p: AppPlan, id: string, s: AppState, a: Answers, faults: nat)
    requires p.id == id && Previewed(p, s, a)
    requires faults == 0 ==> (p.status.Ready? <==> Updatable(s, a)) && (p.status.CurrentApp? <==> UpToDate(s, a))
                             && (p.status.SkippedApp? <==> Passed(s, a))
    ensures Planned(p, id, s, a, faults)
  {
  }

  /** What an application that was looked at, and at which nothing failed, is
      reported as: updated where there was an update to make, and otherwise current, skipped or blocked by what it was. */
  ghost predicate AsAnswered(before: AppState, a: Answers, status: Status) {
    && (Updatable(before, a) && PlanOk(a.offer.changes) ==> status.Updated?)
    && (status.Current? <==> UpToDate(before, a)) && (status.Skipped? <==> Passed(before, a))
    && (status.Blocked? ==> !Updatable(before, a) || !PlanOk(a.offer.changes))
  }

  /** What the result of one application says of it: `faults` is how often
      anything failed there since the fleet was first looked at. */
  ghost predicate Reported(p: AppPlan, before: AppState, a: Answers, r: AppResult, s: AppState, was: seq<Entry>, log: seq<Entry>,
                           faults: nat) {
    && Means(p, before, r, s, was, log)
    && (r.status in {Updated, FailedRecovered, RecoveryFailed} ==> Updatable(before, a) && p.changes == a.offer.changes)
    && (r.status.Current? ==> UpToDate(before, a)) && (r.status.Skipped? ==> Passed(before, a))
    && (faults == 0 ==> AsAnswered(before, a, r.status))
  }

  /** An application nobody touched; one that had been ready is blocked. */
  ghost predicate LeftAlone(p: AppPlan, before: AppState, a: Answers, r: AppResult, s: AppState, was: seq<Entry>, log: seq<Entry>,
                            faults: nat) {
    && r.id == p.id && s == before && log == was
    && (r.status.Current? ==> UpToDate(before, a)) && (r.status.Skipped? ==> Passed(before, a))
    && (r.verified <==> r.status.Current?) && r.status in {Current, Skipped, Blocked}
    && (faults == 0 ==> (r.status.Current? <==> UpToDate(before, a)) && (r.status.Skipped? <==> Passed(before, a)))
  }

  /** Applies one entry of the plan. */
  method ApplyEntry(app: App, p: AppPlan, id: string, ghost faults: nat) returns (r: AppResult)
    requires Planned(p, id, app.state, app.answers, faults)
    modifies app
    ensures app.faults >= old(app.faults)
    ensures Reported(p, old(app.state), old(app.answers), r, app.state, old(app.log), app.log, faults + app.faults - old(app.faults))
  {
    hide Means, Unchanged, PlanOk, CleanAt;
    if !p.status.Ready? {
      r := Unchanged(p);
      UnchangedMeans(p, app.state, app.answers, app.log, faults);
    } else {
      ReadyPlan(p, app.state, app.answers);
      r := ApplyApp(app, p);
    }
  }

  /** Reports the rest of the fleet as left alone. */
  method Abort(plan: seq<AppPlan>, done: seq<AppResult>) returns (results: seq<AppResult>)
    requires |done| <= |plan|
    ensures |results| == |plan| && done <= results
    ensures forall i :: |done| <= i < |plan| ==> results[i] == Unchanged(plan[i])
  {
    hide Unchanged;
    results := done;
    while |results| < |plan|
      invariant |done| <= |results| <= |plan| && done <= results
      invariant forall i :: |done| <= i < |results| ==> results[i] == Unchanged(plan[i])
    {
      results := results + [Unchanged(plan[|results|])];
    }
  }

  /** Some application further up could not be put back. */
  predicate StoppedBefore(results: seq<AppResult>, n: nat) {
    exists j :: 0 <= j < n && j < |results| && results[j].status.RecoveryFailed?
  }

  /** Applies a plan in order, and leaves the rest alone once an application
      could not be put back. */
  method ApplyAll(apps: seq<App>, ids: seq<string>, plan: seq<AppPlan>, ghost start: seq<nat>) returns (results: seq<AppResult>)
    requires |apps| == |ids| == |plan| == |start| && forall i, j :: 0 <= i < j < |apps| ==> apps[i] != apps[j]
    requires forall i :: 0 <= i < |apps| ==> start[i] <= apps[i].faults
    requires forall i :: 0 <= i < |apps| ==> Planned(plan[i], ids[i], apps[i].state, apps[i].answers, apps[i].faults - start[i])
    modifies set a | a in apps
    ensures |results| == |apps| && forall i :: 0 <= i < |apps| ==> apps[i].faults >= old(apps[i].faults)
    ensures forall i :: 0 <= i < |apps| ==>
              if StoppedBefore(results, i)
              then LeftAlone(plan[i], old(apps[i].state), old(apps[i].answers), results[i], apps[i].state,
                             old(apps[i].log), apps[i].log, apps[i].faults - start[i])
              else Reported(plan[i], old(apps[i].state), old(apps[i].answers), results[i], apps[i].state,
                            old(apps[i].log), apps[i].log, apps[i].faults - start[i])
  {
    hide Planned, Reported, LeftAlone, Unchanged;
    results := [];
    while |results| < |apps|
      invariant |results| <= |apps|
      invariant forall i :: 0 <= i < |apps| ==> apps[i].faults >= old(apps[i].faults)
      invariant forall i :: 0 <= i < |results| ==>
                  && Reported(plan[i], old(apps[i].state), old(apps[i].answers), results[i], apps[i].state,
                              old(apps[i].log), apps[i].log, apps[i].faults - start[i])
                  && !results[i].status.RecoveryFailed?
      invariant forall i :: |results| <= i < |apps| ==>
                  && apps[i].state == old(apps[i].state) && apps[i].answers == old(apps[i].answers)
                  && apps[i].log == old(apps[i].log) && apps[i].faults == old(apps[i].faults)
    {
      var k := |results|;
      var r := ApplyEntry(apps[k], plan[k], ids[k], apps[k].faults - start[k]);
      results := results + [r];
      if r.status.RecoveryFailed? {
        results := Abort(plan, results);
        forall i | k < i < |apps|
          ensures LeftAlone(plan[i], old(apps[i].state), old(apps[i].answers), results[i], apps[i].state,
                            old(apps[i].log), apps[i].log, apps[i].faults - start[i])
        {
          IsLeftAlone(plan[i], ids[i], apps[i].state, apps[i].answers, apps[i].log, apps[i].faults - start[i]);
        }
        return;
      }
    }
  }

  /** Updates every application in order, and stops touching any once one could
      not be put back. */
  method Apply(apps: seq<App>, ids: seq<string>) returns (plan: seq<AppPlan>, results: seq<AppResult>)
    requires |apps| == |ids| && forall i, j :: 0 <= i < j < |apps| ==> apps[i] != apps[j]
    modifies set a | a in apps
    ensures |plan| == |results| == |apps|
    ensures forall i :: 0 <= i < |apps| ==> plan[i].id == ids[i] && apps[i].faults >= old(apps[i].faults)
    ensures forall i :: 0 <= i < |apps| ==>
              if StoppedBefore(results, i)
              then LeftAlone(plan[i], old(apps[i].state), old(apps[i].answers), results[i], apps[i].state,
                             old(apps[i].log), apps[i].log, apps[i].faults - old(apps[i].faults))
              else Reported(plan[i], old(apps[i].state), old(apps[i].answers), results[i], apps[i].state,
                            old(apps[i].log), apps[i].log, apps[i].faults - old(apps[i].faults))
  {
    hide Planned, Reported, LeftAlone, StoppedBefore;
    ghost var start;
    plan, start := PreviewAll(apps, ids);
    results := ApplyAll(apps, ids, plan, start);
  }

  lemma IsLeftAlone(p: AppPlan, id: string, s: AppState, a: Answers, log: seq<Entry>, faults: nat)
    requires Planned(p, id, s, a, faults)
    ensures LeftAlone(p, s, a, Unchanged(p), s, log, log, faults)
  {
  }

  lemma UnchangedMeans(p: AppPlan, s: AppState, a: Answers, log: seq<Entry>, faults: nat)
    requires !p.status.Ready? && Previewed(p, s, a) && (faults == 0 ==> PreviewedAll(p, s, a))
    ensures Reported(p, s, a, Unchanged(p), s, log, log, faults)
  {
  }

  lemma ReadyPlan(p: AppPlan, s: AppState, a: Answers)
    requires Previewed(p, s, a) && p.status.Ready?
    ensures p.sourceHead.Some? && p.deployed == p.sourceHead && CleanAt(s, p.sourceHead.value) && s.live == p.deployed
    ensures !UpToDate(s, a) && !Passed(s, a)
  {
  }
}
