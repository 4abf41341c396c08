/** One application's repository and the release that is live for it. */
module AppRepository {
  import opened Common

  type FilePath = string
  type CommitId = nat
  type Files = map<FilePath, Bytes>

  datatype CommitNode = CommitNode(files: Files, parent: Option<CommitId>)

  /** `intent` are paths added to the index by name only. */
  datatype AppState = AppState(
    commits: map<CommitId, CommitNode>,
    head: CommitId,
    worktree: Files,
    intent: set<FilePath>,
    live: Option<CommitId>)

  /** What reading the application's contract comes to. */
  datatype Contract = Unreadable | Legacy | Readable

  /** What the update planner comes to: nothing usable, an adoption, nothing to
      do, or a refresh with the changes it would make. */
  datatype Offer = NoOffer | Adoption | NothingNew | Refresh(changes: seq<FileChange>)

  /** What the activation planner comes to: nothing usable, an activation that
      would change the registry, or one that would not. */
  datatype Activation = NoActivation | Transition | Routine

  /** What the readers and the planners say of a repository that is looked at. */
  datatype Answers = Answers(contract: Contract, offer: Offer, activation: Activation)

  /** What is done to an application from outside, in the order of an update:
      planned again, updated, reversed, checked, its activation planned,
      activated, and what the activation reported compared. */
  datatype Deed = Replanning | Updating | Reversing | Checking | Foreseeing | Activating | Comparing

  /** An update may also be refused because its plan changed. */
  datatype Ending = Went | Refused | Failed

  datatype Entry = Entry(deed: Deed, state: AppState, ending: Ending)

  /** These were done since, in this order, and all of them went well. */
  predicate Did(before: seq<Entry>, after: seq<Entry>, deeds: seq<Deed>) {
    && before <= after && |after| == |before| + |deeds|
    && forall k :: 0 <= k < |deeds| ==> after[|before| + k].deed == deeds[k] && after[|before| + k].ending.Went?
  }

  datatype FileChange = FileChange(path: FilePath, before: Option<Bytes>, after: Option<Bytes>)

  function ContentAt(files: Files, p: FilePath): Option<Bytes> { if p in files then Some(files[p]) else None }

  predicate SameAt(a: Files, b: Files, p: FilePath) { ContentAt(a, p) == ContentAt(b, p) }

  /** The head exists, and the index and the working tree are exactly it. */
  predicate CleanAt(s: AppState, commit: CommitId) {
    s.head == commit && commit in s.commits && s.worktree == s.commits[commit].files && s.intent == {}
  }

  predicate Grows(a: map<CommitId, CommitNode>, b: map<CommitId, CommitNode>) {
    forall c <- a :: c in b && b[c] == a[c]
  }

  /** What `git commit --only` commits: the head's files with the working
      tree's content at the given paths. */
  function CommittedFiles(head: Files, worktree: Files, paths: seq<FilePath>): Files {
    map p | p in head.Keys + worktree.Keys && ContentAt(if p in paths then worktree else head, p).Some?
          :: ContentAt(if p in paths then worktree else head, p).value
  }

  /** Every path is in the head or in the index. */
  predicate KnownTo(s: AppState, paths: seq<FilePath>)
    requires s.head in s.commits
  {
    forall p <- paths :: p in s.commits[s.head].files || p in s.intent
  }

  /** `faults` counts every command that failed, answered nothing or did
      something other than what was asked; `log` keeps everything that was done
      from outside, with the state it was begun in. */
  class App {
    var state: AppState
    var answers: Answers
    ghost var faults: nat
    ghost var log: seq<Entry>

    constructor (s: AppState, a: Answers)
      ensures state == s && answers == a && faults == 0 && log == []
    {
      state, answers, faults, log := s, a, 0, [];
    }

    /** Anything run in the repository or against the live release: an update, a
        check, an activation, a publication.  It is asked for a state like
        `wanted`, and may do whatever it likes except change a commit that
        exists. */
    method Run(deed: Deed, ghost wanted: AppState -> bool) returns (ending: Ending)
      modifies this
      ensures Grows(old(state).commits, state.commits) && faults >= old(faults)
      ensures faults == old(faults) <==> ending.Went? && wanted(state)
      ensures log == old(log) + [Entry(deed, old(state), ending)] && (ending.Refused? ==> deed.Updating?)
    {
      ending := *;
      if ending.Refused? && !deed.Updating? {
        ending := Failed;
      }
      log := log + [Entry(deed, state, ending)];
      var next: AppState := *;
      if Grows(state.commits, next.commits) {
        state := next;
      }
      answers := *;
      if !ending.Went? || !wanted(state) {
        faults := faults + 1;
      }
    }

    /** A comparison with what was planned, which may not come out. */
    method Compare(deed: Deed) returns (ok: bool)
      modifies this`faults, this`log
      ensures faults == old(faults) + (if ok then 0 else 1)
      ensures log == old(log) + [Entry(deed, state, if ok then Went else Failed)]
    {
      ok := Ask();
      log := log + [Entry(deed, state, if ok then Went else Failed)];
    }

    /** A question to git or to the live release, answered or not. */
    method Ask() returns (answered: bool)
      modifies this`faults
      ensures faults == old(faults) + (if answered then 0 else 1)
    {
      answered := *;
      if !answered {
        faults := faults + 1;
      }
    }

    /** Reads the application's contract and provenance. */
    method ReadContract() returns (c: Option<Contract>)
      modifies this`faults
      ensures faults == old(faults) + (if c.Some? then 0 else 1) && (c.Some? ==> c.value == answers.contract)
    {
      var answered := Ask();
      c := if answered then Some(answers.contract) else None;
    }

    /** Has an update planned. */
    method PlanUpdate() returns (o: Option<Offer>)
      modifies this`faults
      ensures faults == old(faults) + (if o.Some? then 0 else 1) && (o.Some? ==> o.value == answers.offer)
    {
      var answered := Ask();
      o := if answered then Some(answers.offer) else None;
    }

    /** Has an activation planned. */
    method PlanActivation() returns (a: Option<Activation>)
      modifies this`faults
      ensures faults == old(faults) + (if a.Some? then 0 else 1) && (a.Some? ==> a.value == answers.activation)
    {
      var answered := Ask();
      a := if answered then Some(answers.activation) else None;
    }

    /** Reads the head of a clean main branch. */
    method InspectCleanMain() returns (ok: bool, head: CommitId)
      modifies this`faults
      ensures faults >= old(faults) && head == state.head
      ensures ok <==> faults == old(faults) && CleanAt(state, head)
    {
      head := state.head;
      var answered := Ask();
      ok := answered && CleanAt(state, head);
    }

    method InspectLive() returns (ok: bool, live: Option<CommitId>)
      modifies this`faults
      ensures faults >= old(faults) && live == state.live
      ensures ok <==> faults == old(faults) && live.Some?
    {
      live := state.live;
      var answered := Ask();
      ok := answered && live.Some?;
    }

    method IsExactState(commit: CommitId) returns (exact: bool)
      modifies this`faults
      ensures faults >= old(faults)
      ensures exact <==> faults == old(faults) && CleanAt(state, commit)
    {
      var ok, head := InspectCleanMain();
      exact := ok && head == commit;
    }

    method IsExactLive(commit: Option<CommitId>) returns (exact: bool)
      modifies this`faults
      ensures faults >= old(faults)
      ensures exact <==> faults == old(faults) && commit.Some? && state.live == commit
    {
      var ok, live := InspectLive();
      exact := ok && commit.Some? && live == commit;
    }

    /** `git add --intent-to-add`. */
    method AddIntent(paths: set<FilePath>) returns (ok: bool)
      modifies this`state, this`faults
      ensures faults == old(faults) + (if ok then 0 else 1)
      ensures state == if ok then old(state).(intent := old(state).intent + paths) else old(state)
    {
      ok := Ask();
      if ok {
        state := state.(intent := state.intent + paths);
      }
    }

    /** `git reset` of those paths; its result is not looked at. */
    method ClearIntent(paths: set<FilePath>)
      modifies this`state, this`faults
      ensures faults >= old(faults)
      ensures state == if faults == old(faults) then old(state).(intent := old(state).intent - paths) else old(state)
    {
      var done := Ask();
      if done {
        state := state.(intent := state.intent - paths);
      }
    }

    /** `git commit --only`, which knows a path only from the head or from the
        index.  It may fail after the commit was made. */
    method CommitOnly(paths: seq<FilePath>) returns (ok: bool)
      requires state.head in state.commits
      modifies this`state, this`faults
      ensures KnownTo(old(state), paths) ==> faults == old(faults) + (if ok then 0 else 1)
      ensures !KnownTo(old(state), paths) ==> !ok && faults == old(faults) && state == old(state)
      ensures ok ==> state.head != old(state).head
      ensures state == old(state) || (
                && state.head !in old(state).commits
                && state == old(state).(
                  commits := old(state).commits[state.head := CommitNode(
                    CommittedFiles(old(state).commits[old(state).head].files, old(state).worktree, paths), Some(old(state).head))],
                  head := state.head,
                  intent := old(state).intent - (set p | p in paths)))
    {
      if !KnownTo(state, paths) {
        return false;
      }
      var made := *;
      var c: CommitId :| c >= 0;
      made := made && c !in state.commits;
      if made {
        var files := CommittedFiles(state.commits[state.head].files, state.worktree, paths);
        state := state.(commits := state.commits[c := CommitNode(files, Some(state.head))], head := c,
                        intent := state.intent - (set p | p in paths));
      }
      ok := *;
      ok := ok && made;
      if !ok {
        faults := faults + 1;
      }
    }
  }
}
