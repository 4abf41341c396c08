/** One application's releases, the two pointers into them, and the registry its
    host serves from.  Every effect goes through one call that the environment
    may make fail; `faults` counts those failures, `lost` tells which of them
    were pointer calls, `trace` keeps every state and `log`
    everything that was done or asked outside, with the state it was done in.
    Nothing else writes while a command holds the application's lock. */
module ReleasePointers {
  import opened Common

  type Commit = string

  datatype HostState = HostState(
    releases: set<Commit>,
    current: Option<Commit>,
    previous: Option<Commit>,
    registry: Bytes,
    interrupted: bool)

  datatype Pointer = Current | Previous

  /** What is asked of the world outside: the caller's own check under the lock,
      the commit the source repository is at, the registry as it is stored, the
      registry as it loads, the releases there are, the plan as it would be made
      now, whether the profile is committed, whether the checkout is clean. */
  datatype Question =
    | LockedCheck
    | SourceTarget
    | StoredRegistry
    | LoadedRegistry
    | ReleaseList
    | FreshPlan
    | CleanProfile
    | CleanCheckout

  /** What is done outside.  `Judged` closes a verification and says how the
      whole of it, the questions around it included, ended. */
  datatype Deed =
    | Asked(question: Question)
    | Built
    | Installed
    | Started
    | Stopped
    | Restarted
    | Looked
    | Verified
    | Judged

  datatype Entry = Entry(deed: Deed, state: HostState, ok: bool)

  function Well(s: HostState, deed: Deed): Entry { Entry(deed, s, true) }

  /** One more thing was done, well or not. */
  predicate OneDone(before: seq<Entry>, after: seq<Entry>, deed: Deed, s: HostState) {
    after == before + [Entry(deed, s, true)] || after == before + [Entry(deed, s, false)]
  }

  /** Pointer reads that failed, moves of either pointer that failed, and how
      often a recovery has had the service stopped or restarted. */
  datatype Lost = Lost(looks: nat, current: nat, previous: nat, restarts: nat)

  predicate NoLess(a: Lost, b: Lost) {
    a.looks <= b.looks && a.current <= b.current && a.previous <= b.previous && a.restarts <= b.restarts
  }

  function LosingMove(l: Lost, p: Pointer): Lost {
    match p
    case Current => l.(current := l.current + 1)
    case Previous => l.(previous := l.previous + 1)
  }

  /** Since `from` everything was done with one release selected. */
  predicate AllWith(log: seq<Entry>, from: nat, current: Option<Commit>) {
    forall i :: from <= i < |log| ==> log[i].state.current == current
  }

  /** Each pointer that is present names a release that exists. */
  predicate PointersExist(s: HostState) {
    && (s.current.Some? ==> s.current.value in s.releases)
    && (s.previous.Some? ==> s.previous.value in s.releases)
  }

  function Named(s: HostState, p: Pointer): Option<Commit> {
    match p
    case Current => s.current
    case Previous => s.previous
  }

  function Pointing(s: HostState, p: Pointer, target: Option<Commit>): HostState {
    match p
    case Current => s.(current := target)
    case Previous => s.(previous := target)
  }

  function Selected(o: Option<Commit>): set<Commit> {
    match o
    case None => {}
    case Some(c) => {c}
  }

  /** What pruning keeps. */
  function Retained(s: HostState, protected: set<Commit>): set<Commit> {
    s.releases * (protected + Selected(s.current) + Selected(s.previous))
  }

  class Host {
    var state: HostState
    ghost var trace: seq<HostState>
    ghost var faults: nat
    /** Every release that has been removed. */
    ghost var removed: set<Commit>
    ghost var lost: Lost
    ghost var log: seq<Entry>
    /** What each question of a look was answered. */
    ghost var answers: seq<bool>

    ghost predicate Valid()
      reads this
    {
      trace != [] && trace[|trace| - 1] == state && PointersExist(state) && forall s <- trace :: PointersExist(s)
    }

    constructor (s: HostState)
      requires PointersExist(s)
      ensures Valid() && state == s && trace == [s] && faults == 0 && removed == {}
      ensures lost == Lost(0, 0, 0, 0) && log == [] && answers == []
    {
      state, trace, faults, removed, lost, log, answers := s, [s], 0, {}, Lost(0, 0, 0, 0), [], [];
    }

    /** Anything done or asked outside that can fail. */
    method Attempt(deed: Deed) returns (ok: bool)
      modifies this`faults, this`log
      ensures faults == old(faults) + (if ok then 0 else 1)
      ensures log == old(log) + [Entry(deed, state, ok)]
    {
      ok := *;
      Write(deed, ok);
      if !ok {
        faults := faults + 1;
      }
    }

    ghost method Write(deed: Deed, ok: bool)
      modifies this`log
      ensures log == old(log) + [Entry(deed, state, ok)]
    {
      log := log + [Entry(deed, state, ok)];
    }

    /** A call on the application's own directory. */
    method Call() returns (ok: bool)
      modifies this`faults
      ensures faults == old(faults) + (if ok then 0 else 1)
    {
      ok := *;
      if !ok {
        faults := faults + 1;
      }
    }

    /** One question of a look: whether the service runs, or what one address
        answers. */
    method Respond() returns (well: bool)
      modifies this`answers
      ensures answers == old(answers) + [well]
    {
      well := *;
      answers := answers + [well];
    }

    /** Something that took effect is reported as failed. */
    ghost method Note()
      modifies this`faults
      ensures faults == old(faults) + 1
    {
      faults := faults + 1;
    }

    /** Has a recovery's service stopped or restarted. */
    method Restart(deed: Deed) returns (ok: bool)
      modifies this`faults, this`lost, this`log
      ensures faults == old(faults) + (if ok then 0 else 1) && lost == old(lost).(restarts := old(lost).restarts + 1)
      ensures log == old(log) + [Entry(deed, state, ok)]
    {
      ok := Attempt(deed);
      lost := lost.(restarts := lost.restarts + 1);
    }

    method Change(next: HostState) returns (ok: bool)
      requires Valid() && PointersExist(next)
      modifies this`state, this`trace, this`faults, this`removed
      ensures Valid() && faults == old(faults) + (if ok then 0 else 1)
      ensures if ok then state == next && trace == old(trace) + [next] else state == old(state) && trace == old(trace)
      ensures removed == old(removed) + (old(state).releases - state.releases)
    {
      ok := Call();
      if ok {
        removed := removed + (state.releases - next.releases);
        state, trace := next, trace + [next];
      }
    }

    /** Reads a pointer, which must name an existing release or be absent. */
    method ReadPointer(p: Pointer) returns (ok: bool, commit: Option<Commit>)
      requires Valid()
      modifies this`faults, this`lost
      ensures faults == old(faults) + (if ok then 0 else 1)
      ensures ok ==> commit == Named(state, p)
      ensures lost == if ok then old(lost) else old(lost).(looks := old(lost).looks + 1)
    {
      ok := Call();
      commit := Named(state, p);
      if !ok {
        lost := lost.(looks := lost.looks + 1);
      }
    }

    /** Repoints atomically at a release that exists, or removes the pointer. */
    method SelectPointer(p: Pointer, target: Option<Commit>) returns (ok: bool)
      requires Valid()
      modifies this`state, this`trace, this`faults, this`removed, this`lost
      ensures Valid() && faults >= old(faults) && old(trace) <= trace
      ensures if ok then state == Pointing(old(state), p, target) && faults == old(faults) else state == old(state)
      ensures !ok ==> faults == old(faults) + 1 || (target.Some? && target.value !in state.releases)
      ensures removed == old(removed)
      ensures lost == if ok then old(lost) else LosingMove(old(lost), p)
    {
      ok := target.None? || target.value in state.releases;
      if ok {
        ok := Change(Pointing(state, p, target));
      }
      if !ok {
        lost := LosingMove(lost, p);
      }
    }

    /** Removes, one at a time, every release that is neither protected nor
        pointed at. */
    method Prune(protected: set<Commit>) returns (ok: bool)
      requires Valid()
      modifies this`state, this`trace, this`faults, this`removed
      ensures Valid() && old(trace) <= trace && faults >= old(faults)
      ensures state == old(state).(releases := state.releases) && Retained(old(state), protected) <= state.releases <= old(state).releases
      ensures ok ==> state.releases == Retained(old(state), protected) && faults == old(faults)
      ensures !ok ==> faults == old(faults) + 1 || !(protected <= old(state).releases)
      ensures !(protected <= old(state).releases) ==> !ok && state == old(state) && trace == old(trace)
      ensures removed == old(removed) + (old(state).releases - state.releases)
    {
      if !(protected <= state.releases) {
        return false;
      }
      var retained := protected + Selected(state.current) + Selected(state.previous);
      var rest := state.releases - retained;
      while rest != {}
        invariant Valid() && old(trace) <= trace && faults == old(faults)
        invariant state == old(state).(releases := state.releases) && rest == state.releases - retained
        invariant Retained(old(state), protected) <= state.releases <= old(state).releases
        invariant removed == old(removed) + (old(state).releases - state.releases)
        decreases rest
      {
        var release :| release in rest;
        var s := state;
        ok := Change(state.(releases := state.releases - {release}));
        if !ok {
          return;
        }
        assert state.releases - retained == rest - {release};
        rest := rest - {release};
      }
      ok := true;
    }

    /** Builds a release.  A failed build may still have put it in place. */
    method Build(commit: Commit) returns (ok: bool)
      requires Valid() && commit !in state.releases
      modifies this`state, this`trace, this`faults, this`removed, this`log
      ensures Valid() && old(trace) <= trace && faults >= old(faults)
      ensures state == old(state).(releases := state.releases)
      ensures state.releases == old(state).releases || state.releases == old(state).releases + {commit}
      ensures ok ==> commit in state.releases && faults == old(faults)
      ensures !ok ==> faults == old(faults) + 1
      ensures removed == old(removed)
      ensures OneDone(old(log), log, Built, state)
      ensures ok ==> log == old(log) + [Well(state, Built)]
      ensures lost == old(lost)
    {
      ok := Change(state.(releases := state.releases + {commit}));
      if ok {
        ok := Attempt(Built);
      } else {
        Write(Built, false);
      }
    }
  }
}
