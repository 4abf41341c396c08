/** Deploying and rolling back: two release pointers moved under a lock, and
    moved back when the newly selected release does not come up. */
module Deployment {
  import opened Common
  import opened ReleasePointers

  /** Where a command stopped: before it moved a pointer, with the pointers
      moved and then recovered, or after it had succeeded but for tidying up. */
  datatype Stop = BeforeSwitch | WhileSwitched | AfterSwitch

  datatype Outcome = Skipped | Unavailable | Unchanged | Completed | Raised(stop: Stop)

  const READINESS_TIMEOUT: nat := 15_000
  const READINESS_POLL: nat := 250

  /** The pointers are the former pair again. */
  predicate PairRestored(s: HostState, former: HostState) {
    s.current == former.current && s.previous == former.previous
  }

  /** A completed deployment: the new commit, then what was current, and no
      other release. */
  function Deployed(s: HostState, commit: Commit): HostState {
    s.(current := Some(commit), previous := s.current, releases := {commit} + Selected(s.current))
  }

  /** What the caller said it would find is there. */
  predicate AsExpected(s: HostState, commit: Commit, expectedCommit: Option<Commit>, expectedCurrent: Option<Option<Commit>>) {
    && (expectedCommit.Some? ==> expectedCommit.value == commit)
    && (expectedCurrent.Some? ==> expectedCurrent.value == s.current)
  }

  /** What is selected is what the command under recovery selected. */
  predicate AsSelected(s: HostState, expectedSelected: Option<Commit>) {
    expectedSelected.Some? ==> s.current == expectedSelected
  }

  /** Each pointer moved back that could be. */
  function Back(s: HostState, formerCurrent: Option<Commit>, formerPrevious: Option<Commit>, current: bool, previous: bool): HostState {
    s.(current := if current then formerCurrent else s.current, previous := if previous then formerPrevious else s.previous)
  }

  /** What a recovery saw: that it got to moving each pointer back and the move
      went well, that no pointer read failed, that the service was told to stop
      or to start again, that nothing failed. */
  datatype Seen = Seen(current: bool, previous: bool, read: bool, restarted: bool, clean: bool)

  /** How a recovery leaves things, `was` being how it found them: each pointer
      back, or where it was and then only because it could not be moved.  The
      service is touched, and releases are removed, only with the former pair in
      place; neither former release is ever lost. */
  predicate Recovered(was: HostState, formerCurrent: Option<Commit>, formerPrevious: Option<Commit>, service: bool, seen: Seen,
                      s: HostState) {
    var restored := s.current == formerCurrent && s.previous == formerPrevious;
    && s.current in {formerCurrent, was.current} && s.previous in {formerPrevious, was.previous}
    && (seen.current ==> s.current == formerCurrent)
    && (seen.previous ==> s.previous == formerPrevious)
    && (!restored ==> s.releases == was.releases)
    && (seen.restarted ==> restored)
    && (seen.read ==> (seen.restarted <==> service && restored))
    && (seen.clean ==> restored && s.releases == Selected(formerCurrent) + Selected(formerPrevious))
    && Selected(formerCurrent) + Selected(formerPrevious) <= s.releases <= was.releases
    && s.registry == was.registry && s.interrupted == was.interrupted
  }

  /** What was seen between two points in time. */
  function SeenSince(was: Lost, now: Lost, clean: bool, expected: bool): Seen {
    var looked := expected ==> now.looks == was.looks;
    Seen(looked && now.current == was.current, looked && now.previous == was.previous, now.looks == was.looks,
         now.restarts > was.restarts, clean)
  }

  /** Nothing is moved back where something else is selected than expected. */
  function SeenIf(asSelected: bool, was: Lost, now: Lost, clean: bool, expected: bool): Seen {
    var seen := SeenSince(was, now, clean, expected);
    if asSelected then seen else seen.(current := false, previous := false, clean := false)
  }

  predicate Fewer(a: Seen, b: Seen) {
    && a.restarted == b.restarted && (a.current ==> b.current) && (a.previous ==> b.previous)
    && (a.read ==> b.read) && (a.clean ==> b.clean)
  }

  lemma RecoveredFewer(was: HostState, current: Option<Commit>, previous: Option<Commit>, service: bool, seen: Seen, seen': Seen,
                       s: HostState)
    requires Recovered(was, current, previous, service, seen, s) && Fewer(seen', seen)
    ensures Recovered(was, current, previous, service, seen', s)
  {
  }

  /** A recovery is seen the same from further back, if no restart came before
      it. */
  lemma RecoveredEarlier(was: HostState, current: Option<Commit>, previous: Option<Commit>, service: bool, earlier: Lost, lost: Lost,
                         now: Lost, cleaner: bool, clean: bool, expected: bool, s: HostState)
    requires Recovered(was, current, previous, service, SeenSince(lost, now, clean, expected), s)
    requires NoLess(earlier, lost) && NoLess(lost, now) && earlier.restarts == lost.restarts && (cleaner ==> clean)
    ensures Recovered(was, current, previous, service, SeenSince(earlier, now, cleaner, expected), s)
    ensures Selected(current) + Selected(previous) <= s.releases <= was.releases
    ensures s.registry == was.registry && s.interrupted == was.interrupted
  {
    hide Recovered;
    var seen := SeenSince(lost, now, clean, expected);
    RecoveredFewer(was, current, previous, service, seen, SeenSince(earlier, now, cleaner, expected), s);
    RecoveredKeeps(was, current, previous, service, seen, s);
  }

  /** Restoring the pointers, and settling only once they are back, recovers. */
  lemma IsRecovered(was: HostState, moved: HostState, s: HostState, current: Option<Commit>, previous: Option<Commit>,
                    expected: Option<Commit>, service: bool, restored: bool, lost: Lost, now: Lost, clean: bool)
    requires moved == was.(current := moved.current, previous := moved.previous)
    requires moved.current in {current, was.current} && moved.previous in {previous, was.previous}
    requires Selected(current) + Selected(previous) <= was.releases && NoLess(lost, now)
    requires Attempted(was, expected, now.looks - lost.looks) ==>
               moved == Back(was, current, previous, now.current == lost.current, now.previous == lost.previous)
    requires restored ==> moved.current == current && moved.previous == previous
    requires now.looks == lost.looks ==> (restored <==> moved.current == current && moved.previous == previous)
    requires s == moved.(releases := s.releases)
    requires if restored then Retained(moved, {}) <= s.releases <= moved.releases else s == moved
    requires now.restarts > lost.restarts <==> restored && service
    requires clean && AsSelected(was, expected) ==> restored && s.releases == Retained(moved, {})
    ensures Recovered(was, current, previous, service, SeenIf(AsSelected(was, expected), lost, now, clean, expected.Some?), s)
  {
  }

  lemma RecoveredKeeps(was: HostState, current: Option<Commit>, previous: Option<Commit>, service: bool, seen: Seen, s: HostState)
    requires Recovered(was, current, previous, service, seen, s)
    ensures Selected(current) + Selected(previous) <= s.releases <= was.releases
    ensures s.registry == was.registry && s.interrupted == was.interrupted
  {
  }

  /** Recovery got to moving the pointers back: it had no expectation to check,
      or it checked it and it held. */
  predicate Attempted(s: HostState, expectedSelected: Option<Commit>, lostReads: int) {
    expectedSelected.None? || (lostReads == 0 && s.current == expectedSelected)
  }

  /** A release made sure of and selected. */
  function Selecting(s: HostState, commit: Commit): HostState {
    s.(current := Some(commit), releases := s.releases + {commit})
  }

  function RolledBack(s: HostState): HostState {
    s.(current := s.previous, previous := s.current, releases := Selected(s.current) + Selected(s.previous))
  }

  /** Two rollbacks leave both pointers as they were. */
  lemma RollbackTwice(s: HostState)
    ensures RolledBack(RolledBack(s)) == s.(releases := Selected(s.current) + Selected(s.previous))
  {
    assert Selected(s.current) + Selected(s.previous) == Selected(s.previous) + Selected(s.current);
  }

  lemma PairExists(s: HostState)
    requires PointersExist(s)
    ensures Selected(s.current) + Selected(s.previous) <= s.releases
  {
  }

  /** One look found everything well: the service running and every address
      answering. */
  predicate AllWell(answers: seq<bool>, addresses: nat) {
    |answers| == addresses + 1 && forall i :: 0 <= i < |answers| ==> answers[i]
  }

  /** A look stops at the first bad answer. */
  predicate IsLook(answers: seq<bool>, addresses: nat) {
    0 < |answers| <= addresses + 1 && forall i :: 0 <= i < |answers| - 1 ==> answers[i]
  }

  /** One look after another, none but the last good, and that one good where
      the service is found healthy. */
  ghost predicate Polled(looks: seq<seq<bool>>, addresses: nat, healthy: bool) {
    && looks != [] && (forall i :: 0 <= i < |looks| ==> IsLook(looks[i], addresses))
    && (healthy <==> AllWell(looks[|looks| - 1], addresses))
    && forall i :: 0 <= i < |looks| - 1 ==> !AllWell(looks[i], addresses)
  }

  /** All answers, look after look. */
  function Joined(looks: seq<seq<bool>>): seq<bool> {
    if looks == [] then [] else Joined(looks[..|looks| - 1]) + looks[|looks| - 1]
  }

  lemma JoinedMore(looks: seq<seq<bool>>, answers: seq<bool>)
    ensures Joined(looks + [answers]) == Joined(looks) + answers
    ensures looks == [] ==> Joined([answers]) == answers
  {
    assert (looks + [answers])[..|looks|] == looks;
    assert looks == [] ==> looks + [answers] == [answers];
  }

  /** What bringing a selected release up takes. */
  function Bringing(s: HostState, install: bool, service: bool, start: Deed): seq<Entry> {
    (if install then [Well(s, Installed)] else []) + (if service then [Well(s, start)] else []) + [Well(s, Looked)]
  }

  /** The installation waits for the switch only where a service takes the
      place of something that was none. */
  predicate Defers(withInstall: bool, service: bool, formerService: bool) { withInstall && service && !formerService }

  /** What comes before the switch, or before finding nothing to switch. */
  function Opening(s: HostState, withInstall: bool, service: bool, formerService: bool): seq<Entry> {
    [Well(s, Asked(LockedCheck)), Well(s, Asked(SourceTarget))]
    + (if withInstall && !(service && !formerService) then [Well(s, Installed)] else [])
  }

  /** Making sure of the release, and one more check. */
  function Ensuring(s: HostState, built: HostState, commit: Commit): seq<Entry> {
    (if commit in s.releases then [] else [Well(built, Built)]) + [Well(built, Asked(LockedCheck))]
  }

  /** Checking a release that is selected already. */
  function Keeping(s: HostState, service: bool): seq<Entry> {
    [Well(s, Asked(LockedCheck))] + (if service then [Well(s, Started)] else []) + [Well(s, Looked)]
  }

  /** Making sure of a release, selecting it and bringing it up. */
  function Renewing(s: HostState, commit: Commit, install: bool, service: bool): seq<Entry> {
    var built := s.(releases := s.releases + {commit});
    Ensuring(s, built, commit) + Bringing(built.(current := Some(commit)), install, service, Started)
  }

  /** Everything a deployment that selects `commit` and brings it up does, in
      order, each with the state it is done in. */
  function DeployLog(s: HostState, commit: Commit, withInstall: bool, service: bool, formerService: bool): seq<Entry> {
    Opening(s, withInstall, service, formerService) + Renewing(s, commit, withInstall && service && !formerService, service)
  }

  /** Everything a deployment of what is current already does. */
  function KeepLog(s: HostState, withInstall: bool, service: bool, formerService: bool): seq<Entry> {
    Opening(s, withInstall, service, formerService)
    + Keeping(s, service)
  }

  function RollbackLog(s: HostState, service: bool): seq<Entry> {
    [Well(s, Asked(SourceTarget))] + Bringing(s.(current := s.previous), false, service, Restarted)
  }

  /** Some look at `current`, selected, did not find it well. */
  predicate BadLook(log: seq<Entry>, from: nat, current: Option<Commit>) {
    exists i :: from <= i < |log| && log[i].deed.Looked? && !log[i].ok && log[i].state.current == current
  }

  predicate AllOk(log: seq<Entry>, from: nat) { forall i :: from <= i < |log| ==> log[i].ok }

  lemma DeployLogOk(s: HostState, commit: Commit, withInstall: bool, service: bool, formerService: bool)
    ensures AllOk(DeployLog(s, commit, withInstall, service, formerService), 0)
  {
  }

  /** A completed deployment ended with a good look at the new release, selected
      and, where it is a service, started, and where that was put off till then,
      installed. */
  lemma DeployLogLooks(s: HostState, commit: Commit, withInstall: bool, service: bool, formerService: bool)
    ensures var log := DeployLog(s, commit, withInstall, service, formerService);
            var n := |log| - 1;
            && n >= 0 && log[n].deed == Looked && log[n].ok && log[n].state.current == Some(commit)
            && log[n].state.previous == s.previous && commit in log[n].state.releases
            && (service ==> n >= 1 && log[n - 1] == Entry(Started, log[n].state, true))
            && (withInstall ==> exists i :: 0 <= i < n && log[i].deed == Installed && log[i].ok
                                            && (service && !formerService ==> log[i].state == log[n].state))
  {
    var log, d := DeployLog(s, commit, withInstall, service, formerService), Defers(withInstall, service, formerService);
    if d {
      assert log[|log| - 3].deed == Installed;
    } else if withInstall {
      assert log[2].deed == Installed;
    }
  }

  /** More was done, all of it with one release selected. */
  predicate Grown(before: seq<Entry>, after: seq<Entry>, current: Option<Commit>) {
    before <= after && AllWith(after, |before|, current)
  }

  lemma GrownMore(a: seq<Entry>, b: seq<Entry>, c: seq<Entry>, current: Option<Commit>)
    requires Grown(a, b, current) && Grown(b, c, current)
    ensures Grown(a, c, current)
  {
    forall i | |a| <= i < |c| ensures c[i].state.current == current {
      if i < |b| {
        assert c[i] == b[i];
      }
    }
  }

  /** Where everything went well no look was bad. */
  lemma NoBadLook(before: seq<Entry>, log: seq<Entry>, tail: seq<Entry>, current: Option<Commit>)
    requires log == before + tail && AllOk(tail, 0)
    ensures !BadLook(log, |before|, current)
  {
    forall i | |before| <= i < |log| ensures log[i].ok {
      assert log[i] == tail[i - |before|];
    }
  }

  lemma JoinRollback(a: seq<Entry>, b: seq<Entry>, c: seq<Entry>, s: HostState, service: bool)
    requires b == a + [Well(s, Asked(SourceTarget))]
    requires s.previous.Some? ==> c == b + Bringing(s.(current := Some(s.previous.value)), false, service, Restarted)
    ensures s.previous.Some? ==> c == a + RollbackLog(s, service)
    ensures AllOk(RollbackLog(s, service), 0)
  {
  }

  lemma JoinRenewing(a: seq<Entry>, b: seq<Entry>, c: seq<Entry>, s: HostState, commit: Commit, install: bool, service: bool)
    requires var built := s.(releases := s.releases + {commit});
             && b == a + Ensuring(s, built, commit)
             && c == b + Bringing(built.(current := Some(commit)), install, service, Started)
    ensures c == a + Renewing(s, commit, install, service)
  {
    hide Bringing, Ensuring;
  }

  lemma JoinDeploy(a: seq<Entry>, b: seq<Entry>, c: seq<Entry>, d: seq<Entry>, s: HostState, commit: Commit,
                   withInstall: bool, service: bool, formerService: bool)
    requires b == a + [Well(s, Asked(LockedCheck)), Well(s, Asked(SourceTarget))]
    requires c == b + (if withInstall && !Defers(withInstall, service, formerService) then [Well(s, Installed)] else [])
    requires d == c + Renewing(s, commit, Defers(withInstall, service, formerService), service)
    ensures d == a + DeployLog(s, commit, withInstall, service, formerService)
  {
    hide Renewing;
  }

  lemma JoinKeep(a: seq<Entry>, b: seq<Entry>, c: seq<Entry>, d: seq<Entry>, s: HostState, withInstall: bool, service: bool,
                 formerService: bool)
    requires b == a + [Well(s, Asked(LockedCheck)), Well(s, Asked(SourceTarget))]
    requires c == b + (if withInstall && !Defers(withInstall, service, formerService) then [Well(s, Installed)] else [])
    requires d == c + Keeping(s, service)
    ensures d == a + KeepLog(s, withInstall, service, formerService)
    ensures AllOk(KeepLog(s, withInstall, service, formerService), 0)
  {
  }

  lemma GrownPrefix(before: seq<Entry>, after: seq<Entry>, current: Option<Commit>)
    requires Grown(before, after, current)
    ensures before <= after
  {
  }

  lemma OneDonePrefix(before: seq<Entry>, after: seq<Entry>, deed: Deed)
    ensures forall s :: OneDone(before, after, deed, s) ==> before <= after
  {
  }

  lemma DeployBad(before: seq<Entry>, log: seq<Entry>, current: Option<Commit>, commit: Commit)
    requires Grown(before, log, current)
    ensures BadLook(log, |before|, Some(commit)) ==> current == Some(commit)
  {
  }

  lemma DeployBadAt(before: seq<Entry>, log: seq<Entry>, current: Option<Commit>, looked: Option<Commit>)
    requires Grown(before, log, current)
    ensures BadLook(log, |before|, looked) ==> current == looked
  {
  }

  lemma GrownOne(before: seq<Entry>, after: seq<Entry>, deed: Deed, s: HostState)
    requires OneDone(before, after, deed, s)
    ensures Grown(before, after, s.current)
  {
  }

  lemma OpeningOnly(before: seq<Entry>, after: seq<Entry>, s: HostState, service: bool, formerService: bool, commit: Commit)
    requires after == before + [Well(s, Asked(LockedCheck)), Well(s, Asked(SourceTarget))]
    ensures after == before + Opening(s, false, service, formerService) && !BadLook(after, |before|, Some(commit))
  {
  }

  class Deployer {
    const host: Host

    constructor (host: Host)
      ensures this.host == host
    {
      this.host := host;
    }

    /** One look: the service must be running and every address must answer
        well, the first that does not ending it. */
    method Look(addresses: nat) returns (well: bool, ghost answers: seq<bool>)
      modifies host`answers
      ensures IsLook(answers, addresses) && (well <==> AllWell(answers, addresses))
      ensures host.answers == old(host.answers) + answers
    {
      well := host.Respond();
      answers := [well];
      var k := 0;
      while k < addresses && well
        invariant k <= addresses && |answers| == k + 1 && answers[k] == well && forall i :: 0 <= i < k ==> answers[i]
        invariant host.answers == old(host.answers) + answers
      {
        well := host.Respond();
        answers := answers + [well];
        k := k + 1;
      }
    }

    /** Looks until one look finds all well or the time is up, and once more
        after the last sleep.  `looks` is what each look was answered. */
    method AwaitService(addresses: nat) returns (healthy: bool, ghost looks: seq<seq<bool>>, ghost elapsed: int)
      modifies host`faults, host`answers
      ensures host.faults == old(host.faults) + (if healthy then 0 else 1)
      ensures looks != [] && forall i :: 0 <= i < |looks| ==> IsLook(looks[i], addresses)
      ensures host.answers == old(host.answers) + Joined(looks)
      ensures healthy <==> AllWell(looks[|looks| - 1], addresses)
      ensures forall i :: 0 <= i < |looks| - 1 ==> !AllWell(looks[i], addresses)
      ensures !healthy ==> elapsed >= READINESS_TIMEOUT
      ensures |looks| > 1 ==> elapsed > 0
    {
      hide AllWell, IsLook, Joined;
      ghost var answers;
      healthy, answers := Look(addresses);
      looks := [];
      JoinedMore(looks, answers);
      looks := [answers];
      var now: int :| now >= 0;
      elapsed := now;
      while !healthy && now < READINESS_TIMEOUT
        invariant host.faults == old(host.faults) && now >= 0 && elapsed == now
        invariant looks != [] && forall i :: 0 <= i < |looks| ==> IsLook(looks[i], addresses)
        invariant host.answers == old(host.answers) + Joined(looks)
        invariant healthy <==> AllWell(looks[|looks| - 1], addresses)
        invariant forall i :: 0 <= i < |looks| - 1 ==> !AllWell(looks[i], addresses)
        invariant |looks| > 1 ==> now > 0
        decreases READINESS_TIMEOUT - now
      {
        var slept := if READINESS_POLL <= READINESS_TIMEOUT - now then READINESS_POLL else READINESS_TIMEOUT - now;
        healthy, answers := Look(addresses);
        JoinedMore(looks, answers);
        looks := looks + [answers];
        var later: int :| later >= now + slept;
        now := later;
        elapsed := now;
      }
      if !healthy {
        host.faults := host.faults + 1;
      }
    }

    /** The readiness gate: a service is polled, anything else asked once. */
    method CheckHealth(service: bool) returns (healthy: bool)
      modifies host`faults, host`log, host`answers
      ensures host.faults == old(host.faults) + (if healthy then 0 else 1)
      ensures host.log == old(host.log) + [Entry(Looked, host.state, healthy)]
      ensures service ==> exists looks :: Polled(looks, 3, healthy) && host.answers == old(host.answers) + Joined(looks)
    {
      if service {
        ghost var looks, elapsed;
        healthy, looks, elapsed := AwaitService(3);
        assert Polled(looks, 3, healthy);
        host.Write(Looked, healthy);
      } else {
        healthy := host.Attempt(Looked);
      }
    }

    /** Reads the current release and checks it against what was expected. */
    method CurrentUnderExpectations(expected: Option<Option<Commit>>) returns (ok: bool, current: Option<Commit>)
      requires host.Valid()
      modifies host`faults, host`lost, host`log
      ensures OneDone(old(host.log), host.log, Asked(LockedCheck), host.state)
      ensures ok ==> host.log == old(host.log) + [Well(host.state, Asked(LockedCheck))]
      ensures host.faults >= old(host.faults) && (ok ==> host.faults == old(host.faults) && current == host.state.current)
      ensures NoLess(old(host.lost), host.lost) && host.lost == old(host.lost).(looks := host.lost.looks)
      ensures ok && expected.Some? ==> current == expected.value
      ensures !ok ==> host.faults > old(host.faults) || (expected.Some? && host.state.current != expected.value)
    {
      ok := host.Attempt(Asked(LockedCheck));
      current := None;
      if ok {
        ok, current := host.ReadPointer(Current);
        if ok && expected.Some? && current != expected.value {
          ok := false;
        }
      }
    }

    /** Moves both pointers back, each attempt on its own. */
    method MoveBack(formerCurrent: Option<Commit>, formerPrevious: Option<Commit>) returns (clean: bool)
      requires host.Valid()
      requires Selected(formerCurrent) + Selected(formerPrevious) <= host.state.releases
      modifies host`state, host`trace, host`faults, host`removed, host`lost
      ensures host.Valid() && old(host.trace) <= host.trace && host.faults >= old(host.faults)
      ensures host.state == Back(old(host.state), formerCurrent, formerPrevious,
                                 host.lost.current == old(host.lost).current,
                                 host.lost.previous == old(host.lost).previous)
      ensures host.removed == old(host.removed) && NoLess(old(host.lost), host.lost)
      ensures host.lost.looks == old(host.lost).looks && host.lost.restarts == old(host.lost).restarts
      ensures clean <==> host.faults == old(host.faults)
      ensures clean ==> host.lost == old(host.lost)
    {
      hide PointersExist;
      var ok := host.SelectPointer(Current, formerCurrent);
      var ok' := host.SelectPointer(Previous, formerPrevious);
      clean := ok && ok';
    }

    /** Whether the pair that is read back is the former one. */
    method ReadsBack(formerCurrent: Option<Commit>, formerPrevious: Option<Commit>) returns (restored: bool)
      requires host.Valid()
      modifies host`faults, host`lost
      ensures host.faults >= old(host.faults) && NoLess(old(host.lost), host.lost) && host.lost == old(host.lost).(looks := host.lost.looks)
      ensures host.faults == old(host.faults) <==> host.lost.looks == old(host.lost).looks
      ensures restored <==> host.lost.looks == old(host.lost).looks
                            && host.state.current == formerCurrent && host.state.previous == formerPrevious
    {
      var ok, current := host.ReadPointer(Current);
      restored := false;
      if ok {
        var previous;
        ok, previous := host.ReadPointer(Previous);
        restored := ok && current == formerCurrent && previous == formerPrevious;
      }
    }

    /** Puts both pointers back, unless what is selected now is not what this
        command selected; then says whether the pair that is read back is the
        former one. */
    method RestorePointers(formerCurrent: Option<Commit>, formerPrevious: Option<Commit>, expectedSelected: Option<Commit>)
      returns (restored: bool, clean: bool)
      requires host.Valid()
      requires Selected(formerCurrent) + Selected(formerPrevious) <= host.state.releases
      modifies host`state, host`trace, host`faults, host`removed, host`lost
      ensures host.Valid() && old(host.trace) <= host.trace && host.faults >= old(host.faults)
      ensures host.state == old(host.state).(current := host.state.current, previous := host.state.previous)
      ensures host.removed == old(host.removed)
      ensures restored ==> host.state.current == formerCurrent && host.state.previous == formerPrevious
      ensures restored && clean <==> host.faults == old(host.faults) && AsSelected(old(host.state), expectedSelected)
      ensures !AsSelected(old(host.state), expectedSelected) ==> host.state == old(host.state)
      ensures Attempted(old(host.state), expectedSelected, host.lost.looks - old(host.lost).looks) ==>
                host.state == Back(old(host.state), formerCurrent, formerPrevious,
                                   host.lost.current == old(host.lost).current,
                                   host.lost.previous == old(host.lost).previous)
      ensures host.state.current in {formerCurrent, old(host.state).current}
      ensures host.state.previous in {formerPrevious, old(host.state).previous}
      ensures NoLess(old(host.lost), host.lost) && host.lost.restarts == old(host.lost).restarts
      ensures host.lost.looks == old(host.lost).looks ==>
                (restored <==> host.state.current == formerCurrent && host.state.previous == formerPrevious)
    {
      hide PointersExist;
      var move := true;
      if expectedSelected.Some? {
        var ok, selected := host.ReadPointer(Current);
        move := ok && selected == expectedSelected;
      }
      clean := move;
      if move {
        clean := MoveBack(formerCurrent, formerPrevious);
      }
      restored := ReadsBack(formerCurrent, formerPrevious);
    }

    /** Recovers from a failure with the pointers moved.  It never raises:
        whatever goes wrong is only noted, and what depends on the pointers
        being right is then left out.  Each pointer is back unless moving that
        pointer failed, whatever becomes of the service and the pruning. */
    method RecoverPostSwitch(formerCurrent: Option<Commit>, formerPrevious: Option<Commit>, expectedSelected: Option<Commit>,
                             service: bool, formerService: bool)
      requires host.Valid()
      requires Selected(formerCurrent) + Selected(formerPrevious) <= host.state.releases
      modifies host
      ensures host.Valid() && old(host.trace) <= host.trace && host.faults >= old(host.faults)
      ensures Recovered(old(host.state), formerCurrent, formerPrevious, service,
                        SeenIf(AsSelected(old(host.state), expectedSelected), old(host.lost), host.lost, host.faults == old(host.faults),
                               expectedSelected.Some?),
                        host.state)
      ensures !AsSelected(old(host.state), expectedSelected) ==>
                host.state.current == old(host.state).current && host.state.previous == old(host.state).previous
      ensures NoLess(old(host.lost), host.lost)
      ensures host.lost.restarts <= old(host.lost).restarts + 1
      ensures host.log == old(host.log)
              || (service && OneDone(old(host.log), host.log, if formerCurrent.None? || !formerService then Stopped else Restarted,
                                     old(host.state).(current := formerCurrent, previous := formerPrevious)))
      ensures host.log != old(host.log) <==> host.lost.restarts > old(host.lost).restarts
    {
      hide PointersExist, Recovered, Attempted;
      ghost var was, log := host.state, host.log;
      var restored, clean := RestorePointers(formerCurrent, formerPrevious, expectedSelected);
      ghost var moved := host.state;
      if restored {
        Settle(service, if formerCurrent.None? || !formerService then Stopped else Restarted);
      }
      IsRecovered(was, moved, host.state, formerCurrent, formerPrevious, expectedSelected, service, restored, old(host.lost), host.lost,
                  host.faults == old(host.faults));
    }

    /** With the former pair back: the service told, and releases pruned. */
    method Settle(service: bool, deed: Deed)
      requires host.Valid()
      modifies host
      ensures host.Valid() && old(host.trace) <= host.trace && host.faults >= old(host.faults)
      ensures host.state == old(host.state).(releases := host.state.releases)
      ensures Retained(old(host.state), {}) <= host.state.releases <= old(host.state).releases
      ensures host.faults == old(host.faults) ==> host.state.releases == Retained(old(host.state), {})
      ensures host.lost == if service then old(host.lost).(restarts := old(host.lost).restarts + 1) else old(host.lost)
      ensures if service then OneDone(old(host.log), host.log, deed, old(host.state)) else host.log == old(host.log)
    {
      hide PointersExist, Retained;
      if service {
        var handled := host.Restart(deed);
      }
      var pruned := host.Prune({});
    }

    /** Installs, starts and looks, each only if what came before went well. */
    method BringUp(service: bool, install: bool, start: Deed) returns (ok: bool)
      modifies host`faults, host`log, host`answers
      ensures host.faults == old(host.faults) + (if ok then 0 else 1)
      ensures Grown(old(host.log), host.log, host.state.current)
      ensures ok ==> host.log == old(host.log) + Bringing(host.state, install, service, start)
    {
      ok := true;
      if install {
        ok := host.Attempt(Installed);
      }
      if ok && service {
        ok := host.Attempt(start);
      }
      if ok {
        ok := CheckHealth(service);
      }
    }

    /** Brings the newly selected release up and, once a look has found it well,
        records the one before it. */
    method RunSelected(service: bool, install: bool, start: Deed, current: Option<Commit>) returns (ok: bool)
      requires host.Valid() && Selected(current) <= host.state.releases
      modifies host
      ensures host.Valid() && old(host.trace) <= host.trace && host.faults == old(host.faults) + (if ok then 0 else 1)
      ensures host.state == if ok then old(host.state).(previous := current) else old(host.state)
      ensures host.lost.looks == old(host.lost).looks && host.lost.restarts == old(host.lost).restarts
      ensures host.lost.current == old(host.lost).current && NoLess(old(host.lost), host.lost)
      ensures Grown(old(host.log), host.log, old(host.state).current)
      ensures ok ==> host.log == old(host.log) + Bringing(old(host.state), install, service, start)
    {
      hide PointersExist, Bringing, Grown;
      ok := BringUp(service, install, start);
      if ok {
        ok := host.SelectPointer(Previous, current);
      }
    }

    /** Selects a release that exists, brings it up, and prunes; or recovers. */
    method Switch(commit: Commit, current: Option<Commit>, previous: Option<Commit>, service: bool, formerService: bool,
                  install: bool, start: Deed, expected: bool) returns (out: Outcome)
      requires host.Valid() && commit in host.state.releases && host.state.current == current && host.state.previous == previous
      modifies host
      ensures host.Valid() && old(host.trace) <= host.trace && host.faults >= old(host.faults)
      ensures out in {Completed, Raised(BeforeSwitch), Raised(WhileSwitched), Raised(AfterSwitch)}
      ensures out.Raised? <==> host.faults > old(host.faults)
      ensures out.Completed? ==> host.state == Deployed(old(host.state), commit)
      ensures out == Raised(BeforeSwitch) ==> host.state == old(host.state) && host.log == old(host.log)
      ensures old(host.log) <= host.log
      ensures out.Completed? || out == Raised(AfterSwitch) ==>
                host.log == old(host.log) + Bringing(old(host.state).(current := Some(commit)), install, service, start)
      ensures out == Raised(WhileSwitched) ==>
                Recovered(old(host.state).(current := Some(commit)), current, previous, service,
                          SeenSince(old(host.lost), host.lost, host.faults == old(host.faults) + 1, expected), host.state)
      ensures NoLess(old(host.lost), host.lost)
      ensures out == Raised(AfterSwitch) ==> PairRestored(host.state, Deployed(old(host.state), commit))
      ensures out.Raised? ==> Selected(current) <= host.state.releases <= old(host.state).releases
      ensures out == Raised(WhileSwitched) ==> Selected(current) + Selected(previous) <= host.state.releases
      ensures host.state.registry == old(host.state).registry && host.state.interrupted == old(host.state).interrupted
    {
      hide PointersExist, Bringing, Grown, OneDone, Recovered, SeenSince;
      PairExists(host.state);
      var ok := host.SelectPointer(Current, Some(commit));
      if !ok {
        return Raised(BeforeSwitch);
      }
      ghost var before := host.log;
      ok := RunSelected(service, install, start, current);
      GrownPrefix(before, host.log, Some(commit));
      if !ok {
        ghost var tried, was := host.log, host.state;
        ghost var lost, faults := host.lost, host.faults;
        RecoverPostSwitch(current, previous, if expected then Some(commit) else None, service, formerService);
        OneDonePrefix(tried, host.log, if current.None? || !formerService then Stopped else Restarted);
        RecoveredEarlier(was, current, previous, service, old(host.lost), lost, host.lost, host.faults == old(host.faults) + 1,
                         host.faults == faults, expected, host.state);
        return Raised(WhileSwitched);
      }
      ok := host.Prune({});
      out := if ok then Completed else Raised(AfterSwitch);
    }

    /** Nothing to deploy: the release that is already current must be up. */
    method KeepRunning(service: bool, expectedCurrent: Option<Option<Commit>>) returns (ok: bool)
      requires host.Valid()
      modifies host`faults, host`lost, host`log, host`answers
      ensures Grown(old(host.log), host.log, host.state.current)
      ensures ok ==> host.log == old(host.log) + Keeping(host.state, service)
      ensures host.faults >= old(host.faults)
      ensures ok <==> host.faults == old(host.faults) && (expectedCurrent.Some? ==> expectedCurrent.value == host.state.current)
    {
      var seen;
      ok, seen := CurrentUnderExpectations(expectedCurrent);
      if ok && service {
        ok := host.Attempt(Started);
      }
      if ok {
        ok := CheckHealth(service);
      }
    }

    /** Reuses a complete release or builds it, then looks again. */
    method EnsureRelease(commit: Commit, expectedCurrent: Option<Option<Commit>>) returns (ok: bool)
      requires host.Valid()
      modifies host
      ensures host.Valid() && old(host.trace) <= host.trace && host.faults >= old(host.faults)
      ensures host.state == old(host.state).(releases := host.state.releases)
      ensures host.state.releases == old(host.state).releases || host.state.releases == old(host.state).releases + {commit}
      ensures ok ==> commit in host.state.releases && host.faults == old(host.faults)
      ensures ok ==> host.state == old(host.state).(releases := old(host.state).releases + {commit})
      ensures ok && expectedCurrent.Some? ==> expectedCurrent.value == host.state.current
      ensures !ok ==> host.faults > old(host.faults) || (expectedCurrent.Some? && expectedCurrent.value != host.state.current)
      ensures NoLess(old(host.lost), host.lost) && host.lost == old(host.lost).(looks := host.lost.looks)
      ensures Grown(old(host.log), host.log, host.state.current)
      ensures ok ==> host.log == old(host.log) + Ensuring(old(host.state), host.state, commit)
    {
      if commit !in host.state.releases {
        ok := host.Build(commit);
        if !ok {
          return;
        }
      } else {
        assert host.state.releases + {commit} == host.state.releases;
      }
      var seen;
      ok, seen := CurrentUnderExpectations(expectedCurrent);
    }

    /** Makes sure of a release that is not current, and switches to it. */
    method Renew(commit: Commit, current: Option<Commit>, previous: Option<Commit>, service: bool, formerService: bool,
                 install: bool, expectedCurrent: Option<Option<Commit>>) returns (out: Outcome)
      requires host.Valid() && host.state.current == current && host.state.previous == previous && current != Some(commit)
      modifies host
      ensures host.Valid() && old(host.trace) <= host.trace && host.faults >= old(host.faults)
      ensures out in {Completed, Raised(BeforeSwitch), Raised(WhileSwitched), Raised(AfterSwitch)}
      ensures out.Raised? <==> host.faults > old(host.faults) || (expectedCurrent.Some? && expectedCurrent.value != current)
      ensures out.Completed? ==> host.state == Deployed(old(host.state), commit)
      ensures out.Completed? || out == Raised(AfterSwitch) ==>
                host.log == old(host.log) + Renewing(old(host.state), commit, install, service)
      ensures out == Raised(BeforeSwitch) ==>
                && PairRestored(host.state, old(host.state)) && Grown(old(host.log), host.log, current)
                && (host.state.releases == old(host.state).releases || host.state.releases == old(host.state).releases + {commit})
      ensures out == Raised(WhileSwitched) ==>
                Recovered(Selecting(old(host.state), commit), current, previous, service,
                          SeenSince(old(host.lost), host.lost, host.faults == old(host.faults) + 1, expectedCurrent.Some?),
                          host.state)
      ensures out == Raised(AfterSwitch) ==> PairRestored(host.state, Deployed(old(host.state), commit))
      ensures out.Raised? ==> Selected(current) <= host.state.releases
      ensures NoLess(old(host.lost), host.lost)
      ensures host.state.registry == old(host.state).registry && host.state.interrupted == old(host.state).interrupted
    {
      hide PointersExist, Retained, Bringing, Ensuring, Grown, Recovered, OneDone, SeenSince;
      PairExists(host.state);
      ghost var s, before := host.state, host.log;
      var ok := EnsureRelease(commit, expectedCurrent);
      ghost var ensured := host.log;
      if !ok {
        return Raised(BeforeSwitch);
      }
      ghost var lost, faults := host.lost, host.faults;
      out := Switch(commit, current, previous, service, formerService, install, Started, expectedCurrent.Some?);
      if out.Completed? || out == Raised(AfterSwitch) {
        JoinRenewing(before, ensured, host.log, s, commit, install, service);
      } else if out == Raised(WhileSwitched) {
        RecoveredEarlier(Selecting(s, commit), current, previous, service, old(host.lost), lost, host.lost,
                         host.faults == old(host.faults) + 1, host.faults == faults + 1, expectedCurrent.Some?, host.state);
      }
    }

    /** Reads both pointers and the commit to deploy, and checks them against
        what the caller expected. */
    method LookFirst(commit: Commit, expectedCommit: Option<Commit>, expectedCurrent: Option<Option<Commit>>)
      returns (ok: bool, current: Option<Commit>, previous: Option<Commit>)
      requires host.Valid()
      modifies host`faults, host`lost, host`log
      ensures Grown(old(host.log), host.log, host.state.current)
      ensures ok ==> host.log == old(host.log) + [Well(host.state, Asked(LockedCheck)), Well(host.state, Asked(SourceTarget))]
      ensures host.faults >= old(host.faults) && NoLess(old(host.lost), host.lost) && host.lost == old(host.lost).(looks := host.lost.looks)
      ensures ok ==> current == host.state.current && previous == host.state.previous
      ensures ok <==> host.faults == old(host.faults) && AsExpected(host.state, commit, expectedCommit, expectedCurrent)
    {
      previous := None;
      ok, current := CurrentUnderExpectations(expectedCurrent);
      if ok {
        ok, previous := host.ReadPointer(Previous);
      }
      if ok {
        ok := host.Attempt(Asked(SourceTarget));
        ok := ok && (expectedCommit.Some? ==> expectedCommit.value == commit);
      }
    }

    /** Deploys `commit`.  It raises exactly when something failed or what the
        caller expected is not there. */
    method Deploy(commit: Commit, fromHook: bool, onMain: bool, autoDeploy: bool, service: bool, formerService: bool,
                  withInstall: bool, expectedCommit: Option<Commit>, expectedCurrent: Option<Option<Commit>>)
      returns (out: Outcome)
      requires host.Valid()
      modifies host
      ensures host.Valid() && old(host.trace) <= host.trace && host.faults >= old(host.faults)
      ensures out.Skipped? || out.Unchanged? ==> host.state == old(host.state)
      ensures out.Completed? ==> host.state == Deployed(old(host.state), commit) && old(host.state).current != Some(commit)
      ensures out.Skipped? ==> host.log == old(host.log) + Opening(old(host.state), false, service, formerService)
      ensures out.Unchanged? ==> host.log == old(host.log) + KeepLog(old(host.state), withInstall, service, formerService)
      ensures out.Completed? || out == Raised(AfterSwitch) ==>
                host.log == old(host.log) + DeployLog(old(host.state), commit, withInstall, service, formerService)
      ensures BadLook(host.log, |old(host.log)|, Some(commit)) ==>
                out == Raised(WhileSwitched) || (out == Raised(BeforeSwitch) && old(host.state).current == Some(commit))
      ensures out == Raised(BeforeSwitch) ==>
                && PairRestored(host.state, old(host.state)) && Grown(old(host.log), host.log, old(host.state).current)
                && (host.state.releases == old(host.state).releases || host.state.releases == old(host.state).releases + {commit})
      ensures out == Raised(WhileSwitched) ==>
                Recovered(Selecting(old(host.state), commit), old(host.state).current, old(host.state).previous, service,
                          SeenSince(old(host.lost), host.lost, host.faults == old(host.faults) + 1, expectedCurrent.Some?),
                          host.state)
      ensures out == Raised(AfterSwitch) ==> PairRestored(host.state, Deployed(old(host.state), commit))
      ensures out.Raised? ==> Selected(old(host.state).current) <= host.state.releases
      ensures out.Raised? <==> host.faults > old(host.faults)
                               || !AsExpected(old(host.state), commit, expectedCommit, expectedCurrent)
      ensures out.Skipped? <==> !out.Raised? && fromHook && (!onMain || !autoDeploy)
      ensures out.Unchanged? <==> !out.Raised? && !out.Skipped? && old(host.state).current == Some(commit)
      ensures out.Completed? <==> !out.Raised? && !out.Skipped? && old(host.state).current != Some(commit)
      ensures host.state.registry == old(host.state).registry && host.state.interrupted == old(host.state).interrupted
    {
      hide PointersExist, Retained, RolledBack, Renewing, Keeping, Opening, DeployLog, KeepLog, Grown, BadLook, AllOk,
           Defers, OneDone, Recovered, SeenSince;
      PairExists(host.state);
      ghost var s, before := host.state, host.log;
      var ok, current, previous := LookFirst(commit, expectedCommit, expectedCurrent);
      ghost var looked := host.log;
      DeployBad(before, looked, s.current, commit);
      if !ok {
        return Raised(BeforeSwitch);
      }
      if fromHook && (!onMain || !autoDeploy) {
        OpeningOnly(before, looked, s, service, formerService, commit);
        return Skipped;
      }
      var deferInstall := Defers(withInstall, service, formerService);
      if withInstall && !deferInstall {
        ok := host.Attempt(Installed);
        GrownOne(looked, host.log, Installed, host.state);
        GrownMore(before, looked, host.log, s.current);
        DeployBad(before, host.log, s.current, commit);
        if !ok {
          return Raised(BeforeSwitch);
        }
      }
      ghost var ready := host.log;
      if current == Some(commit) {
        ok := KeepRunning(service, expectedCurrent);
        GrownMore(before, ready, host.log, s.current);
        DeployBad(before, host.log, s.current, commit);
        if ok {
          JoinKeep(before, looked, ready, host.log, s, withInstall, service, formerService);
          NoBadLook(before, host.log, KeepLog(s, withInstall, service, formerService), Some(commit));
        }
        return if ok then Unchanged else Raised(BeforeSwitch);
      }
      ghost var lost, faults := host.lost, host.faults;
      out := Renew(commit, current, previous, service, formerService, deferInstall, expectedCurrent);
      if out.Completed? || out == Raised(AfterSwitch) {
        JoinDeploy(before, looked, ready, host.log, s, commit, withInstall, service, formerService);
        DeployLogOk(s, commit, withInstall, service, formerService);
        NoBadLook(before, host.log, DeployLog(s, commit, withInstall, service, formerService), Some(commit));
      } else if out == Raised(WhileSwitched) {
        RecoveredEarlier(Selecting(s, commit), current, previous, service, old(host.lost), lost, host.lost,
                         host.faults == old(host.faults) + 1, host.faults == faults + 1, expectedCurrent.Some?, host.state);
      } else {
        GrownMore(before, ready, host.log, s.current);
        DeployBad(before, host.log, s.current, commit);
      }
    }

    /** Exchanges the two pointers. */
    method Rollback(service: bool) returns (out: Outcome)
      requires host.Valid()
      modifies host
      ensures host.Valid() && old(host.trace) <= host.trace && host.faults >= old(host.faults)
      ensures out.Unavailable? ==> host.state == old(host.state)
      ensures out.Raised? <==> host.faults > old(host.faults)
      ensures out.Unavailable? <==> !out.Raised? && (old(host.state).current.None? || old(host.state).previous.None?)
      ensures out.Completed? <==> !out.Raised? && old(host.state).current.Some? && old(host.state).previous.Some?
      ensures out.Completed? ==> host.state == RolledBack(old(host.state))
      ensures out.Completed? || out == Raised(AfterSwitch) ==> host.log == old(host.log) + RollbackLog(old(host.state), service)
      ensures out.Unavailable? ==> host.log == old(host.log) + [Well(old(host.state), Asked(SourceTarget))]
      ensures out == Raised(BeforeSwitch) ==> host.state == old(host.state) && Grown(old(host.log), host.log, old(host.state).current)
      ensures BadLook(host.log, |old(host.log)|, old(host.state).previous) ==>
                out == Raised(WhileSwitched) || old(host.state).current == old(host.state).previous
      ensures out == Raised(WhileSwitched) ==>
                Recovered(old(host.state).(current := old(host.state).previous), old(host.state).current, old(host.state).previous, service,
                          SeenSince(old(host.lost), host.lost, host.faults == old(host.faults) + 1, false), host.state)
      ensures out == Raised(AfterSwitch) ==> PairRestored(host.state, RolledBack(old(host.state)))
      ensures Selected(old(host.state).current) + Selected(old(host.state).previous) <= host.state.releases
    {
      hide PointersExist, Bringing, RollbackLog, BadLook, Grown, AllOk, Recovered, OneDone, Retained;
      PairExists(host.state);
      ghost var s, before := host.state, host.log;
      var ok := host.Attempt(Asked(SourceTarget));
      GrownOne(before, host.log, Asked(SourceTarget), s);
      DeployBadAt(before, host.log, s.current, s.previous);
      if !ok {
        return Raised(BeforeSwitch);
      }
      var current, previous;
      ok, current := host.ReadPointer(Current);
      if !ok {
        return Raised(BeforeSwitch);
      }
      ok, previous := host.ReadPointer(Previous);
      if !ok {
        return Raised(BeforeSwitch);
      }
      if current.None? || previous.None? {
        return Unavailable;
      }
      ghost var asked := host.log;
      out := Switch(previous.value, current, previous, service, service, false, Restarted, false);
      if out.Completed? || out == Raised(AfterSwitch) {
        JoinRollback(before, asked, host.log, s, service);
        NoBadLook(before, host.log, RollbackLog(s, service), previous);
      }
      PairExists(host.state);
    }
  }
}
