/** Migrating an application to a new public base path: a registry revision, a
    new release and two pointers, changed together or put back together. */
module BasePathMigration {
  import opened Common
  import opened ReleasePointers
  import opened Deployment

  datatype Plan = Plan(
    before: Bytes,
    candidate: Bytes,
    target: Commit,
    formerCurrent: Commit,
    formerPrevious: Option<Commit>,
    formerReleases: set<Commit>)

  datatype Result =
    | AlreadyCurrent
    | ValidationFailed
    | RegistryFailed
    | DeploymentFailed
    | VerificationFailed
    | RecoveryFailed
    | Migrated

  datatype Transition = Succeeded | Broken(verification: bool) | RecoveryBroken

  function FormerPair(p: Plan): set<Commit> { {p.formerCurrent} + Selected(p.formerPrevious) }

  predicate AtFormerPair(s: HostState, p: Plan) {
    s.current == Some(p.formerCurrent) && s.previous == p.formerPrevious
  }

  /** The host exactly as the plan found it. */
  predicate Untouched(s: HostState, p: Plan) {
    s.registry == p.before && !s.interrupted && AtFormerPair(s, p) && s.releases == p.formerReleases
  }

  predicate AtFinalPair(s: HostState, p: Plan) {
    s.current == Some(p.target) && s.previous == Some(p.formerCurrent)
  }

  /** The host as a migration leaves it. */
  predicate Finished(s: HostState, p: Plan) {
    && s.registry == p.candidate && !s.interrupted && AtFinalPair(s, p)
    && s.releases == {p.target} + FormerPair(p)
  }

  predicate PlanOk(p: Plan) {
    p.before != p.candidate && p.target !in p.formerReleases && FormerPair(p) <= p.formerReleases
  }

  /** A host on which there is something to migrate from and room for the
      target. */
  predicate Migratable(s: HostState, before: Bytes, target: Commit) {
    && s.registry == before && !s.interrupted && s.current.Some?
    && s.current != Some(target) && target !in s.releases
  }

  /** What no step of a migration undoes: the pair's releases stay, nothing but
      the target is added, and a former release once gone is gone. */
  predicate WithinPlan(s: HostState, removed: set<Commit>, p: Plan) {
    && PlanOk(p) && FormerPair(p) <= s.releases <= p.formerReleases + {p.target}
    && removed * p.formerReleases * s.releases == {}
    && (p.formerReleases <= s.releases || removed * p.formerReleases != {})
  }

  /** One failure alone cannot explain the end of this run: there were two, or
      the registry publication was itself cut short, or a former release nobody
      pointed at had been pruned, or the deployment had already succeeded. */
  predicate Excused(s: HostState, p: Plan, faults: nat) {
    faults >= 2 || s.interrupted || !(p.formerReleases <= s.releases) || AtFinalPair(s, p)
  }

  // ----- what is done and asked, in order -----------------------------------

  function AskRegistry(s: HostState): seq<Entry> { [Well(s, Asked(StoredRegistry))] }

  function AskBoth(s: HostState): seq<Entry> { [Well(s, Asked(StoredRegistry)), Well(s, Asked(SourceTarget))] }

  function LockedLog(s: HostState): seq<Entry> { AskBoth(s) + [Well(s, Asked(ReleaseList))] }

  function LoadLog(s: HostState): seq<Entry> { AskBoth(s) + [Well(s, Asked(LoadedRegistry)), Well(s, Asked(StoredRegistry))] }

  function InstallLog(s: HostState): seq<Entry> { AskBoth(s) + [Well(s, Installed)] + AskBoth(s) }

  function VerifyLog(s: HostState): seq<Entry> { LoadLog(s) + [Well(s, Verified)] + AskBoth(s) + [Well(s, Judged)] }

  /** Bringing the target up, selected, under the candidate registry. */
  function TransitionLog(s: HostState): seq<Entry> {
    InstallLog(s) + [Well(s, Started), Well(s, Looked)] + VerifyLog(s)
  }

  function FinalLog(s: HostState): seq<Entry> { AskBoth(s) + [Well(s, Asked(ReleaseList))] }

  function RestoreLog(s: HostState, p: Plan): seq<Entry> {
    var back := s.(registry := p.before);
    AskRegistry(s) + AskRegistry(back) + [Well(back, Installed)] + AskRegistry(back)
  }

  function RemoveLog(s: HostState, p: Plan): seq<Entry> {
    [Well(s, Asked(ReleaseList))]
    + (if s.releases == p.formerReleases then [] else [Well(s.(releases := p.formerReleases), Asked(ReleaseList))])
  }

  /** Serving from the restored registry, and what is looked at afterwards. */
  function RestoredLog(s: HostState, p: Plan): seq<Entry> {
    var after := s.(releases := p.formerReleases);
    [Well(s, Asked(StoredRegistry)), Well(s, Asked(LoadedRegistry)), Well(s, Asked(StoredRegistry)), Well(s, Verified),
     Well(s, Asked(StoredRegistry))]
    + RemoveLog(s, p) + AskBoth(after) + [Well(after, Asked(ReleaseList))]
  }

  function RecoveryLog(s: HostState, p: Plan): seq<Entry> {
    var back := s.(registry := p.before);
    RestoreLog(s, p) + [Well(back, Started), Well(back, Looked)] + RestoredLog(back, p)
  }

  /** The host with the target built, then selected, then everything done. */
  function WithTarget(s: HostState, p: Plan): HostState { s.(releases := p.formerReleases + {p.target}) }

  function WithSelected(s: HostState, p: Plan): HostState { WithTarget(s, p).(current := Some(p.target)) }

  function AtEnd(s: HostState, p: Plan): HostState {
    s.(current := Some(p.target), previous := Some(p.formerCurrent), releases := {p.target} + FormerPair(p))
  }

  function DeploymentLog(s: HostState, p: Plan): seq<Entry> {
    LockedLog(s) + [Well(s, Asked(SourceTarget))] + [Well(WithTarget(s, p), Built)] + LockedLog(WithTarget(s, p))
    + TransitionLog(WithSelected(s, p)) + FinalLog(AtEnd(s, p)) + [Well(AtEnd(s, p), Asked(SourceTarget))]
  }

  function PreviewLog(s: HostState): seq<Entry> {
    [Well(s, Asked(CleanProfile)), Well(s, Asked(FreshPlan)), Well(s, Asked(StoredRegistry)), Well(s, Asked(CleanCheckout)),
     Well(s, Asked(SourceTarget)), Well(s, Asked(ReleaseList))]
  }

  function TransitLog(s: HostState, p: Plan): seq<Entry> {
    LoadLog(s) + DeploymentLog(s, p) + FinalLog(AtEnd(s, p))
  }

  /** Everything a migration that succeeds does. */
  function MigrationLog(s: HostState, p: Plan): seq<Entry> {
    [Well(s, Asked(FreshPlan))] + PreviewLog(s) + TransitLog(s.(registry := p.candidate), p)
  }

  /** More was done, none of it a verification. */
  predicate Plain(before: seq<Entry>, after: seq<Entry>) {
    before <= after && forall i :: |before| <= i < |after| ==> !after[i].deed.Judged?
  }

  /** No build was begun. */
  predicate Unbuilt(before: seq<Entry>, after: seq<Entry>) {
    before <= after && forall i :: |before| <= i < |after| ==> !after[i].deed.Built?
  }

  /** Some verification, taken as a whole, failed. */
  predicate JudgedBad(log: seq<Entry>, from: nat) {
    exists i :: from <= i < |log| && log[i].deed.Judged? && !log[i].ok
  }

  lemma PlainMore(a: seq<Entry>, b: seq<Entry>, c: seq<Entry>)
    requires Plain(a, b) && Plain(b, c)
    ensures Plain(a, c)
  {
    forall i | |a| <= i < |c| ensures !c[i].deed.Judged? {
      if i < |b| {
        assert c[i] == b[i];
      }
    }
  }

  lemma PlainFine(a: seq<Entry>, b: seq<Entry>)
    requires Plain(a, b)
    ensures a <= b && !JudgedBad(b, |a|)
  {
  }

  /** What is done around a verification does not judge it. */
  lemma JudgedAround(a: seq<Entry>, b: seq<Entry>, c: seq<Entry>, d: seq<Entry>)
    requires Plain(a, b) && b <= c && Plain(c, d)
    ensures a <= d && (JudgedBad(d, |a|) <==> JudgedBad(c, |b|))
  {
    if JudgedBad(c, |b|) {
      var i :| |b| <= i < |c| && c[i].deed.Judged? && !c[i].ok;
      assert d[i] == c[i];
    }
    if !JudgedBad(c, |b|) {
      forall i | |a| <= i < |d| ensures !d[i].deed.Judged? || d[i].ok {
        if i < |b| {
          assert d[i] == b[i];
        } else if i < |c| {
          assert d[i] == c[i];
        }
      }
    }
  }

  /** The last thing done was to serve from the restored registry, with the
      former pair in place, and look at everything once more. */
  ghost predicate RestoredSeen(log: seq<Entry>, from: nat, p: Plan) {
    exists s :: RestoredFrom(log, from, p, s)
  }

  predicate RestoredFrom(log: seq<Entry>, from: nat, p: Plan, s: HostState) {
    && s.registry == p.before && !s.interrupted && AtFormerPair(s, p)
    && |log| >= from + |RestoredLog(s, p)| && log[|log| - |RestoredLog(s, p)|..] == RestoredLog(s, p)
  }

  lemma SeenRestored(before: seq<Entry>, after: seq<Entry>, p: Plan, s: HostState, from: nat)
    requires after == before + RestoredLog(s, p) && from <= |before|
    requires s.registry == p.before && !s.interrupted && AtFormerPair(s, p)
    ensures RestoredSeen(after, from, p)
  {
    hide RestoredLog;
    assert RestoredFrom(after, from, p, s);
  }

  /** A verification judges once, at its end. */
  lemma JudgedLast(before: seq<Entry>, loaded: seq<Entry>, tried: seq<Entry>, after: seq<Entry>)
    requires Plain(before, loaded) && Plain(loaded, tried)
    requires |after| == |tried| + 1 && after == tried + [after[|tried|]] && after[|tried|].deed.Judged?
    ensures before <= after && (JudgedBad(after, |before|) <==> !after[|tried|].ok)
  {
    PlainMore(before, loaded, tried);
    if !after[|tried|].ok {
      assert |before| <= |tried| < |after|;
    }
  }

  lemma PlainNothing(log: seq<Entry>)
    ensures Plain(log, log)
  {
  }

  lemma PlainOne(before: seq<Entry>, after: seq<Entry>, deed: Deed, s: HostState)
    requires OneDone(before, after, deed, s) && !deed.Judged?
    ensures Plain(before, after)
  {
  }

  lemma RestoredEarlier(log: seq<Entry>, from: nat, later: nat, p: Plan)
    requires from <= later
    ensures RestoredSeen(log, later, p) ==> RestoredSeen(log, from, p)
  {
    hide RestoredLog;
    if RestoredSeen(log, later, p) {
      var s :| RestoredFrom(log, later, p, s);
      assert RestoredFrom(log, from, p, s);
    }
  }

  lemma JoinTransition(a: seq<Entry>, b: seq<Entry>, c: seq<Entry>, d: seq<Entry>, s: HostState)
    requires b == a + InstallLog(s) && c == b + [Well(s, Started)] + [Well(s, Looked)] && d == c + VerifyLog(s)
    ensures d == a + TransitionLog(s)
  {
    hide InstallLog, VerifyLog;
  }

  lemma JoinRecovery(a: seq<Entry>, b: seq<Entry>, c: seq<Entry>, d: seq<Entry>, s: HostState, back: HostState, p: Plan)
    requires b == a + RestoreLog(s, p) && back == s.(registry := p.before)
    requires c == b + [Well(back, Started)] + [Well(back, Looked)] && d == c + RestoredLog(back, p)
    ensures d == a + RecoveryLog(s, p)
  {
    hide RestoreLog, RestoredLog;
  }

  lemma JoinDeployment(a: seq<Entry>, b: seq<Entry>, c: seq<Entry>, d: seq<Entry>, s: HostState, p: Plan)
    requires b == a + LockedLog(s) + [Well(s, Asked(SourceTarget))]
    requires c == b + [Well(WithTarget(s, p), Built)] + LockedLog(WithTarget(s, p))
    requires var u := WithSelected(s, p);
             d == c + TransitionLog(u) + FinalLog(AtEnd(u, p)) + [Well(AtEnd(u, p), Asked(SourceTarget))]
    ensures d == a + DeploymentLog(s, p)
  {
    hide LockedLog, TransitionLog, FinalLog;
    assert AtEnd(WithSelected(s, p), p) == AtEnd(s, p);
  }

  lemma NoneJudged(before: seq<Entry>, after: seq<Entry>, s: HostState, p: Plan)
    requires after == before + DeploymentLog(s, p)
    ensures !JudgedBad(after, |before|)
  {
    forall i | |before| <= i < |after| ensures after[i].ok {
      assert after[i] == DeploymentLog(s, p)[i - |before|];
    }
  }

  lemma EndsFinished(s: HostState, end: HostState, p: Plan)
    requires Finished(end, p) && s.registry == p.candidate && !s.interrupted
    ensures end == AtEnd(s, p)
  {
  }

  lemma JoinTransit(a: seq<Entry>, b: seq<Entry>, c: seq<Entry>, d: seq<Entry>, s: HostState, p: Plan)
    requires b == a + LoadLog(s) && c == b + DeploymentLog(s, p) && d == c + FinalLog(AtEnd(s, p))
    ensures d == a + TransitLog(s, p)
  {
    hide LoadLog, DeploymentLog, FinalLog, AtEnd;
  }

  lemma JoinMigration(a: seq<Entry>, b: seq<Entry>, c: seq<Entry>, d: seq<Entry>, s: HostState, p: Plan)
    requires b == a + [Well(s, Asked(FreshPlan))] && c == b + PreviewLog(s) && d == c + TransitLog(s.(registry := p.candidate), p)
    ensures d == a + MigrationLog(s, p)
  {
    hide PreviewLog, TransitLog;
  }

  /** What a migration that succeeded has done, with the target selected and the
      former release not yet recorded: installed from the candidate registry,
      then found the new release well, then verified it. */
  lemma MigrationBringsUp(s: HostState, p: Plan)
    ensures var log, u := MigrationLog(s, p), WithSelected(s.(registry := p.candidate), p);
            && u.current == Some(p.target) && u.registry == p.candidate && u.previous == s.previous
            && exists i, j, k :: 0 <= i < j < k < |log| && log[i] == Well(u, Installed) && log[j] == Well(u, Looked)
                                 && log[k] == Well(u, Verified)
  {
    var c := s.(registry := p.candidate);
    var u := WithSelected(c, p);
    var log := MigrationLog(s, p);
    var before := [Well(s, Asked(FreshPlan))] + PreviewLog(s) + LoadLog(c) + LockedLog(c) + [Well(c, Asked(SourceTarget))]
                  + [Well(WithTarget(c, p), Built)] + LockedLog(WithTarget(c, p));
    var after := FinalLog(AtEnd(c, p)) + [Well(AtEnd(c, p), Asked(SourceTarget))] + FinalLog(AtEnd(c, p));
    assert log == before + TransitionLog(u) + after;
    var n := |before|;
    assert TransitionLog(u)[2] == Well(u, Installed) && TransitionLog(u)[6] == Well(u, Looked) && TransitionLog(u)[11] == Well(u, Verified);
    assert log[n + 2] == Well(u, Installed) && log[n + 6] == Well(u, Looked) && log[n + 11] == Well(u, Verified);
  }

  class Migrator {
    const host: Host
    const deployer: Deployer
    var lockedValidations: nat
    var restoredVerified: bool

    constructor (host: Host)
      ensures this.host == host && deployer.host == host
    {
      this.host := host;
      this.deployer := new Deployer(host);
      lockedValidations, restoredVerified := 0, false;
    }

    ghost predicate Under(p: Plan)
      reads this, host, deployer
    {
      deployer.host == host && host.Valid() && WithinPlan(host.state, host.removed, p)
    }

    /** The store and the registry file must both read back as `expected`. */
    method RequireRegistry(expected: Bytes) returns (ok: bool)
      modifies host`faults, host`log
      ensures host.faults >= old(host.faults)
      ensures ok ==> !host.state.interrupted && host.state.registry == expected && host.faults == old(host.faults)
      ensures !ok ==> host.faults == old(host.faults) + 1 || host.state.interrupted || host.state.registry != expected
      ensures Plain(old(host.log), host.log) && (ok ==> host.log == old(host.log) + AskRegistry(host.state))
      ensures Unbuilt(old(host.log), host.log)
    {
      ok := host.Attempt(Asked(StoredRegistry));
      if ok {
        ok := !host.state.interrupted && host.state.registry == expected;
      }
    }

    method ReadPair() returns (ok: bool, current: Option<Commit>, previous: Option<Commit>)
      requires host.Valid()
      modifies host`faults, host`lost, host`log
      ensures host.faults == old(host.faults) + (if ok then 0 else 1)
      ensures ok ==> current == host.state.current && previous == host.state.previous
      ensures host.log == old(host.log) && host.lost.current == old(host.lost).current
    {
      previous := None;
      ok, current := host.ReadPointer(Current);
      if ok {
        ok, previous := host.ReadPointer(Previous);
      }
    }

    method RequireFormerPointers(p: Plan) returns (ok: bool)
      requires host.Valid()
      modifies host`faults, host`lost, host`log
      ensures host.faults >= old(host.faults) && (ok ==> AtFormerPair(host.state, p) && host.faults == old(host.faults))
      ensures !ok ==> host.faults == old(host.faults) + 1 || !AtFormerPair(host.state, p)
      ensures host.log == old(host.log) && host.lost.current == old(host.lost).current
    {
      var current, previous;
      ok, current, previous := ReadPair();
      ok := ok && current == Some(p.formerCurrent) && previous == p.formerPrevious;
    }

    /** Publishes a registry revision.  One that fails may have been published
        all the same, or been cut short with recovery pending. */
    method PublishRegistry(from: Bytes, to: Bytes) returns (ok: bool)
      requires host.Valid()
      modifies host
      ensures host.Valid() && host.faults >= old(host.faults) && host.removed == old(host.removed) && old(host.trace) <= host.trace
      ensures host.state == old(host.state).(registry := host.state.registry, interrupted := host.state.interrupted)
      ensures ok ==> host.state.registry == to && !host.state.interrupted && host.faults == old(host.faults) && old(host.state).registry == from
      ensures !ok ==> host.faults == old(host.faults) + 1 || old(host.state).interrupted || old(host.state).registry != from
      ensures !ok && !host.state.interrupted ==> host.state.registry == to || host.state.registry == old(host.state).registry
      ensures host.log == old(host.log)
    {
      if host.state.interrupted || host.state.registry != from {
        return false;
      }
      var done: bool := *;
      var partial: bool := *;
      if !done && !partial {
        ok := host.Change(host.state.(registry := to));
        return;
      }
      var moved := *;
      var next := host.state.(registry := if moved then to else from, interrupted := partial);
      var effect := host.Change(next);
      if effect {
        host.Note();
      }
      ok := false;
    }

    /** Checks everything once before the build and once after it. */
    method ValidateLocked(p: Plan) returns (ok: bool)
      requires Under(p)
      modifies host`faults, host`lost, host`log, this`lockedValidations
      ensures host.faults >= old(host.faults) && (ok ==> host.faults == old(host.faults))
      ensures lockedValidations == old(lockedValidations) + (if ok then 1 else 0)
      ensures ok ==> host.state.registry == p.candidate && !host.state.interrupted && AtFormerPair(host.state, p)
      ensures ok ==> host.state.releases == if old(lockedValidations) == 0 then p.formerReleases else p.formerReleases + {p.target}
      ensures !ok ==> host.faults == old(host.faults) + 1 || host.state.registry != p.candidate || host.state.interrupted
                      || !AtFormerPair(host.state, p)
                      || host.state.releases != (if old(lockedValidations) == 0 then p.formerReleases else p.formerReleases + {p.target})
      ensures Plain(old(host.log), host.log) && (ok ==> host.log == old(host.log) + LockedLog(host.state))
      ensures Unbuilt(old(host.log), host.log) && host.lost.current == old(host.lost).current
    {
      ok := RequireBoth(p);
      if ok {
        ok := RequireFormerPointers(p);
      }
      if ok {
        ok := host.Attempt(Asked(ReleaseList));
      }
      if ok {
        ok := host.state.releases == if lockedValidations == 0 then p.formerReleases else p.formerReleases + {p.target};
      }
      if ok {
        lockedValidations := lockedValidations + 1;
      }
    }

    /** The candidate registry is there, and the source where the plan saw it. */
    method RequireBoth(p: Plan) returns (ok: bool)
      modifies host`faults, host`log
      ensures host.faults >= old(host.faults) && (ok ==> host.faults == old(host.faults))
      ensures ok ==> host.state.registry == p.candidate && !host.state.interrupted
      ensures !ok ==> host.faults == old(host.faults) + 1 || host.state.registry != p.candidate || host.state.interrupted
      ensures Plain(old(host.log), host.log) && (ok ==> host.log == old(host.log) + AskBoth(host.state))
      ensures Unbuilt(old(host.log), host.log)
    {
      ok := RequireRegistry(p.candidate);
      if ok {
        ok := host.Attempt(Asked(SourceTarget));
      }
    }

    /** Loads the candidate registry, which must be the same before and after. */
    method LoadCandidate(p: Plan) returns (ok: bool)
      modifies host`faults, host`log
      ensures host.faults >= old(host.faults) && (ok ==> host.faults == old(host.faults))
      ensures !ok ==> host.faults == old(host.faults) + 1 || host.state.registry != p.candidate || host.state.interrupted
      ensures Plain(old(host.log), host.log) && (ok ==> host.log == old(host.log) + LoadLog(host.state))
    {
      ok := RequireBoth(p);
      if ok {
        ok := host.Attempt(Asked(LoadedRegistry));
      }
      if ok {
        ok := RequireRegistry(p.candidate);
      }
    }

    /** Installs from the candidate registry. */
    method InstallCandidate(p: Plan) returns (ok: bool)
      modifies host`faults, host`log
      ensures host.faults >= old(host.faults) && (ok ==> host.faults == old(host.faults))
      ensures !ok ==> host.faults == old(host.faults) + 1 || host.state.registry != p.candidate || host.state.interrupted
      ensures Plain(old(host.log), host.log) && (ok ==> host.log == old(host.log) + InstallLog(host.state))
    {
      ok := RequireBoth(p);
      if ok {
        ok := host.Attempt(Installed);
      }
      if ok {
        ok := RequireBoth(p);
      }
    }

    /** Verifies the application under the candidate registry; anything that
        goes wrong on the way is a failure of the verification. */
    method VerifyCandidate(p: Plan) returns (ok: bool)
      modifies host`faults, host`log
      ensures host.faults >= old(host.faults) && (ok ==> host.faults == old(host.faults))
      ensures !ok ==> host.faults == old(host.faults) + 1 || host.state.registry != p.candidate || host.state.interrupted
      ensures old(host.log) <= host.log && (ok ==> host.log == old(host.log) + VerifyLog(host.state))
      ensures JudgedBad(host.log, |old(host.log)|) <==> !ok
    {
      hide LoadLog;
      ghost var before := host.log;
      ok := LoadCandidate(p);
      ghost var loaded := host.log;
      if ok {
        ok := host.Attempt(Verified);
      }
      if ok {
        ok := RequireBoth(p);
      }
      ghost var tried := host.log;
      host.Write(Judged, ok);
      JudgedLast(before, loaded, tried, host.log);
    }

    /** Puts the registry back from either side, with the former pointers in
        place, by a revision of its own if it had changed. */
    method PutRegistryBack(p: Plan) returns (ok: bool)
      requires Under(p)
      modifies host
      ensures Under(p) && host.faults >= old(host.faults) && old(host.trace) <= host.trace && host.removed == old(host.removed)
      ensures host.state == old(host.state).(registry := host.state.registry, interrupted := host.state.interrupted)
      ensures ok ==> host.state == old(host.state).(registry := p.before) && !host.state.interrupted && host.faults == old(host.faults)
      ensures old(host.state).interrupted ==> !ok && host.state.interrupted
      ensures !ok ==> host.faults > old(host.faults) || !AtFormerPair(host.state, p) || old(host.state).interrupted
                      || old(host.state).registry !in {p.before, p.candidate}
      ensures !AtFormerPair(old(host.state), p) || old(host.state).registry !in {p.before, p.candidate} ==>
                !ok && host.state == old(host.state)
      ensures Plain(old(host.log), host.log) && (ok ==> host.log == old(host.log) + AskRegistry(old(host.state)))
    {
      ok := RequireFormerPointers(p);
      if ok {
        ok := host.Attempt(Asked(StoredRegistry));
      }
      if !ok {
        return;
      }
      if host.state.interrupted || host.state.registry !in {p.before, p.candidate} {
        return false;
      }
      if host.state.registry == p.candidate {
        ok := PublishRegistry(p.candidate, p.before);
      }
    }

    /** Puts the registry back and installs from it again. */
    method Restore(p: Plan) returns (ok: bool)
      requires Under(p)
      modifies host
      ensures Under(p) && host.faults >= old(host.faults) && old(host.trace) <= host.trace
      ensures host.state == old(host.state).(registry := host.state.registry, interrupted := host.state.interrupted)
      ensures ok ==> host.state.registry == p.before && !host.state.interrupted && AtFormerPair(host.state, p)
      ensures ok ==> host.state == old(host.state).(registry := p.before)
      ensures host.removed == old(host.removed) && (ok ==> host.faults == old(host.faults))
      ensures !ok ==> host.faults > old(host.faults) || !AtFormerPair(host.state, p) || old(host.state).interrupted
                      || old(host.state).registry !in {p.before, p.candidate}
      ensures !AtFormerPair(old(host.state), p) || old(host.state).registry !in {p.before, p.candidate} ==>
                !ok && host.state == old(host.state)
      ensures Plain(old(host.log), host.log) && (ok ==> host.log == old(host.log) + RestoreLog(old(host.state), p))
    {
      ok := PutRegistryBack(p);
      if !ok {
        return;
      }
      ok := RequireRegistry(p.before);
      if ok {
        ok := host.Attempt(Installed);
      }
      if ok {
        ok := RequireRegistry(p.before);
      }
      if ok {
        ok := RequireFormerPointers(p);
      }
    }

    /** Removes the release this migration built, and only that one. */
    method RemoveAttemptRelease(p: Plan) returns (ok: bool)
      requires Under(p)
      modifies host
      ensures Under(p) && host.faults >= old(host.faults) && old(host.trace) <= host.trace
      ensures host.state == old(host.state).(releases := host.state.releases) && host.state.releases <= old(host.state).releases
      ensures ok ==> host.state.releases == p.formerReleases && host.faults == old(host.faults)
      ensures !ok ==> host.faults > old(host.faults) || !AtFormerPair(host.state, p) || !(p.formerReleases <= old(host.state).releases)
      ensures p.formerReleases <= old(host.state).releases ==> p.formerReleases <= host.state.releases
      ensures p.target in Selected(host.state.current) + Selected(host.state.previous)
              || old(host.state).releases !in {p.formerReleases, p.formerReleases + {p.target}} ==>
                !ok && host.state == old(host.state)
      ensures Plain(old(host.log), host.log) && (ok ==> host.log == old(host.log) + RemoveLog(old(host.state), p))
    {
      var current, previous;
      ok, current, previous := ReadPair();
      if !ok || current == Some(p.target) || previous == Some(p.target) {
        return false;
      }
      ok := host.Attempt(Asked(ReleaseList));
      if !ok || host.state.releases == p.formerReleases {
        return;
      }
      if host.state.releases != p.formerReleases + {p.target} {
        return false;
      }
      ok := host.Prune(p.formerReleases);
      if ok {
        ok := host.Attempt(Asked(ReleaseList));
        ok := ok && host.state.releases == p.formerReleases;
      }
    }

    /** Serves from the restored registry once, then removes the attempt. */
    method VerifyRestored(p: Plan) returns (ok: bool)
      requires Under(p)
      modifies host, this`restoredVerified
      ensures Under(p) && host.faults >= old(host.faults) && old(host.trace) <= host.trace
      ensures host.state == old(host.state).(releases := host.state.releases) && host.state.releases <= old(host.state).releases
      ensures ok ==> Untouched(host.state, p) && host.faults == old(host.faults)
      ensures restoredVerified == (old(restoredVerified) || ok)
      ensures !ok ==> host.faults > old(host.faults) || !AtFormerPair(host.state, p) || host.state.interrupted
                      || host.state.registry != p.before || !(p.formerReleases <= old(host.state).releases)
      ensures p.formerReleases <= old(host.state).releases ==> p.formerReleases <= host.state.releases
      ensures Plain(old(host.log), host.log) && (ok ==> host.log == old(host.log) + RestoredLog(old(host.state), p))
    {
      hide RemoveLog, AskBoth;
      ghost var before := host.log;
      ok := ServeRestored(p);
      ghost var served := host.log;
      if ok {
        ok := RemoveAttemptRelease(p);
        PlainMore(before, served, host.log);
      }
      ghost var removed := host.log;
      if ok {
        ok := LookRestored(p);
        PlainMore(before, removed, host.log);
      }
      if ok {
        restoredVerified := true;
      }
    }

    /** Verifies the application under the restored registry. */
    method ServeRestored(p: Plan) returns (ok: bool)
      requires host.Valid()
      modifies host`faults, host`lost, host`log
      ensures host.faults >= old(host.faults) && (ok ==> host.faults == old(host.faults))
      ensures ok ==> host.state.registry == p.before && !host.state.interrupted && AtFormerPair(host.state, p)
      ensures !ok ==> host.faults > old(host.faults) || !AtFormerPair(host.state, p) || host.state.interrupted || host.state.registry != p.before
      ensures Plain(old(host.log), host.log)
      ensures ok ==> host.log == old(host.log) + [Well(host.state, Asked(StoredRegistry)), Well(host.state, Asked(LoadedRegistry)),
                                                  Well(host.state, Asked(StoredRegistry)), Well(host.state, Verified),
                                                  Well(host.state, Asked(StoredRegistry))]
    {
      ok := RequireBefore(p);
      if ok {
        ok := host.Attempt(Asked(LoadedRegistry));
      }
      if ok {
        ok := RequireBefore(p);
      }
      if ok {
        ok := host.Attempt(Verified);
      }
      if ok {
        ok := RequireBefore(p);
      }
    }

    /** The former registry is there, and so is the former pair. */
    method RequireBefore(p: Plan) returns (ok: bool)
      requires host.Valid()
      modifies host`faults, host`lost, host`log
      ensures host.faults >= old(host.faults) && (ok ==> host.faults == old(host.faults))
      ensures ok ==> host.state.registry == p.before && !host.state.interrupted && AtFormerPair(host.state, p)
      ensures !ok ==> host.faults > old(host.faults) || !AtFormerPair(host.state, p) || host.state.interrupted || host.state.registry != p.before
      ensures Plain(old(host.log), host.log) && (ok ==> host.log == old(host.log) + AskRegistry(host.state))
    {
      ok := RequireRegistry(p.before);
      if ok {
        ok := RequireFormerPointers(p);
      }
    }

    /** The last look at what has been restored. */
    method LookRestored(p: Plan) returns (ok: bool)
      requires host.Valid()
      modifies host`faults, host`lost, host`log
      ensures host.faults >= old(host.faults) && (ok ==> host.faults == old(host.faults))
      ensures ok ==> Untouched(host.state, p)
      ensures !ok ==> host.faults > old(host.faults) || !Untouched(host.state, p)
      ensures Plain(old(host.log), host.log)
      ensures ok ==> host.log == old(host.log) + AskBoth(host.state) + [Well(host.state, Asked(ReleaseList))]
    {
      ok := RequireBefore(p);
      if ok {
        ok := host.Attempt(Asked(SourceTarget));
      }
      if ok {
        ok := host.Attempt(Asked(ReleaseList));
        ok := ok && host.state.releases == p.formerReleases;
      }
    }

    /** The last look at everything before a migration is called done. */
    method ValidateFinal(p: Plan) returns (ok: bool)
      requires host.Valid()
      modifies host`faults, host`lost, host`log
      ensures host.faults >= old(host.faults) && (ok ==> host.faults == old(host.faults))
      ensures ok ==> host.state.registry == p.candidate && !host.state.interrupted && AtFinalPair(host.state, p)
      ensures ok ==> p.target in host.state.releases && lockedValidations >= 2
      ensures !ok ==> host.faults > old(host.faults) || host.state.registry != p.candidate || host.state.interrupted
                      || !AtFinalPair(host.state, p) || p.target !in host.state.releases || lockedValidations < 2
      ensures Plain(old(host.log), host.log) && (ok ==> host.log == old(host.log) + FinalLog(host.state))
    {
      ok := RequireBoth(p);
      if ok {
        var current, previous;
        ok, current, previous := ReadPair();
        ok := ok && current == Some(p.target) && previous == Some(p.formerCurrent);
      }
      if ok {
        ok := host.Attempt(Asked(ReleaseList));
        ok := ok && p.target in host.state.releases && lockedValidations >= 2;
      }
    }

    /** Recovers from a failed transition: pointers, registry, service, health
        and verification, each only if everything before it went well. */
    method RecoverTransition(p: Plan, moved: bool) returns (ok: bool)
      requires Under(p) && (moved ==> host.state.current == Some(p.target)) && (!moved ==> AtFormerPair(host.state, p))
      modifies host, this`restoredVerified
      ensures Under(p) && host.faults >= old(host.faults) && old(host.trace) <= host.trace
      ensures ok ==> Untouched(host.state, p) && restoredVerified && host.faults == old(host.faults)
      ensures !ok ==> host.faults > old(host.faults) || old(host.state).interrupted || old(host.state).registry !in {p.before, p.candidate}
                      || !(p.formerReleases <= old(host.state).releases)
      ensures host.state.releases <= old(host.state).releases
      ensures restoredVerified && !old(restoredVerified) ==> Untouched(host.state, p) && RestoredSeen(host.log, |old(host.log)|, p)
      ensures Plain(old(host.log), host.log)
      ensures ok ==> host.log == old(host.log)
                     + RecoveryLog(old(host.state).(current := Some(p.formerCurrent), previous := p.formerPrevious), p)
    {
      hide RestoreLog, RestoredLog, RestoredSeen, PointersExist;
      var restored, clean := true, true;
      if moved {
        restored, clean := deployer.RestorePointers(Some(p.formerCurrent), p.formerPrevious, Some(p.target));
      } else {
        restored := RequireFormerPointers(p);
      }
      ok := false;
      ghost var before, moved' := host.log, host.state;
      if restored {
        ok := Restore(p);
      }
      ghost var put, back := host.log, host.state;
      if ok {
        ok := host.Attempt(Started);
      }
      if ok {
        ok := deployer.CheckHealth(true);
      }
      ghost var looked := host.log;
      if ok {
        ok := VerifyRestored(p);
        PlainMore(before, looked, host.log);
        if ok {
          SeenRestored(looked, host.log, p, back, |before|);
          JoinRecovery(before, put, looked, host.log, moved', back, p);
        }
      }
      ok := ok && clean;
    }

    /** The deployment a migration runs: install, restart, health and
        verification between selecting the release and recording the former
        one, then pruning and a last look. */
    method DeployTransition(p: Plan) returns (r: Transition)
      requires Under(p) && AtFormerPair(host.state, p) && host.state.releases == p.formerReleases && host.removed * p.formerReleases == {}
      requires host.state.registry == p.candidate && !host.state.interrupted && lockedValidations == 0 && !restoredVerified
      modifies host, this
      ensures Under(p) && host.faults >= old(host.faults) && old(host.trace) <= host.trace
      ensures r.Succeeded? ==> Finished(host.state, p) && host.faults == old(host.faults) && lockedValidations >= 2
      ensures !r.Succeeded? ==> host.faults > old(host.faults)
      ensures restoredVerified ==> Untouched(host.state, p) && RestoredSeen(host.log, |old(host.log)|, p)
      ensures r.Broken? && !restoredVerified ==>
                && host.state.registry == p.candidate && !host.state.interrupted && p.formerReleases <= host.state.releases
                && AtFormerPair(host.state, p) && host.faults > old(host.faults)
      ensures r.Broken? && !restoredVerified ==>
                host.lost.current > old(host.lost).current || (host.state == old(host.state) && Unbuilt(old(host.log), host.log))
      ensures r.RecoveryBroken? ==> host.faults >= old(host.faults) + 2 || host.state.interrupted || !(p.formerReleases <= host.state.releases)
      ensures old(host.log) <= host.log
      ensures r.Succeeded? ==> host.log == old(host.log) + DeploymentLog(old(host.state), p)
      ensures r.Broken? ==> (r.verification <==> JudgedBad(host.log, |old(host.log)|))
    {
      hide LockedLog, TransitionLog, FinalLog, RecoveryLog, RestoredSeen, Plain, JudgedBad, PointersExist;
      ghost var s, before := host.state, host.log;
      r := Broken(false);
      var ok := ReadyToBuild(p);
      ghost var ready := host.log;
      PlainFine(before, ready);
      if !ok {
        return;
      }
      ok := BuildTarget(p);
      ghost var built := host.log;
      PlainMore(before, ready, built);
      PlainFine(before, built);
      if !ok {
        ok := RecoverTransition(p, false);
        PlainMore(before, built, host.log);
        PlainFine(before, host.log);
        RestoredEarlier(host.log, |before|, |built|, p);
        return if ok then Broken(false) else RecoveryBroken;
      }
      ok := host.SelectPointer(Current, Some(p.target));
      if !ok {
        return;
      }
      var verification;
      ok, verification := RunTransition(p);
      ghost var tried := host.log;
      if ok {
        JoinDeployment(before, ready, built, tried, s, p);
        return Succeeded;
      }
      ok := RecoverTransition(p, true);
      JudgedAround(before, built, tried, host.log);
      RestoredEarlier(host.log, |before|, |tried|, p);
      r := if ok then Broken(verification) else RecoveryBroken;
    }

    /** Everything is as the plan has it, under the lock. */
    method ReadyToBuild(p: Plan) returns (ok: bool)
      requires Under(p) && AtFormerPair(host.state, p) && host.state.releases == p.formerReleases
      requires host.state.registry == p.candidate && !host.state.interrupted && lockedValidations == 0
      modifies host`faults, host`lost, host`log, this`lockedValidations
      ensures host.faults >= old(host.faults) && (ok ==> host.faults == old(host.faults) && lockedValidations == 1)
      ensures !ok ==> host.faults > old(host.faults)
      ensures Plain(old(host.log), host.log) && Unbuilt(old(host.log), host.log)
      ensures host.lost.current == old(host.lost).current
      ensures ok ==> host.log == old(host.log) + LockedLog(host.state) + [Well(host.state, Asked(SourceTarget))]
    {
      hide LockedLog;
      ghost var before := host.log;
      ok := ValidateLocked(p);
      ghost var locked := host.log;
      if ok {
        var current, previous;
        ok, current, previous := ReadPair();
        ok := ok && current == Some(p.formerCurrent) && previous == p.formerPrevious;
      }
      if ok {
        ok := host.Attempt(Asked(SourceTarget));
        PlainMore(before, locked, host.log);
      }
    }

    /** Builds the release and checks everything again. */
    method BuildTarget(p: Plan) returns (ok: bool)
      requires Under(p) && AtFormerPair(host.state, p) && host.state.releases == p.formerReleases
      requires host.state.registry == p.candidate && !host.state.interrupted && lockedValidations == 1
      modifies host, this`lockedValidations
      ensures Under(p) && host.faults >= old(host.faults) && old(host.trace) <= host.trace && host.removed == old(host.removed)
      ensures host.state == old(host.state).(releases := host.state.releases) && p.formerReleases <= host.state.releases
      ensures ok ==> host.state.releases == p.formerReleases + {p.target} && lockedValidations == 2 && host.faults == old(host.faults)
      ensures !ok ==> host.faults > old(host.faults)
      ensures Plain(old(host.log), host.log)
      ensures host.lost.current == old(host.lost).current
      ensures ok ==> host.log == old(host.log) + [Well(WithTarget(old(host.state), p), Built)] + LockedLog(WithTarget(old(host.state), p))
    {
      hide LockedLog;
      ghost var before := host.log;
      ok := host.Build(p.target);
      ghost var built := host.log;
      if ok {
        ok := ValidateLocked(p);
        PlainMore(before, built, host.log);
      }
      if ok {
        var current;
        ok, current := host.ReadPointer(Current);
        ok := ok && current == Some(p.formerCurrent);
      }
    }

    /** Installs, starts, looks and verifies, with the new release selected. */
    method BringUpTarget(p: Plan) returns (ok: bool, verification: bool)
      requires host.state.registry == p.candidate && !host.state.interrupted
      requires deployer.host == host
      modifies host`faults, host`lost, host`log, host`answers
      ensures host.faults >= old(host.faults) && (ok <==> host.faults == old(host.faults))
      ensures old(host.log) <= host.log && (ok ==> host.log == old(host.log) + TransitionLog(host.state) && !verification)
      ensures verification <==> JudgedBad(host.log, |old(host.log)|)
    {
      hide InstallLog, VerifyLog, JudgedBad;
      verification := false;
      ghost var before := host.log;
      ok := InstallCandidate(p);
      ghost var installed := host.log;
      if ok {
        ok := host.Attempt(Started);
      }
      if ok {
        ok := deployer.CheckHealth(true);
      }
      ghost var looked := host.log;
      PlainMore(before, installed, looked);
      PlainFine(before, looked);
      if ok {
        ok := VerifyCandidate(p);
        verification := !ok;
        JudgedAround(before, looked, host.log, host.log);
        if ok {
          JoinTransition(before, installed, looked, host.log, host.state);
        }
      }
    }

    /** What happens with the new release selected. */
    method RunTransition(p: Plan) returns (ok: bool, verification: bool)
      requires Under(p) && host.state.current == Some(p.target) && host.state.previous == p.formerPrevious
      requires host.state.releases == p.formerReleases + {p.target}
      requires host.state.registry == p.candidate && !host.state.interrupted && lockedValidations == 2
      modifies host
      ensures Under(p) && host.faults >= old(host.faults) && old(host.trace) <= host.trace
      ensures host.state.current == Some(p.target) && host.state.registry == p.candidate && !host.state.interrupted
      ensures ok ==> Finished(host.state, p) && host.faults == old(host.faults)
      ensures !ok ==> host.faults > old(host.faults)
      ensures old(host.log) <= host.log
      ensures ok ==> host.log == old(host.log) + TransitionLog(old(host.state)) + FinalLog(AtEnd(old(host.state), p))
                                 + [Well(AtEnd(old(host.state), p), Asked(SourceTarget))]
      ensures verification <==> JudgedBad(host.log, |old(host.log)|)
    {
      hide PointersExist, TransitionLog, FinalLog, JudgedBad, Plain;
      ghost var before := host.log;
      ok, verification := BringUpTarget(p);
      ghost var up := host.log;
      if ok {
        ok := host.SelectPointer(Previous, Some(p.formerCurrent));
      }
      if ok {
        ok := host.Prune(Selected(p.formerPrevious));
      }
      PlainNothing(up);
      PlainNothing(before);
      if ok {
        ok := ValidateFinal(p);
        PlainMore(up, up, host.log);
      }
      ghost var final := host.log;
      JudgedAround(before, before, up, final);
      if ok {
        ok := host.Attempt(Asked(SourceTarget));
        PlainOne(final, host.log, Asked(SourceTarget), host.state);
        PlainMore(up, final, host.log);
        JudgedAround(before, before, up, host.log);
        assert host.state.registry == p.candidate;
      }
    }

    /** Restores and verifies under the lock; what an earlier recovery did not
        finish. */
    method RestoreAgain(p: Plan) returns (ok: bool)
      requires Under(p)
      modifies host, this`restoredVerified
      ensures Under(p) && host.faults >= old(host.faults) && old(host.trace) <= host.trace
      ensures ok ==> Untouched(host.state, p)
      ensures !ok ==> host.faults > old(host.faults) || !AtFormerPair(old(host.state), p) || old(host.state).interrupted
                      || old(host.state).registry !in {p.before, p.candidate} || !(p.formerReleases <= old(host.state).releases)
      ensures host.state.current == old(host.state).current && host.state.previous == old(host.state).previous
      ensures Plain(old(host.log), host.log) && (ok ==> RestoredSeen(host.log, |old(host.log)|, p))
      ensures ok ==> host.log == old(host.log) + RestoreLog(old(host.state), p) + RestoredLog(old(host.state).(registry := p.before), p)
    {
      hide RestoreLog, RestoredLog, RestoredSeen;
      ghost var before := host.log;
      ok := Restore(p);
      ghost var put, back := host.log, host.state;
      if ok {
        ok := VerifyRestored(p);
        PlainMore(before, put, host.log);
        if ok {
          SeenRestored(put, host.log, p, back, |before|);
        }
      }
    }

    /** What happens when the registry revision could not be published. */
    method RestoreBefore(p: Plan) returns (ok: bool)
      requires Under(p)
      modifies host
      ensures Under(p) && host.faults >= old(host.faults) && old(host.trace) <= host.trace
      ensures ok ==> Untouched(host.state, p) && host.faults == old(host.faults)
      ensures !AtFormerPair(old(host.state), p) || old(host.state).registry !in {p.before, p.candidate} ==>
                !ok && host.state == old(host.state)
      ensures !ok ==> host.faults > old(host.faults) || !AtFormerPair(host.state, p) || old(host.state).interrupted
                      || old(host.state).registry !in {p.before, p.candidate} || host.state.releases != p.formerReleases
      ensures host.state == old(host.state).(registry := host.state.registry, interrupted := host.state.interrupted)
      ensures old(host.state).interrupted ==> host.state.interrupted
      ensures Plain(old(host.log), host.log)
      ensures ok ==> host.log == old(host.log) + AskRegistry(old(host.state)) + AskBoth(host.state) + [Well(host.state, Asked(ReleaseList))]
    {
      ok := PutRegistryBack(p);
      if !ok {
        return;
      }
      ok := LookRestored(p);
    }

    /** Looks at everything again before the first change. */
    method Preview(before: Bytes, candidate: Bytes, target: Commit) returns (ok: bool, p: Plan)
      requires host.Valid() && before != candidate
      modifies host`faults, host`lost, host`log
      ensures host.faults >= old(host.faults)
      ensures p.before == before && p.candidate == candidate && p.target == target
      ensures ok ==> PlanOk(p) && Untouched(host.state, p)
      ensures ok <==> host.faults == old(host.faults) && Migratable(host.state, before, target)
      ensures Plain(old(host.log), host.log) && (ok ==> host.log == old(host.log) + PreviewLog(host.state))
    {
      p := Plan(before, candidate, target, "", None, {});
      ok := host.Attempt(Asked(CleanProfile));
      if ok {
        ok := host.Attempt(Asked(FreshPlan));
      }
      if ok {
        ok := RequireRegistry(before);
      }
      if !ok {
        return;
      }
      var current, previous;
      ok, current, previous := ReadPair();
      if !ok || current.None? || current == Some(target) || target in host.state.releases {
        return false, p;
      }
      ok := host.Attempt(Asked(CleanCheckout));
      if ok {
        ok := host.Attempt(Asked(SourceTarget));
      }
      if ok {
        ok := host.Attempt(Asked(ReleaseList));
      }
      p := Plan(before, candidate, target, current.value, previous, host.state.releases);
    }

    /** Loads the candidate registry, deploys, and looks at everything once
        more. */
    method Transit(p: Plan) returns (r: Transition)
      requires Under(p) && AtFormerPair(host.state, p) && host.state.releases == p.formerReleases && host.removed * p.formerReleases == {}
      requires host.state.registry == p.candidate && !host.state.interrupted && lockedValidations == 0 && !restoredVerified
      modifies host, this
      ensures Under(p) && host.faults >= old(host.faults) && old(host.trace) <= host.trace
      ensures r.Succeeded? ==> Finished(host.state, p) && host.faults == old(host.faults)
      ensures !r.Succeeded? ==> host.faults > old(host.faults)
      ensures restoredVerified ==> Untouched(host.state, p) && RestoredSeen(host.log, |old(host.log)|, p)
      ensures r.Broken? && !restoredVerified && !AtFinalPair(host.state, p) ==>
                && host.state.registry == p.candidate && !host.state.interrupted && p.formerReleases <= host.state.releases
                && AtFormerPair(host.state, p)
      ensures r.RecoveryBroken? ==> host.faults >= old(host.faults) + 2 || host.state.interrupted || !(p.formerReleases <= host.state.releases)
      ensures old(host.log) <= host.log
      ensures r.Succeeded? ==> host.log == old(host.log) + TransitLog(old(host.state), p)
      ensures JudgedBad(host.log, |old(host.log)|) ==> !r.Succeeded?
      ensures r.Broken? ==> (r.verification <==> JudgedBad(host.log, |old(host.log)|))
    {
      hide LoadLog, DeploymentLog, FinalLog, RestoredSeen, Plain, JudgedBad, PointersExist;
      ghost var s, before := host.state, host.log;
      PlainNothing(before);
      var ok := LoadCandidate(p);
      ghost var loaded := host.log;
      PlainFine(before, loaded);
      if !ok {
        return Broken(false);
      }
      r := DeployTransition(p);
      ghost var deployed := host.log;
      PlainNothing(deployed);
      JudgedAround(before, loaded, deployed, deployed);
      RestoredEarlier(deployed, |before|, |loaded|, p);
      if r.Succeeded? {
        NoneJudged(loaded, deployed, s, p);
        EndsFinished(s, host.state, p);
        ok := ValidateFinal(p);
        JudgedAround(before, before, deployed, host.log);
        if ok {
          JoinTransit(before, loaded, deployed, host.log, s, p);
        } else {
          r := Broken(false);
        }
      }
    }

    /** Migrates.  Every run ends one of three ways: done, with the registry,
        both pointers and the releases as a migration leaves them; failed, with
        all four exactly as they were; or failed to recover.  One failure alone
        never leads to the third, unless it cut the registry publication short,
        came after the deployment had succeeded, or came after a former release
        nobody pointed at was pruned; and from such a pruning on, the third is
        the only way left to fail.  It is done exactly when there is something
        to do, the host allows it and nothing fails. */
    method Migrate(changed: bool, before: Bytes, candidate: Bytes, target: Commit) returns (result: Result, ghost p: Plan)
      requires host.Valid() && deployer.host == host && before != candidate && host.removed == {}
      requires lockedValidations == 0 && !restoredVerified
      modifies host, this
      ensures host.Valid() && host.faults >= old(host.faults) && old(host.trace) <= host.trace
      ensures result.AlreadyCurrent? || result.ValidationFailed? ==> host.state == old(host.state)
      ensures !result.AlreadyCurrent? && !result.ValidationFailed? ==> PlanOk(p) && Untouched(old(host.state), p)
      ensures p.before == before && p.candidate == candidate && p.target == target
      ensures result.Migrated? ==> Finished(host.state, p)
      ensures result.Migrated? <==> changed && host.faults == old(host.faults) && Migratable(old(host.state), before, target)
      ensures result.AlreadyCurrent? <==> !changed && host.faults == old(host.faults)
      ensures old(host.log) <= host.log
      ensures result.Migrated? ==> host.log == old(host.log) + MigrationLog(old(host.state), p)
      ensures result.VerificationFailed? <==> !result.RecoveryFailed? && JudgedBad(host.log, |old(host.log)|)
      ensures result.DeploymentFailed? || result.VerificationFailed? ==> RestoredSeen(host.log, |old(host.log)|, p)
      ensures result.RegistryFailed? || result.DeploymentFailed? || result.VerificationFailed? ==> host.state == old(host.state)
      ensures result.RecoveryFailed? ==> Excused(host.state, p, host.faults - old(host.faults))
      ensures !result.AlreadyCurrent? && !result.ValidationFailed? && host.removed * p.formerReleases != {} ==>
                result.Migrated? || result.RecoveryFailed?
    {
      hide TransitLog, RestoredSeen, Plain, JudgedBad, PointersExist, PreviewLog, MigrationLog;
      p := Plan(before, candidate, target, "", None, {});
      ghost var s, start := host.state, host.log;
      PlainNothing(start);
      PlainFine(start, start);
      var ok := host.Attempt(Asked(FreshPlan));
      ghost var asked := host.log;
      PlainOne(start, asked, Asked(FreshPlan), s);
      PlainFine(start, asked);
      if !ok {
        return ValidationFailed, p;
      }
      if !changed {
        return AlreadyCurrent, p;
      }
      var plan;
      ok, plan := Preview(before, candidate, target);
      p := plan;
      ghost var looked := host.log;
      PlainMore(start, asked, looked);
      PlainFine(start, looked);
      if !ok {
        return ValidationFailed, p;
      }
      ok := PublishRegistry(before, candidate);
      if !ok {
        ok := RestoreBefore(plan);
        PlainMore(start, looked, host.log);
        PlainFine(start, host.log);
        return if ok then RegistryFailed else RecoveryFailed, p;
      }
      ghost var published := host.state;
      var r := Transit(plan);
      ghost var tried := host.log;
      PlainNothing(start);
      JudgedAround(start, looked, tried, tried);
      if r.Succeeded? {
        JoinMigration(start, asked, looked, tried, s, p);
        return Migrated, p;
      }
      RestoredEarlier(tried, |start|, |looked|, p);
      if r.RecoveryBroken? {
        return RecoveryFailed, p;
      }
      if !restoredVerified {
        ok := RestoreAgain(plan);
        JudgedAround(start, start, tried, host.log);
        RestoredEarlier(host.log, |start|, |tried|, p);
        if !ok {
          return RecoveryFailed, p;
        }
      }
      result := if r.verification then VerificationFailed else DeploymentFailed;
    }
  }
}
