/** Publishing the web server's configuration and its launch job's description
    as one unit, over a job that can be in any state. */
module CaddyBundle {
  import opened Common

  datatype Managed = Missing | Present(content: Bytes, mode: nat)

  datatype Pair = Pair(caddyfile: Managed, plist: Managed)

  datatype Process = Process(pid: nat, started: string)

  /** What was seen of the job or done to it, and with which files in place:
      the files read, the candidate found good, each answer to whether the job is loaded, which
      number its process has or which process has a number, each file written,
      each time it was told to go and whether the order was taken, each attempt
      to bootstrap it and its result. */
  datatype Sight =
    | Examined
    | Validated
    | FoundLoaded
    | FoundMissing
    | Listed(pid: Option<nat>)
    | Identified(number: nat, found: Option<Process>)
    | Wrote
    | TakenDown(taken: bool)
    | Tried(status: int)
    | Bootstrapped
    | Reloaded

  datatype Event = Event(sight: Sight, files: Pair)

  /** How a step ends: well, with the installer's own error, or with an error of
      another kind, which none of the installer's handlers catches.  Removing
      the temporary of a write that failed can fail that way, and so can any
      command that prints something undecodable. */
  datatype Answer = Fine | Failed | Foreign

  /** The files in place when an error of another kind came up, and how often
      the prior files had been put back, or begun to be, by then. */
  datatype Thrown = Thrown(files: Pair, restorations: nat)

  datatype Activation = NoActivation | ReloadActivation | ReplaceActivation

  datatype Failure =
    | Refused
    | WritesFailed
    | StateChanged(restored: bool)
    | ActivationFailed(restored: bool)
    | RestoreFailed
    | OtherError
    | Untidy

  datatype Outcome = Returned(activation: Activation) | Raised(failure: Failure)

  /** Whether an outcome is an error of another kind. */
  function EndOf(out: Outcome): Answer { if out == Raised(OtherError) then Foreign else Fine }

  function Stopped(a: Answer): Failure { if a.Foreign? then OtherError else Refused }

  datatype Stage = PreBootout | BootoutFailed | PostBootout

  datatype Replacement = Replaced | Broken(stage: Stage, process: Option<Process>) | Escaped

  const SHUTDOWN: nat := 10_000
  const BOOTSTRAP: nat := 2_000
  const RECOVERY: nat := 10_000
  const RELOAD: nat := 10_000
  const VALIDATION: nat := 10_000
  const INSPECTION: nat := 2_000
  const POLL: nat := 50

  /** The addresses a configuration makes the server listen on. */
  const Listeners: Bytes -> seq<string>

  function Min(a: int, b: int): int { if a < b then a else b }

  predicate SameContent(a: Managed, b: Managed) { a.Present? && b.Present? && a.content == b.content }

  predicate Up(e: Event) { e.sight.FoundLoaded? || e.sight.Bootstrapped? || e.sight.Reloaded? }

  predicate Down(e: Event) { e.sight.FoundMissing? || e.sight.TakenDown? || e.sight.Wrote? }

  /** The job was seen running with these files and nothing has happened since
      to put that in doubt: no file written, no order to go, no look that missed
      it. */
  ghost predicate StandsFrom(log: seq<Event>, i: nat, files: Pair) {
    i < |log| && Up(log[i]) && log[i].files == files && forall j :: i < j < |log| ==> !Down(log[j])
  }

  ghost predicate SeenRunning(log: seq<Event>, from: nat, files: Pair) {
    exists i :: from <= i && StandsFrom(log, i, files)
  }

  ghost predicate SeenBy(log: seq<Event>, from: nat, sight: Sight, files: Pair) {
    exists i :: from <= i < |log| && log[i] == Event(sight, files)
  }

  /** What happened last, and since `from`. */
  predicate EndsWith(log: seq<Event>, from: nat, sight: Sight, files: Pair) {
    |log| > from && log[|log| - 1] == Event(sight, files)
  }

  /** The last looks missed the job, and missed its process or found another
      in its place. */
  predicate Gone(looks: seq<Event>, process: Option<Process>, files: Pair) {
    match process
    case None => EndsWith(looks, 0, FoundMissing, files)
    case Some(p) =>
      && |looks| >= 2 && looks[|looks| - 2] == Event(FoundMissing, files)
      && var last := looks[|looks| - 1].sight; last.Identified? && last.number == p.pid && last.found != process
  }

  /** A wait for the job to go: it ended as soon as the job was gone, and it was
      not given up before. */
  ghost predicate StopWait(looks: seq<Event>, process: Option<Process>, files: Pair, stopped: bool) {
    && (stopped <==> Gone(looks, process, files))
    && forall k :: 0 <= k < |looks| ==> !Gone(looks[..k], process, files)
  }

  /** A wait for the job to be there: missed until it was found, or until the
      wait was given up. */
  predicate LoadWait(looks: seq<Event>, files: Pair, loaded: bool) {
    && looks != [] && looks[|looks| - 1] == Event(if loaded then FoundLoaded else FoundMissing, files)
    && forall i :: 0 <= i < |looks| - 1 ==> looks[i] == Event(FoundMissing, files)
  }

  /** The results that say the system is still busy with the last job. */
  const BUSY: set<int> := {5, 37}

  /** Bootstrapping: tried again only where the system was busy and the job was
      not there, brought about by an attempt that worked and the job seen
      loaded, given up at any other result, where the job was there without
      one that worked, or `late`. */
  ghost predicate Boot(steps: seq<Event>, files: Pair, done: bool, late: bool) {
    && steps != [] && steps[0].sight.Tried? && steps[0].files == files
    && if steps[0].sight.status == 0 then
         if done then |steps| >= 2 && steps[|steps| - 1] == Event(Bootstrapped, files) && LoadWait(steps[1..|steps| - 1], files, true)
         else late && LoadWait(steps[1..], files, false)
       else if steps[0].sight.status in BUSY then
         && |steps| >= 2
         && (|| (!done && |steps| == 2 && steps[1] == Event(FoundLoaded, files))
             || (!done && late && |steps| == 2 && steps[1] == Event(FoundMissing, files))
             || (steps[1] == Event(FoundMissing, files) && Boot(steps[2..], files, done, late)))
       else !done && |steps| == 1
  }

  /** Attempts that found the system busy and the job missing. */
  ghost predicate Retries(steps: seq<Event>, files: Pair) {
    steps == [] || (&& |steps| >= 2 && steps[0].files == files && steps[0].sight.Tried? && steps[0].sight.status in BUSY
                    && steps[1] == Event(FoundMissing, files) && Retries(steps[2..], files))
  }

  /** Looking up the process of the loaded job. */
  function LookUp(listed: Option<nat>, process: Option<Process>, files: Pair): seq<Event> {
    match listed
    case None => [Event(Listed(None), files)]
    case Some(pid) => [Event(Listed(listed), files), Event(Identified(pid, process), files)]
  }

  /** What was done to replace the loaded job: its process looked up, the order
      to go if it was given and whether it was taken, the wait, the bootstrap. */
  datatype Course = Course(listed: Option<nat>, process: Option<Process>, looks: seq<Event>, taken: Option<bool>,
                           wait: seq<Event>, boot: seq<Event>)

  function CourseLog(c: Course, files: Pair): seq<Event> {
    c.looks + (if c.taken.Some? then [Event(TakenDown(c.taken.value), files)] else []) + c.wait + c.boot
  }

  /** How far replacing the job got: the stage a failure is reported at, with the
      process that may still be there. */
  ghost predicate CourseMeans(c: Course, r: Replacement, files: Pair) {
    && (c.taken.Some? ==> c.looks == LookUp(c.listed, c.process, files) && (c.listed.None? ==> c.process.None?))
    && (c.taken != Some(true) ==> c.wait == c.boot == [])
    && match r
       case Replaced => c.taken == Some(true) && StopWait(c.wait, c.process, files, true) && Boot(c.boot, files, true, false)
       case Broken(PreBootout, _) => c.taken.None?
       case Broken(BootoutFailed, process) => c.taken == Some(false) && process == c.process
       case Broken(PostBootout, process) =>
         c.taken == Some(true) && if StopWait(c.wait, c.process, files, true) then process.None? else process == c.process && c.boot == []
       case Escaped => true
  }

  /** What was done to bring the prior job back: it was there and its very
      process was to be kept; it was there and was taken down first; it was not
      and the process interrupted was waited for; it was not. */
  datatype Revival =
    | Kept(listed: Option<nat>)
    | Restarted(listed: Option<nat>, process: Option<Process>, wait: seq<Event>, boot: seq<Event>, looks: seq<Event>)
    | Awaited(wait: seq<Event>, boot: seq<Event>, looks: seq<Event>)
    | Begun(boot: seq<Event>, looks: seq<Event>)

  function RevivalLog(v: Revival, interrupted: Option<Process>, files: Pair): seq<Event> {
    match v
    case Kept(listed) => [Event(FoundLoaded, files)] + LookUp(listed, interrupted, files)
    case Restarted(listed, process, wait, boot, looks) =>
      [Event(FoundLoaded, files)] + LookUp(listed, process, files) + [Event(TakenDown(true), files)] + wait + boot + looks
    case Awaited(wait, boot, looks) => [Event(FoundMissing, files)] + wait + boot + looks
    case Begun(boot, looks) => [Event(FoundMissing, files)] + boot + looks
  }

  /** The job was brought up again, and then has a process. */
  ghost predicate Revived(boot: seq<Event>, looks: seq<Event>, files: Pair) {
    && Boot(boot, files, true, false) && Quiet([], looks)
    && looks != [] && looks[|looks| - 1].sight.Identified? && looks[|looks| - 1].sight.found.Some?
  }

  ghost predicate RevivalMeans(v: Revival, interrupted: Option<Process>, preserve: bool, files: Pair) {
    match v
    case Kept(listed) => preserve && (listed.None? ==> interrupted.None?)
    case Restarted(listed, process, wait, boot, looks) =>
      && (listed.None? ==> process.None?) && !(preserve && process == interrupted)
      && StopWait(wait, process, files, true) && Revived(boot, looks, files)
    case Awaited(wait, boot, looks) => interrupted.Some? && StopWait(wait, interrupted, files, true) && Revived(boot, looks, files)
    case Begun(boot, looks) => interrupted.None? && Revived(boot, looks, files)
  }

  /** What is done about the job once its prior files are back: the prior
      configuration loaded again where it was reloaded, a look where nothing was
      done to it, a revival otherwise. */
  ghost predicate Undone(log: seq<Event>, replaced: bool, stage: Stage, process: Option<Process>, v: Revival, files: Pair) {
    if !replaced then log == [Event(Sight.Reloaded, files)]
    else if stage.PreBootout? then log == [Event(FoundLoaded, files)]
    else log == RevivalLog(v, process, files) && RevivalMeans(v, process, stage.BootoutFailed?, files)
  }

  /** Activating what was written, from its first step to its last: a job
      replaced or reloaded, or one brought back on its prior files in the way
      the failure called for. */
  ghost predicate Activated(before: seq<Event>, after: seq<Event>, out: Outcome, prior: Pair, desired: Pair, replace: bool,
                            r: Replacement, c: Course, wrote: seq<Event>, v: Revival) {
    if replace then
      var tried := before + CourseLog(c, desired);
      && CourseMeans(c, r, desired) && tried <= after
      && (out.Returned? <==> r.Replaced?) && (r.Replaced? ==> after == tried)
      && (out == Raised(ActivationFailed(true)) ==>
            && r.Broken? && OnlyWrote(wrote, 0) && tried + wrote <= after
            && Undone(after[|tried + wrote|..], true, r.stage, r.process, v, prior))
    else
      && before <= after
      && (out.Returned? ==> after == before + [Event(Sight.Reloaded, desired)])
      && (out == Raised(ActivationFailed(true)) ==> OnlyWrote(wrote, 0) && after == before + wrote + [Event(Sight.Reloaded, prior)])
  }

  /** The job was told to go, was then missed, and was last bootstrapped. */
  ghost predicate Cycled(log: seq<Event>, from: nat, files: Pair) {
    && EndsWith(log, from, Bootstrapped, files)
    && exists i, j :: from <= i < j < |log| && log[i] == Event(TakenDown(true), files) && log[j] == Event(FoundMissing, files)
  }

  /** Nothing but processes was looked at. */
  predicate Quiet(before: seq<Event>, after: seq<Event>) {
    before <= after && forall i :: |before| <= i < |after| ==> after[i].sight.Identified? || after[i].sight.Listed?
  }

  /** Since `from` files were written and nothing else happened. */
  predicate OnlyWrote(log: seq<Event>, from: nat) {
    forall i :: from <= i < |log| ==> log[i].sight.Wrote?
  }

  /** Since `from` the job was never seen. */
  ghost predicate NeverUp(log: seq<Event>, from: nat) {
    forall i :: from <= i < |log| ==> !Up(log[i])
  }

  predicate SameContents(prior: Pair, desired: Pair) {
    SameContent(prior.caddyfile, desired.caddyfile) && SameContent(prior.plist, desired.plist)
  }

  /** A reload is enough where only the configuration changed, and not where it
      listens, of a job that was running as it was said to be. */
  predicate ReloadEnough(prior: Pair, desired: Pair, wasLoaded: bool) {
    && wasLoaded && SameContent(prior.plist, desired.plist) && prior.caddyfile.Present? && desired.caddyfile.Present?
    && Listeners(prior.caddyfile.content) == Listeners(desired.caddyfile.content)
  }

  /** Nothing is activated exactly where nothing was loaded or no content
      changed; otherwise a reload is used exactly where it is enough. */
  predicate ActivatedAs(a: Activation, prior: Pair, desired: Pair, wasLoaded: bool, unseen: bool) {
    && (a.NoActivation? <==> || unseen
                             || (&& prior.caddyfile.Present? && desired.caddyfile.Present? && prior.plist.Present? && desired.plist.Present?
                                 && prior.caddyfile.content == desired.caddyfile.content
                                 && prior.plist.content == desired.plist.content))
    && (!a.NoActivation? ==> prior.caddyfile.Present? && prior.plist.Present?)
    && (!a.NoActivation? ==> (a.ReloadActivation? <==> ReloadEnough(prior, desired, wasLoaded)))
  }

  /** The job was not in the state it was said to be in, or was loaded with a
      file missing. */
  ghost predicate StateClash(f: Failure, prior: Pair, wasLoaded: bool, log: seq<Event>, from: nat) {
    || (f.StateChanged? && wasLoaded)
    || (f == Refused && (prior.caddyfile.Missing? || prior.plist.Missing?) && SeenBy(log, from, FoundLoaded, prior))
  }

  /** One file replaced, if the write went well. */
  function Replacing(files: Pair, caddyfile: bool, state: Managed, a: Answer): Pair {
    if !a.Fine? then files else if caddyfile then files.(caddyfile := state) else files.(plist := state)
  }

  /** What two writes leave and how they end, the second made only after a first
      that went well, each only where there is something to change. */
  function WritesEnd(prior: Pair, desired: Pair, first: Answer, second: Answer): (Pair, Answer) {
    var a := if prior.caddyfile != desired.caddyfile then first else Fine;
    if !a.Fine? then (prior, a)
    else
      var b := if prior.plist != desired.plist then second else Fine;
      (desired.(plist := if b.Fine? then desired.plist else prior.plist), b)
  }

  /** Every state on the way has each file old or new, never anything else. */
  predicate Between(s: Pair, prior: Pair, desired: Pair) {
    && (s.caddyfile == prior.caddyfile || s.caddyfile == desired.caddyfile)
    && (s.plist == prior.plist || s.plist == desired.plist)
  }

  ghost predicate AllBetween(before: seq<Pair>, after: seq<Pair>, prior: Pair, desired: Pair) {
    before <= after && forall i :: |before| <= i < |after| ==> Between(after[i], prior, desired)
  }

  class Installer {
    var files: Pair
    var now: int
    ghost var trace: seq<Pair>
    ghost var log: seq<Event>
    /** How many writes that put a prior file back have failed, and how often
        putting the prior files back was begun. */
    ghost var lostRestores: nat
    ghost var restorations: nat
    /** Every error of another kind that has come up. */
    ghost var thrown: seq<Thrown>
    /** How many commands and writes have failed, or been too late. */
    ghost var trouble: nat
    /** What the last command that was not lost resulted in. */
    ghost var status: int
    /** How many candidates there are. */
    ghost var leftovers: nat

    constructor (files: Pair, now: int)
      ensures this.files == files && trace == [files] && log == [] && lostRestores == restorations == trouble == leftovers == 0 && thrown == []
    {
      this.files, this.now, trace, log, thrown := files, now, [files], [], [];
      lostRestores, restorations, trouble, leftovers, status := 0, 0, 0, 0, 0;
    }

    // ----- the clock and the commands -----------------------------------------

    method Pass()
      modifies this`now
      ensures now >= old(now)
    {
      var later: int :| later >= now;
      now := later;
    }

    method Sleep(t: nat)
      modifies this`now
      ensures now >= old(now) + t
    {
      var later: int :| later >= now + t;
      now := later;
    }

    /** A command that is killed at its deadline, or never started after it.
        `fine` are the results it was run for. */
    method RunBefore(deadline: int, ghost fine: set<int>) returns (a: Answer, result: int)
      modifies this`now, this`status, this`trouble, this`thrown
      ensures Threw(old(thrown), a)
      ensures now >= old(now) && (!a.Failed? ==> old(now) < deadline)
      ensures trouble == old(trouble) + (if a.Fine? && result in fine then 0 else 1) && status == result
    {
      result := *;
      status := result;
      a := Failed;
      if now < deadline {
        Pass();
        a := *;
      }
      if !a.Fine? || result !in fine {
        trouble := trouble + 1;
      }
      Note(a);
    }

    /** A step that works or not. */
    method Attempt() returns (ok: bool)
      modifies this`trouble
      ensures trouble == old(trouble) + (if ok then 0 else 1)
    {
      ok := *;
      if !ok {
        trouble := trouble + 1;
      }
    }

    /** A step that works or fails, in either way. */
    method AttemptWrite() returns (a: Answer)
      modifies this`trouble, this`thrown
      ensures trouble == old(trouble) + (if a.Fine? then 0 else 1) && Threw(old(thrown), a)
    {
      a := *;
      if !a.Fine? {
        trouble := trouble + 1;
      }
      Note(a);
    }

    /** An error of another kind is on record, and nothing has happened to the
        files since; any other answer leaves the record alone. */
    ghost predicate Threw(before: seq<Thrown>, a: Answer)
      reads this`files, this`restorations, this`thrown
    {
      thrown == if a.Foreign? then before + [Thrown(files, restorations)] else before
    }

    ghost method Note(a: Answer)
      modifies this`thrown
      ensures Threw(old(thrown), a)
    {
      if a.Foreign? {
        thrown := thrown + [Thrown(files, restorations)];
      }
    }

    ghost method See(sight: Sight)
      modifies this`log
      ensures log == old(log) + [Event(sight, files)]
    {
      log := log + [Event(sight, files)];
    }

    /** Asks whether the job is loaded.  Anything but a plain yes or no raises. */
    method IsLoaded(deadline: int) returns (a: Answer, loaded: bool)
      modifies this`now, this`status, this`log, this`trouble, this`thrown
      ensures Threw(old(thrown), a)
      ensures now >= old(now) && trouble == old(trouble) + (if a.Fine? then 0 else 1)
      ensures a.Fine? ==> status in {0, 3, 113} && (loaded <==> status == 0)
      ensures log == if a.Fine? then old(log) + [Event(if loaded then FoundLoaded else FoundMissing, files)] else old(log)
    {
      var result;
      a, result := RunBefore(deadline, {0, 3, 113});
      loaded := result == 0;
      if a.Fine? && !loaded && result != 3 && result != 113 {
        a := Failed;
      }
      if a.Fine? {
        See(if loaded then FoundLoaded else FoundMissing);
      }
    }

    /** Looks one process up, by number and start. */
    method ProcessIdentity(pid: nat, deadline: int) returns (a: Answer, process: Option<Process>)
      modifies this`now, this`status, this`log, this`trouble, this`thrown
      ensures Threw(old(thrown), a)
      ensures now >= old(now) && trouble == old(trouble) + (if a.Fine? then 0 else 1)
      ensures a.Fine? && process.Some? ==> process.value.pid == pid
      ensures a.Fine? ==> status in {0, 1} && (process.None? <==> status == 1)
      ensures log == if a.Fine? then old(log) + [Event(Identified(pid, process), files)] else old(log)
    {
      var result;
      a, result := RunBefore(deadline, {0, 1});
      var started := *;
      if a.Fine? && result != 0 && result != 1 {
        a := Failed;
      }
      process := if result == 1 then None else Some(Process(pid, started));
      if a.Fine? {
        See(Identified(pid, process));
      }
    }

    /** The process of the loaded job, if it has one. */
    method LoadedProcess(deadline: int) returns (a: Answer, process: Option<Process>, ghost listed: Option<nat>)
      modifies this`now, this`status, this`log, this`trouble, this`thrown
      ensures Threw(old(thrown), a)
      ensures now >= old(now) && trouble == old(trouble) + (if a.Fine? then 0 else 1)
      ensures Quiet(old(log), log)
      ensures a.Fine? ==> log == old(log) + LookUp(listed, process, files) && (listed.None? ==> process.None?)
    {
      listed := None;
      process := None;
      a := Command(deadline);
      if a.Fine? {
        var pid: Option<nat> := *;
        listed := pid;
        See(Listed(pid));
        if pid.Some? {
          a, process := ProcessIdentity(pid.value, deadline);
          assert a.Fine? ==> log == old(log) + LookUp(pid, process, files);
        } else {
          assert pid == None && LookUp(pid, process, files) == [Event(Listed(None), files)];
        }
      }
    }

    /** A command that has to succeed. */
    method Command(deadline: int) returns (a: Answer)
      modifies this`now, this`status, this`trouble, this`thrown
      ensures Threw(old(thrown), a)
      ensures now >= old(now) && trouble == old(trouble) + (if a.Fine? then 0 else 1)
    {
      var result;
      a, result := RunBefore(deadline, {0});
      if a.Fine? && result != 0 {
        a := Failed;
      }
    }

    /** The addresses a configuration listens on, as the server reads it. */
    method Adapt(content: Bytes, deadline: int) returns (a: Answer, listeners: seq<string>)
      modifies this`now, this`status, this`trouble, this`thrown
      ensures Threw(old(thrown), a)
      ensures now >= old(now) && trouble == old(trouble) + (if a.Fine? then 0 else 1)
      ensures a.Fine? ==> listeners == Listeners(content)
    {
      a := Command(deadline);
      listeners := Listeners(content);
    }

    /** Tells the job to go.  It may have gone even where this fails. */
    method Bootout(deadline: int) returns (a: Answer)
      modifies this`now, this`status, this`log, this`trouble, this`thrown
      ensures Threw(old(thrown), a)
      ensures now >= old(now) && trouble == old(trouble) + (if a.Fine? then 0 else 1)
      ensures log == old(log) + [Event(TakenDown(a.Fine?), files)]
    {
      a := Command(deadline);
      See(TakenDown(a.Fine?));
    }

    /** Waits until the job is gone and its process with it. */
    method WaitStopped(process: Option<Process>, deadline: int) returns (a: Answer, stopped: bool, ghost looks: seq<Event>)
      modifies this`now, this`status, this`log, this`trouble, this`thrown
      ensures Threw(old(thrown), a)
      ensures log == old(log) + looks && (a.Fine? ==> StopWait(looks, process, files, stopped))
      ensures now >= old(now) && trouble >= old(trouble)
      ensures a.Fine? && !stopped ==> deadline <= now
      ensures !a.Fine? ==> trouble > old(trouble) && !StopWait(looks, process, files, true)
    {
      hide Gone;
      looks := [];
      NotGone(looks, process, files);
      while true
        invariant now >= old(now) && trouble >= old(trouble) && thrown == old(thrown)
        invariant log == old(log) + looks && StopWait(looks, process, files, false)
        decreases deadline - now
      {
        var loaded;
        a, loaded := IsLoaded(deadline);
        if !a.Fine? {
          return a, false, looks;
        }
        ghost var before := looks;
        ghost var seen := Event(if loaded then FoundLoaded else FoundMissing, files);
        looks := looks + [seen];
        var exited := process.None?;
        if process.Some? {
          NotGoneYet(before, process.value, seen, files);
          var current;
          a, current := ProcessIdentity(process.value.pid, deadline);
          if !a.Fine? {
            return a, false, looks;
          }
          exited := current != process;
          looks := looks + [Event(Identified(process.value.pid, current), files)];
          LookedAt(before, process.value, loaded, current, files);
        } else {
          LookedOnce(before, loaded, files);
        }
        if !loaded && exited {
          return Fine, true, looks;
        }
        Pass();
        if deadline <= now {
          return Fine, false, looks;
        }
        Sleep(Min(POLL, deadline - now));
      }
    }

    method WaitLoaded(deadline: int) returns (a: Answer, loaded: bool, ghost looks: seq<Event>)
      modifies this`now, this`status, this`log, this`trouble, this`thrown
      ensures Threw(old(thrown), a)
      ensures now >= old(now) && trouble >= old(trouble)
      ensures log == old(log) + looks && (a.Fine? ==> LoadWait(looks, files, loaded))
      ensures !a.Fine? ==> trouble > old(trouble)
      ensures a.Fine? && !loaded ==> deadline <= now
    {
      looks := [];
      while true
        invariant now >= old(now) && trouble >= old(trouble) && thrown == old(thrown)
        invariant log == old(log) + looks && forall i :: 0 <= i < |looks| ==> looks[i] == Event(FoundMissing, files)
        decreases deadline - now
      {
        a, loaded := IsLoaded(deadline);
        if !a.Fine? {
          return;
        }
        looks := looks + [Event(if loaded then FoundLoaded else FoundMissing, files)];
        if loaded {
          return;
        }
        Pass();
        if deadline <= now {
          return;
        }
        Sleep(Min(POLL, deadline - now));
      }
    }

    /** Bootstraps the job, trying again while the system says it is still busy
        with the last one.  Success is the command's and the job seen loaded. */
    method Bootstrap() returns (a: Answer, done: bool, ghost steps: seq<Event>)
      modifies this`now, this`status, this`log, this`trouble, this`thrown
      ensures Threw(old(thrown), a)
      ensures now >= old(now) && trouble >= old(trouble) && log == old(log) + steps
      ensures a.Fine? ==> Boot(steps, files, done, now >= old(now) + BOOTSTRAP)
      ensures !a.Fine? || !done ==> trouble > old(trouble) || now >= old(now) + BOOTSTRAP
      ensures !a.Fine? ==> trouble > old(trouble)
    {
      hide Boot, Retries;
      var deadline := now + BOOTSTRAP;
      steps := [];
      NoRetries(files);
      while true
        invariant now >= old(now) && trouble >= old(trouble) && thrown == old(thrown)
        invariant log == old(log) + steps && Retries(steps, files)
        decreases deadline - now
      {
        var result;
        a, result := RunBefore(deadline, {0});
        if !a.Fine? {
          return a, false, steps;
        }
        See(Tried(result));
        if result == 0 {
          a, done, steps := FinishBootstrap(deadline, steps);
          return;
        }
        if result != 5 && result != 37 {
          steps := BootEnds(steps, [Event(Tried(result), files)], files, false, false);
          return Fine, false, steps;
        }
        var loaded;
        a, loaded := IsLoaded(deadline);
        if !a.Fine? {
          steps := steps + [Event(Tried(result), files)];
          return a, false, steps;
        }
        if loaded {
          steps := BootEnds(steps, [Event(Tried(result), files), Event(FoundLoaded, files)], files, false, false);
          return Fine, false, steps;
        }
        ghost var before := steps;
        steps := OneRetry(steps, result, files);
        Pass();
        if deadline <= now {
          RetryEnds(before, result, files);
          return Fine, false, steps;
        }
        Sleep(Min(POLL, deadline - now));
        if deadline <= now {
          RetryEnds(before, result, files);
          return Fine, false, steps;
        }
      }
    }

    /** An attempt worked: the job must now be seen. */
    method FinishBootstrap(deadline: int, ghost before: seq<Event>) returns (a: Answer, done: bool, ghost steps: seq<Event>)
      requires Retries(before, files) && log != [] && log[|log| - 1] == Event(Tried(0), files)
      modifies this`now, this`status, this`log, this`trouble, this`thrown
      ensures Threw(old(thrown), a) && now >= old(now) && trouble >= old(trouble)
      ensures |steps| > |before| && before + [Event(Tried(0), files)] <= steps && old(log) + steps[|before| + 1..] == log
      ensures a.Fine? ==> Boot(steps, files, done, deadline <= now)
      ensures a.Fine? && !done ==> deadline <= now
      ensures !a.Fine? ==> trouble > old(trouble)
    {
      hide Boot, Retries;
      ghost var looks;
      a, done, looks := WaitLoaded(deadline);
      ghost var last := [Event(Tried(0), files)] + looks;
      if a.Fine? && done {
        See(Bootstrapped);
        last := last + [Event(Bootstrapped, files)];
      }
      steps := before + last;
      if a.Fine? {
        FinishedBoot(looks, last, files, done, deadline <= now);
        steps := BootEnds(before, last, files, done, deadline <= now);
      }
    }

    method Reload() returns (a: Answer)
      modifies this`now, this`status, this`log, this`trouble, this`thrown
      ensures Threw(old(thrown), a)
      ensures now >= old(now) && trouble == old(trouble) + (if a.Fine? then 0 else 1)
      ensures log == if a.Fine? then old(log) + [Event(Sight.Reloaded, files)] else old(log)
    {
      a := Command(now + RELOAD);
      if a.Fine? {
        See(Sight.Reloaded);
      }
    }

    /** Waits until the loaded job has a process. */
    method WaitProcess() returns (a: Answer, ghost looks: seq<Event>)
      modifies this`now, this`status, this`log, this`trouble, this`thrown
      ensures Threw(old(thrown), a)
      ensures now >= old(now) && trouble >= old(trouble) && log == old(log) + looks && Quiet([], looks)
      ensures a.Fine? ==> looks != [] && looks[|looks| - 1].sight.Identified? && looks[|looks| - 1].sight.found.Some?
      ensures forall i :: 0 <= i < |looks| - (if a.Fine? then 1 else 0) && looks[i].sight.Identified? && looks[i].sight.found.Some? ==>
                trouble > old(trouble)
      ensures !a.Fine? ==> trouble > old(trouble) || now >= old(now) + INSPECTION
      ensures a.Foreign? ==> trouble > old(trouble)
    {
      var deadline := now + INSPECTION;
      looks := [];
      while true
        invariant now >= old(now) && trouble >= old(trouble) && thrown == old(thrown)
        invariant log == old(log) + looks && Quiet([], looks)
        invariant forall i :: 0 <= i < |looks| && looks[i].sight.Identified? ==> looks[i].sight.found.None?
        decreases deadline - now
      {
        var process;
        ghost var listed;
        ghost var before := log;
        a, process, listed := LoadedProcess(deadline);
        looks := looks + log[|before|..];
        if !a.Fine? || process.Some? {
          return;
        }
        Pass();
        if deadline <= now {
          return Failed, looks;
        }
        Sleep(Min(POLL, deadline - now));
        if deadline <= now {
          return Failed, looks;
        }
      }
    }

    // ----- the job ------------------------------------------------------------

    /** Takes the loaded job down and brings it up again, saying how far it got. */
    method ReplaceLoadedJob() returns (r: Replacement, ghost c: Course)
      modifies this`now, this`status, this`log, this`trouble, this`thrown
      ensures Threw(old(thrown), if r.Escaped? then Foreign else Fine)
      ensures now >= old(now) && trouble >= old(trouble)
      ensures log == old(log) + CourseLog(c, files) && CourseMeans(c, r, files)
      ensures r.Broken? ==> trouble > old(trouble) || now >= old(now) + BOOTSTRAP
      ensures r.Broken? && (r.stage.PreBootout? || r.stage.BootoutFailed?) ==> trouble > old(trouble)
      ensures r.Escaped? ==> trouble > old(trouble)
    {
      hide Quiet, StopWait, Boot, LookUp;
      var deadline := now + SHUTDOWN;
      ghost var listed;
      var a, process;
      a, process, listed := LoadedProcess(deadline);
      QuietGrows(old(log), log);
      c := Course(listed, process, log[|old(log)|..], None, [], []);
      if !a.Fine? {
        return if a.Failed? then Broken(PreBootout, None) else Escaped, c;
      }
      a := Bootout(deadline);
      c := c.(taken := Some(a.Fine?));
      if !a.Fine? {
        return if a.Failed? then Broken(BootoutFailed, process) else Escaped, c;
      }
      var stopped;
      ghost var wait;
      a, stopped, wait := WaitStopped(process, deadline);
      c := c.(wait := wait);
      if !a.Fine? || !stopped {
        NotStopped(wait, process, files, a.Fine?);
        return if !a.Foreign? then Broken(PostBootout, process) else Escaped, c;
      }
      var done;
      ghost var boot, began := [], now;
      a, done, boot := Bootstrap();
      c := c.(boot := boot);
      if a.Fine? && done {
        BootedInTime(boot, files, now >= began + BOOTSTRAP);
        return Replaced, c;
      }
      r := if !a.Foreign? then Broken(PostBootout, None) else Escaped;
    }

    /** Brings the prior job back: left alone if it is the very process that
        could not be taken down, taken down and up again otherwise. */
    method RestoreLoadedJob(interrupted: Option<Process>, preserve: bool) returns (a: Answer, ghost v: Revival)
      modifies this`now, this`status, this`log, this`trouble, this`thrown
      ensures Threw(old(thrown), a)
      ensures now >= old(now) && old(log) <= log && trouble >= old(trouble)
      ensures a.Fine? ==> log == old(log) + RevivalLog(v, interrupted, files) && RevivalMeans(v, interrupted, preserve, files)
      ensures !a.Fine? ==> trouble > old(trouble) || now >= old(now) + BOOTSTRAP
      ensures a.Foreign? ==> trouble > old(trouble)
    {
      hide StopWait, Revived, RevivalMeans, RevivalLog, LookUp, Quiet;
      v := Kept(None);
      var deadline := now + RECOVERY;
      var loaded;
      a, loaded := IsLoaded(deadline);
      if !a.Fine? {
        return;
      }
      ghost var wait, boot, looks;
      if loaded {
        a, v := RestartJob(interrupted, preserve, deadline, old(log));
        return;
      }
      ghost var missed := log;
      wait := [];
      if interrupted.Some? {
        var stopped;
        a, stopped, wait := WaitStopped(interrupted, deadline);
        if !a.Fine? || !stopped {
          a := if a.Foreign? then Foreign else Failed;
          return;
        }
      }
      a, boot, looks := BringUp();
      if a.Fine? {
        v := MissingRevived(old(log), log, wait, boot, looks, interrupted, preserve, files);
      }
    }

    /** Takes the job that is there down and up again, unless it is the very
        process to be kept. */
    method RestartJob(interrupted: Option<Process>, preserve: bool, deadline: int, ghost before: seq<Event>)
      returns (a: Answer, ghost v: Revival)
      requires log == before + [Event(FoundLoaded, files)]
      modifies this`now, this`status, this`log, this`trouble, this`thrown
      ensures Threw(old(thrown), a)
      ensures now >= old(now) && old(log) <= log && trouble >= old(trouble)
      ensures a.Fine? ==> log == before + RevivalLog(v, interrupted, files) && RevivalMeans(v, interrupted, preserve, files)
      ensures !a.Fine? ==> trouble > old(trouble) || now >= deadline || now >= old(now) + BOOTSTRAP
      ensures a.Foreign? ==> trouble > old(trouble)
    {
      hide StopWait, Revived, RevivalMeans, RevivalLog, LookUp, Quiet;
      ghost var listed;
      var process;
      a, process, listed := LoadedProcess(deadline);
      QuietGrows(old(log), log);
      v := Kept(listed);
      if !a.Fine? {
        return;
      }
      if preserve && process == interrupted {
        IsKept(before, log, listed, interrupted, preserve, files);
        return;
      }
      ghost var looked := log;
      a := Bootout(deadline);
      if !a.Fine? {
        return;
      }
      var stopped;
      ghost var wait, boot, looks;
      a, stopped, wait := WaitStopped(process, deadline);
      if !a.Fine? || !stopped {
        a := if a.Foreign? then Foreign else Failed;
        return;
      }
      a, boot, looks := BringUp();
      if a.Fine? {
        v := Restarted(listed, process, wait, boot, looks);
        IsRestarted(before, log, listed, process, wait, boot, looks, interrupted, preserve, files);
      }
    }

    /** Bootstraps the job and waits for its process. */
    method BringUp() returns (a: Answer, ghost boot: seq<Event>, ghost looks: seq<Event>)
      modifies this`now, this`status, this`log, this`trouble, this`thrown
      ensures Threw(old(thrown), a)
      ensures now >= old(now) && trouble >= old(trouble) && log == old(log) + boot + looks
      ensures a.Fine? ==> Revived(boot, looks, files)
      ensures !a.Fine? ==> trouble > old(trouble) || now >= old(now) + BOOTSTRAP
      ensures a.Foreign? ==> trouble > old(trouble)
    {
      hide Boot, Quiet;
      looks := [];
      var done;
      ghost var began := now;
      a, done, boot := Bootstrap();
      if !a.Fine? || !done {
        a := if a.Foreign? then Foreign else Failed;
        return;
      }
      BootedInTime(boot, files, now >= began + BOOTSTRAP);
      a, looks := WaitProcess();
    }

    // ----- the files ----------------------------------------------------------

    /** Replaces one file, content and mode together, or changes nothing. */
    method AtomicWrite(caddyfile: bool, state: Managed) returns (a: Answer)
      requires state.Present?
      modifies this`files, this`trace, this`log, this`trouble, this`thrown
      ensures Threw(old(thrown), a)
      ensures trouble == old(trouble) + (if a.Fine? then 0 else 1)
      ensures log == if a.Fine? then old(log) + [Event(Wrote, files)] else old(log)
      ensures files == Replacing(old(files), caddyfile, state, a)
      ensures trace == if a.Fine? then old(trace) + [files] else old(trace)
    {
      a := AttemptWrite();
      if a.Fine? {
        files := if caddyfile then files.(caddyfile := state) else files.(plist := state);
        trace := trace + [files];
        See(Wrote);
      }
    }

    method RestoreFile(caddyfile: bool, state: Managed) returns (a: Answer)
      modifies this`files, this`trace, this`log, this`lostRestores, this`trouble, this`thrown
      ensures Threw(old(thrown), a)
      ensures trouble == old(trouble) + (if a.Fine? then 0 else 1)
      ensures log == if a.Fine? then old(log) + [Event(Wrote, files)] else old(log)
      ensures files == Replacing(old(files), caddyfile, state, a)
      ensures trace == if a.Fine? then old(trace) + [files] else old(trace)
      ensures lostRestores == old(lostRestores) + (if a.Fine? then 0 else 1)
    {
      if state.Missing? {
        var removed := Attempt();
        a := if removed then Fine else Failed;
        if a.Fine? {
          files := if caddyfile then files.(caddyfile := Missing) else files.(plist := Missing);
          trace := trace + [files];
          See(Wrote);
        }
      } else {
        a := AtomicWrite(caddyfile, state);
      }
      if !a.Fine? {
        lostRestores := lostRestores + 1;
      }
    }

    method RestoreFiles(prior: Pair, ghost desired: Pair) returns (a: Answer)
      requires Between(files, prior, desired)
      modifies this`files, this`trace, this`log, this`lostRestores, this`restorations, this`trouble, this`thrown
      ensures Threw(old(thrown), a)
      ensures trouble >= old(trouble) && old(log) <= log && OnlyWrote(log, |old(log)|)
      ensures AllBetween(old(trace), trace, prior, desired) && Between(files, prior, desired)
      ensures lostRestores >= old(lostRestores) && (a.Fine? <==> lostRestores == old(lostRestores))
      ensures restorations == old(restorations) + 1
      ensures a.Fine? ==> files == prior
      ensures !a.Fine? ==> trouble > old(trouble)
    {
      restorations := restorations + 1;
      a := RestoreFile(true, prior.caddyfile);
      if a.Fine? {
        a := RestoreFile(false, prior.plist);
      }
    }

    /** The writes a publication needs, each skipped where content and mode are
        already as desired.  `first` and `second` are how the two writes end, if
        they are made. */
    method WriteFiles(prior: Pair, desired: Pair) returns (a: Answer, ghost first: Answer, ghost second: Answer)
      requires files == prior && desired.caddyfile.Present? && desired.plist.Present?
      modifies this`files, this`trace, this`log, this`trouble, this`thrown
      ensures Threw(old(thrown), a)
      ensures old(log) <= log && OnlyWrote(log, |old(log)|)
      ensures AllBetween(old(trace), trace, prior, desired) && Between(files, prior, desired)
      ensures (files, a) == WritesEnd(prior, desired, first, second)
      ensures a.Fine? ==> files == desired
      ensures files != prior <==> trace != old(trace)
      ensures trouble >= old(trouble) && (a.Fine? <==> trouble == old(trouble))
    {
      a, first, second := Fine, Fine, Fine;
      if prior.caddyfile != desired.caddyfile {
        a := AtomicWrite(true, desired.caddyfile);
        first := a;
      }
      if a.Fine? && prior.plist != desired.plist {
        a := AtomicWrite(false, desired.plist);
        second := a;
      }
    }

    // ----- the publication ----------------------------------------------------

    /** The new files did not come up: the prior files back first, then the
        prior job, in the way the failure calls for.  `wrote` is what was
        written, `v` how the job was revived. */
    method UndoActivation(prior: Pair, ghost desired: Pair, replaced: bool, stage: Stage, process: Option<Process>)
      returns (out: Outcome, ghost wrote: seq<Event>, ghost v: Revival)
      requires Between(files, prior, desired)
      modifies this`files, this`now, this`status, this`trace, this`log, this`lostRestores, this`restorations, this`trouble, this`thrown
      ensures Threw(old(thrown), EndOf(out))
      ensures AllBetween(old(trace), trace, prior, desired) && old(log) + wrote <= log && lostRestores >= old(lostRestores)
      ensures OnlyWrote(wrote, 0)
      ensures out in {Raised(RestoreFailed), Raised(ActivationFailed(true)), Raised(ActivationFailed(false)), Raised(OtherError)}
      ensures lostRestores == old(lostRestores) ==> files == prior && out != Raised(RestoreFailed)
      ensures out.failure.ActivationFailed? ==> files == prior
      ensures out == Raised(ActivationFailed(true)) ==> Undone(log[|old(log) + wrote|..], replaced, stage, process, v, prior)
      ensures out == Raised(ActivationFailed(false)) ==>
                || trouble > old(trouble) || now >= old(now) + BOOTSTRAP
                || (replaced && stage.PreBootout? && log == old(log) + wrote + [Event(FoundMissing, prior)])
      ensures trouble >= old(trouble) && now >= old(now) && restorations == old(restorations) + 1
      ensures out == Raised(OtherError) || out == Raised(RestoreFailed) ==> trouble > old(trouble)
    {
      hide AllBetween, OnlyWrote, RevivalMeans;
      v := Kept(None);
      var a := RestoreFiles(prior, desired);
      wrote := log[|old(log)|..];
      WroteOnly(log, |old(log)|);
      if !a.Fine? {
        return Raised(if a.Failed? then RestoreFailed else OtherError), wrote, v;
      }
      var up := true;
      if !replaced {
        a := Reload();
      } else if stage.PreBootout? {
        a, up := IsLoaded(now + INSPECTION);
      } else {
        a, v := RestoreLoadedJob(process, stage.BootoutFailed?);
      }
      out := Raised(if a.Foreign? then OtherError else ActivationFailed(a.Fine? && up));
    }

    /** Activates what was written.  An error of another kind leaves the new
        files where they are.  `r` is how replacing the job went and `c` what was
        done for it; then the files were put back, which `wrote` tells, and the
        job revived as `v` tells. */
    method Activate(prior: Pair, desired: Pair, replace: bool)
      returns (out: Outcome, ghost r: Replacement, ghost c: Course, ghost wrote: seq<Event>, ghost v: Revival)
      requires files == desired
      modifies this`files, this`now, this`status, this`trace, this`log, this`lostRestores, this`restorations, this`trouble, this`thrown
      ensures Threw(old(thrown), EndOf(out))
      ensures AllBetween(old(trace), trace, prior, desired) && old(log) <= log && lostRestores >= old(lostRestores)
      ensures out.Returned? ==> files == desired && out.activation == (if replace then ReplaceActivation else ReloadActivation)
      ensures out.Raised? ==> out.failure == RestoreFailed || out.failure == OtherError || out.failure.ActivationFailed?
      ensures restorations >= old(restorations) && (out.Returned? ==> restorations == old(restorations))
      ensures restorations == old(restorations) ==> lostRestores == old(lostRestores) && trace == old(trace)
      ensures out.Raised? && restorations == old(restorations) ==> out == Raised(OtherError)
      ensures out.Raised? && lostRestores == old(lostRestores) ==>
                files == if restorations == old(restorations) then desired else prior
      ensures out == Raised(RestoreFailed) ==> lostRestores > old(lostRestores)
      ensures out.Raised? && out.failure.ActivationFailed? ==> files == prior
      ensures Activated(old(log), log, out, prior, desired, replace, r, c, wrote, v)
      ensures trouble >= old(trouble) && now >= old(now)
      ensures out.Raised? ==> trouble > old(trouble) || now >= old(now) + BOOTSTRAP
      ensures out == Raised(ActivationFailed(false)) ==>
                trouble > old(trouble) + 1 || now >= old(now) + BOOTSTRAP || EndsWith(log, |old(log)|, FoundMissing, prior)
    {
      hide AllBetween, OnlyWrote, CourseMeans, RevivalMeans, Quiet, RevivalLog, CourseLog;
      NoneBetween(trace, prior, desired);
      r, c, wrote, v := Escaped, Course(None, None, [], None, [], []), [], Kept(None);
      var stage, process := PreBootout, None;
      if replace {
        var replacement;
        replacement, c := ReplaceLoadedJob();
        r := replacement;
        if replacement.Replaced? {
          return Returned(ReplaceActivation), r, c, wrote, v;
        }
        if replacement.Escaped? {
          return Raised(OtherError), r, c, wrote, v;
        }
        stage, process := replacement.stage, replacement.process;
      } else {
        var a := Reload();
        if a.Fine? {
          return Returned(ReloadActivation), r, c, wrote, v;
        }
        if a.Foreign? {
          return Raised(OtherError), r, c, wrote, v;
        }
      }
      ghost var tried := log;
      out, wrote, v := UndoActivation(prior, desired, replace, stage, process);
      if out == Raised(ActivationFailed(true)) {
        assert log == tried + wrote + log[|tried + wrote|..];
      }
    }

    /** Validates the candidate, looks at the job again, and decides how the
        new files would be activated.  `v` is how a job that had gone was
        revived. */
    method Preflight(prior: Pair, desired: Pair, wasLoaded: bool)
      returns (stop: Option<Failure>, loaded: bool, replace: bool, ghost v: Revival)
      requires files == prior && desired.caddyfile.Present? && desired.plist.Present?
      modifies this`now, this`status, this`log, this`trouble, this`thrown
      ensures Threw(old(thrown), if stop == Some(OtherError) then Foreign else Fine)
      ensures old(log) <= log && trouble >= old(trouble) && now >= old(now)
      ensures stop.Some? ==> stop.value == Refused || stop.value == OtherError || stop.value.StateChanged?
      ensures stop.Some? ==> trouble > old(trouble) || StateClash(stop.value, prior, wasLoaded, log, |old(log)|)
      ensures stop.Some? && stop.value.StateChanged? ==>
                wasLoaded && old(log) + [Event(Validated, prior), Event(FoundMissing, prior)] <= log
      ensures stop == Some(StateChanged(true)) ==>
                && log == old(log) + [Event(Validated, prior), Event(FoundMissing, prior)] + RevivalLog(v, None, prior)
                && RevivalMeans(v, None, false, prior)
      ensures stop == Some(StateChanged(false)) ==> trouble > old(trouble) || now >= old(now) + BOOTSTRAP
      ensures stop.None? ==> log == old(log) + [Event(Validated, prior), Event(if loaded then FoundLoaded else FoundMissing, prior)]
      ensures stop.None? ==> (wasLoaded ==> loaded) && (loaded ==> prior.caddyfile.Present? && prior.plist.Present?)
      ensures stop.None? && loaded && !SameContents(prior, desired) ==> (!replace <==> ReloadEnough(prior, desired, wasLoaded))
    {
      hide RevivalMeans;
      loaded, replace, v := false, false, Kept(None);
      var a := Command(now + VALIDATION);
      if !a.Fine? {
        return Some(Stopped(a)), loaded, replace, v;
      }
      See(Validated);
      a, loaded := IsLoaded(now + INSPECTION);
      if !a.Fine? {
        return Some(Stopped(a)), loaded, replace, v;
      }
      if wasLoaded && !loaded {
        assert log[|old(log)| + 1] == Event(FoundMissing, prior);
        a, v := RestoreLoadedJob(None, false);
        return Some(if a.Foreign? then OtherError else StateChanged(a.Fine?)), loaded, replace, v;
      }
      if loaded && (prior.caddyfile.Missing? || prior.plist.Missing?) {
        assert log[|old(log)| + 1] == Event(FoundLoaded, prior);
        return Some(Refused), loaded, replace, v;
      }
      var topology := false;
      if loaded && !SameContent(prior.caddyfile, desired.caddyfile) {
        var deadline := now + VALIDATION;
        var listeners, wanted;
        a, listeners := Adapt(prior.caddyfile.content, deadline);
        if !a.Fine? {
          return Some(Stopped(a)), loaded, replace, v;
        }
        a, wanted := Adapt(desired.caddyfile.content, deadline);
        if !a.Fine? {
          return Some(Stopped(a)), loaded, replace, v;
        }
        topology := listeners != wanted;
      }
      stop, replace := None, !SameContent(prior.plist, desired.plist) || !wasLoaded || topology;
    }

    /** Writes the files and activates them where the job is loaded, as it was
        decided.  `from` is where the publication began. */
    method WriteAndActivate(prior: Pair, desired: Pair, ghost wasLoaded: bool, loaded: bool, replace: bool, ghost from: nat)
      returns (out: Outcome, ghost first: Answer, ghost second: Answer)
      requires files == prior && desired.caddyfile.Present? && desired.plist.Present? && from <= |log|
      requires (loaded <==> !NeverUp(log, from)) && (loaded ==> prior.caddyfile.Present? && prior.plist.Present?)
      requires loaded && !SameContents(prior, desired) ==> (!replace <==> ReloadEnough(prior, desired, wasLoaded))
      modifies this`files, this`now, this`status, this`trace, this`log, this`lostRestores, this`restorations, this`trouble, this`thrown
      ensures Threw(old(thrown), EndOf(out))
      ensures AllBetween(old(trace), trace, prior, desired) && old(log) <= log && lostRestores >= old(lostRestores)
      ensures restorations >= old(restorations) && (out.Returned? ==> restorations == old(restorations))
      ensures restorations == old(restorations) ==> lostRestores == old(lostRestores)
      ensures out != Raised(Untidy) && out != Raised(Refused) && (out.Raised? ==> !out.failure.StateChanged?)
      ensures out.Returned? ==> files == desired
      ensures out == Raised(RestoreFailed) ==> lostRestores > old(lostRestores)
      ensures out == Raised(ActivationFailed(false)) ==>
                trouble > old(trouble) + 1 || now >= old(now) + BOOTSTRAP || EndsWith(log, |old(log)|, FoundMissing, prior)
      ensures out.Raised? && out.failure == WritesFailed ==> first.Failed? || second.Failed?
      ensures out.Raised? && lostRestores == old(lostRestores) ==>
                (files != prior <==> out == Raised(OtherError) && restorations == old(restorations) && trace != old(trace))
      ensures var (left, end) := WritesEnd(prior, desired, first, second);
              && (end.Foreign? ==> out == Raised(OtherError) && files == left && restorations == old(restorations))
              && (end.Failed? ==> restorations > old(restorations))
      ensures files == prior || files == desired || lostRestores > old(lostRestores) || WritesEnd(prior, desired, first, second).1.Foreign?
      ensures out == Raised(ActivationFailed(true)) ==> files == prior && SeenRunning(log, from, prior)
      ensures out == Returned(ReplaceActivation) ==> Cycled(log, from, desired)
      ensures out == Returned(ReloadActivation) ==> EndsWith(log, from, Sight.Reloaded, desired)
      ensures trouble >= old(trouble) && now >= old(now)
      ensures out.Returned? ==> ActivatedAs(out.activation, prior, desired, wasLoaded, NeverUp(log, from))
      ensures out.Raised? ==> trouble > old(trouble) || now >= old(now) + BOOTSTRAP
    {
      hide AllBetween, Between, SeenRunning, Cycled, NeverUp, OnlyWrote, ReloadEnough, Activated;
      NoneBetween(trace, prior, desired);
      ghost var v;
      ghost var looked := log;
      var a;
      a, first, second := WriteFiles(prior, desired);
      WritesUnseen(looked, log, from);
      if a.Foreign? {
        return Raised(OtherError), first, second;
      }
      if a.Failed? {
        ghost var written := trace;
        a := RestoreFiles(prior, desired);
        JoinBetween(old(trace), written, trace, prior, desired);
        return Raised(if a.Fine? then WritesFailed else if a.Failed? then RestoreFailed else OtherError), first, second;
      }
      if !loaded || SameContents(prior, desired) {
        return Returned(NoActivation), first, second;
      }
      ghost var middle, written := log, trace;
      ghost var r, c, wrote;
      out, r, c, wrote, v := Activate(prior, desired, replace);
      JoinBetween(old(trace), written, trace, prior, desired);
      ActivatedRuns(middle, log, from, out, prior, desired, replace, r, c, wrote, v);
      StillSeen(middle, log, from);
    }

    /** Everything between making the candidate and removing it.  `first` and
        `second` are how the two writes ended, where they were made. */
    method PublishCandidate(prior: Pair, desired: Pair, wasLoaded: bool)
      returns (out: Outcome, ghost first: Answer, ghost second: Answer)
      requires files == prior && desired.caddyfile.Present? && desired.plist.Present?
      modifies this`files, this`now, this`status, this`trace, this`log, this`lostRestores, this`restorations, this`trouble, this`thrown
      ensures Threw(old(thrown), EndOf(out))
      ensures AllBetween(old(trace), trace, prior, desired) && old(log) <= log && lostRestores >= old(lostRestores)
      ensures restorations >= old(restorations) && (out.Returned? ==> restorations == old(restorations))
      ensures restorations == old(restorations) ==> lostRestores == old(lostRestores)
      ensures out != Raised(Untidy)
      ensures out.Returned? ==> files == desired && old(log) + [Event(Validated, prior)] <= log
      ensures out == Raised(RestoreFailed) ==> lostRestores > old(lostRestores)
      ensures out in {Raised(ActivationFailed(false)), Raised(StateChanged(false))} ==>
                || trouble > old(trouble) + (if out == Raised(StateChanged(false)) then 0 else 1)
                || now >= old(now) + BOOTSTRAP || EndsWith(log, |old(log)|, FoundMissing, prior)
      ensures out.Raised? && out.failure.StateChanged? ==>
                wasLoaded && old(log) + [Event(Validated, prior), Event(FoundMissing, prior)] <= log
      ensures out.Raised? && out.failure == WritesFailed ==> first.Failed? || second.Failed?
      ensures out.Raised? && lostRestores == old(lostRestores) ==>
                (files != prior <==> out == Raised(OtherError) && restorations == old(restorations) && trace != old(trace))
      ensures var (left, end) := WritesEnd(prior, desired, first, second);
              && (end.Foreign? ==> out == Raised(OtherError) && files == left && restorations == old(restorations))
              && (end.Failed? ==> restorations > old(restorations))
      ensures files == prior || files == desired || lostRestores > old(lostRestores) || WritesEnd(prior, desired, first, second).1.Foreign?
      ensures out == Raised(ActivationFailed(true)) || out == Raised(StateChanged(true)) ==>
                files == prior && SeenRunning(log, |old(log)|, prior)
      ensures out == Returned(ReplaceActivation) ==> Cycled(log, |old(log)|, desired)
      ensures out == Returned(ReloadActivation) ==> EndsWith(log, |old(log)|, Sight.Reloaded, desired)
      ensures trouble >= old(trouble) && now >= old(now)
      ensures out.Returned? ==> ActivatedAs(out.activation, prior, desired, wasLoaded, NeverUp(log, |old(log)|))
      ensures out.Raised? ==> trouble > old(trouble) || now >= old(now) + BOOTSTRAP
                              || StateClash(out.failure, prior, wasLoaded, log, |old(log)|)
    {
      hide AllBetween, Between, SeenRunning, Cycled, NeverUp, OnlyWrote, ReloadEnough, RevivalMeans, Activated, Quiet;
      first, second := Fine, Fine;
      var stop, loaded, replace;
      ghost var v;
      stop, loaded, replace, v := Preflight(prior, desired, wasLoaded);
      if stop.Some? {
        NoneBetween(trace, prior, desired);
        if stop.value == StateChanged(true) {
          RevivalRuns(old(log) + [Event(Validated, prior), Event(FoundMissing, prior)], log, |old(log)|, v, None, false, prior);
        }
        return Raised(stop.value), first, second;
      }
      NoneBetween(trace, prior, desired);
      LookedUpOnce(old(log), log, loaded, prior);
      if prior == desired {
        return Returned(NoActivation), first, second;
      }
      out, first, second := WriteAndActivate(prior, desired, wasLoaded, loaded, replace, |old(log)|);
    }

    /** Reads both files as they are. */
    method Examine() returns (ok: bool)
      modifies this`trouble, this`log
      ensures trouble == old(trouble) + (if ok then 0 else 1)
      ensures log == if ok then old(log) + [Event(Examined, files)] else old(log)
    {
      ok := Attempt();
      if ok {
        See(Examined);
      }
    }

    /** Makes the candidate.  What is left of one that fails is removed, and an
        error in doing so is of another kind. */
    method MakeCandidate() returns (a: Answer)
      modifies this`trouble, this`thrown, this`leftovers
      ensures trouble == old(trouble) + (if a.Fine? then 0 else 1) && Threw(old(thrown), a)
      ensures a.Fine? ==> leftovers == old(leftovers) + 1
      ensures a.Failed? ==> leftovers == old(leftovers)
      ensures old(leftovers) <= leftovers <= old(leftovers) + 1
    {
      a := AttemptWrite();
      var stays: bool := *;
      if a.Fine? || (a.Foreign? && stays) {
        leftovers := leftovers + 1;
      }
    }

    /** Removes the candidate, without which the command fails. */
    method RemoveCandidate() returns (ok: bool)
      requires leftovers > 0
      modifies this`trouble, this`leftovers
      ensures trouble == old(trouble) + (if ok then 0 else 1) && leftovers == old(leftovers) - (if ok then 1 else 0)
    {
      ok := Attempt();
      if ok {
        leftovers := leftovers - 1;
      }
    }

    /** Installs both files and activates them.  A run that returns has read the
        files and had the candidate validated, and as long as every write that
        puts a file back succeeds it leaves both files as desired.  One that raises leaves both, content and mode, as they were,
        except in two cases: the publication had returned, with something to
        change, and its candidate could not be removed; or an error of another
        kind than the installer's own came up after a file was written and
        before any was put back.  It raises only if something failed, or the
        job's state clashed, or two seconds passed.  Each file is old or new at
        every moment, and an error says the running state was restored only
        when the job was seen running with the prior files in place, after the
        last file was written and the job was last told to go.  `inner` is how
        the publication itself ended, if it was begun. */
    method InstallBundle(desired: Pair, wasLoaded: bool) returns (out: Outcome, ghost inner: Option<Outcome>)
      requires desired.caddyfile.Present? && desired.plist.Present?
      modifies this
      ensures AllBetween(old(trace), trace, old(files), desired) && old(log) <= log && lostRestores >= old(lostRestores)
      ensures Threw(old(thrown), EndOf(if inner.Some? then inner.value else out))
      ensures inner.None? ==> files == old(files) && (out == Raised(OtherError) || (out == Raised(Refused) && leftovers == old(leftovers)))
      ensures inner.Some? ==> out == if leftovers == old(leftovers) then inner.value else Raised(Untidy)
      ensures out.Returned? ==> files == desired && old(log) + [Event(Examined, old(files)), Event(Validated, old(files))] <= log
      ensures inner == Some(Raised(RestoreFailed)) ==> lostRestores > old(lostRestores)
      ensures inner.Some? && inner.value in {Raised(ActivationFailed(false)), Raised(StateChanged(false))} ==>
                || trouble > old(trouble) + (if inner.value == Raised(StateChanged(false)) then 0 else 1)
                || now >= old(now) + BOOTSTRAP || EndsWith(log, |old(log)|, FoundMissing, old(files))
      ensures inner.Some? && inner.value.Raised? && inner.value.failure.StateChanged? ==>
                wasLoaded && old(log) + [Event(Examined, old(files)), Event(Validated, old(files)), Event(FoundMissing, old(files))] <= log
      ensures out.Raised? && lostRestores == old(lostRestores) ==>
                (files != old(files) <==>
                  || (leftovers > old(leftovers) && inner.Some? && inner.value.Returned? && old(files) != desired)
                  || (thrown != old(thrown) && restorations == old(restorations) && trace != old(trace)))
      ensures files != old(files) && lostRestores == old(lostRestores) && thrown == old(thrown) ==> files == desired
      ensures inner.Some? && inner.value in {Raised(ActivationFailed(true)), Raised(StateChanged(true))} ==>
                files == old(files) && SeenRunning(log, |old(log)|, old(files))
      ensures out == Returned(ReplaceActivation) ==> Cycled(log, |old(log)|, desired)
      ensures out == Returned(ReloadActivation) ==> EndsWith(log, |old(log)|, Sight.Reloaded, desired)
      ensures out.Returned? ==> ActivatedAs(out.activation, old(files), desired, wasLoaded, NeverUp(log, |old(log)|))
      ensures out.Raised? ==> trouble > old(trouble) || now >= old(now) + BOOTSTRAP
                              || StateClash(out.failure, old(files), wasLoaded, log, |old(log)|)
    {
      hide AllBetween, SeenRunning, Cycled, NeverUp, ActivatedAs, StateClash, WritesEnd;
      var prior := files;
      inner := None;
      NoneBetween(trace, prior, desired);
      var readable := Examine();
      if !readable {
        return Raised(Refused), inner;
      }
      ghost var began := log;
      var prepared := MakeCandidate();
      if !prepared.Fine? {
        return Raised(Stopped(prepared)), inner;
      }
      ghost var first, second;
      out, first, second := PublishCandidate(prior, desired, wasLoaded);
      SinceExamined(began, log, |old(log)|, prior, desired, wasLoaded);
      inner := Some(out);
      var tidied := RemoveCandidate();
      if !tidied {
        out := Raised(Untidy);
      }
    }
  }

  /** A temporary of the second write that can be neither moved nor removed: one
      file new, one old, which is neither what was there nor what was wanted. */
  lemma HalfWritten(prior: Pair, desired: Pair)
    requires prior.caddyfile != desired.caddyfile && prior.plist != desired.plist
    ensures WritesEnd(prior, desired, Fine, Foreign) == (Pair(desired.caddyfile, prior.plist), Foreign)
    ensures Pair(desired.caddyfile, prior.plist) != prior && Pair(desired.caddyfile, prior.plist) != desired
  {
  }

  lemma NoneBetween(trace: seq<Pair>, prior: Pair, desired: Pair)
    ensures AllBetween(trace, trace, prior, desired)
  {
  }

  lemma JoinBetween(a: seq<Pair>, b: seq<Pair>, c: seq<Pair>, prior: Pair, desired: Pair)
    requires AllBetween(a, b, prior, desired) && AllBetween(b, c, prior, desired)
    ensures AllBetween(a, c, prior, desired)
  {
    forall i | |a| <= i < |c| ensures Between(c[i], prior, desired) {
      if i < |b| {
        assert c[i] == b[i];
      }
    }
  }

  lemma EndsRunning(log: seq<Event>, from: nat, sight: Sight, files: Pair)
    requires EndsWith(log, from, sight, files) && Up(Event(sight, files))
    ensures SeenRunning(log, from, files)
  {
    assert StandsFrom(log, |log| - 1, files);
  }

  lemma QuietGrows(before: seq<Event>, after: seq<Event>)
    requires Quiet(before, after)
    ensures before <= after
  {
  }

  // ----- waits, bootstraps and revivals --------------------------------------

  lemma NotGone(looks: seq<Event>, process: Option<Process>, files: Pair)
    requires looks == []
    ensures StopWait(looks, process, files, false)
  {
  }

  lemma WaitMore(before: seq<Event>, e: Event, process: Option<Process>, files: Pair)
    requires StopWait(before, process, files, false)
    ensures StopWait(before + [e], process, files, Gone(before + [e], process, files))
  {
    hide Gone;
    var looks := before + [e];
    forall k | 0 <= k < |looks| ensures !Gone(looks[..k], process, files) {
      if k < |before| {
        assert looks[..k] == before[..k];
      } else {
        assert looks[..k] == before;
      }
    }
  }

  lemma NotGoneYet(before: seq<Event>, p: Process, seen: Event, files: Pair)
    requires StopWait(before, Some(p), files, false) && !seen.sight.Identified?
    ensures StopWait(before + [seen], Some(p), files, false)
  {
    hide StopWait;
    WaitMore(before, seen, Some(p), files);
  }

  lemma LookedAt(before: seq<Event>, p: Process, loaded: bool, current: Option<Process>, files: Pair)
    requires StopWait(before + [Event(if loaded then FoundLoaded else FoundMissing, files)], Some(p), files, false)
    ensures StopWait(before + [Event(if loaded then FoundLoaded else FoundMissing, files)] + [Event(Identified(p.pid, current), files)],
                     Some(p), files, !loaded && current != Some(p))
  {
    hide StopWait;
    WaitMore(before + [Event(if loaded then FoundLoaded else FoundMissing, files)], Event(Identified(p.pid, current), files), Some(p), files);
  }

  lemma LookedOnce(before: seq<Event>, loaded: bool, files: Pair)
    requires StopWait(before, None, files, false)
    ensures StopWait(before + [Event(if loaded then FoundLoaded else FoundMissing, files)], None, files, !loaded)
  {
    hide StopWait;
    WaitMore(before, Event(if loaded then FoundLoaded else FoundMissing, files), None, files);
  }

  lemma NotStopped(wait: seq<Event>, process: Option<Process>, files: Pair, fine: bool)
    requires if fine then StopWait(wait, process, files, false) else !StopWait(wait, process, files, true)
    ensures !StopWait(wait, process, files, true)
  {
  }

  lemma NoRetries(files: Pair)
    ensures Retries([], files)
  {
  }

  lemma {:induction false} OneRetry(before: seq<Event>, status: int, files: Pair) returns (steps: seq<Event>)
    requires Retries(before, files) && status in BUSY
    ensures steps == before + [Event(Tried(status), files), Event(FoundMissing, files)] && Retries(steps, files)
  {
    var last := [Event(Tried(status), files), Event(FoundMissing, files)];
    steps := before + last;
    if before == [] {
      assert steps == last && last[2..] == [];
    } else {
      var rest := OneRetry(before[2..], status, files);
      assert steps[2..] == rest;
    }
  }

  lemma {:induction false} BootEnds(before: seq<Event>, last: seq<Event>, files: Pair, done: bool, late: bool) returns (steps: seq<Event>)
    requires Retries(before, files) && Boot(last, files, done, late)
    ensures steps == before + last && Boot(steps, files, done, late) && Boot(steps, files, done, true)
  {
    steps := before + last;
    if before == [] {
      assert steps == last;
      BootLater(last, files, done, late);
    } else {
      var rest := BootEnds(before[2..], last, files, done, late);
      assert steps[2..] == rest && steps[0] == before[0] && steps[1] == before[1];
    }
  }

  lemma {:induction false} BootLater(steps: seq<Event>, files: Pair, done: bool, late: bool)
    requires Boot(steps, files, done, late)
    ensures Boot(steps, files, done, true)
  {
    if steps[0].sight.status in BUSY && |steps| > 2 {
      BootLater(steps[2..], files, done, late);
    }
  }

  /** A bootstrap that worked was not late. */
  lemma {:induction false} BootedInTime(steps: seq<Event>, files: Pair, late: bool)
    requires Boot(steps, files, true, late)
    ensures Boot(steps, files, true, false)
    ensures EndsWith(steps, 0, Bootstrapped, files)
  {
    if steps[0].sight.status in BUSY {
      BootedInTime(steps[2..], files, late);
    }
  }

  lemma RetryEnds(before: seq<Event>, status: int, files: Pair)
    requires Retries(before, files) && status in BUSY
    ensures Boot(before + [Event(Tried(status), files), Event(FoundMissing, files)], files, false, true)
  {
    var steps := BootEnds(before, [Event(Tried(status), files), Event(FoundMissing, files)], files, false, true);
  }

  lemma FinishedBoot(looks: seq<Event>, last: seq<Event>, files: Pair, done: bool, late: bool)
    requires LoadWait(looks, files, done) && (!done ==> late)
    requires last == [Event(Tried(0), files)] + looks + (if done then [Event(Bootstrapped, files)] else [])
    ensures Boot(last, files, done, late)
  {
    hide LoadWait;
    if done {
      assert last[1..|last| - 1] == looks;
    } else {
      assert last[1..] == looks;
    }
  }

  lemma IsKept(before: seq<Event>, log: seq<Event>, listed: Option<nat>, interrupted: Option<Process>, preserve: bool, files: Pair)
    requires log == before + [Event(FoundLoaded, files)] + LookUp(listed, interrupted, files)
    requires preserve && (listed.None? ==> interrupted.None?)
    ensures log == before + RevivalLog(Kept(listed), interrupted, files)
    ensures RevivalMeans(Kept(listed), interrupted, preserve, files)
  {
    hide LookUp;
  }

  lemma IsRestarted(before: seq<Event>, log: seq<Event>, listed: Option<nat>, process: Option<Process>, wait: seq<Event>,
                    boot: seq<Event>, looks: seq<Event>, interrupted: Option<Process>, preserve: bool, files: Pair)
    requires log == before + [Event(FoundLoaded, files)] + LookUp(listed, process, files) + [Event(TakenDown(true), files)] + wait + boot + looks
    requires (listed.None? ==> process.None?) && !(preserve && process == interrupted)
    requires StopWait(wait, process, files, true) && Revived(boot, looks, files)
    ensures log == before + RevivalLog(Restarted(listed, process, wait, boot, looks), interrupted, files)
    ensures RevivalMeans(Restarted(listed, process, wait, boot, looks), interrupted, preserve, files)
  {
    hide LookUp, StopWait, Revived;
  }

  lemma MissingRevived(before: seq<Event>, log: seq<Event>, wait: seq<Event>, boot: seq<Event>, looks: seq<Event>,
                       interrupted: Option<Process>, preserve: bool, files: Pair)
    returns (v: Revival)
    requires log == before + [Event(FoundMissing, files)] + wait + boot + looks
    requires if interrupted.Some? then StopWait(wait, interrupted, files, true) else wait == []
    requires Revived(boot, looks, files)
    ensures log == before + RevivalLog(v, interrupted, files) && RevivalMeans(v, interrupted, preserve, files)
  {
    hide StopWait, Revived;
    v := if interrupted.Some? then Awaited(wait, boot, looks) else Begun(boot, looks);
  }

  lemma WroteOnly(log: seq<Event>, from: nat)
    requires from <= |log| && OnlyWrote(log, from)
    ensures OnlyWrote(log[from..], 0)
  {
  }

  /** A job that was revived was seen running, and stands. */
  lemma RevivalRuns(before: seq<Event>, log: seq<Event>, from: nat, v: Revival, interrupted: Option<Process>, preserve: bool, files: Pair)
    requires log == before + RevivalLog(v, interrupted, files) && RevivalMeans(v, interrupted, preserve, files) && from <= |before|
    ensures SeenRunning(log, from, files)
  {
    hide Boot, StopWait, SeenRunning;
    if v.Kept? {
      LoadedStands(before, LookUp(v.listed, interrupted, files), log, from, files);
    } else {
      BootedInTime(v.boot, files, false);
      var start := log[..|log| - |v.boot| - |v.looks|];
      assert log == start + v.boot + v.looks;
      BootedStands(start, v.boot, v.looks, log, from, files);
    }
  }

  lemma LoadedStands(before: seq<Event>, looks: seq<Event>, log: seq<Event>, from: nat, files: Pair)
    requires log == before + ([Event(FoundLoaded, files)] + looks) && Quiet([], looks) && from <= |before|
    ensures SeenRunning(log, from, files)
  {
    assert StandsFrom(log, |before|, files);
  }

  lemma BootedStands(start: seq<Event>, boot: seq<Event>, looks: seq<Event>, log: seq<Event>, from: nat, files: Pair)
    requires log == start + boot + looks && EndsWith(boot, 0, Bootstrapped, files) && Quiet([], looks) && from <= |start|
    ensures SeenRunning(log, from, files)
  {
    var at := |start| + |boot| - 1;
    assert log[at] == boot[|boot| - 1];
    forall j | at < j < |log| ensures !Down(log[j]) {
      assert log[j] == looks[j - at - 1];
    }
    assert StandsFrom(log, at, files);
  }

  /** A job that was replaced was told to go, was missed, and was bootstrapped. */
  lemma CourseCycles(before: seq<Event>, log: seq<Event>, from: nat, c: Course, files: Pair)
    requires log == before + CourseLog(c, files) && CourseMeans(c, Replaced, files) && from <= |before|
    ensures Cycled(log, from, files)
  {
    hide Boot;
    BootedInTime(c.boot, files, false);
    var start := before + c.looks;
    assert log == start + [Event(TakenDown(true), files)] + c.wait + c.boot;
    var i, j := |start|, |start| + 1 + if c.process.None? then |c.wait| - 1 else |c.wait| - 2;
    assert log[i] == Event(TakenDown(true), files);
    assert log[j] == c.wait[j - i - 1] == Event(FoundMissing, files);
    assert log[|log| - 1] == c.boot[|c.boot| - 1];
  }

  lemma UndoneRuns(before: seq<Event>, log: seq<Event>, from: nat, replaced: bool, stage: Stage, process: Option<Process>, v: Revival,
                   files: Pair)
    requires before <= log && Undone(log[|before|..], replaced, stage, process, v, files) && from <= |before|
    ensures SeenRunning(log, from, files)
  {
    hide SeenRunning, RevivalMeans;
    assert log == before + log[|before|..];
    if !replaced {
      EndsRunning(log, from, Sight.Reloaded, files);
    } else if stage.PreBootout? {
      EndsRunning(log, from, FoundLoaded, files);
    } else {
      RevivalRuns(before, log, from, v, process, stage.BootoutFailed?, files);
    }
  }

  lemma ActivatedRuns(before: seq<Event>, log: seq<Event>, from: nat, out: Outcome, prior: Pair, desired: Pair, replace: bool,
                      r: Replacement, c: Course, wrote: seq<Event>, v: Revival)
    requires Activated(before, log, out, prior, desired, replace, r, c, wrote, v) && from <= |before|
    ensures out == Raised(ActivationFailed(true)) ==> SeenRunning(log, from, prior)
    ensures out.Returned? && replace ==> Cycled(log, from, desired)
    ensures out.Returned? && !replace ==> EndsWith(log, from, Sight.Reloaded, desired)
  {
    hide SeenRunning, Cycled, Undone, CourseMeans;
    if replace {
      var tried := before + CourseLog(c, desired);
      if r.Replaced? {
        CourseCycles(before, log, from, c, desired);
      }
      if out == Raised(ActivationFailed(true)) {
        UndoneRuns(tried + wrote, log, from, true, r.stage, r.process, v, prior);
      }
    } else if out == Raised(ActivationFailed(true)) {
      EndsRunning(log, from, Sight.Reloaded, prior);
    }
  }

  lemma LookedUpOnce(before: seq<Event>, log: seq<Event>, loaded: bool, prior: Pair)
    requires log == before + [Event(Validated, prior), Event(if loaded then FoundLoaded else FoundMissing, prior)]
    ensures loaded <==> !NeverUp(log, |before|)
  {
    if loaded {
      assert Up(log[|before| + 1]);
    }
  }

  /** Reading the files first changes nothing about what was seen. */
  lemma SinceExamined(before: seq<Event>, log: seq<Event>, from: nat, prior: Pair, desired: Pair, wasLoaded: bool)
    requires before <= log && |before| == from + 1 && before[from].sight.Examined?
    ensures SeenRunning(log, |before|, prior) ==> SeenRunning(log, from, prior)
    ensures Cycled(log, |before|, desired) ==> Cycled(log, from, desired)
    ensures NeverUp(log, |before|) <==> NeverUp(log, from)
    ensures forall f: Failure :: StateClash(f, prior, wasLoaded, log, |before|) ==> StateClash(f, prior, wasLoaded, log, from)
  {
    assert log[from].sight.Examined?;
    if !NeverUp(log, from) {
      var i :| from <= i < |log| && Up(log[i]);
      assert i >= |before|;
    }
  }

  lemma WritesUnseen(before: seq<Event>, after: seq<Event>, from: nat)
    requires before <= after && OnlyWrote(after, |before|)
    ensures NeverUp(after, from) <==> NeverUp(before, from)
  {
    if !NeverUp(before, from) {
      var i :| from <= i < |before| && Up(before[i]);
      assert after[i] == before[i];
    }
  }

  lemma StillSeen(before: seq<Event>, after: seq<Event>, from: nat)
    requires before <= after && !NeverUp(before, from)
    ensures !NeverUp(after, from)
  {
    var i :| from <= i < |before| && Up(before[i]);
    assert after[i] == before[i];
  }
}
