/** Which package scripts a check can end up running, and whether one of them
    runs the check again. */
module ScriptGraph {
  import opened Common

  type Name = string

  /** A script's value: a command, or something that is no string. */
  datatype Script = Command(text: string) | NoCommand

  type Scripts = map<Name, Script>

  /** The names a command gives to `npm run`, and whether it runs `npm test`. */
  const RunTargets: string -> seq<Name>
  const RunsTest: string -> bool
  /** Whether a command calls the platform's own tool. */
  const CallsPlatform: string -> bool

  /** Running a script runs its hooks as well. */
  function Triple(n: Name): seq<Name> { ["pre" + n, n, "post" + n] }

  function Triples(names: seq<Name>): seq<Name> {
    if names == [] then [] else Triple(names[0]) + Triples(names[1..])
  }

  function Targets(scripts: Scripts, n: Name): seq<Name> {
    if n in scripts && scripts[n].Command? then
      RunTargets(scripts[n].text) + (if RunsTest(scripts[n].text) then ["test"] else [])
    else []
  }

  function Invoked(scripts: Scripts, n: Name): seq<Name> { Triples(Targets(scripts, n)) }

  // ----- reachability, by paths ---------------------------------------------

  /** A chain of invocations that begins with a root or one of its hooks. */
  ghost predicate IsPath(scripts: Scripts, roots: seq<Name>, path: seq<Name>) {
    && path != [] && path[0] in Triples(roots)
    && forall i :: 0 <= i < |path| - 1 ==> path[i + 1] in Invoked(scripts, path[i])
  }

  ghost predicate Reaches(scripts: Scripts, roots: seq<Name>, n: Name) {
    exists path :: IsPath(scripts, roots, path) && path[|path| - 1] == n
  }

  /** A set that has every root and whatever its members invoke. */
  ghost predicate Closed(scripts: Scripts, roots: seq<Name>, s: set<Name>) {
    (forall n <- Triples(roots) :: n in s) && forall n <- s, t <- Invoked(scripts, n) :: t in s
  }

  lemma RootReaches(scripts: Scripts, roots: seq<Name>, n: Name)
    requires n in Triples(roots)
    ensures Reaches(scripts, roots, n)
  {
    assert IsPath(scripts, roots, [n]);
  }

  lemma InvokedReaches(scripts: Scripts, roots: seq<Name>, n: Name, t: Name)
    requires Reaches(scripts, roots, n) && t in Invoked(scripts, n)
    ensures Reaches(scripts, roots, t)
  {
    hide Triples, Invoked;
    var path :| IsPath(scripts, roots, path) && path[|path| - 1] == n;
    assert IsPath(scripts, roots, path + [t]);
  }

  /** A closed set has everything that can be reached. */
  lemma {:induction false} ReachedIsClosed(scripts: Scripts, roots: seq<Name>, s: set<Name>, path: seq<Name>)
    requires Closed(scripts, roots, s) && IsPath(scripts, roots, path)
    ensures path[|path| - 1] in s
    decreases |path|
  {
    hide Triples, Invoked;
    if |path| > 1 {
      var prior := path[..|path| - 1];
      forall i | 0 <= i < |prior| - 1 ensures prior[i + 1] in Invoked(scripts, prior[i]) {
        assert path[i + 1] in Invoked(scripts, path[i]);
      }
      ReachedIsClosed(scripts, roots, s, prior);
      assert path[|path| - 2 + 1] in Invoked(scripts, path[|path| - 2]);
    }
  }

  // ----- every name there is ------------------------------------------------

  ghost function AllNames(scripts: Scripts, roots: seq<Name>): set<Name> {
    (set n | n in Triples(roots)) + set n, t | n in scripts && t in Invoked(scripts, n) :: t
  }

  lemma InvokedKnown(scripts: Scripts, roots: seq<Name>, n: Name)
    ensures forall t <- Invoked(scripts, n) :: t in AllNames(scripts, roots)
  {
    if n !in scripts {
      assert Invoked(scripts, n) == [];
    }
  }

  // ----- the worklist -------------------------------------------------------

  method EnqueueRoots(roots: seq<Name>) returns (pending: seq<Name>)
    ensures pending == Triples(roots)
  {
    hide Triples;
    pending := [];
    var k := 0;
    NoTriples();
    while k < |roots|
      invariant k <= |roots| && pending == Triples(roots[..k])
    {
      TriplesMore(roots, k);
      pending := pending + Triple(roots[k]);
      k := k + 1;
    }
    assert roots[..|roots|] == roots;
  }

  /** What has been looked at and what still waits: all of it can be reached,
      and whatever a looked-at script invokes is one or the other. */
  ghost predicate Working(scripts: Scripts, roots: seq<Name>, reachable: set<Name>, pending: seq<Name>) {
    && (forall n <- pending :: n in AllNames(scripts, roots) && Reaches(scripts, roots, n))
    && reachable <= AllNames(scripts, roots) && (forall n <- reachable :: Reaches(scripts, roots, n))
    && (forall n <- Triples(roots) :: n in reachable || n in pending)
    && (forall n <- reachable :: Settled(scripts, reachable, pending, n))
  }

  ghost predicate Settled(scripts: Scripts, reachable: set<Name>, pending: seq<Name>, n: Name) {
    forall t <- Invoked(scripts, n) :: t in reachable || t in pending
  }

  lemma SettledStays(scripts: Scripts, reachable: set<Name>, pending: seq<Name>, name: Name, more: seq<Name>, n: Name)
    requires Settled(scripts, reachable, pending + [name], n)
    ensures Settled(scripts, reachable + {name}, pending + more, n)
  {
    hide Invoked;
  }

  lemma SeenBefore(scripts: Scripts, roots: seq<Name>, reachable: set<Name>, pending: seq<Name>, name: Name)
    requires Working(scripts, roots, reachable, pending + [name]) && name in reachable
    ensures Working(scripts, roots, reachable, pending)
  {
    hide Triples, Invoked, AllNames, Reaches, Settled;
    forall n | n in pending ensures n in AllNames(scripts, roots) && Reaches(scripts, roots, n) {
      assert n in pending + [name];
    }
    assert reachable + {name} == reachable && pending + [] == pending;
    forall n | n in reachable ensures Settled(scripts, reachable, pending, n) {
      SettledStays(scripts, reachable, pending, name, [], n);
    }
  }

  lemma LookedAt(scripts: Scripts, roots: seq<Name>, reachable: set<Name>, pending: seq<Name>, name: Name)
    requires Working(scripts, roots, reachable, pending + [name]) && name !in reachable
    ensures Working(scripts, roots, reachable + {name}, pending + Invoked(scripts, name))
    ensures |AllNames(scripts, roots) - (reachable + {name})| < |AllNames(scripts, roots) - reachable|
  {
    hide Triples, Invoked, AllNames, Reaches, Settled;
    var more := Invoked(scripts, name);
    assert name in pending + [name];
    FewerLeft(AllNames(scripts, roots) - reachable, name);
    assert AllNames(scripts, roots) - (reachable + {name}) == AllNames(scripts, roots) - reachable - {name};
    InvokedKnown(scripts, roots, name);
    forall n | n in pending + more ensures n in AllNames(scripts, roots) && Reaches(scripts, roots, n) {
      if n in pending {
        assert n in pending + [name];
      } else {
        InvokedReaches(scripts, roots, name, n);
      }
    }
    forall n | n in reachable + {name} ensures Settled(scripts, reachable + {name}, pending + more, n) {
      if n in reachable {
        SettledStays(scripts, reachable, pending, name, more, n);
      } else {
        SettledNew(scripts, reachable + {name}, pending, name);
      }
    }
  }

  lemma SettledNew(scripts: Scripts, reachable: set<Name>, pending: seq<Name>, n: Name)
    ensures Settled(scripts, reachable, pending + Invoked(scripts, n), n)
  {
    hide Invoked;
  }

  /** Collects every script that can be reached, each looked at once. */
  method ReachableScripts(scripts: Scripts, roots: seq<Name>) returns (reachable: set<Name>)
    ensures forall n :: n in reachable <==> Reaches(scripts, roots, n)
    ensures Closed(scripts, roots, reachable)
    ensures forall s :: Closed(scripts, roots, s) ==> reachable <= s
  {
    hide Triples, Invoked, AllNames, Reaches, Closed, Working;
    reachable := {};
    var pending := EnqueueRoots(roots);
    StartsWorking(scripts, roots, pending);
    while pending != []
      invariant Working(scripts, roots, reachable, pending)
      decreases |AllNames(scripts, roots) - reachable|, |pending|
    {
      var name := pending[|pending| - 1];
      assert pending == pending[..|pending| - 1] + [name];
      pending := pending[..|pending| - 1];
      if name in reachable {
        SeenBefore(scripts, roots, reachable, pending, name);
      } else {
        LookedAt(scripts, roots, reachable, pending, name);
        reachable := reachable + {name};
        pending := pending + Invoked(scripts, name);
      }
    }
    NoneWaiting(scripts, roots, reachable);
    ReachableExact(scripts, roots, reachable);
  }

  lemma StartsWorking(scripts: Scripts, roots: seq<Name>, pending: seq<Name>)
    requires pending == Triples(roots)
    ensures Working(scripts, roots, {}, pending)
  {
    hide Triples, Invoked, AllNames, Reaches;
    RootsKnown(scripts, roots);
    forall n | n in pending ensures Reaches(scripts, roots, n) {
      RootReaches(scripts, roots, n);
    }
  }

  lemma NoneWaiting(scripts: Scripts, roots: seq<Name>, reachable: set<Name>)
    requires Working(scripts, roots, reachable, [])
    ensures Closed(scripts, roots, reachable) && forall n <- reachable :: Reaches(scripts, roots, n)
  {
    hide Triples, Invoked, AllNames, Reaches;
  }

  /** A closed set whose members can all be reached is the least closed set. */
  lemma ReachableExact(scripts: Scripts, roots: seq<Name>, s: set<Name>)
    requires Closed(scripts, roots, s) && forall n <- s :: Reaches(scripts, roots, n)
    ensures forall n :: n in s <==> Reaches(scripts, roots, n)
    ensures forall other :: Closed(scripts, roots, other) ==> s <= other
  {
    hide Triples, Invoked, Closed;
    forall n | Reaches(scripts, roots, n) ensures n in s {
      var path :| IsPath(scripts, roots, path) && path[|path| - 1] == n;
      ReachedIsClosed(scripts, roots, s, path);
    }
    forall other | Closed(scripts, roots, other) ensures s <= other {
      forall n | n in s ensures n in other {
        var path :| IsPath(scripts, roots, path) && path[|path| - 1] == n;
        ReachedIsClosed(scripts, roots, other, path);
      }
    }
  }

  lemma NoTriples()
    ensures Triples([]) == []
  {
  }

  lemma {:induction false} TriplesJoin(a: seq<Name>, b: seq<Name>)
    ensures Triples(a + b) == Triples(a) + Triples(b)
  {
    if a == [] {
      assert a + b == b;
    } else {
      TriplesJoin(a[1..], b);
      assert (a + b)[1..] == a[1..] + b;
    }
  }

  lemma TriplesMore(names: seq<Name>, k: nat)
    requires k < |names|
    ensures Triples(names[..k + 1]) == Triples(names[..k]) + Triple(names[k])
  {
    TriplesJoin(names[..k], [names[k]]);
    assert names[..k + 1] == names[..k] + [names[k]];
    assert Triples([names[k]]) == Triple(names[k]) + Triples([]);
  }

  lemma RootsKnown(scripts: Scripts, roots: seq<Name>)
    ensures forall n <- Triples(roots) :: n in AllNames(scripts, roots)
  {
    hide Triples, Invoked;
  }

  lemma FewerLeft(left: set<Name>, n: Name)
    requires n in left
    ensures |left - {n}| < |left|
  {
  }

  // ----- the diagnostics ----------------------------------------------------

  const ROOTS: seq<Name> := ["check", "test:e2e"]

  predicate RunsCheck(scripts: Scripts, n: Name) {
    n in scripts && scripts[n].Command? && "check" in RunTargets(scripts[n].text)
  }

  predicate Coupled(scripts: Scripts, n: Name) {
    n in scripts && scripts[n].Command? && CallsPlatform(scripts[n].text)
  }

  /** Recursion is reported exactly when a chain of invocations from `check` or
      `test:e2e` comes to a command that runs `check`, and coupling exactly when
      one comes to a command that calls the platform. */
  method InspectScripts(scripts: Scripts) returns (recursive: bool, coupled: bool)
    ensures recursive <==> exists n :: Reaches(scripts, ["check", "test:e2e"], n) && n in scripts && scripts[n].Command?
                                       && "check" in RunTargets(scripts[n].text)
    ensures coupled <==> exists n :: Reaches(scripts, ["check", "test:e2e"], n) && n in scripts && scripts[n].Command?
                                     && CallsPlatform(scripts[n].text)
  {
    hide Reaches, Closed;
    var reachable := ReachableScripts(scripts, ROOTS);
    recursive := exists n <- reachable :: RunsCheck(scripts, n);
    coupled := exists n <- reachable :: Coupled(scripts, n);
  }
}
