/** Run-once module initialisers.
    A bundled module body is wrapped by `__esm` or `__commonJS`; calling the wrapper runs the
    body at most once, and bodies call the wrappers of the modules they import, cycles included.

    The pure functions `Invoke` and `Body` give the meaning of one call on a log of what ran.
    Class `Bundle` holds the variables the wrappers capture and is proved against them. */
module ModuleInit {

  /** How a body reaches another module: a plain call, or one inside try/catch. */
  datatype Step =
    | Call(dep: nat, caught: bool)
    | Throw

  datatype Kind = Esm | CommonJs

  datatype Module = Module(kind: Kind, body: seq<Step>)

  type Graph = seq<Module>

  datatype Event = Begin(m: nat) | End(m: nat) | Abort(m: nat)

  datatype State = State(started: set<nat>, log: seq<Event>)

  datatype Outcome = Outcome(st: State, threw: bool)

  ghost predicate WellFormed(g: Graph) {
    forall m, k :: 0 <= m < |g| && 0 <= k < |g[m].body| && g[m].body[k].Call? ==> g[m].body[k].dep < |g|
  }

  ghost function Below(n: nat): (s: set<nat>)
    ensures forall m: nat :: m in s <==> m < n
  {
    if n == 0 then {} else Below(n - 1) + {n - 1}
  }

  ghost function All(g: Graph): set<nat> {
    Below(|g|)
  }

  ghost function Unstarted(g: Graph, s: State): nat {
    |All(g) - s.started|
  }

  /** Body(m) has an import of d, that is, an edge of the module graph. */
  ghost predicate Imports(g: Graph, m: nat, d: nat) {
    m < |g| && exists k :: 0 <= k < |g[m].body| && g[m].body[k].Call? && g[m].body[k].dep == d
  }

  ghost predicate NeverThrows(g: Graph) {
    forall m, k :: 0 <= m < |g| && 0 <= k < |g[m].body| ==> g[m].body[k].Call?
  }

  /** Calling a wrapper: the body runs only if it was never started. */
  ghost function Invoke(g: Graph, s: State, m: nat): (r: Outcome)
    requires WellFormed(g) && m < |g| && s.started <= All(g)
    ensures s.started <= r.st.started <= All(g)
    decreases Unstarted(g, s), 0
  {
    if m in s.started then Outcome(s, false)
    else
      var begun := State(s.started + {m}, s.log + [Begin(m)]);
      assert All(g) - begun.started == (All(g) - s.started) - {m};
      var r := Body(g, begun, m, 0);
      Outcome(r.st.(log := r.st.log + [if r.threw then Abort(m) else End(m)]), r.threw)
  }

  /** Running the rest of a body from step k on. */
  ghost function Body(g: Graph, s: State, m: nat, k: nat): (r: Outcome)
    requires WellFormed(g) && m < |g| && k <= |g[m].body| && s.started <= All(g)
    ensures s.started <= r.st.started <= All(g)
    decreases Unstarted(g, s), 1 + |g[m].body| - k
  {
    if k == |g[m].body| then Outcome(s, false)
    else match g[m].body[k]
      case Throw => Outcome(s, true)
      case Call(d, caught) =>
        var r := Invoke(g, s, d);
        if r.threw && !caught then r
        else
          UnstartedShrinks(g, s, r.st);
          Body(g, r.st, m, k + 1)
  }

  lemma UnstartedShrinks(g: Graph, s: State, t: State)
    requires s.started <= t.started
    ensures Unstarted(g, t) <= Unstarted(g, s)
  {
    SubsetSize(All(g) - t.started, All(g) - s.started);
  }

  lemma SubsetSize(a: set<nat>, b: set<nat>)
    requires a <= b
    ensures |a| <= |b|
  {
    assert b == a + (b - a);
  }

  ghost predicate Entries(g: Graph, entries: seq<nat>) {
    WellFormed(g) && forall i :: 0 <= i < |entries| ==> entries[i] < |g|
  }

  ghost const FRESH := State({}, [])

  /** A host that calls some wrappers one after the other, ignoring what they throw. */
  ghost function Run(g: Graph, entries: seq<nat>): (s: State)
    requires Entries(g, entries)
    ensures s.started <= All(g)
  {
    if entries == [] then FRESH
    else Invoke(g, Run(g, entries[..|entries| - 1]), entries[|entries| - 1]).st
  }

  // ---------------------------------------------------------------- reference notions

  ghost predicate IsPath(g: Graph, p: seq<nat>) {
    forall i :: 0 <= i < |p| - 1 ==> Imports(g, p[i], p[i + 1])
  }

  ghost predicate PathFromTo(g: Graph, p: seq<nat>, a: nat, b: nat) {
    |p| > 0 && IsPath(g, p) && p[0] == a && p[|p| - 1] == b
  }

  ghost predicate Reachable(g: Graph, entries: seq<nat>, m: nat) {
    exists e, p :: e in entries && PathFromTo(g, p, e, m)
  }

  ghost predicate Acyclic(g: Graph) {
    forall p :: IsPath(g, p) && |p| >= 2 ==> p[0] != p[|p| - 1]
  }

  datatype Stack = Broken | Open(mods: seq<nat>)

  /** The bodies in progress after a log; Broken when an end does not match the latest begin. */
  ghost function InProgress(log: seq<Event>): Stack {
    if log == [] then Open([])
    else
      var before := InProgress(log[..|log| - 1]);
      if before.Broken? then Broken
      else match log[|log| - 1]
        case Begin(m) => Open(before.mods + [m])
        case End(m) => Pop(before.mods, m)
        case Abort(m) => Pop(before.mods, m)
  }

  ghost function Pop(mods: seq<nat>, m: nat): Stack {
    if mods != [] && mods[|mods| - 1] == m then Open(mods[..|mods| - 1]) else Broken
  }

  ghost predicate ClosedIn(log: seq<Event>, m: nat) {
    End(m) in log || Abort(m) in log
  }

  ghost predicate CanReach(g: Graph, a: nat, b: nat) {
    exists p :: PathFromTo(g, p, a, b)
  }

  /** When a body ends, each of its imports is closed, or is an importer of that body in turn. */
  ghost predicate ImportsClosedOrCyclic(g: Graph, log: seq<Event>) {
    forall e, d :: 0 <= e < |log| && log[e].End? && Imports(g, log[e].m, d) ==>
      Begin(d) in log[..e] && (ClosedIn(log[..e], d) || CanReach(g, d, log[e].m))
  }

  ghost predicate BegunOnce(s: State) {
    forall m: nat :: multiset(s.log)[Begin(m)] == if m in s.started then 1 else 0
  }

  /** What holds after any number of calls, with `mods` the bodies in progress. */
  ghost predicate Sound(g: Graph, s: State, mods: seq<nat>) {
    && s.started <= All(g)
    && BegunOnce(s)
    && InProgress(s.log) == Open(mods)
    && IsPath(g, mods)
    && ImportsClosedOrCyclic(g, s.log)
  }

  ghost predicate MayCall(g: Graph, mods: seq<nat>, m: nat) {
    mods == [] || Imports(g, mods[|mods| - 1], m)
  }

  /** The imports among the first k steps of a body have been started. */
  ghost predicate CalledUpTo(g: Graph, s: State, m: nat, k: nat)
    requires m < |g| && k <= |g[m].body|
  {
    forall j :: 0 <= j < k && g[m].body[j].Call? ==> g[m].body[j].dep in s.started
  }

  // ---------------------------------------------------------------- one event

  lemma Append(log: seq<Event>, e: Event)
    ensures multiset(log + [e]) == multiset(log) + multiset{e}
    ensures InProgress(log).Open? ==>
      InProgress(log + [e]) ==
        match e
        case Begin(m) => Open(InProgress(log).mods + [m])
        case End(m) => Pop(InProgress(log).mods, m)
        case Abort(m) => Pop(InProgress(log).mods, m)
  {
    assert (log + [e])[..|log + [e]| - 1] == log;
  }

  lemma AppendKeepsImports(g: Graph, log: seq<Event>, e: Event)
    requires ImportsClosedOrCyclic(g, log)
    requires e.End? ==> forall d :: Imports(g, e.m, d) ==>
                                      Begin(d) in log && (ClosedIn(log, d) || CanReach(g, d, e.m))
    ensures ImportsClosedOrCyclic(g, log + [e])
  {
    var longer := log + [e];
    forall i, d | 0 <= i < |longer| && longer[i].End? && Imports(g, longer[i].m, d)
      ensures Begin(d) in longer[..i] && (ClosedIn(longer[..i], d) || CanReach(g, d, longer[i].m))
    {
      assert longer[..i] == log[..i];
      if i == |log| { assert log[..i] == log; }
    }
  }

  lemma BeginSound(g: Graph, s: State, mods: seq<nat>, m: nat)
    requires Sound(g, s, mods) && MayCall(g, mods, m) && m < |g| && m !in s.started
    ensures Sound(g, State(s.started + {m}, s.log + [Begin(m)]), mods + [m])
  {
    Append(s.log, Begin(m));
    AppendKeepsImports(g, s.log, Begin(m));
  }

  lemma CloseSound(g: Graph, s: State, mods: seq<nat>, m: nat, threw: bool)
    requires Sound(g, s, mods + [m])
    requires m < |g| && (!threw ==> CalledUpTo(g, s, m, |g[m].body|))
    ensures Sound(g, s.(log := s.log + [if threw then Abort(m) else End(m)]), mods)
  {
    var close := if threw then Abort(m) else End(m);
    Append(s.log, close);
    assert (mods + [m])[..|mods + [m]| - 1] == mods;
    if !threw {
      forall d | Imports(g, m, d)
        ensures Begin(d) in s.log && (ClosedIn(s.log, d) || CanReach(g, d, m))
      {
        StartedIsClosedOrAbove(g, s, mods, m, d);
      }
    }
    AppendKeepsImports(g, s.log, close);
    assert IsPath(g, mods) by {
      forall i | 0 <= i < |mods| - 1 ensures Imports(g, mods[i], mods[i + 1]) {
        assert Imports(g, (mods + [m])[i], (mods + [m])[i + 1]);
      }
    }
  }

  lemma CountAppend<T>(s: seq<T>, last: T, x: T)
    ensures multiset(s + [last])[x] == multiset(s)[x] + if x == last then 1 else 0
  {}

  /** Begun, ended, aborted and in-progress bodies balance. */
  lemma {:induction false} Balance(log: seq<Event>, m: nat)
    requires InProgress(log).Open?
    ensures multiset(log)[Begin(m)] ==
            multiset(log)[End(m)] + multiset(log)[Abort(m)] + multiset(InProgress(log).mods)[m]
  {
    if log != [] {
      var before, e := log[..|log| - 1], log[|log| - 1];
      assert log == before + [e];
      Append(before, e);
      Balance(before, m);
      CountAppend(before, e, Begin(m));
      CountAppend(before, e, End(m));
      CountAppend(before, e, Abort(m));
      var was, now := InProgress(before).mods, InProgress(log).mods;
      if e.Begin? {
        CountAppend(was, e.m, m);
      } else {
        assert was == now + [e.m];
        CountAppend(now, e.m, m);
      }
    }
  }

  lemma StartedIsClosedOrAbove(g: Graph, s: State, mods: seq<nat>, m: nat, d: nat)
    requires Sound(g, s, mods + [m]) && d in s.started
    ensures Begin(d) in s.log && (ClosedIn(s.log, d) || CanReach(g, d, m))
  {
    Balance(s.log, d);
    assert Begin(d) in multiset(s.log);
    assert End(d) in s.log <==> End(d) in multiset(s.log);
    assert Abort(d) in s.log <==> Abort(d) in multiset(s.log);
    if !ClosedIn(s.log, d) {
      var stack := mods + [m];
      assert d in multiset(stack) && d in stack;
      var i :| 0 <= i < |stack| && stack[i] == d;
      assert PathFromTo(g, stack[i..], d, m);
    }
  }

  // ---------------------------------------------------------------- every call is sound

  lemma {:induction false} InvokeSound(g: Graph, s: State, mods: seq<nat>, m: nat)
    requires WellFormed(g) && m < |g| && Sound(g, s, mods) && MayCall(g, mods, m)
    ensures Sound(g, Invoke(g, s, m).st, mods) && m in Invoke(g, s, m).st.started
    decreases Unstarted(g, s), 0
  {
    if m !in s.started {
      var begun := State(s.started + {m}, s.log + [Begin(m)]);
      assert All(g) - begun.started == (All(g) - s.started) - {m};
      BeginSound(g, s, mods, m);
      BodySound(g, begun, mods, m, 0);
      var r := Body(g, begun, m, 0);
      CloseSound(g, r.st, mods, m, r.threw);
    }
  }

  lemma {:induction false} BodySound(g: Graph, s: State, mods: seq<nat>, m: nat, k: nat)
    requires WellFormed(g) && m < |g| && k <= |g[m].body| && Sound(g, s, mods + [m])
    requires CalledUpTo(g, s, m, k)
    ensures Sound(g, Body(g, s, m, k).st, mods + [m])
    ensures !Body(g, s, m, k).threw ==> CalledUpTo(g, Body(g, s, m, k).st, m, |g[m].body|)
    decreases Unstarted(g, s), 1 + |g[m].body| - k
  {
    if k < |g[m].body| && g[m].body[k].Call? {
      var d := g[m].body[k].dep;
      assert Imports(g, m, d);
      InvokeSound(g, s, mods + [m], d);
      var r := Invoke(g, s, d);
      if !r.threw || g[m].body[k].caught {
        UnstartedShrinks(g, s, r.st);
        BodySound(g, r.st, mods, m, k + 1);
      }
    }
  }

  /** Only modules reachable from the callee are newly begun. */
  lemma {:induction false} InvokeReaches(g: Graph, s: State, m: nat, x: nat)
    requires WellFormed(g) && m < |g| && s.started <= All(g)
    requires x in Invoke(g, s, m).st.started && x !in s.started
    ensures CanReach(g, m, x)
    decreases Unstarted(g, s), 0
  {
    if x == m {
      assert PathFromTo(g, [m], m, x);
    } else {
      var begun := State(s.started + {m}, s.log + [Begin(m)]);
      assert All(g) - begun.started == (All(g) - s.started) - {m};
      BodyReaches(g, begun, m, 0, x);
    }
  }

  lemma {:induction false} BodyReaches(g: Graph, s: State, m: nat, k: nat, x: nat)
    requires WellFormed(g) && m < |g| && k <= |g[m].body| && s.started <= All(g)
    requires x in Body(g, s, m, k).st.started && x !in s.started
    ensures CanReach(g, m, x)
    decreases Unstarted(g, s), 1 + |g[m].body| - k
  {
    var d := g[m].body[k].dep;
    var r := Invoke(g, s, d);
    if x in r.st.started {
      InvokeReaches(g, s, d, x);
      var p :| PathFromTo(g, p, d, x);
      assert Imports(g, m, d);
      assert PathFromTo(g, [m] + p, m, x);
    } else {
      UnstartedShrinks(g, s, r.st);
      BodyReaches(g, r.st, m, k + 1, x);
    }
  }

  ghost predicate NoAborts(s: State) {
    forall x: nat :: Abort(x) !in s.log
  }

  lemma {:induction false} InvokeNeverThrows(g: Graph, s: State, m: nat)
    requires WellFormed(g) && NeverThrows(g) && m < |g| && s.started <= All(g) && NoAborts(s)
    ensures !Invoke(g, s, m).threw && NoAborts(Invoke(g, s, m).st)
    decreases Unstarted(g, s), 0
  {
    if m !in s.started {
      var begun := State(s.started + {m}, s.log + [Begin(m)]);
      assert All(g) - begun.started == (All(g) - s.started) - {m};
      BodyNeverThrows(g, begun, m, 0);
    }
  }

  lemma {:induction false} BodyNeverThrows(g: Graph, s: State, m: nat, k: nat)
    requires WellFormed(g) && NeverThrows(g) && m < |g| && k <= |g[m].body|
    requires s.started <= All(g) && NoAborts(s)
    ensures !Body(g, s, m, k).threw && NoAborts(Body(g, s, m, k).st)
    decreases Unstarted(g, s), 1 + |g[m].body| - k
  {
    if k < |g[m].body| {
      var d := g[m].body[k].dep;
      InvokeNeverThrows(g, s, d);
      UnstartedShrinks(g, s, Invoke(g, s, d).st);
      BodyNeverThrows(g, Invoke(g, s, d).st, m, k + 1);
    }
  }

  // ---------------------------------------------------------------- whole runs

  lemma {:induction false} RunSound(g: Graph, entries: seq<nat>)
    requires Entries(g, entries)
    ensures Sound(g, Run(g, entries), [])
  {
    if entries != [] {
      var init, last := entries[..|entries| - 1], entries[|entries| - 1];
      RunSound(g, init);
      InvokeSound(g, Run(g, init), [], last);
    }
  }

  lemma {:induction false} RunStarts(g: Graph, entries: seq<nat>, e: nat)
    requires Entries(g, entries) && e in entries
    ensures e in Run(g, entries).started
  {
    var init, last := entries[..|entries| - 1], entries[|entries| - 1];
    assert entries == init + [last];
    RunSound(g, init);
    InvokeSound(g, Run(g, init), [], last);
    if e in init { RunStarts(g, init, e); }
  }

  lemma {:induction false} RunNeverThrows(g: Graph, entries: seq<nat>)
    requires Entries(g, entries) && NeverThrows(g)
    ensures NoAborts(Run(g, entries))
  {
    if entries != [] {
      var init, last := entries[..|entries| - 1], entries[|entries| - 1];
      RunSound(g, init);
      RunNeverThrows(g, init);
      InvokeNeverThrows(g, Run(g, init), last);
    }
  }

  lemma {:induction false} RunReaches(g: Graph, entries: seq<nat>, x: nat)
    requires Entries(g, entries) && x in Run(g, entries).started
    ensures Reachable(g, entries, x)
  {
    var init, last := entries[..|entries| - 1], entries[|entries| - 1];
    if x in Run(g, init).started {
      RunReaches(g, init, x);
      var e, p :| e in init && PathFromTo(g, p, e, x);
      assert e in entries;
    } else {
      InvokeReaches(g, Run(g, init), last, x);
      var p :| PathFromTo(g, p, last, x);
      assert last in entries;
    }
  }

  lemma {:induction false} ReachableIsStarted(g: Graph, entries: seq<nat>, p: seq<nat>)
    requires Entries(g, entries) && NeverThrows(g)
    requires |p| > 0 && p[0] in entries && IsPath(g, p)
    ensures p[|p| - 1] in Run(g, entries).started
  {
    if |p| == 1 {
      RunStarts(g, entries, p[0]);
    } else {
      var q := p[..|p| - 1];
      ReachableIsStarted(g, entries, q);
      assert Imports(g, p[|p| - 2], p[|p| - 1]);
      EndedImportsStarted(g, entries, q[|q| - 1], p[|p| - 1]);
    }
  }

  lemma EndedImportsStarted(g: Graph, entries: seq<nat>, m: nat, d: nat)
    requires Entries(g, entries) && NeverThrows(g)
    requires m in Run(g, entries).started && Imports(g, m, d)
    ensures d in Run(g, entries).started
  {
    var s := Run(g, entries);
    RunSound(g, entries);
    RunNeverThrows(g, entries);
    Balance(s.log, m);
    assert End(m) in multiset(s.log) && End(m) in s.log;
    var e :| 0 <= e < |s.log| && s.log[e] == End(m);
    assert Begin(d) in s.log[..e];
    assert Begin(d) in multiset(s.log);
  }

  /** Any graph, cycles and exceptions included: each body begins at most once, only bodies
      reachable from an entry begin, and each begun body ends or aborts exactly once. */
  lemma BodiesRunAtMostOnce(g: Graph, entries: seq<nat>, m: nat)
    requires Entries(g, entries)
    ensures var log := multiset(Run(g, entries).log);
            && log[Begin(m)] <= 1
            && (log[Begin(m)] == 1 ==> Reachable(g, entries, m))
            && log[End(m)] + log[Abort(m)] == log[Begin(m)]
  {
    RunSound(g, entries);
    Balance(Run(g, entries).log, m);
    if m in Run(g, entries).started { RunReaches(g, entries, m); }
  }

  /** When no body throws, the bodies that run are exactly the reachable ones, once each. */
  lemma BodiesRunExactlyOnce(g: Graph, entries: seq<nat>, m: nat)
    requires Entries(g, entries) && NeverThrows(g)
    ensures var log := multiset(Run(g, entries).log);
            log[Begin(m)] == log[End(m)] == if Reachable(g, entries, m) then 1 else 0
  {
    BodiesRunAtMostOnce(g, entries, m);
    RunSound(g, entries);
    RunNeverThrows(g, entries);
    if Reachable(g, entries, m) {
      var e, p :| e in entries && PathFromTo(g, p, e, m);
      ReachableIsStarted(g, entries, p);
    }
    assert Abort(m) !in multiset(Run(g, entries).log);
  }

  /** Any graph: when a body ends, each import of it has begun and is closed, unless that import
      itself leads back to this body. */
  lemma ImportsCloseFirstOrCycle(g: Graph, entries: seq<nat>, e: nat, d: nat)
    requires Entries(g, entries)
    requires e < |Run(g, entries).log| && Run(g, entries).log[e].End?
    requires Imports(g, Run(g, entries).log[e].m, d)
    ensures var log := Run(g, entries).log;
            Begin(d) in log[..e] && (ClosedIn(log[..e], d) || CanReach(g, d, log[e].m))
  {
    RunSound(g, entries);
  }

  lemma CycleIsNotAcyclic(g: Graph, d: nat, m: nat)
    requires CanReach(g, d, m) && Imports(g, m, d)
    ensures !Acyclic(g)
  {
    var p :| PathFromTo(g, p, d, m);
    var cycle := p + [d];
    assert IsPath(g, cycle);
    assert cycle[0] == cycle[|cycle| - 1];
  }

  /** No cycles: a body ends only after every body it imports has ended (or aborted, if that
      import threw and was caught). */
  lemma AcyclicImportsEndFirst(g: Graph, entries: seq<nat>, e: nat, d: nat)
    requires Entries(g, entries) && Acyclic(g)
    requires e < |Run(g, entries).log| && Run(g, entries).log[e].End?
    requires Imports(g, Run(g, entries).log[e].m, d)
    ensures ClosedIn(Run(g, entries).log[..e], d)
    ensures NeverThrows(g) ==> End(d) in Run(g, entries).log[..e]
  {
    if NeverThrows(g) { RunNeverThrows(g, entries); }
    var log := Run(g, entries).log;
    ImportsCloseFirstOrCycle(g, entries, e, d);
    if CanReach(g, d, log[e].m) {
      CycleIsNotAcyclic(g, d, log[e].m);
      assert false;
    }
  }

  // ---------------------------------------------------------------- which event comes next

  /** What a body does next, from step k on: calls of modules that were begun before leave no trace. */
  ghost function NextEvent(g: Graph, log: seq<Event>, m: nat, k: nat): Event
    requires m < |g| && k <= |g[m].body|
    decreases |g[m].body| - k
  {
    if k == |g[m].body| then End(m)
    else match g[m].body[k]
      case Throw => Abort(m)
      case Call(d, _) => if Begin(d) in log then NextEvent(g, log, m, k + 1) else Begin(d)
  }

  /** Step k is the first of body m that calls d. */
  ghost predicate FirstCall(g: Graph, m: nat, d: nat, k: nat) {
    && m < |g| && k < |g[m].body| && g[m].body[k].Call? && g[m].body[k].dep == d
    && forall j :: 0 <= j < k && g[m].body[j].Call? ==> g[m].body[j].dep != d
  }

  /** The latest event leaves body m before step k: it has just begun, or a module that it called has
      ended, or aborted inside try/catch. */
  ghost predicate Resumes(g: Graph, log: seq<Event>, m: nat, k: nat) {
    m < |g| && k <= |g[m].body| && log != [] && match log[|log| - 1]
      case Begin(b) => b == m && k == 0
      case End(d) => k > 0 && FirstCall(g, m, d, k - 1)
      case Abort(d) => k > 0 && FirstCall(g, m, d, k - 1) && g[m].body[k - 1].caught
  }

  /** A module has just aborted that body m called outside try/catch. */
  ghost predicate Rethrows(g: Graph, log: seq<Event>, m: nat) {
    log != [] && log[|log| - 1].Abort? &&
    exists k: nat :: FirstCall(g, m, log[|log| - 1].m, k) && !g[m].body[k].caught
  }

  /** With body m innermost after this log, e is what has to follow. */
  ghost predicate Follows(g: Graph, log: seq<Event>, m: nat, e: Event) {
    if Rethrows(g, log, m) then e == Abort(m) else exists k: nat :: Resumes(g, log, m, k) && e == NextEvent(g, log, m, k)
  }

  /** Between calls from outside only the begin of a module not begun before can come. */
  ghost predicate Allowed(g: Graph, log: seq<Event>, e: Event) {
    match InProgress(log)
    case Broken => false
    case Open(mods) => if mods == [] then e.Begin? && e !in log else Follows(g, log, mods[|mods| - 1], e)
  }

  ghost predicate Lawful(g: Graph, log: seq<Event>) {
    forall i :: 0 <= i < |log| ==> Allowed(g, log[..i], log[i])
  }

  lemma LawfulAppend(g: Graph, log: seq<Event>, e: Event)
    requires Lawful(g, log) && Allowed(g, log, e)
    ensures Lawful(g, log + [e])
  {
    var longer := log + [e];
    forall i | 0 <= i < |longer| ensures Allowed(g, longer[..i], longer[i]) {
      if i < |log| { assert longer[..i] == log[..i]; } else { assert longer[..i] == log; }
    }
  }

  lemma BegunIsStarted(s: State, d: nat)
    requires BegunOnce(s)
    ensures Begin(d) in s.log <==> d in s.started
  {
    assert Begin(d) in s.log <==> Begin(d) in multiset(s.log);
  }

  lemma StepIsFirstCall(g: Graph, s: State, m: nat, k: nat)
    requires m < |g| && k < |g[m].body| && g[m].body[k].Call? && CalledUpTo(g, s, m, k)
    requires g[m].body[k].dep !in s.started
    ensures FirstCall(g, m, g[m].body[k].dep, k)
  {}

  /** A module that step k of body m called has closed. */
  lemma AfterCall(g: Graph, log: seq<Event>, m: nat, k: nat, d: nat, threw: bool)
    requires FirstCall(g, m, d, k) && log != [] && log[|log| - 1] == if threw then Abort(d) else End(d)
    ensures Rethrows(g, log, m) <==> threw && !g[m].body[k].caught
    ensures !Rethrows(g, log, m) ==> Resumes(g, log, m, k + 1)
  {}

  /** Body m goes on with what step k brings. */
  ghost predicate AtStep(g: Graph, log: seq<Event>, m: nat, k: nat)
    requires m < |g| && k <= |g[m].body|
  {
    !Rethrows(g, log, m) && exists i: nat :: Resumes(g, log, m, i) && NextEvent(g, log, m, i) == NextEvent(g, log, m, k)
  }

  lemma JustBegun(g: Graph, log: seq<Event>, m: nat)
    requires m < |g| && log != [] && log[|log| - 1] == Begin(m)
    ensures AtStep(g, log, m, 0)
  {
    assert Resumes(g, log, m, 0);
  }

  lemma InnermostFollows(g: Graph, log: seq<Event>, mods: seq<nat>, m: nat, e: Event)
    requires InProgress(log) == Open(mods + [m]) && Follows(g, log, m, e)
    ensures Allowed(g, log, e)
  {
    assert (mods + [m])[|mods + [m]| - 1] == m;
  }

  lemma {:induction false} InvokeLawful(g: Graph, s: State, mods: seq<nat>, m: nat)
    requires WellFormed(g) && m < |g| && Sound(g, s, mods) && MayCall(g, mods, m) && Lawful(g, s.log)
    requires m !in s.started ==> Allowed(g, s.log, Begin(m))
    ensures Lawful(g, Invoke(g, s, m).st.log)
    decreases Unstarted(g, s), 0
  {
    if m !in s.started {
      var begun := State(s.started + {m}, s.log + [Begin(m)]);
      assert All(g) - begun.started == (All(g) - s.started) - {m};
      BeginSound(g, s, mods, m);
      LawfulAppend(g, s.log, Begin(m));
      JustBegun(g, begun.log, m);
      BodyLawful(g, begun, mods, m, 0);
      var r := Body(g, begun, m, 0);
      BodySound(g, begun, mods, m, 0);
      var close := if r.threw then Abort(m) else End(m);
      InnermostFollows(g, r.st.log, mods, m, close);
      LawfulAppend(g, r.st.log, close);
    }
  }

  lemma AtStepFollows(g: Graph, log: seq<Event>, m: nat, k: nat)
    requires m < |g| && k <= |g[m].body| && AtStep(g, log, m, k)
    ensures Follows(g, log, m, NextEvent(g, log, m, k))
  {}

  lemma SkipStep(g: Graph, log: seq<Event>, m: nat, k: nat)
    requires m < |g| && k < |g[m].body| && AtStep(g, log, m, k)
    requires g[m].body[k].Call? && Begin(g[m].body[k].dep) in log
    ensures AtStep(g, log, m, k + 1)
  {
    assert NextEvent(g, log, m, k) == NextEvent(g, log, m, k + 1);
  }

  /** Where the log stands after step k of body m has called d. */
  lemma AfterStep(g: Graph, s: State, mods: seq<nat>, m: nat, k: nat)
    requires WellFormed(g) && m < |g| && k < |g[m].body| && Sound(g, s, mods + [m]) && g[m].body[k].Call?
    requires CalledUpTo(g, s, m, k) && AtStep(g, s.log, m, k)
    ensures var r := Invoke(g, s, g[m].body[k].dep);
            if r.threw && !g[m].body[k].caught then Follows(g, r.st.log, m, Abort(m)) else AtStep(g, r.st.log, m, k + 1)
  {
    var d := g[m].body[k].dep;
    var r := Invoke(g, s, d);
    BegunIsStarted(s, d);
    if d in s.started {
      SkipStep(g, s.log, m, k);
    } else {
      StepIsFirstCall(g, s, m, k);
      AfterCall(g, r.st.log, m, k, d, r.threw);
    }
  }

  lemma {:induction false} BodyLawful(g: Graph, s: State, mods: seq<nat>, m: nat, k: nat)
    requires WellFormed(g) && m < |g| && k <= |g[m].body| && Sound(g, s, mods + [m])
    requires CalledUpTo(g, s, m, k) && Lawful(g, s.log) && AtStep(g, s.log, m, k)
    ensures var r := Body(g, s, m, k);
            Lawful(g, r.st.log) && Follows(g, r.st.log, m, if r.threw then Abort(m) else End(m))
    decreases Unstarted(g, s), 1 + |g[m].body| - k
  {
    AtStepFollows(g, s.log, m, k);
    if k < |g[m].body| && g[m].body[k].Call? {
      var d := g[m].body[k].dep;
      assert Imports(g, m, d);
      CallAllowed(g, s, mods, m, k);
      AfterStep(g, s, mods, m, k);
      InvokeSound(g, s, mods + [m], d);
      InvokeLawful(g, s, mods + [m], d);
      var r := Invoke(g, s, d);
      if !r.threw || g[m].body[k].caught {
        UnstartedShrinks(g, s, r.st);
        BodyLawful(g, r.st, mods, m, k + 1);
      }
    }
  }

  lemma CallAllowed(g: Graph, s: State, mods: seq<nat>, m: nat, k: nat)
    requires m < |g| && k < |g[m].body| && Sound(g, s, mods + [m]) && AtStep(g, s.log, m, k) && g[m].body[k].Call?
    ensures g[m].body[k].dep !in s.started ==> Allowed(g, s.log, Begin(g[m].body[k].dep))
  {
    var d := g[m].body[k].dep;
    BegunIsStarted(s, d);
    if d !in s.started {
      AtStepFollows(g, s.log, m, k);
      InnermostFollows(g, s.log, mods, m, Begin(d));
    }
  }

  /** Every event of every run is the one that has to come: exceptions leave a body at once where
      they are not caught, and a body aborts for no other reason than a throw of its own or such a
      call. The run is over when no body is in progress. */
  lemma {:induction false} RunIsLawful(g: Graph, entries: seq<nat>)
    requires Entries(g, entries)
    ensures Lawful(g, Run(g, entries).log) && InProgress(Run(g, entries).log) == Open([])
  {
    RunSound(g, entries);
    if entries != [] {
      var init, last := entries[..|entries| - 1], entries[|entries| - 1];
      RunIsLawful(g, init);
      RunSound(g, init);
      BegunIsStarted(Run(g, init), last);
      InvokeLawful(g, Run(g, init), [], last);
    }
  }

  /** From step k on, body m reaches a throw of its own before it calls anything that was not begun. */
  ghost predicate ThrowsFrom(g: Graph, log: seq<Event>, m: nat, k: nat)
    requires m < |g|
  {
    exists j :: k <= j < |g[m].body| && ThrowsAt(g, log, m, k, j)
  }

  ghost predicate ThrowsAt(g: Graph, log: seq<Event>, m: nat, k: nat, j: nat)
    requires m < |g| && k <= j < |g[m].body|
  {
    g[m].body[j].Throw? && forall i :: k <= i < j ==> g[m].body[i].Call? && Begin(g[m].body[i].dep) in log
  }

  lemma {:induction false} NextIsAbortIff(g: Graph, log: seq<Event>, m: nat, k: nat)
    requires m < |g| && k <= |g[m].body|
    ensures NextEvent(g, log, m, k) == Abort(m) <==> ThrowsFrom(g, log, m, k)
    decreases |g[m].body| - k
  {
    if k < |g[m].body| {
      NextIsAbortIff(g, log, m, k + 1);
      if g[m].body[k].Throw? {
        assert ThrowsAt(g, log, m, k, k);
      } else if Begin(g[m].body[k].dep) in log && ThrowsFrom(g, log, m, k + 1) {
        var j :| k + 1 <= j < |g[m].body| && ThrowsAt(g, log, m, k + 1, j);
        assert ThrowsAt(g, log, m, k, j);
      } else if j :| k <= j < |g[m].body| && ThrowsAt(g, log, m, k, j) {
        assert ThrowsAt(g, log, m, k + 1, j);
      }
    }
  }

  /** A module that body m called outside try/catch has just aborted, or m goes on at a step from which
      it reaches a throw of its own. */
  ghost predicate AbortDue(g: Graph, log: seq<Event>, m: nat) {
    Rethrows(g, log, m) || exists k: nat :: Resumes(g, log, m, k) && ThrowsFrom(g, log, m, k)
  }

  lemma NotOver(log: seq<Event>, i: nat, mods: seq<nat>)
    requires i <= |log| && InProgress(log) == Open([]) && InProgress(log[..i]) == Open(mods) && mods != []
    ensures i < |log|
  {
    assert log[..|log|] == log;
  }

  lemma LawAt(g: Graph, log: seq<Event>, e: Event, mods: seq<nat>)
    requires Allowed(g, log, e) && InProgress(log) == Open(mods) && mods != []
    ensures Follows(g, log, mods[|mods| - 1], e)
  {}

  /** In every run, with body m innermost, there is a next event, and it is m's abort if and only if
      that is due. */
  lemma AbortsIff(g: Graph, entries: seq<nat>, i: nat, mods: seq<nat>)
    requires Entries(g, entries) && i <= |Run(g, entries).log| && InProgress(Run(g, entries).log[..i]) == Open(mods) && mods != []
    ensures var log, m := Run(g, entries).log, mods[|mods| - 1];
            i < |log| && (log[i] == Abort(m) <==> AbortDue(g, log[..i], m))
  {
    var log := Run(g, entries).log;
    RunIsLawful(g, entries);
    NotOver(log, i, mods);
    LawAt(g, log[..i], log[i], mods);
    FollowsAbortIff(g, log[..i], mods[|mods| - 1], log[i]);
  }

  lemma FollowsAbortIff(g: Graph, log: seq<Event>, m: nat, e: Event)
    requires Follows(g, log, m, e)
    ensures e == Abort(m) <==> AbortDue(g, log, m)
  {
    if !Rethrows(g, log, m) {
      var k: nat :| Resumes(g, log, m, k) && e == NextEvent(g, log, m, k);
      NextIsAbortIff(g, log, m, k);
      ResumesOnce(g, log, m, k);
    }
  }

  lemma ResumesOnce(g: Graph, log: seq<Event>, m: nat, k: nat)
    requires Resumes(g, log, m, k)
    ensures forall j: nat :: Resumes(g, log, m, j) ==> j == k
  {}

  /** One call of a wrapper: if the body has begun before, nothing happens and nothing is thrown;
      otherwise the body begins, and the call throws if and only if it ends in the body's abort. */
  lemma CallThrowsIff(g: Graph, s: State, m: nat)
    requires WellFormed(g) && m < |g| && s.started <= All(g)
    ensures var r := Invoke(g, s, m);
            if m in s.started then r == Outcome(s, false)
            else
              && s.log + [Begin(m)] < r.st.log
              && r.st.log[|r.st.log| - 1] in {End(m), Abort(m)}
              && (r.threw <==> r.st.log[|r.st.log| - 1] == Abort(m))
  {
    if m !in s.started {
      var begun := State(s.started + {m}, s.log + [Begin(m)]);
      BodyLogs(g, begun, m, 0);
    }
  }

  lemma LastEvent(g: Graph, s: State, m: nat)
    requires WellFormed(g) && m < |g| && s.started <= All(g)
    ensures var r := Invoke(g, s, m);
            r.threw <==> |r.st.log| > |s.log| && r.st.log[|r.st.log| - 1] == Abort(m)
  {
    CallThrowsIff(g, s, m);
  }

  lemma {:induction false} BodyLogs(g: Graph, s: State, m: nat, k: nat)
    requires WellFormed(g) && m < |g| && k <= |g[m].body| && s.started <= All(g)
    ensures s.log <= Body(g, s, m, k).st.log
    decreases Unstarted(g, s), 1 + |g[m].body| - k
  {
    if k < |g[m].body| && g[m].body[k].Call? {
      var d := g[m].body[k].dep;
      var r := Invoke(g, s, d);
      if d !in s.started {
        var begun := State(s.started + {d}, s.log + [Begin(d)]);
        assert All(g) - begun.started == (All(g) - s.started) - {d};
        BodyLogs(g, begun, d, 0);
      }
      if !r.threw || g[m].body[k].caught {
        UnstartedShrinks(g, s, r.st);
        BodyLogs(g, r.st, m, k + 1);
      }
    }
  }

  // ---------------------------------------------------------------- the wrappers themselves

  datatype Reply =
    | Threw
    | Undefined
    | ResultOf(m: nat)
    | ExportsOf(m: nat)

  /** The variables captured by the wrappers of one bundle: `fn` and `res` of each `__esm`
      wrapper, `mod` of each `__commonJS` wrapper. */
  class Bundle {
    const g: Graph
    var fn: seq<bool>   // __esm: the body is still held
    var res: seq<bool>  // __esm: the body has returned and its result is stored
    var mod: seq<bool>  // __commonJS: the module object exists
    ghost var log: seq<Event>

    ghost var started: set<nat>

    ghost predicate Valid()
      reads this
    {
      && WellFormed(g)
      && |fn| == |res| == |mod| == |g|
      && started <= All(g)
      && (forall m :: 0 <= m < |g| ==> (m in started <==> if g[m].kind.Esm? then !fn[m] else mod[m]))
      && (forall m :: 0 <= m < |g| ==> (res[m] <==> End(m) in log && g[m].kind.Esm?))
    }

    ghost function Abs(): State
      reads this
    {
      State(started, log)
    }

    constructor (g: Graph)
      requires WellFormed(g)
      ensures Valid() && this.g == g && Abs() == FRESH
    {
      this.g := g;
      fn := seq(|g|, i => true);
      res := seq(|g|, i => false);
      mod := seq(|g|, i => false);
      log := [];
      started := {};
    }

    /** What a call that did not throw returns: the stored result of an `__esm` body, which is
        still undefined while the body is in progress or after it threw; `module.exports`. */
    ghost predicate Returns(m: nat, r: Reply)
      requires m < |g|
      reads this
    {
      r == match g[m].kind
           case CommonJs => ExportsOf(m)
           case Esm => if End(m) in log then ResultOf(m) else Undefined
    }

    method CallEsm(m: nat) returns (r: Reply)
      requires Valid() && m < |g| && g[m].kind.Esm?
      modifies this
      ensures Valid() && Invoke(g, old(Abs()), m) == Outcome(Abs(), r.Threw?)
      ensures !r.Threw? ==> r == if End(m) in log then ResultOf(m) else Undefined
      decreases Unstarted(g, Abs()), 0, 0
    {
      if fn[m] {
        fn := fn[m := false];
        Starting(m);
        var threw := RunBody(m);
        if threw {
          log := log + [Abort(m)];
          return Threw;
        }
        res, log := res[m := true], log + [End(m)];
      }
      r := if res[m] then ResultOf(m) else Undefined;
    }

    method CallCommonJs(m: nat) returns (r: Reply)
      requires Valid() && m < |g| && g[m].kind.CommonJs?
      modifies this
      ensures Valid() && Invoke(g, old(Abs()), m) == Outcome(Abs(), r.Threw?)
      ensures !r.Threw? ==> r == ExportsOf(m)
      decreases Unstarted(g, Abs()), 0, 0
    {
      if !mod[m] {
        mod := mod[m := true];
        Starting(m);
        var threw := RunBody(m);
        if threw {
          log := log + [Abort(m)];
          return Threw;
        }
        log := log + [End(m)];
      }
      r := ExportsOf(m);
    }

    method Call(m: nat) returns (r: Reply)
      requires Valid() && m < |g|
      modifies this
      ensures Valid() && Invoke(g, old(Abs()), m) == Outcome(Abs(), r.Threw?)
      ensures !r.Threw? ==> Returns(m, r)
      ensures r.Threw? <==> |log| > |old(log)| && log[|log| - 1] == Abort(m)
      decreases Unstarted(g, Abs()), 0, 1
    {
      LastEvent(g, Abs(), m);
      if g[m].kind.Esm? { r := CallEsm(m); } else { r := CallCommonJs(m); }
    }

    /** The code of module m: its imports in order, each through its wrapper. */
    method RunBody(m: nat) returns (threw: bool)
      requires Valid() && m < |g|
      modifies this
      ensures Valid() && Body(g, old(Abs()), m, 0) == Outcome(Abs(), threw)
      decreases Unstarted(g, Abs()), 1
    {
      ghost var before := Abs();
      var k := 0;
      while k < |g[m].body|
        invariant Valid() && 0 <= k <= |g[m].body|
        invariant before.started <= Abs().started
        invariant Body(g, before, m, 0) == Body(g, Abs(), m, k)
      {
        var step := g[m].body[k];
        if step.Throw? { return true; }
        UnstartedShrinks(g, before, Abs());
        var r := Call(step.dep);
        if r.Threw? && !step.caught { return true; }
        k := k + 1;
      }
      threw := false;
    }

    ghost method Starting(m: nat)
      requires m < |g| && started <= All(g) && m !in started
      modifies this`started, this`log
      ensures Abs() == State(old(started) + {m}, old(log) + [Begin(m)])
      ensures Unstarted(g, Abs()) < old(Unstarted(g, Abs()))
    {
      assert All(g) - (started + {m}) == (All(g) - started) - {m};
      started, log := started + {m}, log + [Begin(m)];
    }
  }

  /** Running entry wrappers one after the other leaves the bundle in the state `Run` describes. */
  method RunEntries(b: Bundle, entries: seq<nat>)
    requires b.Valid() && b.Abs() == FRESH && Entries(b.g, entries)
    modifies b
    ensures b.Valid() && b.Abs() == Run(b.g, entries)
  {
    for i := 0 to |entries|
      invariant b.Valid() && b.Abs() == Run(b.g, entries[..i])
    {
      var _ := b.Call(entries[i]);
      assert entries[..i + 1][..i] == entries[..i];
    }
    assert entries[..|entries|] == entries;
  }
}
