/** Context values of the bundled React server renderer.
    Each context object holds its current value in a field that providers overwrite; linked
    snapshots record how to undo and redo those writes. Suspended work is resumed later under
    its own snapshot, so the renderer keeps switching between snapshots. */
module ContextStack {

  type Value = int

  class Context {
    const defaultValue: Value
    var currentValue: Value

    constructor (v: Value)
      ensures defaultValue == v && currentValue == v
    {
      defaultValue, currentValue := v, v;
    }
  }

  /** One provider in effect; immutable. `null` stands for no provider at all. */
  class Snapshot {
    const parent: Snapshot?
    const depth: nat
    const context: Context
    const parentValue: Value
    const value: Value

    constructor (parent: Snapshot?, context: Context, parentValue: Value, value: Value)
      ensures this.parent == parent && this.context == context
      ensures this.parentValue == parentValue && this.value == value
      ensures depth == Height(parent)
    {
      this.parent, this.context, this.parentValue, this.value := parent, context, parentValue, value;
      depth := if parent == null then 0 else parent.depth + 1;
    }
  }

  ghost function Height(s: Snapshot?): nat {
    if s == null then 0 else s.depth + 1
  }

  /** The value of context c under the innermost provider for it, or its default. */
  ghost function Lookup(s: Snapshot?, c: Context): Value
    decreases Height(s)
  {
    if s == null then c.defaultValue
    else if s.context == c then s.value
    else if s.depth != Height(s.parent) then c.defaultValue
    else Lookup(s.parent, c)
  }

  /** Depths count links, contexts belong to the world, and each link remembers the value its
      context had under the link's parent. */
  ghost predicate WellFormed(world: set<Context>, s: Snapshot?)
    decreases Height(s)
  {
    s == null ||
    (&& s.depth == Height(s.parent)
     && s.context in world
     && s.parentValue == Lookup(s.parent, s.context)
     && WellFormed(world, s.parent))
  }

  /** Every context cell holds the value the snapshot gives it. */
  ghost predicate Shows(world: set<Context>, s: Snapshot?)
    reads world
  {
    forall c :: c in world ==> c.currentValue == Lookup(s, c)
  }

  /** The renderer's internal errors 401, 402 and 403, raised by its depth and null guards. */
  datatype Outcome = Ok | Error401 | Error402 | Error403

  /** `i_`: from f to u, both at the same depth, through their nearest common ancestor. */
  method PopToCommonAncestor(ghost world: set<Context>, f: Snapshot, u: Snapshot) returns (r: Outcome)
    requires WellFormed(world, f) && WellFormed(world, u) && f.depth == u.depth && Shows(world, f)
    modifies world
    ensures r == Ok && Shows(world, u)
    decreases f.depth
  {
    r := Ok;
    if f != u {
      f.context.currentValue := f.parentValue;
      assert Shows(world, f.parent);
      if f.parent == null {
        if u.parent != null { return Error401; }
      } else {
        if u.parent == null { return Error401; }
        r := PopToCommonAncestor(world, f.parent, u.parent);
      }
      u.context.currentValue := u.value;
    }
  }

  /** `VT`: undo every provider. */
  method PopAll(ghost world: set<Context>, f: Snapshot)
    requires WellFormed(world, f) && Shows(world, f)
    modifies world
    ensures Shows(world, null)
    decreases f.depth
  {
    f.context.currentValue := f.parentValue;
    assert Shows(world, f.parent);
    if f.parent != null { PopAll(world, f.parent); }
  }

  /** `ST`: redo every provider, outermost first. */
  method PushAll(ghost world: set<Context>, f: Snapshot)
    requires WellFormed(world, f) && Shows(world, null)
    modifies world
    ensures Shows(world, f)
    decreases f.depth
  {
    if f.parent != null { PushAll(world, f.parent); }
    f.context.currentValue := f.value;
  }

  /** `FT`: f is deeper than u. */
  method PopPrevious(ghost world: set<Context>, f: Snapshot, u: Snapshot) returns (r: Outcome)
    requires WellFormed(world, f) && WellFormed(world, u) && f.depth > u.depth && Shows(world, f)
    modifies world
    ensures r == Ok && Shows(world, u)
    decreases f.depth
  {
    f.context.currentValue := f.parentValue;
    assert Shows(world, f.parent);
    if f.parent == null { return Error402; }
    if f.parent.depth == u.depth {
      r := PopToCommonAncestor(world, f.parent, u);
    } else {
      r := PopPrevious(world, f.parent, u);
    }
  }

  /** `KT`: u is deeper than f. */
  method PushNext(ghost world: set<Context>, f: Snapshot, u: Snapshot) returns (r: Outcome)
    requires WellFormed(world, f) && WellFormed(world, u) && f.depth < u.depth && Shows(world, f)
    modifies world
    ensures r == Ok && Shows(world, u)
    decreases u.depth
  {
    if u.parent == null { return Error402; }
    if f.depth == u.parent.depth {
      r := PopToCommonAncestor(world, f, u.parent);
    } else {
      r := PushNext(world, f, u.parent);
    }
    u.context.currentValue := u.value;
  }

  // ---------------------------------------------------------------- what is rendered

  /** A consumer reads a context and goes on; `Suspends` throws a thenable when reached and goes
      on with its child once pinged; `Fails` throws an error. `Children` lists siblings: a
      thenable thrown while rendering one of them is caught there and becomes a task. */
  datatype Node =
    | Empty
    | Consumer(id: nat, context: Context, child: Node)
    | Provider(context: Context, value: Value, child: Node)
    | Children(first: Node, rest: Node)
    | Suspends(child: Node)
    | Fails

  type Env = map<Context, Value>
  type Reads = multiset<(nat, Value)>

  ghost function Contexts(n: Node): set<Context> {
    match n
    case Empty => {}
    case Consumer(_, c, child) => {c} + Contexts(child)
    case Provider(c, _, child) => {c} + Contexts(child)
    case Children(first, rest) => Contexts(first) + Contexts(rest)
    case Suspends(child) => Contexts(child)
    case Fails => {}
  }

  /** Rendering the node throws an error before the task comes to rest: what is suspended does not
      count, and siblings after an error are never reached. */
  ghost predicate FailsNow(n: Node) {
    match n
    case Empty => false
    case Consumer(_, _, child) => FailsNow(child)
    case Provider(_, _, child) => FailsNow(child)
    case Children(first, rest) => FailsNow(first) || FailsNow(rest)
    case Suspends(_) => false
    case Fails => true
  }

  /** How many tasks end in an error, those included that are suspended on the way. */
  ghost function Errors(n: Node): nat {
    match n
    case Empty => 0
    case Consumer(_, _, child) => Errors(child)
    case Provider(_, _, child) => Errors(child)
    case Children(first, rest) => Errors(first) + if FailsNow(first) then 0 else Errors(rest)
    case Suspends(child) => Errors(child)
    case Fails => 1
  }

  ghost function Size(n: Node): nat {
    match n
    case Empty => 1
    case Consumer(_, _, child) => 1 + Size(child)
    case Provider(_, _, child) => 1 + Size(child)
    case Children(first, rest) => 1 + Size(first) + Size(rest)
    case Suspends(child) => 1 + Size(child)
    case Fails => 1
  }

  ghost function Bind(env: Env, c: Context, v: Value): (r: Env)
    requires c in env.Keys
    ensures r.Keys == env.Keys
  {
    env[c := v]
  }

  /** The reads of a node by lexical scoping: each consumer sees the nearest enclosing provider
      of its context. Nothing here knows of cells, snapshots, tasks or the order of work. */
  ghost function Lexical(n: Node, env: Env): Reads
    requires Contexts(n) <= env.Keys
  {
    match n
    case Empty => multiset{}
    case Consumer(l, c, child) => multiset{(l, env[c])} + Lexical(child, env)
    case Provider(c, v, child) => Lexical(child, Bind(env, c, v))
    case Children(first, rest) => Lexical(first, env) + Lexical(rest, env)
    case Suspends(child) => Lexical(child, env)
    case Fails => multiset{}
  }

  /** The reads that are made: lexical ones, but none by the siblings after an error. */
  ghost function Made(n: Node, env: Env): Reads
    requires Contexts(n) <= env.Keys
  {
    match n
    case Empty => multiset{}
    case Consumer(l, c, child) => multiset{(l, env[c])} + Made(child, env)
    case Provider(c, v, child) => Made(child, Bind(env, c, v))
    case Children(first, rest) => Made(first, env) + if FailsNow(first) then multiset{} else Made(rest, env)
    case Suspends(child) => Made(child, env)
    case Fails => multiset{}
  }

  /** No node throws an error. */
  ghost predicate ErrorFree(n: Node) {
    match n
    case Empty => true
    case Consumer(_, _, child) => ErrorFree(child)
    case Provider(_, _, child) => ErrorFree(child)
    case Children(first, rest) => ErrorFree(first) && ErrorFree(rest)
    case Suspends(child) => ErrorFree(child)
    case Fails => false
  }

  /** Only lexical reads are made; all of them exactly if no node throws, which no error also means. */
  lemma {:induction false} MadeIsLexical(n: Node, env: Env)
    requires Contexts(n) <= env.Keys
    ensures Made(n, env) <= Lexical(n, env) && (ErrorFree(n) ==> Made(n, env) == Lexical(n, env))
    ensures ErrorFree(n) <==> Errors(n) == 0
    ensures ErrorFree(n) ==> !FailsNow(n)
  {
    match n
    case Empty =>
    case Fails =>
    case Consumer(_, _, child) => MadeIsLexical(child, env);
    case Provider(c, v, child) => MadeIsLexical(child, Bind(env, c, v));
    case Suspends(child) => MadeIsLexical(child, env);
    case Children(first, rest) =>
      MadeIsLexical(first, env);
      MadeIsLexical(rest, env);
      FailingHasErrors(first);
  }

  lemma MadeByBoth(before: Reads, first: Node, rest: Node, env: Env)
    requires Contexts(first) <= env.Keys && Contexts(rest) <= env.Keys
    ensures before + Made(Children(first, rest), env) ==
            if FailsNow(first) then before + Made(first, env) else before + Made(first, env) + Made(rest, env)
    ensures Errors(Children(first, rest)) == if FailsNow(first) then Errors(first) else Errors(first) + Errors(rest)
  {}

  lemma {:induction false} FailingHasErrors(n: Node)
    ensures FailsNow(n) ==> Errors(n) > 0
  {
    match n
    case Consumer(_, _, child) => FailingHasErrors(child);
    case Provider(_, _, child) => FailingHasErrors(child);
    case Children(first, rest) =>
      FailingHasErrors(first);
      FailingHasErrors(rest);
    case _ =>
  }

  ghost function EnvOf(world: set<Context>, s: Snapshot?): (env: Env)
    ensures env.Keys == world
  {
    map c | c in world :: Lookup(s, c)
  }

  /** Work to resume: a node and the snapshot in effect where it was suspended. */
  datatype Task = Task(node: Node, context: Snapshot?)

  ghost predicate TaskOk(world: set<Context>, t: Task) {
    Contexts(t.node) <= world && WellFormed(world, t.context)
  }

  ghost function TaskReads(world: set<Context>, t: Task): Reads {
    if Contexts(t.node) <= world then Made(t.node, EnvOf(world, t.context)) else multiset{}
  }

  /** The reads still owed by pending tasks. */
  ghost function Owed(world: set<Context>, tasks: seq<Task>): Reads {
    if tasks == [] then multiset{}
    else Owed(world, tasks[..|tasks| - 1]) + TaskReads(world, tasks[|tasks| - 1])
  }

  ghost function TotalErrors(tasks: seq<Task>): nat {
    if tasks == [] then 0
    else TotalErrors(tasks[..|tasks| - 1]) + Errors(tasks[|tasks| - 1].node)
  }

  ghost function TotalSize(tasks: seq<Task>): nat {
    if tasks == [] then 0
    else TotalSize(tasks[..|tasks| - 1]) + Size(tasks[|tasks| - 1].node)
  }

  lemma OwedAppend(world: set<Context>, tasks: seq<Task>, t: Task)
    ensures Owed(world, tasks + [t]) == Owed(world, tasks) + TaskReads(world, t)
    ensures TotalSize(tasks + [t]) == TotalSize(tasks) + Size(t.node)
    ensures TotalErrors(tasks + [t]) == TotalErrors(tasks) + Errors(t.node)
  {
    assert (tasks + [t])[..|tasks + [t]| - 1] == tasks;
  }

  lemma {:induction false} OwedConcat(world: set<Context>, a: seq<Task>, b: seq<Task>)
    ensures Owed(world, a + b) == Owed(world, a) + Owed(world, b)
    ensures TotalSize(a + b) == TotalSize(a) + TotalSize(b)
    ensures TotalErrors(a + b) == TotalErrors(a) + TotalErrors(b)
  {
    if b == [] {
      assert a + b == a;
    } else {
      var init, last := b[..|b| - 1], b[|b| - 1];
      assert b == init + [last];
      OwedConcat(world, a, init);
      OwedAppend(world, init, last);
      OwedAppend(world, a + init, last);
      assert a + b == (a + init) + [last];
    }
  }

  /** Taking one task out of the pending ones. */
  lemma OwedRemove(world: set<Context>, a: seq<Task>, t: Task, b: seq<Task>)
    ensures Owed(world, a + [t] + b) == Owed(world, a + b) + TaskReads(world, t)
    ensures TotalSize(a + [t] + b) == TotalSize(a + b) + Size(t.node)
    ensures TotalErrors(a + [t] + b) == TotalErrors(a + b) + Errors(t.node)
  {
    OwedAppend(world, a, t);
    OwedConcat(world, a + [t], b);
    OwedConcat(world, a, b);
  }

  // ---------------------------------------------------------------- the renderer

  datatype Status = Done | Suspended | Failed

  class Renderer {
    const world: set<Context>
    var current: Snapshot?    // `wc`: the snapshot the cells show
    var context: Snapshot?    // the running task's own snapshot
    var node: Node            // the running task's node, where it resumes if suspended
    var tasks: seq<Task>      // suspended work
    var log: seq<(nat, Value)>

    /** The work the renderer holds: suspended tasks, the running task, the current snapshot. */
    ghost function Held(): seq<Task>
      reads this
    {
      tasks + [Task(node, context), Task(Empty, current)]
    }

    ghost predicate Valid()
      reads this, world
    {
      (forall t :: t in Held() ==> TaskOk(world, t)) && Shows(world, current)
    }

    lemma Holdings()
      requires Valid()
      ensures TaskOk(world, Task(node, context)) && TaskOk(world, Task(Empty, current))
      ensures forall t :: t in tasks ==> TaskOk(world, t)
    {
      assert Held()[|tasks|] == Task(node, context) && Held()[|tasks| + 1] == Task(Empty, current);
      forall t | t in tasks ensures TaskOk(world, t) { assert t in Held(); }
    }

    /** Reads made so far and reads still owed by suspended tasks. */
    ghost function Account(): Reads
      reads this`log, this`tasks
    {
      multiset(log) + Owed(world, tasks)
    }

    constructor (world: set<Context>)
      requires forall c :: c in world ==> c.currentValue == c.defaultValue
      ensures Valid() && this.world == world && current == null && context == null
      ensures tasks == [] && log == []
    {
      this.world := world;
      current, context, node, tasks, log := null, null, Empty, [], [];
    }

    /** `ku`: make the cells show another snapshot. */
    method Switch(target: Snapshot?) returns (r: Outcome)
      requires Valid() && WellFormed(world, target)
      modifies this`current, world
      ensures Valid() && r == Ok && current == target
    {
      Holdings();
      var u := current;
      r := Ok;
      if u != target {
        if u == null { PushAll(world, target); }
        else if target == null { PopAll(world, u); }
        else if u.depth == target.depth { r := PopToCommonAncestor(world, u, target); }
        else if u.depth > target.depth { r := PopPrevious(world, u, target); }
        else { r := PushNext(world, u, target); }
        current := target;
      }
    }
  
    /** Entering a provider: overwrite the cell and link a new snapshot. */
    method Push(c: Context, v: Value)
      requires Valid() && c in world && context == current
      modifies this`current, this`context, c
      ensures Valid() && context == current && current != null && current.parent == old(current)
      ensures EnvOf(world, current) == Bind(EnvOf(world, old(current)), c, v)
    {
      Holdings();
      var s := new Snapshot(current, c, c.currentValue, v);
      c.currentValue := v;
      current, context := s, s;
      assert EnvOf(world, current) == Bind(EnvOf(world, old(current)), c, v);
    }

    /** Leaving a provider. */
    method Pop() returns (r: Outcome)
      requires Valid() && current != null
      modifies this`current, this`context, world
      ensures Valid() && r == Ok && current == context == old(current).parent
    {
      Holdings();
      var f := current;
      if f == null { return Error403; }
      f.context.currentValue := f.parentValue;
      current, context := f.parent, f.parent;
      r := Ok;
    }

    /** Reads made so far, reads owed by suspended tasks and, when the running task is suspended,
        by the task itself, whose `node` and `context` are left where the thenable was thrown. */
    ghost function AccountAt(r: Status): Reads
      reads this`log, this`tasks, this`node, this`context
    {
      if r.Suspended? then Account() + TaskReads(world, Task(node, context)) else Account()
    }

    ghost function ErrorsAt(r: Status): nat
      reads this`tasks, this`node
    {
      TotalErrors(tasks) + match r case Done => 0 case Failed => 1 case Suspended => Errors(node)
    }

    ghost function SizeAt(r: Status): nat
      reads this`tasks, this`node
    {
      TotalSize(tasks) + if r.Suspended? then Size(node) else 0
    }

    /** Render a node of the running task. */
    method Render(n: Node) returns (r: Status)
      requires Valid() && Contexts(n) <= world && context == current
      modifies this, world
      ensures Valid() && context == current && (r.Done? ==> current == old(current))
      ensures (r.Failed? <==> FailsNow(n)) && AccountAt(r) == old(Account()) + Made(n, EnvOf(world, old(current)))
      ensures ErrorsAt(r) == old(TotalErrors(tasks)) + Errors(n)
      ensures SizeAt(r) < old(TotalSize(tasks)) + Size(n)
      decreases Size(n), 0
    {
      Holdings();
      match n
      case Empty => r := Done;
      case Fails => r := Failed;
      case Suspends(child) =>
        node := child;
        r := Suspended;
      case Consumer(id, c, child) => r := RenderConsumer(id, c, child);
      case Provider(c, v, child) => r := RenderProvider(c, v, child);
      case Children(first, rest) => r := RenderChildren(first, rest);
    }

    method RenderConsumer(id: nat, c: Context, child: Node) returns (r: Status)
      requires Valid() && Contexts(child) <= world && c in world && context == current
      modifies this, world
      ensures Valid() && context == current && (r.Done? ==> current == old(current))
      ensures r.Failed? <==> FailsNow(child)
      ensures AccountAt(r) == old(Account()) + (multiset{(id, Lookup(old(current), c))} + Made(child, EnvOf(world, old(current))))
      ensures ErrorsAt(r) == old(TotalErrors(tasks)) + Errors(child)
      ensures SizeAt(r) < old(TotalSize(tasks)) + Size(child)
      decreases Size(child), 2
    {
      Note(id, c);
      r := Render(child);
    }

    method Note(id: nat, c: Context)
      requires Valid() && c in world
      modifies this`log
      ensures Valid() && Account() == old(Account()) + multiset{(id, Lookup(current, c))}
    {
      log := log + [(id, c.currentValue)];
    }

    method RenderProvider(c: Context, v: Value, child: Node) returns (r: Status)
      requires Valid() && Contexts(child) <= world && c in world && context == current
      modifies this, world
      ensures Valid() && context == current && (r.Done? ==> current == old(current))
      ensures r.Failed? <==> FailsNow(child)
      ensures AccountAt(r) == old(Account()) + Made(child, Bind(EnvOf(world, old(current)), c, v))
      ensures ErrorsAt(r) == old(TotalErrors(tasks)) + Errors(child)
      ensures SizeAt(r) < old(TotalSize(tasks)) + Size(child)
      decreases Size(child), 2
    {
      Push(c, v);
      r := Render(child);
      if r.Done? {
        var _ := Pop();
      }
    }

    method RenderChildren(first: Node, rest: Node) returns (r: Status)
      requires Valid() && Contexts(first) <= world && Contexts(rest) <= world && context == current
      modifies this, world
      ensures Valid() && context == current && (r.Done? ==> current == old(current))
      ensures r.Failed? <==> FailsNow(first) || FailsNow(rest)
      ensures AccountAt(r) == old(Account()) + Made(Children(first, rest), EnvOf(world, old(current)))
      ensures ErrorsAt(r) == old(TotalErrors(tasks)) + Errors(Children(first, rest))
      ensures SizeAt(r) < old(TotalSize(tasks)) + Size(first) + Size(rest)
      decreases Size(first) + Size(rest), 2
    {
      ghost var before, env := Account(), EnvOf(world, current);
      MadeByBoth(before, first, rest, env);
      r := RenderChild(first);
      if r.Done? {
        r := Render(rest);
      }
    }

    /** `HT`: the rest of the running task becomes a task of its own. */
    method Spawn()
      requires Valid()
      modifies this`tasks
      ensures Valid() && Account() == old(AccountAt(Suspended)) && TotalSize(tasks) == old(SizeAt(Suspended))
      ensures TotalErrors(tasks) == old(ErrorsAt(Suspended))
    {
      Holdings();
      var t := Task(node, context);
      OwedAppend(world, tasks, t);
      tasks := tasks + [t];
    }

    /** The catch clause of `_f`: back to the snapshot the child was entered with. */
    method Restore(saved: Snapshot?)
      requires Valid() && WellFormed(world, saved)
      modifies this`current, this`context, world
      ensures Valid() && context == current == saved
    {
      Holdings();
      context := saved;
      var _ := Switch(saved);
    }

    /** What `_f` does after its child: a thrown thenable becomes a task; the context is restored. */
    method Catch(s: Status, saved: Snapshot?) returns (r: Status)
      requires Valid() && WellFormed(world, saved)
      modifies this`tasks, this`current, this`context, world
      ensures Valid() && context == current == saved
      ensures r == if s.Suspended? then Done else s
      ensures Account() == old(AccountAt(s)) && TotalSize(tasks) == old(SizeAt(s)) && ErrorsAt(r) == old(ErrorsAt(s))
    {
      r := s;
      if s.Suspended? {
        Spawn();
        r := Done;
      }
      Restore(saved);
    }

    /** `_f`: render a child of a list. */
    method RenderChild(n: Node) returns (r: Status)
      requires Valid() && Contexts(n) <= world && context == current
      modifies this, world
      ensures Valid() && context == current == old(current) && !r.Suspended?
      ensures (r.Failed? <==> FailsNow(n)) && Account() == old(Account()) + Made(n, EnvOf(world, old(current)))
      ensures ErrorsAt(r) == old(TotalErrors(tasks)) + Errors(n)
      ensures TotalSize(tasks) < old(TotalSize(tasks)) + Size(n)
      decreases Size(n), 1
    {
      Holdings();
      var saved := context;
      r := Render(n);
      r := Catch(r, saved);
    }

    /** One turn of the work loop: resume any pending task under its own snapshot. A task that
        suspends again stays pending where it stopped; one that fails is dropped. */
    method RunTask(i: nat) returns (r: Status)
      requires Valid() && i < |tasks|
      modifies this, world
      ensures Valid() && current == context && (r.Done? ==> current == old(tasks[i].context))
      ensures Account() == old(Account())
      ensures TotalErrors(tasks) + (if r.Failed? then 1 else 0) == old(TotalErrors(tasks))
      ensures TotalSize(tasks) < old(TotalSize(tasks))
    {
      Holdings();
      var t := tasks[i];
      TakeTask(i);
      Restore(t.context);
      r := Render(t.node);
      if r.Suspended? { Spawn(); }
    }

    method TakeTask(i: nat)
      requires Valid() && i < |tasks|
      modifies this`tasks
      ensures Valid() && TaskOk(world, old(tasks[i]))
      ensures old(Account()) == Account() + TaskReads(world, old(tasks[i]))
      ensures old(TotalSize(tasks)) == TotalSize(tasks) + Size(old(tasks[i].node))
      ensures old(TotalErrors(tasks)) == TotalErrors(tasks) + Errors(old(tasks[i].node))
    {
      Holdings();
      assert tasks == tasks[..i] + [tasks[i]] + tasks[i + 1..];
      OwedRemove(world, tasks[..i], tasks[i], tasks[i + 1..]);
      tasks := tasks[..i] + tasks[i + 1..];
    }

    /** Render a tree to completion, resuming suspended tasks in whatever order the schedule
        picks: which reads are made and how many tasks end in an error does not depend on it. Every
        read is a lexical one, none is made twice, none is missing unless a node threw an error. The
        cells go back to the snapshot rendering began with only if it began inside another render;
        otherwise they stay at the snapshot of the task that ran last. */
    method RenderRoot(root: Node, schedule: nat -> nat, nested: bool) returns (errors: nat)
      requires Valid() && Contexts(root) <= world && tasks == [] && log == []
      modifies this, world
      ensures Valid() && tasks == [] && current == if nested then old(current) else context
      ensures errors == Errors(root) && multiset(log) == Made(root, EnvOf(world, null))
      ensures multiset(log) <= Lexical(root, EnvOf(world, null))
      ensures errors == 0 ==> multiset(log) == Lexical(root, EnvOf(world, null))
    {
      ghost var owed := Made(root, EnvOf(world, null));
      MadeIsLexical(root, EnvOf(world, null));
      Holdings();
      var saved := current;
      OwedAppend(world, [], Task(root, null));
      tasks := [] + [Task(root, null)];
      errors := 0;
      var step := 0;
      while tasks != []
        invariant Valid() && (tasks == [] ==> current == context)
        invariant Account() == owed && errors + TotalErrors(tasks) == Errors(root)
        decreases TotalSize(tasks)
      {
        var r := RunTask(schedule(step) % |tasks|);
        if r.Failed? { errors := errors + 1; }
        step := step + 1;
      }
      if nested { var _ := Switch(saved); }
    }
  }
}
