/** Interoperation of CommonJS and ESM modules: the namespaces that `__toESM` makes and caches, the
    exports object of `__toCommonJS`, and `export *` by `__reExport`. */
module Interop {
  import opened Options

  type Id = nat

  datatype Value = Undefined | Null | Primitive(truthy: bool, tag: nat) | Object(id: Id) | Function(id: Id)

  /** A property that a program set and may change, or one defined for good: a value, or a getter
      that reads a property of another object. */
  datatype Prop = Data(value: Value) | Fixed(value: Value) | Getter(of: Id, key: string)

  type Obj = map<string, Prop>
  type Heap = map<Id, Obj>

  predicate HasNames(v: Value) {
    v.Object? || v.Function?
  }

  predicate Truthy(v: Value) {
    v.Object? || v.Function? || (v.Primitive? && v.truthy)
  }

  // ---------------------------------------------------------------- reading

  datatype Read = Absent | Got(value: Value) | TooDeep

  /** Reading property k of o with room for n nested getters; beyond that the engine throws. */
  function Lookup(heap: Heap, o: Id, k: string, n: nat): Read
    decreases n
  {
    if o !in heap || k !in heap[o] then Absent
    else match heap[o][k]
      case Data(x) => Got(x)
      case Fixed(x) => Got(x)
      case Getter(m, j) => if n == 0 then TooDeep else Lookup(heap, m, j, n - 1)
  }

  /** A getter reads whatever its source holds at the time. */
  lemma LiveRead(heap: Heap, o: Id, k: string, m: Id, n: nat)
    requires o in heap && k in heap[o] && heap[o][k] == Getter(m, k)
    ensures Lookup(heap, o, k, n + 1) == Lookup(heap, m, k, n)
  {}

  /** What reading "__esModule" of a module gives. */
  function Flag(heap: Heap, mod: Value, depth: nat): Read {
    if HasNames(mod) then Lookup(heap, mod.id, "__esModule", depth) else Absent
  }

  predicate Flagged(r: Read) {
    r.Got? && Truthy(r.value)
  }

  // ---------------------------------------------------------------- what is defined

  ghost function WithGetters(target: Obj, keys: set<string>, source: Id): Obj {
    map k | k in target.Keys + keys :: if k in target then target[k] else Getter(source, k)
  }

  lemma GetterStep(o: Obj, seen: set<string>, source: Id, key: string)
    ensures WithGetters(o, {}, source) == o
    ensures var now := WithGetters(o, seen, source);
            WithGetters(o, seen + {key}, source) == if key in now then now else now[key := Getter(source, key)]
  {}

  ghost function NamesOf(heap: Heap, v: Value): set<string> {
    if HasNames(v) && v.id in heap then heap[v.id].Keys else {}
  }

  /** A namespace for a module with these names; `mod` becomes its default when overridden. */
  ghost function Namespace(mod: Value, names: set<string>, overridden: bool): Obj {
    var base: Obj := if overridden then map["default" := Fixed(mod)] else map[];
    if HasNames(mod) then WithGetters(base, names, mod.id) else base
  }

  const MARKER: Obj := map["__esModule" := Fixed(Primitive(true, 1))]

  ghost function Exports(from: Id, names: set<string>): Obj {
    WithGetters(MARKER, names, from)
  }

  // ---------------------------------------------------------------- one operation

  /** All objects, the next fresh one, and the three caches. */
  datatype Memory = Memory(heap: Heap, next: Id, nodeCache: map<Id, Id>, esmCache: map<Id, Id>, moduleCache: map<Id, Id>)

  ghost function Cache(s: Memory, node: bool): map<Id, Id> {
    if node then s.nodeCache else s.esmCache
  }

  ghost function Allocate(s: Memory, props: Obj): Memory {
    s.(heap := s.heap[s.next := props], next := s.next + 1)
  }

  ghost function Remembering(s: Memory, node: bool, mod: Id, ns: Id): Memory {
    if node then s.(nodeCache := s.nodeCache[mod := ns]) else s.(esmCache := s.esmCache[mod := ns])
  }

  /** Whether `default` becomes the module itself. */
  ghost predicate Overrides(s: Memory, mod: Value, node: bool, depth: nat) {
    node || !Truthy(mod) || !Flagged(Flag(s.heap, mod, depth))
  }

  datatype Converted = Converted(memory: Memory, ns: Option<Id>)

  /** `__toESM`: the namespace, or none when reading "__esModule" throws. */
  ghost function ToEsmOf(s: Memory, mod: Value, node: bool, depth: nat): Converted {
    if mod.Object? && mod.id in Cache(s, node) then Converted(s, Some(Cache(s, node)[mod.id]))
    else if !node && Flag(s.heap, mod, depth).TooDeep? then Converted(s, None)
    else
      var t := Allocate(s, Namespace(mod, NamesOf(s.heap, mod), Overrides(s, mod, node, depth)));
      Converted(if mod.Object? then Remembering(t, node, mod.id, s.next) else t, Some(s.next))
  }

  /** `__toCommonJS`: a value without names cannot be put into the cache, which throws. */
  ghost function ToCommonJsOf(s: Memory, from: Value): Converted {
    if HasNames(from) && from.id in s.moduleCache then Converted(s, Some(s.moduleCache[from.id]))
    else
      var t := Allocate(s, if HasNames(from) then Exports(from.id, NamesOf(s.heap, from)) else MARKER);
      if HasNames(from) then Converted(t.(moduleCache := t.moduleCache[from.id := s.next]), Some(s.next))
      else Converted(t, None)
  }

  /** `__reExport`: nothing when the module has no names; a second target gets the same names. */
  ghost function ReExported(heap: Heap, target: Id, mod: Value, second: Option<Id>): Heap
    requires target in heap && (second.Some? ==> second.value in heap)
  {
    if !HasNames(mod) then heap
    else
      var names := NamesOf(heap, mod) - {"default"};
      var one := heap[target := WithGetters(heap[target], names, mod.id)];
      if second.None? then one else one[second.value := WithGetters(one[second.value], names, mod.id)]
  }

  /** A program sets or removes a property; what was defined for good does not change. */
  function Put(o: Obj, key: string, value: Value): Obj {
    if key in o && !o[key].Data? then o else o[key := Data(value)]
  }

  function Dropped(o: Obj, key: string): Obj {
    if key in o && o[key].Data? then o - {key} else o
  }

  datatype Op =
    | Esm(mod: Value, node: bool)
    | Star(target: Id, mod: Value, second: Option<Id>)
    | Cjs(from: Value)
    | Set(o: Id, key: string, value: Value)
    | Remove(o: Id, key: string)
    | New

  /** Whether an operation only speaks of objects that exist. */
  predicate Applies(heap: Heap, op: Op) {
    match op
    case Esm(mod, _) => HasNames(mod) ==> mod.id in heap
    case Star(target, mod, second) =>
      target in heap && (HasNames(mod) ==> mod.id in heap) && (second.Some? ==> second.value in heap)
    case Cjs(from) => HasNames(from) ==> from.id in heap
    case Set(o, _, _) => o in heap
    case Remove(o, _) => o in heap
    case New => true
  }

  ghost function Step(s: Memory, op: Op, depth: nat): Memory {
    if !Applies(s.heap, op) then s
    else match op
      case Esm(mod, node) => ToEsmOf(s, mod, node, depth).memory
      case Star(target, mod, second) => s.(heap := ReExported(s.heap, target, mod, second))
      case Cjs(from) => ToCommonJsOf(s, from).memory
      case Set(o, key, value) => s.(heap := s.heap[o := Put(s.heap[o], key, value)])
      case Remove(o, key) => s.(heap := s.heap[o := Dropped(s.heap[o], key)])
      case New => Allocate(s, map[])
  }

  ghost function Exec(s: Memory, ops: seq<Op>, depth: nat): Memory
    decreases |ops|
  {
    if ops == [] then s else Exec(Step(s, ops[0], depth), ops[1..], depth)
  }

  // ---------------------------------------------------------------- what lasts

  /** Objects stay, what was defined on them for good stays, and none gains a fixed default. */
  ghost predicate Grows(was: Heap, now: Heap) {
    forall o :: o in was ==> o in now && Keeps(was[o], now[o])
  }

  ghost predicate Keeps(was: Obj, now: Obj) {
    && (forall k :: k in was && !was[k].Data? ==> k in now && now[k] == was[k])
    && ("default" in now && now["default"].Fixed? ==> "default" in was && was["default"] == now["default"])
  }

  ghost predicate Extends(was: map<Id, Id>, now: map<Id, Id>) {
    forall m :: m in was ==> m in now && now[m] == was[m]
  }

  /** Nothing is lost from one memory to a later one. */
  ghost predicate Later(s: Memory, t: Memory) {
    && Grows(s.heap, t.heap) && s.next <= t.next
    && Extends(s.nodeCache, t.nodeCache) && Extends(s.esmCache, t.esmCache) && Extends(s.moduleCache, t.moduleCache)
  }

  /** No object of the heap or of a namespace cache is still to be made. */
  ghost predicate Bounded(s: Memory) {
    && (forall o :: o in s.heap ==> o < s.next)
    && (forall m :: m in s.nodeCache ==> m < s.next)
    && (forall m :: m in s.esmCache ==> m < s.next)
  }

  lemma LaterTwice(s: Memory, t: Memory, u: Memory)
    requires Later(s, t) && Later(t, u)
    ensures Later(s, u)
  {
    forall o | o in s.heap ensures o in u.heap && Keeps(s.heap[o], u.heap[o]) {
      KeepsTwice(s.heap[o], t.heap[o], u.heap[o]);
    }
  }

  lemma KeepsTwice(a: Obj, b: Obj, c: Obj)
    requires Keeps(a, b) && Keeps(b, c)
    ensures Keeps(a, c)
  {}

  lemma FreshGrows(heap: Heap, o: Id, props: Obj)
    requires o !in heap
    ensures Grows(heap, heap[o := props])
  {}

  lemma ChangeGrows(heap: Heap, o: Id, props: Obj)
    requires o in heap && Keeps(heap[o], props)
    ensures Grows(heap, heap[o := props])
  {}

  lemma GettersKeep(o: Obj, names: set<string>, source: Id)
    ensures Keeps(o, WithGetters(o, names, source))
  {}

  lemma GrowsTwice(a: Heap, b: Heap, c: Heap)
    requires Grows(a, b) && Grows(b, c)
    ensures Grows(a, c)
  {
    forall o | o in a ensures o in c && Keeps(a[o], c[o]) { KeepsTwice(a[o], b[o], c[o]); }
  }

  lemma StarGrows(heap: Heap, target: Id, mod: Value, second: Option<Id>)
    requires target in heap && (second.Some? ==> second.value in heap)
    ensures Grows(heap, ReExported(heap, target, mod, second))
    ensures ReExported(heap, target, mod, second).Keys == heap.Keys
  {
    if HasNames(mod) {
      var names := NamesOf(heap, mod) - {"default"};
      GettersKeep(heap[target], names, mod.id);
      var one := heap[target := WithGetters(heap[target], names, mod.id)];
      ChangeGrows(heap, target, one[target]);
      if second.Some? {
        GettersKeep(one[second.value], names, mod.id);
        ChangeGrows(one, second.value, WithGetters(one[second.value], names, mod.id));
        GrowsTwice(heap, one, ReExported(heap, target, mod, second));
      }
    }
  }

  /** The heap changes, and nothing else. */
  lemma HeapIsLater(s: Memory, heap: Heap)
    requires Bounded(s) && Grows(s.heap, heap) && heap.Keys == s.heap.Keys
    ensures Bounded(s.(heap := heap)) && Later(s, s.(heap := heap))
  {}

  lemma AllocateIsLater(s: Memory, props: Obj)
    requires Bounded(s)
    ensures Bounded(Allocate(s, props)) && Later(s, Allocate(s, props))
  {
    FreshGrows(s.heap, s.next, props);
  }

  lemma EsmIsLater(s: Memory, mod: Value, node: bool, depth: nat)
    requires Bounded(s) && (HasNames(mod) ==> mod.id in s.heap)
    ensures Bounded(ToEsmOf(s, mod, node, depth).memory) && Later(s, ToEsmOf(s, mod, node, depth).memory)
  {
    AllocateIsLater(s, Namespace(mod, NamesOf(s.heap, mod), Overrides(s, mod, node, depth)));
  }

  lemma CjsIsLater(s: Memory, from: Value)
    requires Bounded(s)
    ensures Bounded(ToCommonJsOf(s, from).memory) && Later(s, ToCommonJsOf(s, from).memory)
  {
    AllocateIsLater(s, if HasNames(from) then Exports(from.id, NamesOf(s.heap, from)) else MARKER);
  }

  lemma EditIsLater(s: Memory, o: Id, props: Obj)
    requires Bounded(s) && o in s.heap && Keeps(s.heap[o], props)
    ensures var t := s.(heap := s.heap[o := props]); Bounded(t) && Later(s, t)
  {
    ChangeGrows(s.heap, o, props);
    HeapIsLater(s, s.heap[o := props]);
  }

  lemma EditsKeep(o: Obj, key: string, value: Value)
    ensures Keeps(o, Put(o, key, value)) && Keeps(o, Dropped(o, key))
  {}

  /** No operation loses an object, a property defined for good, or a cache entry. */
  lemma StepIsLater(s: Memory, op: Op, depth: nat)
    requires Bounded(s)
    ensures var t := Step(s, op, depth); Bounded(t) && Later(s, t)
  {
    if Applies(s.heap, op) {
      match op {
        case Esm(mod, node) => EsmIsLater(s, mod, node, depth);
        case Cjs(from) => CjsIsLater(s, from);
        case Star(target, mod, second) =>
          StarGrows(s.heap, target, mod, second);
          HeapIsLater(s, ReExported(s.heap, target, mod, second));
        case Set(o, key, value) =>
          EditsKeep(s.heap[o], key, value);
          EditIsLater(s, o, Put(s.heap[o], key, value));
        case Remove(o, key) =>
          EditsKeep(s.heap[o], key, Undefined);
          EditIsLater(s, o, Dropped(s.heap[o], key));
        case New => AllocateIsLater(s, map[]);
      }
    } else {
      HeapIsLater(s, s.heap);
    }
  }

  lemma {:induction false} RunIsLater(s: Memory, ops: seq<Op>, depth: nat)
    requires Bounded(s)
    ensures var t := Exec(s, ops, depth); Bounded(t) && Later(s, t)
    decreases |ops|
  {
    if ops == [] {
      HeapIsLater(s, s.heap);
    } else {
      var t := Step(s, ops[0], depth);
      StepIsLater(s, ops[0], depth);
      RunIsLater(t, ops[1..], depth);
      LaterTwice(s, t, Exec(t, ops[1..], depth));
    }
  }

  // ---------------------------------------------------------------- namespaces over a run

  /** "__esModule" of a module reads something truthy. */
  ghost predicate MarkedAsEsm(heap: Heap, mod: Value, depth: nat) {
    (mod.Object? || mod.Function?) &&
    exists v :: Lookup(heap, mod.id, "__esModule", depth) == Got(v) && v != Undefined && v != Null
                && (v.Primitive? ==> v.truthy)
  }

  ghost function OwnNames(heap: Heap, mod: Value): set<string>
    requires mod.Object? || mod.Function? ==> mod.id in heap
  {
    if mod.Object? || mod.Function? then heap[mod.id].Keys else {}
  }

  /** A namespace has the names of its module and, when overridden, `default`, which then is the module
      itself; everything else is a getter. */
  ghost predicate IsNamespace(o: Obj, mod: Value, names: set<string>, overridden: bool) {
    && o.Keys == (if overridden then names + {"default"} else names)
    && (overridden ==> o["default"] == Fixed(mod))
    && forall k :: k in names && !(overridden && k == "default") ==>
         (mod.Object? || mod.Function?) && o[k] == Getter(mod.id, k)
  }

  /** What a conversion makes that finds nothing cached, whatever the module is: an object, a function,
      null or a primitive. `default` is overridden exactly in node mode or when "__esModule" does not
      read something truthy; a value without names has nothing but that. */
  lemma NewNamespace(s: Memory, mod: Value, node: bool, depth: nat)
    requires (HasNames(mod) ==> mod.id in s.heap) && !(mod.Object? && mod.id in Cache(s, node))
    ensures var r, overridden := ToEsmOf(s, mod, node, depth), node || !MarkedAsEsm(s.heap, mod, depth);
            if !node && Flag(s.heap, mod, depth).TooDeep? then r.ns == None && r.memory == s
            else
              && r.ns == Some(s.next) && s.next in r.memory.heap
              && IsNamespace(r.memory.heap[s.next], mod, OwnNames(s.heap, mod), overridden)
              && (mod.Object? || mod.Function? || r.memory.heap[s.next] == map["default" := Fixed(mod)])
  {
    OverridesIff(s, mod, node, depth);
    NamespaceIs(mod, OwnNames(s.heap, mod), Overrides(s, mod, node, depth));
  }

  lemma OverridesIff(s: Memory, mod: Value, node: bool, depth: nat)
    ensures Overrides(s, mod, node, depth) <==> node || !MarkedAsEsm(s.heap, mod, depth)
  {
    if HasNames(mod) && Flag(s.heap, mod, depth).Got? {
      assert Lookup(s.heap, mod.id, "__esModule", depth) == Got(Flag(s.heap, mod, depth).value);
    }
  }

  lemma NamespaceIs(mod: Value, names: set<string>, overridden: bool)
    requires HasNames(mod) || names == {}
    ensures IsNamespace(Namespace(mod, names, overridden), mod, names, overridden)
  {}

  /** Later, too, it has a getter for every name the module had but an overridden `default`, and its
      `default` is the module itself exactly if it was overridden. */
  ghost predicate Shows(o: Obj, mod: Value, names: set<string>, overridden: bool)
    requires HasNames(mod)
  {
    && (forall k :: k in names && !(overridden && k == "default") ==> k in o && o[k] == Getter(mod.id, k))
    && (overridden <==> "default" in o && o["default"] == Fixed(mod))
  }

  lemma NamespaceShows(o: Obj, mod: Value, names: set<string>, overridden: bool)
    requires HasNames(mod) && IsNamespace(o, mod, names, overridden)
    ensures Shows(o, mod, names, overridden)
  {}

  lemma KeepsShows(was: Obj, now: Obj, mod: Value, names: set<string>, overridden: bool)
    requires HasNames(mod) && Shows(was, mod, names, overridden) && Keeps(was, now)
    ensures Shows(now, mod, names, overridden)
  {}

  /** After any run the namespace of any module with names, functions included, still shows the module
      as it stood when it was converted. */
  lemma NamespaceLasts(s: Memory, mod: Value, node: bool, ops: seq<Op>, depth: nat)
    requires Bounded(s) && HasNames(mod) && mod.id in s.heap && !(mod.Object? && mod.id in Cache(s, node))
    requires ToEsmOf(s, mod, node, depth).ns.Some?
    ensures var first := ToEsmOf(s, mod, node, depth);
            var t := Exec(first.memory, ops, depth);
            && first.ns.value in t.heap
            && Shows(t.heap[first.ns.value], mod, s.heap[mod.id].Keys, node || !MarkedAsEsm(s.heap, mod, depth))
  {
    var first, overridden := ToEsmOf(s, mod, node, depth), node || !MarkedAsEsm(s.heap, mod, depth);
    var ns := first.ns.value;
    NewNamespace(s, mod, node, depth);
    EsmIsLater(s, mod, node, depth);
    RunIsLater(first.memory, ops, depth);
    NamespaceShows(first.memory.heap[ns], mod, s.heap[mod.id].Keys, overridden);
    KeepsShows(first.memory.heap[ns], Exec(first.memory, ops, depth).heap[ns], mod, s.heap[mod.id].Keys, overridden);
  }

  lemma CachedAgain(s: Memory, t: Memory, mod: Id, node: bool, ns: Id, depth: nat)
    requires Later(s, t) && mod in Cache(s, node) && Cache(s, node)[mod] == ns
    ensures ToEsmOf(t, Object(mod), node, depth) == Converted(t, Some(ns))
  {}

  /** After any run the second conversion of an object in the same mode gives the same namespace and
      changes nothing, and the namespace still shows the module as it stood at the first one:
      `default` is the module itself exactly in node mode or when "__esModule" was then not truthy. */
  lemma ConversionLasts(s: Memory, mod: Id, node: bool, ops: seq<Op>, depth: nat)
    requires Bounded(s) && mod in s.heap && mod !in Cache(s, node) && ToEsmOf(s, Object(mod), node, depth).ns.Some?
    ensures var first := ToEsmOf(s, Object(mod), node, depth);
            var t := Exec(first.memory, ops, depth);
            && ToEsmOf(t, Object(mod), node, depth) == Converted(t, first.ns)
            && first.ns.value in t.heap
            && Shows(t.heap[first.ns.value], Object(mod), s.heap[mod].Keys, node || !MarkedAsEsm(s.heap, Object(mod), depth))
  {
    var first := ToEsmOf(s, Object(mod), node, depth);
    EsmIsLater(s, Object(mod), node, depth);
    RunIsLater(first.memory, ops, depth);
    NamespaceLasts(s, Object(mod), node, ops, depth);
    CachedAgain(first.memory, Exec(first.memory, ops, depth), mod, node, first.ns.value, depth);
  }

  /** After any run a second conversion in the same mode gives the same namespace if and only if the
      module is what `typeof` calls an object: a function or a primitive gets a new one every time. */
  lemma SameNamespaceIff(s: Memory, mod: Value, node: bool, ops: seq<Op>, depth: nat)
    requires Bounded(s) && (HasNames(mod) ==> mod.id in s.heap) && ToEsmOf(s, mod, node, depth).ns.Some?
    ensures var first := ToEsmOf(s, mod, node, depth);
            ToEsmOf(Exec(first.memory, ops, depth), mod, node, depth).ns == first.ns <==> mod.Object?
  {
    var first := ToEsmOf(s, mod, node, depth);
    EsmIsLater(s, mod, node, depth);
    RunIsLater(first.memory, ops, depth);
    if mod.Object? {
      CachedAgain(first.memory, Exec(first.memory, ops, depth), mod.id, node, first.ns.value, depth);
    }
  }

  /** A module that is a function, converted twice. */
  lemma FunctionIsNotCached(s: Memory, depth: nat)
    requires s == Memory(map[0 := map[]], 1, map[], map[], map[])
    ensures var first := ToEsmOf(s, Function(0), true, depth);
            first.ns == Some(1) && ToEsmOf(first.memory, Function(0), true, depth).ns == Some(2)
  {}

  /** Every cached namespace belongs to one module and one mode. */
  ghost predicate Apart(s: Memory) {
    && (forall m :: m in s.nodeCache ==> s.nodeCache[m] < s.next)
    && (forall m :: m in s.esmCache ==> s.esmCache[m] < s.next)
    && (forall m, n :: m in s.nodeCache && n in s.nodeCache && s.nodeCache[m] == s.nodeCache[n] ==> m == n)
    && (forall m, n :: m in s.esmCache && n in s.esmCache && s.esmCache[m] == s.esmCache[n] ==> m == n)
    && (forall m, n :: m in s.nodeCache && n in s.esmCache ==> s.nodeCache[m] != s.esmCache[n])
  }

  lemma RememberingApart(s: Memory, node: bool, mod: Id, ns: Id)
    requires Apart(s.(next := ns)) && s.next == ns + 1 && mod !in Cache(s, node)
    ensures Apart(Remembering(s, node, mod, ns))
  {}

  lemma EsmApart(s: Memory, mod: Value, node: bool, depth: nat)
    requires Apart(s)
    ensures Apart(ToEsmOf(s, mod, node, depth).memory)
  {
    var t := Allocate(s, Namespace(mod, NamesOf(s.heap, mod), Overrides(s, mod, node, depth)));
    if mod.Object? && mod.id !in Cache(s, node) { RememberingApart(t, node, mod.id, s.next); }
  }

  lemma StepApart(s: Memory, op: Op, depth: nat)
    requires Apart(s)
    ensures Apart(Step(s, op, depth))
  {
    if op.Esm? { EsmApart(s, op.mod, op.node, depth); }
  }

  /** In every run no two modules share a namespace, and neither do the two modes of one module. */
  lemma {:induction false} RunApart(s: Memory, ops: seq<Op>, depth: nat)
    requires Apart(s)
    ensures Apart(Exec(s, ops, depth))
    decreases |ops|
  {
    if ops != [] {
      StepApart(s, ops[0], depth);
      RunApart(Step(s, ops[0], depth), ops[1..], depth);
    }
  }

  lemma FirstThenRun(s: Memory, mod: Value, node: bool, ops: seq<Op>, depth: nat)
    requires Bounded(s) && Apart(s) && (HasNames(mod) ==> mod.id in s.heap)
    ensures var t := ToEsmOf(s, mod, node, depth).memory;
            Bounded(t) && Later(s, t) && Later(t, Exec(t, ops, depth)) && Apart(Exec(t, ops, depth))
  {
    EsmIsLater(s, mod, node, depth);
    EsmApart(s, mod, node, depth);
    RunIsLater(ToEsmOf(s, mod, node, depth).memory, ops, depth);
    RunApart(ToEsmOf(s, mod, node, depth).memory, ops, depth);
  }

  /** Converting in the other mode gives another namespace and leaves this one as it is. */
  lemma OtherModeDiffers(s: Memory, mod: Id, node: bool, depth: nat, names: set<string>, overridden: bool)
    requires Bounded(s) && Apart(s) && mod in s.heap && mod in Cache(s, node) && Cache(s, node)[mod] in s.heap
    requires Shows(s.heap[Cache(s, node)[mod]], Object(mod), names, overridden)
    ensures var r, ns := ToEsmOf(s, Object(mod), !node, depth), Cache(s, node)[mod];
            && (r.ns.Some? ==> r.ns.value != ns)
            && ns in r.memory.heap && Shows(r.memory.heap[ns], Object(mod), names, overridden)
  {
    var r, ns := ToEsmOf(s, Object(mod), !node, depth), Cache(s, node)[mod];
    EsmIsLater(s, Object(mod), !node, depth);
    KeepsShows(s.heap[ns], r.memory.heap[ns], Object(mod), names, overridden);
  }

  // ---------------------------------------------------------------- exports objects

  /** What `__toCommonJS` makes that finds nothing cached: "__esModule", which is true, and a getter for
      every other name of the module; a value without names gives an error instead. */
  lemma NewExports(s: Memory, from: Value)
    requires (HasNames(from) ==> from.id in s.heap) && !(HasNames(from) && from.id in s.moduleCache)
    ensures var r := ToCommonJsOf(s, from);
            && s.next in r.memory.heap
            && r.ns == (if from.Object? || from.Function? then Some(s.next) else None)
            && r.memory.heap[s.next].Keys == OwnNames(s.heap, from) + {"__esModule"}
            && r.memory.heap[s.next]["__esModule"] == Fixed(Primitive(true, 1))
            && forall k :: k in OwnNames(s.heap, from) && k != "__esModule" ==> r.memory.heap[s.next][k] == Getter(from.id, k)
  {}

  /** After any run a second conversion of the same module gives the same exports object and changes
      nothing. */
  lemma SameExports(s: Memory, from: Value, ops: seq<Op>, depth: nat)
    requires Bounded(s) && HasNames(from) && from.id in s.heap
    ensures var first := ToCommonJsOf(s, from);
            var t := Exec(first.memory, ops, depth);
            first.ns.Some? && ToCommonJsOf(t, from) == Converted(t, first.ns)
  {
    CjsIsLater(s, from);
    RunIsLater(ToCommonJsOf(s, from).memory, ops, depth);
  }

  // ---------------------------------------------------------------- there and back again

  lemma EsmOfExports(s: Memory, ns: Id, depth: nat)
    requires Bounded(s) && ns in s.heap && ns !in s.moduleCache
    ensures var there := ToCommonJsOf(s, Object(ns));
            var back := ToEsmOf(there.memory, Object(s.next), false, depth);
            && there.ns == Some(s.next) && back.ns == Some(s.next + 1)
            && back.memory.heap == s.heap[s.next := Exports(ns, s.heap[ns].Keys)]
                                         [s.next + 1 := Namespace(Object(s.next), s.heap[ns].Keys + {"__esModule"}, false)]
  {
    var there := ToCommonJsOf(s, Object(ns)).memory;
    assert there.heap[s.next]["__esModule"] == Fixed(Primitive(true, 1));
    assert there.heap[s.next].Keys == s.heap[ns].Keys + {"__esModule"};
  }

  /** Over any run from there on, every name reads what the module itself holds by then. */
  lemma RoundTripReads(s: Memory, ns: Id, cjs: Id, esm: Id, names: set<string>, ops: seq<Op>, depth: nat, k: string, n: nat)
    requires Bounded(s) && cjs in s.heap && esm in s.heap && k in names && k != "__esModule"
    requires s.heap[cjs] == Exports(ns, names) && s.heap[esm] == Namespace(Object(cjs), names + {"__esModule"}, false)
    ensures var now := Exec(s, ops, depth).heap;
            esm in now && Lookup(now, esm, k, n + 2) == Lookup(now, ns, k, n)
  {
    RunIsLater(s, ops, depth);
    var now := Exec(s, ops, depth).heap;
    assert s.heap[cjs][k] == Getter(ns, k) && s.heap[esm][k] == Getter(cjs, k);
    LiveRead(now, esm, k, cjs, n + 1);
    LiveRead(now, cjs, k, ns, n);
  }

  // ---------------------------------------------------------------- repeated `export *`

  datatype Source = Source(id: Id, names: set<string>)

  /** What a run does to one object. */
  datatype Edit = Starred(source: Source) | PutIn(key: string, value: Value) | DroppedFrom(key: string)

  ghost function Edited(o: Obj, e: Edit): Obj {
    match e
    case Starred(source) => WithGetters(o, source.names - {"default"}, source.id)
    case PutIn(key, value) => Put(o, key, value)
    case DroppedFrom(key) => Dropped(o, key)
  }

  ghost function EditedBy(o: Obj, es: seq<Edit>): Obj {
    if es == [] then o else Edited(EditedBy(o, es[..|es| - 1]), es[|es| - 1])
  }

  lemma {:induction false} EditedTwice(o: Obj, a: seq<Edit>, b: seq<Edit>)
    ensures EditedBy(o, a + b) == EditedBy(EditedBy(o, a), b)
    decreases |b|
  {
    if b == [] {
      assert a + b == a;
    } else {
      EditedTwice(o, a, b[..|b| - 1]);
      assert (a + b)[..|a + b| - 1] == a + b[..|b| - 1];
    }
  }

  /** What one operation does to object t, as a target, as a second target, or both. */
  ghost function EditsIn(heap: Heap, op: Op, t: Id): seq<Edit> {
    if !Applies(heap, op) then []
    else match op
      case Star(target, mod, second) =>
        if !HasNames(mod) then []
        else
          var e := Starred(Source(mod.id, heap[mod.id].Keys));
          (if target == t then [e] else []) + (if second == Some(t) then [e] else [])
      case Set(o, key, value) => if o == t then [PutIn(key, value)] else []
      case Remove(o, key) => if o == t then [DroppedFrom(key)] else []
      case _ => []
  }

  /** Over a run, each source with the names it has when its turn comes. */
  ghost function EditsOver(s: Memory, ops: seq<Op>, t: Id, depth: nat): seq<Edit>
    decreases |ops|
  {
    if ops == [] then [] else EditsIn(s.heap, ops[0], t) + EditsOver(Step(s, ops[0], depth), ops[1..], t, depth)
  }

  lemma EditedOnce(o: Obj, e: Edit)
    ensures EditedBy(o, []) == o && EditedBy(o, [e]) == Edited(o, e)
    ensures EditedBy(o, [e] + [e]) == Edited(Edited(o, e), e)
  {
    assert [e][..0] == [] && ([e] + [e])[..1] == [e];
  }

  /** The same edit as target, as second target, or both. */
  ghost function EditedAs(o: Obj, e: Edit, target: bool, second: bool): Obj {
    var one := if target then Edited(o, e) else o;
    if second then Edited(one, e) else one
  }

  lemma EditedAsList(o: Obj, e: Edit, target: bool, second: bool)
    ensures EditedBy(o, (if target then [e] else []) + (if second then [e] else [])) == EditedAs(o, e, target, second)
  {
    EditedOnce(o, e);
    assert [] + [e] == [e] && [e] + [] == [e];
  }

  lemma StarEdits(heap: Heap, target: Id, mod: Value, second: Option<Id>, t: Id)
    requires target in heap && HasNames(mod) && mod.id in heap && (second.Some? ==> second.value in heap) && t in heap
    ensures t in ReExported(heap, target, mod, second)
    ensures ReExported(heap, target, mod, second)[t] ==
            EditedAs(heap[t], Starred(Source(mod.id, heap[mod.id].Keys)), target == t, second == Some(t))
  {}

  lemma ConvertEdits(s: Memory, op: Op, t: Id, depth: nat)
    requires Bounded(s) && t in s.heap && (op.Esm? || op.Cjs? || op.New?)
    ensures t in Step(s, op, depth).heap && Step(s, op, depth).heap[t] == s.heap[t]
  {}

  lemma StepEdits(s: Memory, op: Op, t: Id, depth: nat)
    requires Bounded(s) && t in s.heap
    ensures t in Step(s, op, depth).heap
    ensures Step(s, op, depth).heap[t] == EditedBy(s.heap[t], EditsIn(s.heap, op, t))
  {
    match op
    case Star(target, mod, second) =>
      if Applies(s.heap, op) && HasNames(mod) {
        StarEdits(s.heap, target, mod, second, t);
        EditedAsList(s.heap[t], Starred(Source(mod.id, s.heap[mod.id].Keys)), target == t, second == Some(t));
      }
    case Set(o, key, value) => EditedOnce(s.heap[t], PutIn(key, value));
    case Remove(o, key) => EditedOnce(s.heap[t], DroppedFrom(key));
    case _ => ConvertEdits(s, op, t, depth);
  }

  /** After any run, whatever comes between the re-exports, each object is what the re-exports onto
      it and the program's own changes to it make of it, first or second target alike. */
  lemma {:induction false} RunEdits(s: Memory, ops: seq<Op>, t: Id, depth: nat)
    requires Bounded(s) && t in s.heap
    ensures t in Exec(s, ops, depth).heap
    ensures Exec(s, ops, depth).heap[t] == EditedBy(s.heap[t], EditsOver(s, ops, t, depth))
    decreases |ops|
  {
    if ops != [] {
      var u := Step(s, ops[0], depth);
      StepIsLater(s, ops[0], depth);
      StepEdits(s, ops[0], t, depth);
      RunEdits(u, ops[1..], t, depth);
      EditedTwice(s.heap[t], EditsIn(s.heap, ops[0], t), EditsOver(u, ops[1..], t, depth));
    }
  }

  /** The first source that has the name. */
  ghost function FirstWith(es: seq<Edit>, k: string): Option<Id> {
    if es == [] then None
    else if es[0].Starred? && k in es[0].source.names then Some(es[0].source.id)
    else FirstWith(es[1..], k)
  }

  lemma {:induction false} FirstWithAppend(es: seq<Edit>, last: Edit, k: string)
    ensures FirstWith(es + [last], k) ==
            if FirstWith(es, k).Some? then FirstWith(es, k)
            else if last.Starred? && k in last.source.names then Some(last.source.id)
            else None
    decreases |es|
  {
    if es != [] {
      assert (es + [last])[1..] == es[1..] + [last];
      FirstWithAppend(es[1..], last, k);
    }
  }

  /** The program itself does not set or remove the name. */
  ghost predicate LeavesAlone(e: Edit, k: string) {
    e.Starred? || e.key != k
  }

  lemma EditedAt(o: Obj, e: Edit, k: string)
    requires LeavesAlone(e, k)
    ensures var now := Edited(o, e);
            if k in o then k in now && now[k] == o[k]
            else
              && (k in now <==> e.Starred? && k in e.source.names && k != "default")
              && (k in now ==> now[k] == Getter(e.source.id, k))
  {}

  /** What is on a target stays; any other name but `default` reads from the first source that had
      it when it was re-exported. */
  lemma {:induction false} FirstSourceWins(o: Obj, es: seq<Edit>, k: string)
    requires forall i :: 0 <= i < |es| ==> LeavesAlone(es[i], k)
    ensures var now := EditedBy(o, es);
            if k in o then k in now && now[k] == o[k]
            else
              && (k in now <==> k != "default" && FirstWith(es, k).Some?)
              && (k in now ==> now[k] == Getter(FirstWith(es, k).value, k))
    decreases |es|
  {
    if es != [] {
      var init, last := es[..|es| - 1], es[|es| - 1];
      assert es == init + [last];
      FirstSourceWins(o, init, k);
      FirstWithAppend(init, last, k);
      EditedAt(EditedBy(o, init), last, k);
    }
  }

  /** Over any run and for any target, first or second. */
  lemma ReExportsOverRuns(s: Memory, ops: seq<Op>, t: Id, depth: nat, k: string)
    requires Bounded(s) && t in s.heap
    requires var es := EditsOver(s, ops, t, depth); forall i :: 0 <= i < |es| ==> LeavesAlone(es[i], k)
    ensures var o, es := s.heap[t], EditsOver(s, ops, t, depth);
            t in Exec(s, ops, depth).heap &&
            var now := Exec(s, ops, depth).heap[t];
            if k in o then k in now && now[k] == o[k]
            else
              && (k in now <==> k != "default" && FirstWith(es, k).Some?)
              && (k in now ==> now[k] == Getter(FirstWith(es, k).value, k))
  {
    RunEdits(s, ops, t, depth);
    FirstSourceWins(s.heap[t], EditsOver(s, ops, t, depth), k);
  }

  // ---------------------------------------------------------------- the code

  class Runtime {
    const depth: nat
    var heap: Heap
    var next: Id
    var nodeCache: map<Id, Id>
    var esmCache: map<Id, Id>
    var moduleCache: map<Id, Id>

    constructor (limit: nat)
      ensures View() == Memory(map[], 0, map[], map[], map[]) && depth == limit
    {
      depth := limit;
      heap, next, nodeCache, esmCache, moduleCache := map[], 0, map[], map[], map[];
    }

    ghost function View(): Memory reads this {
      Memory(heap, next, nodeCache, esmCache, moduleCache)
    }

    /** The loop that all three conversions share: a getter for every name not yet there. */
    method DefineGetters(target: Id, names: set<string>, source: Id)
      requires target in heap
      modifies `heap
      ensures heap == old(heap)[target := WithGetters(old(heap)[target], names, source)]
    {
      var todo := names;
      ghost var seen: set<string> := {};
      GetterStep(heap[target], {}, source, "");
      while todo != {}
        invariant todo <= names && seen == names - todo && target in heap
        invariant heap == old(heap)[target := WithGetters(old(heap)[target], seen, source)]
        decreases todo
      {
        var key :| key in todo;
        if key !in heap[target] {
          heap := heap[target := heap[target][key := Getter(source, key)]];
        }
        GetterStep(old(heap)[target], seen, source, key);
        todo, seen := todo - {key}, seen + {key};
      }
      assert seen == names;
    }

    method Create(props: Obj) returns (o: Id)
      modifies `heap, `next
      ensures View() == Allocate(old(View()), props) && o == old(next)
    {
      o := next;
      heap, next := heap[o := props], next + 1;
    }

    /** `__toESM`. */
    method ToEsm(mod: Value, node: bool) returns (to: Option<Id>)
      requires Bounded(View()) && (HasNames(mod) ==> mod.id in heap)
      modifies `heap, `next, `nodeCache, `esmCache
      ensures Converted(View(), to) == ToEsmOf(old(View()), mod, node, depth)
    {
      if mod.Object? && node && mod.id in nodeCache { return Some(nodeCache[mod.id]); }
      if mod.Object? && !node && mod.id in esmCache { return Some(esmCache[mod.id]); }
      var flag := if node then Absent else Flag(heap, mod, depth);
      if flag.TooDeep? { return None; }
      var o := Convert(mod, node || !Truthy(mod) || !Flagged(flag));
      if mod.Object? {
        if node { nodeCache := nodeCache[mod.id := o]; } else { esmCache := esmCache[mod.id := o]; }
      }
      to := Some(o);
    }

    /** A fresh namespace for a module, filled as it stands. */
    method Convert(mod: Value, overridden: bool) returns (to: Id)
      requires Bounded(View()) && (HasNames(mod) ==> mod.id in heap)
      modifies `heap, `next
      ensures View() == Allocate(old(View()), Namespace(mod, NamesOf(old(heap), mod), overridden)) && to == old(next)
    {
      var base: Obj := if overridden then map["default" := Fixed(mod)] else map[];
      to := Create(base);
      if HasNames(mod) { DefineGetters(to, heap[mod.id].Keys, mod.id); }
    }

    /** `__toCommonJS`. */
    method ToCommonJs(from: Value) returns (entry: Option<Id>)
      requires Bounded(View()) && (HasNames(from) ==> from.id in heap)
      modifies `heap, `next, `moduleCache
      ensures Converted(View(), entry) == ToCommonJsOf(old(View()), from)
    {
      if HasNames(from) && from.id in moduleCache { return Some(moduleCache[from.id]); }
      var made := Create(MARKER);
      if !HasNames(from) { return None; }
      DefineGetters(made, heap[from.id].Keys, from.id);
      moduleCache := moduleCache[from.id := made];
      entry := Some(made);
    }

    /** `__reExport`. */
    method ReExport(target: Id, mod: Value, second: Option<Id>)
      requires target in heap && (HasNames(mod) ==> mod.id in heap) && (second.Some? ==> second.value in heap)
      modifies `heap
      ensures heap == ReExported(old(heap), target, mod, second)
    {
      if HasNames(mod) {
        var names := heap[mod.id].Keys - {"default"};
        DefineGetters(target, names, mod.id);
        if second.Some? { DefineGetters(second.value, names, mod.id); }
      }
    }

    method Perform(op: Op)
      requires Bounded(View())
      modifies this
      ensures View() == Step(old(View()), op, depth)
    {
      if !Applies(heap, op) { return; }
      match op
      case Esm(mod, node) => var _ := ToEsm(mod, node);
      case Star(target, mod, second) => ReExport(target, mod, second);
      case Cjs(from) => var _ := ToCommonJs(from);
      case Set(o, key, value) => heap := heap[o := Put(heap[o], key, value)];
      case Remove(o, key) => heap := heap[o := Dropped(heap[o], key)];
      case New => var _ := Create(map[]);
    }
  }

  /** Any run is the run of the specification. */
  method Run(rt: Runtime, ops: seq<Op>)
    requires Bounded(rt.View())
    modifies rt
    ensures rt.View() == Exec(old(rt.View()), ops, rt.depth) && Bounded(rt.View())
  {
    ghost var final := Exec(rt.View(), ops, rt.depth);
    for i := 0 to |ops|
      invariant Bounded(rt.View()) && Exec(rt.View(), ops[i..], rt.depth) == final
    {
      assert ops[i..][1..] == ops[i + 1..];
      StepIsLater(rt.View(), ops[i], rt.depth);
      rt.Perform(ops[i]);
    }
  }

  /** Any run between two conversions of the same object in the same mode, and one in the other. */
  method ConvertAgain(rt: Runtime, mod: Id, node: bool, ops: seq<Op>) returns (a: Option<Id>, b: Option<Id>, c: Option<Id>)
    requires Bounded(rt.View()) && Apart(rt.View()) && mod in rt.heap && mod !in Cache(rt.View(), node)
    modifies rt
    ensures a.Some? ==> a == b && (c.Some? ==> b != c) && b.value in rt.heap
    ensures a.Some? ==> Shows(rt.heap[b.value], Object(mod), old(rt.heap)[mod].Keys,
                              node || !MarkedAsEsm(old(rt.heap), Object(mod), rt.depth))
  {
    ghost var s := rt.View();
    a := rt.ToEsm(Object(mod), node);
    FirstThenRun(s, Object(mod), node, ops, rt.depth);
    if a.Some? { ConversionLasts(s, mod, node, ops, rt.depth); }
    Run(rt, ops);
    ghost var t := rt.View();
    b := rt.ToEsm(Object(mod), node);
    EsmIsLater(t, Object(mod), node, rt.depth);
    if a.Some? {
      OtherModeDiffers(rt.View(), mod, node, rt.depth, old(rt.heap)[mod].Keys,
                       node || !MarkedAsEsm(s.heap, Object(mod), rt.depth));
    }
    c := rt.ToEsm(Object(mod), !node);
  }

  /** Reads of this name go through to the module, however deep they go from there. */
  ghost predicate ReadsAlike(heap: Heap, o: Id, ns: Id, k: string) {
    forall n: nat :: Lookup(heap, o, k, n + 2) == Lookup(heap, ns, k, n)
  }

  /** From ESM to CommonJS and back, and then any run: the names are those the module had and
      "__esModule", and every one of them reads what the module itself holds by then, `default`
      included. That "__esModule" reads true is what keeps `default` from being overridden. */
  method RoundTrip(rt: Runtime, ns: Id, ops: seq<Op>) returns (esm: Id, names: set<string>)
    requires Bounded(rt.View()) && ns in rt.heap && ns !in rt.moduleCache
    modifies rt
    ensures names == old(rt.heap)[ns].Keys + {"__esModule"} && esm in rt.heap
    ensures forall k :: k in names && k != "__esModule" ==> ReadsAlike(rt.heap, esm, ns, k)
  {
    ghost var from := rt.heap[ns].Keys;
    var cjs;
    cjs, esm := ThereAndBack(rt, ns);
    names := rt.heap[esm].Keys;
    ghost var t := rt.View();
    Run(rt, ops);
    RunIsLater(t, ops, rt.depth);
    forall k, n: nat | k in from && k != "__esModule" ensures Lookup(rt.heap, esm, k, n + 2) == Lookup(rt.heap, ns, k, n) {
      RoundTripReads(t, ns, cjs, esm, from, ops, rt.depth, k, n);
    }
  }

  method ThereAndBack(rt: Runtime, ns: Id) returns (cjs: Id, esm: Id)
    requires Bounded(rt.View()) && ns in rt.heap && ns !in rt.moduleCache
    modifies rt
    ensures Bounded(rt.View()) && cjs in rt.heap && esm in rt.heap
    ensures rt.heap[cjs] == Exports(ns, old(rt.heap)[ns].Keys)
    ensures rt.heap[esm] == Namespace(Object(cjs), old(rt.heap)[ns].Keys + {"__esModule"}, false)
  {
    EsmOfExports(rt.View(), ns, rt.depth);
    CjsIsLater(rt.View(), Object(ns));
    var there := rt.ToCommonJs(Object(ns));
    cjs := there.value;
    EsmIsLater(rt.View(), Object(cjs), false, rt.depth);
    var back := rt.ToEsm(Object(cjs), false);
    esm := back.value;
  }
}
