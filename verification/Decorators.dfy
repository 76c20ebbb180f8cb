/** The ES decorator engine: `__decoratorStart`, `__decoratorContext`, `__decorateElement` and
    `__runInitializers`, with decorators as arbitrary total functions of the value they are given. */
module Decorators {

  type Fn = nat

  /** A property of an object a decorator returned. */
  datatype Member = Absent | Callable(f: Fn) | NotCallable

  /** What a decorator returned. `Other` is null or a primitive. */
  datatype Returned =
    | Undefined
    | Function(f: Fn)
    | Object(getter: Member, setter: Member, init: Member)
    | Other

  /** What a decorator is given: a class or function, an accessor pair, or nothing for a field. */
  datatype Input = Nothing | Value(f: Fn) | Pair(getter: Fn, setter: Fn)

  /** An attempt to register an initialiser on a context kept from an earlier call. */
  datatype Attempt = Attempt(context: nat, fn: Member)

  /** What a decorator does when called: it throws, or tries its luck with contexts that were handed
      out before, registers initialisers on its own and returns. */
  datatype Reaction = Throws | Reacts(late: seq<Attempt>, adds: seq<Member>, ret: Returned)

  type Decorator = Input -> Reaction

  datatype Kind = Class | Method | Getter | Setter | Accessor | Field

  datatype Element = Element(kind: Kind, isStatic: bool, isPrivate: bool, decorators: seq<Decorator>, original: Input)

  datatype Slot = Hole | Metadata | Fns(fns: seq<Fn>)

  datatype Result<T> = Ok(value: T) | Err

  // ---------------------------------------------------------------- what decorating means

  predicate HasOwnSlots(k: Kind) {
    k == Accessor || k == Field
  }

  /** The original value fits the kind of element. */
  ghost predicate WellKinded(e: Element) {
    match e.kind
    case Field => e.original.Nothing?
    case Accessor => e.original.Pair?
    case _ => e.original.Value?
  }

  /** The value, field initialisers and extra initialisers of an element so far. */
  datatype Progress = Progress(value: Input, inits: seq<Fn>, extra: seq<Fn>)

  ghost predicate AllCallable(ms: seq<Member>) {
    forall i :: 0 <= i < |ms| ==> ms[i].Callable?
  }

  ghost function Functions(ms: seq<Member>): seq<Fn>
    requires AllCallable(ms)
  {
    seq(|ms|, i requires 0 <= i < |ms| => ms[i].f)
  }

  /** The new value, given what the decorator returned: undefined keeps the old one. */
  ghost function NewValue(k: Kind, value: Input, ret: Returned): Result<Input> {
    match ret
    case Undefined => Ok(value)
    case Function(f) => if k == Accessor then Err else if k == Field then Ok(value) else Ok(Value(f))
    case Object(getter, setter, init) =>
      if k != Accessor || getter.NotCallable? || setter.NotCallable? || init.NotCallable? || !value.Pair? then Err
      else Ok(Pair(if getter.Callable? then getter.f else value.getter,
                   if setter.Callable? then setter.f else value.setter))
    case Other => Err
  }

  /** The field initialiser a decorator contributes. */
  ghost function NewInit(k: Kind, ret: Returned): seq<Fn> {
    if k == Field && ret.Function? then [ret.f]
    else if k == Accessor && ret.Object? && ret.init.Callable? then [ret.init.f]
    else []
  }

  ghost function Apply(k: Kind, d: Decorator, st: Progress): Result<Progress> {
    match d(st.value)
    case Throws => Err
    case Reacts(_, adds, ret) =>
      if !AllCallable(adds) || NewValue(k, st.value, ret).Err? then Err
      else Ok(Progress(NewValue(k, st.value, ret).value, NewInit(k, ret) + st.inits, st.extra + Functions(adds)))
  }

  /** All decorators, the last one first: each is given what the ones after it made. */
  ghost function ApplyAll(k: Kind, ds: seq<Decorator>, st: Progress): Result<Progress> {
    if ds == [] then Ok(st)
    else
      var r := ApplyAll(k, ds[1..], st);
      if r.Err? then Err else Apply(k, ds[0], r.value)
  }

  lemma {:induction false} ErrorStays(k: Kind, ds: seq<Decorator>, i: nat, st: Progress)
    requires i <= |ds| && ApplyAll(k, ds[i..], st).Err?
    ensures ApplyAll(k, ds, st).Err?
    decreases i
  {
    if i == 0 {
      assert ds[i..] == ds;
    } else {
      assert ds[i - 1..][1..] == ds[i..];
      ErrorStays(k, ds, i - 1, st);
    }
  }

  /** A slot list under construction: slots 0 to 2 for class, static and instance initialisers,
      slot 3 for the metadata, then two slots for each accessor or field. */
  ghost predicate WellFormed(slots: seq<Slot>) {
    && |slots| >= 4 && |slots| % 2 == 0 && slots[3] == Metadata
    && forall j :: 0 <= j < |slots| && j != 3 ==> slots[j].Fns? || (slots[j].Hole? && j < 3)
  }

  ghost function ExtraSlot(slots: seq<Slot>, e: Element): nat {
    match e.kind
    case Class => 0
    case Accessor => |slots| + 1
    case Field => |slots| + 1
    case _ => if e.isStatic then 1 else 2
  }

  ghost function Start(slots: seq<Slot>, e: Element): Progress
    requires WellFormed(slots)
  {
    Progress(e.original, [], if HasOwnSlots(e.kind) then [] else FnsAt(slots, ExtraSlot(slots, e)))
  }

  function FnsAt(slots: seq<Slot>, j: nat): seq<Fn> {
    if j < |slots| && slots[j].Fns? then slots[j].fns else []
  }

  ghost function WithSlots(slots: seq<Slot>, e: Element, st: Progress): seq<Slot>
    requires WellFormed(slots)
  {
    if HasOwnSlots(e.kind) then slots + [Fns(st.inits), Fns(st.extra)]
    else slots[ExtraSlot(slots, e) := Fns(st.extra)]
  }

  /** Where the decorated value goes: a descriptor defined on the target, and what is returned. */
  datatype Place = Target | Extra | Descriptor

  datatype Decorated = Decorated(value: Input, defined: bool, result: Place)

  ghost function Placed(e: Element, value: Input): Decorated {
    Decorated(value,
              e.kind == Accessor || (!e.isPrivate && e.kind != Class && e.kind != Field),
              if !e.isPrivate then Target else if e.kind == Accessor then Descriptor else Extra)
  }

  /** Decorating one element: the slots afterwards and the outcome, or a thrown error. */
  ghost function Decorate(slots: seq<Slot>, e: Element): Result<(seq<Slot>, Decorated)>
    requires WellFormed(slots)
  {
    var r := ApplyAll(e.kind, e.decorators, Start(slots, e));
    if r.Err? then Err else Ok((WithSlots(slots, e, r.value), Placed(e, r.value.value)))
  }

  // ---------------------------------------------------------------- the engine

  /** The context object a decorator receives. */
  class DecoratorContext {
    const slot: nat
    var done: bool

    constructor (slot: nat)
      ensures this.slot == slot && !done
    {
      this.slot, done := slot, false;
    }
  }

  /** The decorator comes back with a value: it and its own registrations did not throw. */
  ghost predicate ComesBack(d: Decorator, value: Input) {
    d(value).Reacts? && AllCallable(d(value).adds)
  }

  class Engine {
    var slots: seq<Slot>
    var contexts: seq<DecoratorContext>   // all that were handed out, which any decorator may have kept

    /** `__decoratorStart`. */
    constructor ()
      ensures WellFormed(slots) && slots == [Hole, Hole, Hole, Metadata] && contexts == []
    {
      slots, contexts := [Hole, Hole, Hole, Metadata], [];
    }

    ghost predicate AllDone()
      reads this, contexts
    {
      forall c :: c in contexts ==> c.done
    }

    /** No context is handed out twice. */
    ghost predicate Distinct()
      reads this
    {
      forall i, j :: 0 <= i < j < |contexts| ==> contexts[i] != contexts[j]
    }

    /** `addInitializer`: refused once the decorator has returned, whoever kept the context. */
    method AddInitializer(ctx: DecoratorContext, fn: Member) returns (ok: bool)
      requires !ctx.done ==> ctx.slot < |slots| && slots[ctx.slot].Fns?
      modifies `slots
      ensures ok <==> !ctx.done && fn.Callable?
      ensures slots == if ok then old(slots)[ctx.slot := Fns(old(slots)[ctx.slot].fns + [fn.f])] else old(slots)
    {
      if ctx.done { return false; }
      if !fn.Callable? { return false; }
      slots := slots[ctx.slot := Fns(slots[ctx.slot].fns + [fn.f])];
      ok := true;
    }

    /** Every attempt on an earlier context is refused and changes no slot. */
    method TryLate(late: seq<Attempt>)
      requires AllDone()
      modifies `slots
      ensures slots == old(slots)
    {
      for i := 0 to |late|
        invariant slots == old(slots) && AllDone()
      {
        if late[i].context < |contexts| {
          var ok := AddInitializer(contexts[late[i].context], late[i].fn);
          assert !ok;
        }
      }
    }

    /** What a decorator registers on its own context. */
    method AddAll(ctx: DecoratorContext, adds: seq<Member>) returns (ok: bool)
      requires !ctx.done && ctx.slot < |slots| && slots[ctx.slot].Fns?
      modifies `slots
      ensures ok <==> AllCallable(adds)
      ensures ok ==> slots == old(slots)[ctx.slot := Fns(old(slots)[ctx.slot].fns + Functions(adds))]
    {
      ghost var j, before := ctx.slot, slots[ctx.slot].fns;
      var i := 0;
      assert before + Functions(adds[..0]) == before;
      while i < |adds|
        invariant 0 <= i <= |adds| && AllCallable(adds[..i])
        invariant slots == old(slots)[j := Fns(before + Functions(adds[..i]))]
      {
        ok := AddInitializer(ctx, adds[i]);
        if !ok {
          assert !adds[i].Callable?;
          return;
        }
        assert before + Functions(adds[..i + 1]) == before + Functions(adds[..i]) + [adds[i].f];
        i := i + 1;
      }
      assert adds[..i] == adds;
      ok := true;
    }

    /** One call of a decorator with a fresh context: what it registers, then what it returns. The
        context is closed exactly if it comes back. */
    method CallDecorator(d: Decorator, value: Input, j: nat) returns (ok: bool, ret: Returned, ctx: DecoratorContext)
      requires j < |slots| && slots[j].Fns? && AllDone() && Distinct()
      modifies this
      ensures Distinct()
      ensures fresh(ctx) && ctx.slot == j && ctx.done == ok == ComesBack(d, value) && contexts == old(contexts) + [ctx]
      ensures ok ==> ret == d(value).ret && slots == old(slots)[j := Fns(old(slots)[j].fns + Functions(d(value).adds))]
    {
      ctx := new DecoratorContext(j);
      ret := Undefined;
      var reaction := d(value);
      if reaction.Throws? {
        contexts := contexts + [ctx];
        return false, ret, ctx;
      }
      TryLate(reaction.late);
      contexts := contexts + [ctx];
      ok := AddAll(ctx, reaction.adds);
      if ok {
        ctx.done := true;
        ret := reaction.ret;
      }
    }

    /** `initializers.unshift`. */
    method Unshift(j: nat, f: Fn)
      requires j < |slots| && slots[j].Fns?
      modifies `slots
      ensures slots == old(slots)[j := Fns([f] + old(slots)[j].fns)]
    {
      slots := slots[j := Fns([f] + slots[j].fns)];
    }

    /** What is done with a returned value: errors, a replacement, an initialiser. */
    method Accept(k: Kind, value: Input, ret: Returned, j: nat) returns (ok: bool, value': Input)
      requires HasOwnSlots(k) ==> 0 < j <= |slots| && slots[j - 1].Fns?
      requires k == Accessor ==> value.Pair?
      modifies `slots
      ensures ok <==> NewValue(k, value, ret).Ok?
      ensures ok ==> value' == NewValue(k, value, ret).value
      ensures ok ==> slots == if HasOwnSlots(k) then old(slots)[j - 1 := Fns(NewInit(k, ret) + old(slots)[j - 1].fns)]
                              else old(slots)
    {
      ok, value' := true, value;
      assert HasOwnSlots(k) ==> [] + slots[j - 1].fns == slots[j - 1].fns;
      if k != Accessor || ret.Undefined? {
        if ret.Object? || ret.Other? { return false, value; }
        if ret.Function? {
          if k == Field { Unshift(j - 1, ret.f); } else { value' := Value(ret.f); }
        }
      } else if !ret.Object? {
        return false, value;
      } else {
        if ret.getter.NotCallable? || ret.setter.NotCallable? || ret.init.NotCallable? { return false, value; }
        if ret.getter.Callable? { value' := value'.(getter := ret.getter.f); }
        if ret.setter.Callable? { value' := value'.(setter := ret.setter.f); }
        if ret.init.Callable? { Unshift(j - 1, ret.init.f); }
      }
    }

    /** One turn of the loop over decorators. */
    method DecorateOnce(ghost start: seq<Slot>, e: Element, ghost st: Progress, d: Decorator, value: Input, j: nat)
      returns (ok: bool, value': Input, ctx: DecoratorContext)
      requires WellFormed(start) && j == ExtraSlot(start, e)
      requires value == st.value && slots == WithSlots(start, e, st) && (HasOwnSlots(e.kind) || st.inits == [])
      requires e.kind == Accessor ==> value.Pair?
      requires AllDone() && Distinct()
      modifies this
      ensures Distinct()
      ensures fresh(ctx) && ctx.slot == j && ctx.done == ComesBack(d, st.value) && contexts == old(contexts) + [ctx]
      ensures ok ==> ctx.done
      ensures ok <==> Apply(e.kind, d, st).Ok?
      ensures ok ==> value' == Apply(e.kind, d, st).value.value
      ensures ok ==> slots == WithSlots(start, e, Apply(e.kind, d, st).value)
    {
      value' := value;
      var ret;
      ok, ret, ctx := CallDecorator(d, value, j);
      if !ok { return; }
      ok, value' := Accept(e.kind, value, ret, j);
      if ok {
        ghost var next := Apply(e.kind, d, st).value;
        if HasOwnSlots(e.kind) {
          assert slots == start + [Fns(next.inits), Fns(next.extra)];
        } else {
          assert slots == start[j := Fns(next.extra)];
        }
      }
    }

    /** Allocating or finding the slots of an element. */
    method Reserve(e: Element) returns (j: nat)
      requires WellFormed(slots)
      modifies `slots
      ensures j == ExtraSlot(old(slots), e) && slots == WithSlots(old(slots), e, Start(old(slots), e))
    {
      var k := e.kind;
      j := if HasOwnSlots(k) then |slots| + 1 else if k == Class then 0 else if e.isStatic then 1 else 2;
      if HasOwnSlots(k) {
        slots := slots + [Fns([]), Fns([])];
      } else if slots[j].Hole? {
        slots := slots[j := Fns([])];
      }
    }

    /** The loop over the decorators, last one first. */
    method RunDecorators(ghost start: seq<Slot>, e: Element, j: nat) returns (ok: bool, value: Input, ctxs: seq<DecoratorContext>)
      requires WellFormed(start) && WellKinded(e) && j == ExtraSlot(start, e)
      requires slots == WithSlots(start, e, Start(start, e)) && AllDone() && Distinct()
      modifies this
      ensures Distinct() && contexts == old(contexts) + ctxs && forall c :: c in ctxs ==> c.slot == j && fresh(c)
      ensures ok == ApplyAll(e.kind, e.decorators, Start(start, e)).Ok?
      ensures ok ==> slots == WithSlots(start, e, ApplyAll(e.kind, e.decorators, Start(start, e)).value)
      ensures ok ==> value == ApplyAll(e.kind, e.decorators, Start(start, e)).value.value
      ensures ok ==> AllDone() && |ctxs| == |e.decorators|
      ensures !ok ==> FailedAt(e, Start(start, e), ctxs)
    {
      ghost var st := Start(start, e);
      value, ctxs := e.original, [];
      var i := |e.decorators|;
      while i > 0
        invariant 0 <= i <= |e.decorators| && |ctxs| == |e.decorators| - i
        invariant ApplyAll(e.kind, e.decorators[i..], Start(start, e)) == Ok(st)
        invariant value == st.value && slots == WithSlots(start, e, st) && (HasOwnSlots(e.kind) || st.inits == [])
        invariant e.kind == Accessor ==> value.Pair?
        invariant AllDone() && Distinct() && contexts == old(contexts) + ctxs
        invariant forall c :: c in ctxs ==> c.slot == j && fresh(c)
      {
        i := i - 1;
        assert e.decorators[i..][1..] == e.decorators[i + 1..];
        var ctx;
        ok, value, ctx := DecorateOnce(start, e, st, e.decorators[i], value, j);
        ctxs := ctxs + [ctx];
        if !ok {
          ErrorStays(e.kind, e.decorators, i, Start(start, e));
          return;
        }
        st := Apply(e.kind, e.decorators[i], st).value;
      }
      assert e.decorators[0..] == e.decorators;
      ok := true;
    }

    /** `__decorateElement`. One fresh context is made for each decorator called and closed when that
        decorator comes back; only that of a decorator that threw stays open. */
    method DecorateElement(e: Element) returns (r: Result<Decorated>, ctxs: seq<DecoratorContext>)
      requires WellFormed(slots) && WellKinded(e) && AllDone() && Distinct()
      modifies this
      ensures Decorate(old(slots), e) == if r.Ok? then Ok((slots, r.value)) else Err
      ensures Distinct() && contexts == old(contexts) + ctxs
      ensures forall c :: c in ctxs ==> c.slot == ExtraSlot(old(slots), e) && fresh(c)
      ensures r.Ok? ==> AllDone() && |ctxs| == |e.decorators|
      ensures r.Err? ==> FailedAt(e, Start(old(slots), e), ctxs)
      ensures r.Ok? ==> exists vs :: DecoratedAlong(old(slots), e, vs, slots, r.value)
      ensures r.Err? ==> forall vs :: !(IsChain(e.kind, e.decorators, vs) && vs[|e.decorators|] == e.original)
    {
      DecorateAlong(slots, e);
      ghost var start := slots;
      var j := Reserve(e);
      var ok, value;
      ok, value, ctxs := RunDecorators(start, e, j);
      if !ok { return Err, ctxs; }
      r := Ok(Decorated(value, e.kind == Accessor || (!e.isPrivate && e.kind != Class && e.kind != Field),
                        if !e.isPrivate then Target else if e.kind == Accessor then Descriptor else Extra));
    }
  }

  /** The last decorator called threw, or gave a value that was not accepted: only in the first case is
      its context still open. All decorators before it in time went well. */
  ghost predicate FailedAt(e: Element, st: Progress, ctxs: seq<DecoratorContext>)
    reads ctxs
  {
    var n, m := |e.decorators|, |ctxs|;
    && 0 < m <= n
    && (forall i :: 0 <= i < m - 1 ==> ctxs[i].done)
    && var before := ApplyAll(e.kind, e.decorators[n - m + 1..], st);
    && before.Ok? && Apply(e.kind, e.decorators[n - m], before.value).Err?
    && ctxs[m - 1].done == ComesBack(e.decorators[n - m], before.value.value)
  }

  // ---------------------------------------------------------------- what an element ends up as

  /** What a returned value makes of the value before. A class, method, getter or setter is replaced
      by a returned function; an accessor keeps what a returned object does not replace; a field has
      no value. Undefined keeps everything, and anything else is an error. */
  ghost predicate Becomes(k: Kind, before: Input, ret: Returned, after: Input) {
    match k
    case Field => after == before && (ret.Undefined? || ret.Function?)
    case Accessor =>
      || (ret.Undefined? && after == before)
      || (ret.Object? && before.Pair? && after.Pair? && !ret.init.NotCallable?
          && Replaced(ret.getter, before.getter, after.getter) && Replaced(ret.setter, before.setter, after.setter))
    case _ => (ret.Undefined? && after == before) || (ret.Function? && after == Value(ret.f))
  }

  ghost predicate Replaced(m: Member, was: Fn, now: Fn) {
    m == Callable(now) || (m.Absent? && now == was)
  }

  /** The returned value holds an initialiser for the element's own value. */
  ghost predicate Offers(k: Kind, ret: Returned, f: Fn) {
    if k == Field then ret == Function(f) else k == Accessor && ret.Object? && ret.init == Callable(f)
  }

  lemma BecomesIff(k: Kind, before: Input, ret: Returned, after: Input)
    requires k == Accessor ==> before.Pair?
    ensures NewValue(k, before, ret) == Ok(after) <==> Becomes(k, before, ret, after)
  {}

  lemma OffersIff(k: Kind, ret: Returned, f: Fn)
    ensures NewInit(k, ret) == [f] <==> Offers(k, ret, f)
    ensures NewInit(k, ret) == [] <==> forall g :: !Offers(k, ret, g)
  {
    if NewInit(k, ret) != [] { assert Offers(k, ret, NewInit(k, ret)[0]); }
  }

  ghost predicate Accepts(k: Kind, d: Decorator, before: Input, after: Input) {
    d(before).Reacts? && AllCallable(d(before).adds) && Becomes(k, before, d(before).ret, after)
  }

  /** The values passed along: vs[|ds|] is the original and decorator i makes vs[i] of vs[i + 1]. */
  ghost predicate IsChain(k: Kind, ds: seq<Decorator>, vs: seq<Input>) {
    |vs| == |ds| + 1 && forall i :: 0 <= i < |ds| ==> Accepts(k, ds[i], vs[i + 1], vs[i])
  }

  /** The own initialisers offered along a chain are these, in source order. */
  ghost predicate InitsAre(k: Kind, ds: seq<Decorator>, vs: seq<Input>, inits: seq<Fn>)
    requires IsChain(k, ds, vs)
  {
    if ds == [] then inits == []
    else
      assert Accepts(k, ds[0], vs[1], vs[0]);
      ChainTail(k, ds, vs);
      var ret := ds[0](vs[1]).ret;
      if exists f :: Offers(k, ret, f)
      then inits != [] && Offers(k, ret, inits[0]) && InitsAre(k, ds[1..], vs[1..], inits[1..])
      else InitsAre(k, ds[1..], vs[1..], inits)
  }

  /** Extra initialisers along a chain, in the order the decorators are called. */
  ghost function ExtrasOf(k: Kind, ds: seq<Decorator>, vs: seq<Input>): seq<Fn>
    requires IsChain(k, ds, vs)
  {
    if ds == [] then []
    else
      assert Accepts(k, ds[0], vs[1], vs[0]);
      ChainTail(k, ds, vs);
      ExtrasOf(k, ds[1..], vs[1..]) + Functions(ds[0](vs[1]).adds)
  }

  lemma ChainTail(k: Kind, ds: seq<Decorator>, vs: seq<Input>)
    requires ds != [] && IsChain(k, ds, vs)
    ensures IsChain(k, ds[1..], vs[1..])
  {
    forall i | 0 <= i < |ds[1..]| ensures Accepts(k, ds[1..][i], vs[1..][i + 1], vs[1..][i]) {
      assert Accepts(k, ds[i + 1], vs[i + 2], vs[i + 1]);
    }
  }

  ghost predicate ChainGives(k: Kind, ds: seq<Decorator>, vs: seq<Input>, st: Progress, r: Progress) {
    && IsChain(k, ds, vs) && vs[|ds|] == st.value && vs[0] == r.value
    && (st.inits == [] ==> InitsAre(k, ds, vs, r.inits))
    && r.extra == st.extra + ExtrasOf(k, ds, vs)
  }

  lemma InitsCons(k: Kind, ds: seq<Decorator>, vs: seq<Input>, rest: seq<Fn>)
    requires ds != [] && IsChain(k, ds, vs) && IsChain(k, ds[1..], vs[1..]) && InitsAre(k, ds[1..], vs[1..], rest)
    requires ds[0](vs[1]).Reacts?
    ensures InitsAre(k, ds, vs, NewInit(k, ds[0](vs[1]).ret) + rest)
  {
    var ret := ds[0](vs[1]).ret;
    var own := NewInit(k, ret);
    if own == [] {
      OffersIff(k, ret, 0);
      assert own + rest == rest;
    } else {
      OffersIff(k, ret, own[0]);
      assert own == [own[0]] && (own + rest)[1..] == rest;
    }
  }

  lemma ChainCons(k: Kind, ds: seq<Decorator>, vs: seq<Input>, st: Progress, mid: Progress, r: Progress)
    requires ds != [] && ChainGives(k, ds[1..], vs, st, mid) && Apply(k, ds[0], mid) == Ok(r)
    requires k == Accessor ==> mid.value.Pair?
    ensures ChainGives(k, ds, [r.value] + vs, st, r)
  {
    var all := [r.value] + vs;
    BecomesIff(k, mid.value, ds[0](mid.value).ret, r.value);
    forall i | 0 <= i < |ds| ensures Accepts(k, ds[i], all[i + 1], all[i]) {
      if i > 0 { assert Accepts(k, ds[1..][i - 1], vs[i], vs[i - 1]); }
    }
    assert all[1..] == vs;
    if st.inits == [] { InitsCons(k, ds, all, mid.inits); }
    assert r.extra == st.extra + ExtrasOf(k, ds, all);
  }

  /** A decorated accessor is still a pair. */
  lemma {:induction false} StaysPair(ds: seq<Decorator>, st: Progress)
    requires st.value.Pair? && ApplyAll(Accessor, ds, st).Ok?
    ensures ApplyAll(Accessor, ds, st).value.value.Pair?
  {
    if ds != [] { StaysPair(ds[1..], st); }
  }

  /** A decorated value is reached by calling the decorators from the last to the first, each on
      what the next one made; field initialisers end up in source order, extra ones in call order. */
  lemma {:induction false} DecoratingIsChain(k: Kind, ds: seq<Decorator>, st: Progress) returns (vs: seq<Input>)
    requires ApplyAll(k, ds, st).Ok? && (k == Accessor ==> st.value.Pair?)
    ensures ChainGives(k, ds, vs, st, ApplyAll(k, ds, st).value)
  {
    if ds == [] {
      vs := [st.value];
    } else {
      var rest := DecoratingIsChain(k, ds[1..], st);
      if k == Accessor { StaysPair(ds[1..], st); }
      var r := ApplyAll(k, ds, st).value;
      ChainCons(k, ds, rest, st, ApplyAll(k, ds[1..], st).value, r);
      vs := [r.value] + rest;
    }
  }

  /** And only so: decorating throws exactly when there is no such chain. */
  lemma {:induction false} ChainIsDecorating(k: Kind, ds: seq<Decorator>, vs: seq<Input>, st: Progress)
    requires IsChain(k, ds, vs) && vs[|ds|] == st.value && (k == Accessor ==> st.value.Pair?)
    ensures ApplyAll(k, ds, st).Ok? && ApplyAll(k, ds, st).value.value == vs[0]
  {
    if ds != [] {
      ChainTail(k, ds, vs);
      ChainIsDecorating(k, ds[1..], vs[1..], st);
      if k == Accessor { StaysPair(ds[1..], st); }
      assert Accepts(k, ds[0], vs[1], vs[0]);
      BecomesIff(k, vs[1], ds[0](vs[1]).ret, vs[0]);
    }
  }

  /** The slots before and after an element was decorated along a chain: a class adds its extra
      initialisers to slot 0, a static method, getter or setter to slot 1, others to slot 2; an
      accessor or field gets two new slots of its own. */
  ghost predicate SlotsAfter(before: seq<Slot>, e: Element, vs: seq<Input>, after: seq<Slot>)
    requires |before| >= 4 && IsChain(e.kind, e.decorators, vs)
  {
    var extra := ExtrasOf(e.kind, e.decorators, vs);
    match e.kind
    case Class => after == before[0 := Fns(FnsAt(before, 0) + extra)]
    case Method => after == AddedTo(before, e.isStatic, extra)
    case Getter => after == AddedTo(before, e.isStatic, extra)
    case Setter => after == AddedTo(before, e.isStatic, extra)
    case _ => exists inits :: InitsAre(e.kind, e.decorators, vs, inits) && after == before + [Fns(inits), Fns(extra)]
  }

  ghost function AddedTo(slots: seq<Slot>, isStatic: bool, extra: seq<Fn>): seq<Slot>
    requires |slots| >= 4
  {
    if isStatic then slots[1 := Fns(FnsAt(slots, 1) + extra)] else slots[2 := Fns(FnsAt(slots, 2) + extra)]
  }

  /** Where the last value of the chain goes. A class or a field defines nothing on the target, nor
      does a private method; a private member is given back itself, anything else as its target. */
  ghost predicate PlacedAs(e: Element, value: Input, d: Decorated) {
    && d.value == value
    && (d.defined <==> match e.kind
                       case Class => false
                       case Field => false
                       case Accessor => true
                       case _ => !e.isPrivate)
    && match d.result
       case Target => !e.isPrivate
       case Descriptor => e.isPrivate && e.kind == Accessor
       case Extra => e.isPrivate && e.kind != Accessor
  }

  /** Decorating takes the original along this chain. */
  ghost predicate DecoratedAlong(slots: seq<Slot>, e: Element, vs: seq<Input>, after: seq<Slot>, d: Decorated)
    requires |slots| >= 4
  {
    && IsChain(e.kind, e.decorators, vs) && vs[|e.decorators|] == e.original
    && SlotsAfter(slots, e, vs, after) && PlacedAs(e, vs[0], d)
  }

  /** Decorating an element succeeds if and only if there is a chain from its original value, and then
      the slots and the outcome are read off that chain. */
  lemma DecorateAlong(slots: seq<Slot>, e: Element)
    requires WellFormed(slots) && WellKinded(e)
    ensures var r := Decorate(slots, e);
            if r.Ok? then exists vs :: DecoratedAlong(slots, e, vs, r.value.0, r.value.1)
            else forall vs :: !(IsChain(e.kind, e.decorators, vs) && vs[|e.decorators|] == e.original)
  {
    var k, ds, st := e.kind, e.decorators, Start(slots, e);
    if ApplyAll(k, ds, st).Ok? {
      var vs := DecoratingIsChain(k, ds, st);
      SlotsAlong(slots, e, vs);
      var r := Decorate(slots, e).value;
      assert DecoratedAlong(slots, e, vs, r.0, r.1);
    } else if vs :| IsChain(k, ds, vs) && vs[|ds|] == e.original {
      ChainIsDecorating(k, ds, vs, st);
      assert false;
    }
  }

  lemma SlotsAlong(slots: seq<Slot>, e: Element, vs: seq<Input>)
    requires WellFormed(slots) && Decorate(slots, e).Ok?
    requires ChainGives(e.kind, e.decorators, vs, Start(slots, e), ApplyAll(e.kind, e.decorators, Start(slots, e)).value)
    ensures SlotsAfter(slots, e, vs, Decorate(slots, e).value.0)
  {
    var r := ApplyAll(e.kind, e.decorators, Start(slots, e)).value;
    var extra := ExtrasOf(e.kind, e.decorators, vs);
    if HasOwnSlots(e.kind) {
      assert r.extra == [] + extra == extra;
      assert InitsAre(e.kind, e.decorators, vs, r.inits) && WithSlots(slots, e, r) == slots + [Fns(r.inits), Fns(extra)];
    } else {
      assert WithSlots(slots, e, r) == slots[ExtraSlot(slots, e) := Fns(FnsAt(slots, ExtraSlot(slots, e)) + extra)];
    }
  }

  // ---------------------------------------------------------------- __runInitializers

  type Thing = int

  /** Calling initialisers one after the other, each on what the one before returned. */
  ghost function Thread(fns: seq<Fn>, call: (Fn, Thing) -> Thing, value: Thing): Thing {
    if fns == [] then value else Thread(fns[1..], call, call(fns[0], value))
  }

  method RunInitializers(slots: seq<Slot>, flags: nat, call: (Fn, Thing) -> Thing, start: Thing)
    returns (value: Thing, called: seq<Fn>)
    ensures called == FnsAt(slots, flags / 2)
    ensures value == if flags % 2 == 1 then start else Thread(FnsAt(slots, flags / 2), call, start)
  {
    value, called := start, [];
    var fns := FnsAt(slots, flags / 2);
    var i := 0;
    while i < |fns|
      invariant 0 <= i <= |fns| && called == fns[..i]
      invariant if flags % 2 == 1 then value == start else Thread(fns, call, start) == Thread(fns[i..], call, value)
    {
      assert fns[i..][1..] == fns[i + 1..];
      if flags % 2 == 0 { value := call(fns[i], value); }
      called := called + [fns[i]];
      i := i + 1;
    }
  }

  /** A field's or accessor's first value passed through the initialisers its decorators offered, in
      the order the decorators are written. */
  ghost predicate Passes(k: Kind, ds: seq<Decorator>, vs: seq<Input>, call: (Fn, Thing) -> Thing, first: Thing, last: Thing)
    requires IsChain(k, ds, vs)
    decreases |ds|
  {
    if ds == [] then last == first
    else
      assert Accepts(k, ds[0], vs[1], vs[0]);
      ChainTail(k, ds, vs);
      var ret := ds[0](vs[1]).ret;
      if exists f :: Offers(k, ret, f)
      then exists f :: Offers(k, ret, f) && Passes(k, ds[1..], vs[1..], call, call(f, first), last)
      else Passes(k, ds[1..], vs[1..], call, first, last)
  }

  lemma {:induction false} ThreadPasses(k: Kind, ds: seq<Decorator>, vs: seq<Input>, call: (Fn, Thing) -> Thing, v: Thing, inits: seq<Fn>)
    requires IsChain(k, ds, vs) && InitsAre(k, ds, vs, inits)
    ensures Passes(k, ds, vs, call, v, Thread(inits, call, v))
    decreases |ds|
  {
    if ds != [] {
      assert Accepts(k, ds[0], vs[1], vs[0]);
      ChainTail(k, ds, vs);
      var ret := ds[0](vs[1]).ret;
      if exists f :: Offers(k, ret, f) {
        var next := call(inits[0], v);
        ThreadPasses(k, ds[1..], vs[1..], call, next, inits[1..]);
        assert Offers(k, ret, inits[0]) && Passes(k, ds[1..], vs[1..], call, next, Thread(inits[1..], call, next));
      } else {
        ThreadPasses(k, ds[1..], vs[1..], call, v, inits);
      }
    }
  }

  /** Running a decorated field's or accessor's own initialisers passes its value through the
      functions its decorators offered, in the order the decorators are written. */
  lemma InitialisersRunInSourceOrder(slots: seq<Slot>, e: Element, call: (Fn, Thing) -> Thing, v: Thing) returns (vs: seq<Input>)
    requires WellFormed(slots) && HasOwnSlots(e.kind) && WellKinded(e) && Decorate(slots, e).Ok?
    ensures IsChain(e.kind, e.decorators, vs) && vs[|e.decorators|] == e.original
    ensures Passes(e.kind, e.decorators, vs, call, v, Thread(FnsAt(Decorate(slots, e).value.0, |slots|), call, v))
  {
    var st := Start(slots, e);
    vs := DecoratingIsChain(e.kind, e.decorators, st);
    ThreadPasses(e.kind, e.decorators, vs, call, v, ApplyAll(e.kind, e.decorators, st).value.inits);
  }

  // ---------------------------------------------------------------- a whole class

  /** Nothing that was there is disturbed: private slots and metadata stay, shared lists only grow. */
  ghost predicate Extends(before: seq<Slot>, after: seq<Slot>) {
    && |before| <= |after|
    && (forall j :: 3 <= j < |before| ==> after[j] == before[j])
    && (forall j :: 0 <= j < 3 ==> FnsAt(before, j) <= FnsAt(after, j))
  }

  lemma {:induction false} ExtraGrows(k: Kind, ds: seq<Decorator>, st: Progress)
    requires ApplyAll(k, ds, st).Ok?
    ensures st.extra <= ApplyAll(k, ds, st).value.extra
  {
    if ds != [] { ExtraGrows(k, ds[1..], st); }
  }

  lemma DecorateExtends(slots: seq<Slot>, e: Element)
    requires WellFormed(slots) && Decorate(slots, e).Ok?
    ensures var after := Decorate(slots, e).value.0;
            && WellFormed(after) && Extends(slots, after)
            && |after| == |slots| + if HasOwnSlots(e.kind) then 2 else 0
  {
    ExtraGrows(e.kind, e.decorators, Start(slots, e));
  }

  ghost function DecorateAll(slots: seq<Slot>, es: seq<Element>): (r: Result<seq<Slot>>)
    requires WellFormed(slots)
    ensures r.Ok? ==> WellFormed(r.value)
  {
    if es == [] then Ok(slots)
    else
      var init := DecorateAll(slots, es[..|es| - 1]);
      if init.Err? || Decorate(init.value, es[|es| - 1]).Err? then Err
      else
        DecorateExtends(init.value, es[|es| - 1]);
        Ok(Decorate(init.value, es[|es| - 1]).value.0)
  }

  ghost function OwnCount(es: seq<Element>): nat {
    if es == [] then 0
    else OwnCount(es[..|es| - 1]) + if HasOwnSlots(es[|es| - 1].kind) then 1 else 0
  }

  ghost const FRESH := [Hole, Hole, Hole, Metadata]

  lemma {:induction false} ClassSize(es: seq<Element>)
    requires DecorateAll(FRESH, es).Ok?
    ensures |DecorateAll(FRESH, es).value| == 4 + 2 * OwnCount(es)
  {
    if es != [] {
      ClassSize(es[..|es| - 1]);
      DecorateExtends(DecorateAll(FRESH, es[..|es| - 1]).value, es[|es| - 1]);
    }
  }

  lemma {:induction false} LaterElementsExtend(es: seq<Element>, i: nat)
    requires i <= |es| && DecorateAll(FRESH, es).Ok?
    ensures DecorateAll(FRESH, es[..i]).Ok? && Extends(DecorateAll(FRESH, es[..i]).value, DecorateAll(FRESH, es).value)
  {
    if i == |es| {
      assert es[..i] == es;
    } else {
      var init := es[..|es| - 1];
      LaterElementsExtend(init, i);
      assert init[..i] == es[..i];
      DecorateExtends(DecorateAll(FRESH, init).value, es[|es| - 1]);
    }
  }

  /** The n-th accessor or field of a class owns slots 4 + 2n and 5 + 2n: they hold what its own
      decorators made of a fresh pair of lists, whatever is decorated after it. */
  lemma OwnSlots(es: seq<Element>, i: nat)
    requires i < |es| && HasOwnSlots(es[i].kind) && DecorateAll(FRESH, es).Ok?
    ensures var slots, n := DecorateAll(FRESH, es).value, OwnCount(es[..i]);
            var mine := ApplyAll(es[i].kind, es[i].decorators, Progress(es[i].original, [], []));
            && mine.Ok? && 5 + 2 * n < |slots|
            && slots[4 + 2 * n] == Fns(mine.value.inits) && slots[5 + 2 * n] == Fns(mine.value.extra)
            && slots[3] == Metadata
  {
    var n := OwnCount(es[..i]);
    LaterElementsExtend(es, i);
    LaterElementsExtend(es, i + 1);
    ClassSize(es[..i]);
    assert es[..i + 1][..i] == es[..i];
    var soon := DecorateAll(FRESH, es[..i + 1]).value;
    assert soon[4 + 2 * n].Fns? && soon[5 + 2 * n].Fns?;
  }

  ghost function DecoratorCount(es: seq<Element>): nat {
    if es == [] then 0 else DecoratorCount(es[..|es| - 1]) + |es[|es| - 1].decorators|
  }

  /** Decorating the elements of a class one after the other, from `__decoratorStart` on; an error
      ends the class definition. Afterwards there is one closed context for each decorator. */
  method DecorateClass(es: seq<Element>) returns (r: Result<seq<Slot>>, ctxs: seq<DecoratorContext>)
    requires forall i :: 0 <= i < |es| ==> WellKinded(es[i])
    ensures r == DecorateAll(FRESH, es)
    ensures r.Ok? ==> |ctxs| == DecoratorCount(es) && forall c :: c in ctxs ==> c.done
    ensures r.Ok? ==> forall i, j :: 0 <= i < j < |ctxs| ==> ctxs[i] != ctxs[j]
  {
    var engine := new Engine();
    var i := 0;
    while i < |es|
      invariant 0 <= i <= |es| && fresh(engine) && DecorateAll(FRESH, es[..i]) == Ok(engine.slots)
      invariant engine.AllDone() && |engine.contexts| == DecoratorCount(es[..i]) && engine.Distinct()
    {
      assert es[..i + 1][..i] == es[..i];
      var decorated, more := engine.DecorateElement(es[i]);
      if decorated.Err? {
        if DecorateAll(FRESH, es).Ok? { LaterElementsExtend(es, i + 1); }
        return Err, engine.contexts;
      }
      i := i + 1;
    }
    assert es[..i] == es;
    r, ctxs := Ok(engine.slots), engine.contexts;
  }
}
