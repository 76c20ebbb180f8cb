/** Explicit resource management: `__using` registers resources on a stack, `__callDispose` pops
    and disposes them, awaiting the asynchronous ones and chaining every error that occurs. */
module Disposal {
  import opened Options

  datatype JsError =
    | Raised(id: int)
    | TypeError(message: string)
    | Suppressed(error: JsError, suppressed: JsError)

  /** What awaiting a returned value comes to. */
  datatype Settled = Fulfilled | Rejected(e: JsError)

  /** What one call of a disposer does. */
  datatype Effect = Throws(e: JsError) | Returns(settles: Settled)

  datatype Disposer = Disposer(id: nat, effect: Effect)

  /** The value found under a symbol of an object. */
  datatype Property = Undefined | Null | NotCallable | Callable(d: Disposer)

  /** The value of a `using` declaration. */
  datatype Resource =
    | Nullish
    | Primitive
    | Object(asyncDispose: Property, dispose: Property)

  datatype Entry = Entry(isAsync: bool, disposer: Option<Disposer>)

  datatype Declaration = Declaration(value: Resource, isAsync: bool)

  /** The outcome of a scope: it completes or throws. */
  datatype Completion = Normal | Throw(e: JsError)

  // ---------------------------------------------------------------- what disposal should do

  /** The disposer a declaration captures: the asynchronous one if it is awaited and has one. */
  ghost function Method(d: Declaration): Property
    requires d.value.Object?
  {
    if d.isAsync && d.value.asyncDispose != Undefined then d.value.asyncDispose else d.value.dispose
  }

  /** The error a declaration throws by itself, if any. */
  ghost function Refusal(d: Declaration): Option<JsError> {
    match d.value
    case Nullish => None
    case Primitive => Some(TypeError("Object expected to be assigned to \"using\" declaration"))
    case Object(_, _) => if Method(d).Callable? then None else Some(TypeError("Object not disposable"))
  }

  /** The stack entries of an accepted declaration: none for a plain nullish value. */
  ghost function Entries(d: Declaration): seq<Entry>
    requires Refusal(d) == None
  {
    match d.value
    case Nullish => if d.isAsync then [Entry(true, None)] else []
    case Object(_, _) => [Entry(d.isAsync, Some(Method(d).d))]
  }

  /** The error an entry ends in: a synchronous throw, or a rejection when it is awaited. */
  ghost function ErrorOf(e: Entry): seq<JsError> {
    match e.disposer
    case None => []
    case Some(d) =>
      match d.effect
      case Throws(err) => [err]
      case Returns(Rejected(err)) => if e.isAsync then [err] else []
      case Returns(Fulfilled) => []
  }

  /** What a run of disposal amounts to: disposers called and errors, in order, and awaits. */
  datatype Ledger = Ledger(calls: seq<nat>, errors: seq<JsError>, awaits: nat)

  const NOTHING := Ledger([], [], 0)

  ghost function Then(a: Ledger, b: Ledger): Ledger {
    Ledger(a.calls + b.calls, a.errors + b.errors, a.awaits + b.awaits)
  }

  lemma ThenAssociates(a: Ledger, b: Ledger, c: Ledger)
    ensures Then(Then(a, b), c) == Then(a, Then(b, c))
    ensures Then(a, NOTHING) == a == Then(NOTHING, a)
  {
    assert (a.calls + b.calls) + c.calls == a.calls + (b.calls + c.calls);
    assert (a.errors + b.errors) + c.errors == a.errors + (b.errors + c.errors);
  }

  /** One entry: it is awaited when asynchronous, unless its disposer threw at once. */
  ghost function Turn(e: Entry): Ledger {
    Ledger(if e.disposer.Some? then [e.disposer.value.id] else [],
           ErrorOf(e),
           if e.isAsync && (e.disposer.None? || e.disposer.value.effect.Returns?) then 1 else 0)
  }

  /** One straight loop over the whole stack, from the top down. */
  ghost function Unwind(stack: seq<Entry>): Ledger {
    if stack == [] then NOTHING
    else Then(Turn(stack[|stack| - 1]), Unwind(stack[..|stack| - 1]))
  }

  /** All the errors of a scope as one: the latest on top of the chain of the earlier ones. */
  ghost function Chain(errors: seq<JsError>): Completion {
    if errors == [] then Normal
    else if |errors| == 1 then Throw(errors[0])
    else Throw(Suppressed(errors[|errors| - 1], Chain(errors[..|errors| - 1]).e))
  }

  /** The first n errors of a chain, earliest first. */
  ghost function Unchain(e: JsError, n: nat): seq<JsError> {
    if n <= 1 || !e.Suppressed? then [e] else Unchain(e.suppressed, n - 1) + [e.error]
  }

  /** No error is lost or reordered by chaining. */
  lemma {:induction false} ChainKeepsErrors(errors: seq<JsError>)
    requires errors != []
    ensures Chain(errors).Throw? && Unchain(Chain(errors).e, |errors|) == errors
  {
    if |errors| > 1 {
      ChainKeepsErrors(errors[..|errors| - 1]);
      assert errors == errors[..|errors| - 1] + [errors[|errors| - 1]];
    }
  }

  /** One more error on a chain, as `fail` adds it. */
  lemma ChainAppend(errors: seq<JsError>, e: JsError)
    ensures Chain(errors + [e]) == match Chain(errors)
                                   case Normal => Throw(e)
                                   case Throw(earlier) => Throw(Suppressed(e, earlier))
  {
    assert (errors + [e])[..|errors + [e]| - 1] == errors;
    if errors != [] { ChainKeepsErrors(errors); }
  }

  // ---------------------------------------------------------------- __using and __callDispose

  /** Where control goes: a promise is awaited, or disposal is over. */
  datatype Control = Awaiting(settles: Settled) | Finished(completion: Completion)

  ghost function Settling(s: Settled): Ledger {
    match s
    case Fulfilled => NOTHING
    case Rejected(e) => Ledger([], [e], 0)
  }

  lemma TurnThrows(before: Ledger, it: Entry, called: Ledger)
    requires it.disposer.Some? && it.disposer.value.effect.Throws?
    requires called == before.(calls := before.calls + [it.disposer.value.id])
    ensures Then(before, Turn(it)) == Then(called, Ledger([], [it.disposer.value.effect.e], 0))
  {}

  lemma TurnReturns(before: Ledger, it: Entry, result: Settled, called: Ledger)
    requires if it.disposer.Some?
             then it.disposer.value.effect == Returns(result) && called == before.(calls := before.calls + [it.disposer.value.id])
             else result == Fulfilled && called == before
    ensures Then(before, Turn(it)) ==
            if it.isAsync then Then(called.(awaits := called.awaits + 1), Settling(result)) else called
  {
    assert before.errors + [] == before.errors;
  }

  /** The stack of a scope and the variables `__callDispose` captures. */
  class Scope {
    var stack: seq<Entry>
    var error: JsError
    var hasError: bool
    ghost var done: Ledger  // what has happened so far, the error of the body included

    ghost predicate Valid()
      reads this
    {
      Chain(done.errors) == if hasError then Throw(error) else Normal
    }

    constructor ()
      ensures Valid() && stack == [] && !hasError
    {
      stack, error, hasError, done := [], Raised(0), false, NOTHING;
    }

    /** `__using`. */
    method Using(value: Resource, isAsync: bool) returns (refused: Option<JsError>)
      modifies this`stack
      ensures refused == Refusal(Declaration(value, isAsync))
      ensures stack == old(stack) + if refused.None? then Entries(Declaration(value, isAsync)) else []
    {
      refused := None;
      if value != Nullish {
        if value.Primitive? {
          return Some(TypeError("Object expected to be assigned to \"using\" declaration"));
        }
        var dispose := Undefined;
        if isAsync { dispose := value.asyncDispose; }
        if dispose == Undefined { dispose := value.dispose; }
        if !dispose.Callable? { return Some(TypeError("Object not disposable")); }
        stack := stack + [Entry(isAsync, Some(dispose.d))];
      } else if isAsync {
        stack := stack + [Entry(true, None)];
      }
    }

    /** `fail`. */
    method Fail(e: JsError)
      requires Valid()
      modifies this`error, this`hasError, this`done
      ensures Valid() && done == Then(old(done), Ledger([], [e], 0))
    {
      ChainAppend(done.errors, e);
      ThenAssociates(done, NOTHING, NOTHING);
      if hasError {
        error := Suppressed(e, error);
      } else {
        hasError, error := true, e;
      }
      done := Then(done, Ledger([], [e], 0));
    }

    /** The body of `next`'s loop for one popped entry: the call, its catch, and whether to await. */
    method Dispose(it: Entry) returns (awaited: Option<Settled>)
      requires Valid()
      modifies this`error, this`hasError, this`done
      ensures Valid()
      ensures Then(old(done), Turn(it)) == if awaited.Some? then Then(done, Settling(awaited.value)) else done
    {
      ghost var before := done;
      awaited := None;
      var result := Fulfilled;
      if it.disposer.Some? {
        done := done.(calls := done.calls + [it.disposer.value.id]);
        match it.disposer.value.effect
        case Throws(e) =>
          TurnThrows(before, it, done);
          Fail(e);
          return;
        case Returns(s) => result := s;
      }
      TurnReturns(before, it, result, done);
      if it.isAsync {
        done := done.(awaits := done.awaits + 1);
        awaited := Some(result);
      }
    }

    /** All that has happened and all that will, when control is at c. */
    ghost function Outlook(c: Control): Ledger
      reads this`done, this`stack
    {
      if c.Awaiting? then Then(Then(done, Settling(c.settles)), Unwind(stack)) else done
    }

    ghost predicate Final(c: Control)
      reads this`done, this`stack
    {
      c.Finished? ==> stack == [] && c.completion == Chain(done.errors)
    }

    /** `next`: pop and call until a value has to be awaited or the stack is empty. */
    method Next(ghost all: Ledger) returns (c: Control)
      requires Valid() && all == Then(done, Unwind(stack))
      modifies this
      ensures Valid() && all == Outlook(c) && Final(c)
      ensures c.Awaiting? ==> |stack| < old(|stack|)
    {
      while stack != []
        invariant Valid() && all == Then(done, Unwind(stack)) && |stack| <= old(|stack|)
        decreases |stack|
      {
        var it := stack[|stack| - 1];
        stack := stack[..|stack| - 1];
        ThenAssociates(done, Turn(it), Unwind(stack));
        var awaited := Dispose(it);
        if awaited.Some? { return Awaiting(awaited.value); }
      }
      ThenAssociates(done, NOTHING, NOTHING);
      c := Finished(if hasError then Throw(error) else Normal);
    }

    /** The callback of an awaited promise. */
    method Resume(s: Settled, ghost all: Ledger) returns (c: Control)
      requires Valid() && all == Outlook(Awaiting(s))
      modifies this
      ensures Valid() && all == Outlook(c) && Final(c)
      ensures c.Awaiting? ==> |stack| < old(|stack|)
    {
      ThenAssociates(done, NOTHING, NOTHING);
      if s.Rejected? { Fail(s.e); }
      c := Next(all);
    }

    /** The arguments of `__callDispose`: an error that left the body, or none. */
    method StartWith(bodyError: seq<JsError>)
      requires |bodyError| <= 1 && !hasError
      modifies this`error, this`hasError, this`done
      ensures Valid() && done == Ledger([], bodyError, 0)
    {
      if bodyError != [] { hasError, error := true, bodyError[0]; }
      done := Ledger([], bodyError, 0);
    }

    /** The promise callbacks, one after the other, until nothing is awaited. */
    method Settle(control: Control, ghost all: Ledger) returns (c: Completion)
      requires Valid() && all == Outlook(control) && Final(control)
      modifies this
      ensures stack == [] && done == all && c == Chain(done.errors)
      decreases |stack|, control.Awaiting?
    {
      if control.Finished? { return control.completion; }
      var next := Resume(control.settles, all);
      c := Settle(next, all);
    }

    /** `__callDispose` with its promise callbacks run to the end. */
    method CallDispose(bodyError: seq<JsError>) returns (c: Completion)
      requires !hasError && |bodyError| <= 1
      modifies this
      ensures stack == [] && done == Then(Ledger([], bodyError, 0), Unwind(old(stack)))
      ensures c == Chain(done.errors)
    {
      StartWith(bodyError);
      ghost var all := Then(done, Unwind(stack));
      var control := Next(all);
      c := Settle(control, all);
    }
  }

  // ---------------------------------------------------------------- a whole scope

  /** The entries registered by the declarations before the first refused one. */
  ghost function Registered(decls: seq<Declaration>): seq<Entry> {
    if decls == [] || Refusal(decls[0]).Some? then []
    else Entries(decls[0]) + Registered(decls[1..])
  }

  /** The error that leaves the body: of the first refused declaration, or of the code itself. */
  ghost function BodyError(decls: seq<Declaration>, code: seq<JsError>): seq<JsError> {
    if decls == [] then code
    else if Refusal(decls[0]).Some? then [Refusal(decls[0]).value]
    else BodyError(decls[1..], code)
  }

  /** The declarations of a scope, up to the first one that is refused. */
  method Declare(s: Scope, decls: seq<Declaration>) returns (thrown: seq<JsError>)
    modifies s`stack
    ensures s.stack == old(s.stack) + Registered(decls)
    ensures |thrown| <= 1 && forall code :: BodyError(decls, code) == if thrown == [] then code else thrown
    decreases |decls|
  {
    if decls == [] { return []; }
    var refused := s.Using(decls[0].value, decls[0].isAsync);
    if refused.Some? { return [refused.value]; }
    thrown := Declare(s, decls[1..]);
  }

  /** Disposing of the value awaits once: it is nullish, or the disposer that is called returns. */
  ghost predicate AwaitedOnce(d: Declaration) {
    d.isAsync && match d.value
      case Nullish => true
      case Primitive => false
      case Object(asyncDispose, dispose) =>
        if asyncDispose.Callable? then asyncDispose.d.effect.Returns?
        else asyncDispose.Undefined? && dispose.Callable? && dispose.d.effect.Returns?
  }

  /** How many of the declarations before the first refused one are. */
  ghost function AwaitCount(decls: seq<Declaration>): nat {
    if decls == [] || Refusal(decls[0]).Some? then 0
    else (if AwaitedOnce(decls[0]) then 1 else 0) + AwaitCount(decls[1..])
  }

  lemma {:induction false} AwaitsAdd(a: seq<Entry>, b: seq<Entry>)
    ensures Unwind(a + b).awaits == Unwind(a).awaits + Unwind(b).awaits
    decreases |b|
  {
    if b == [] {
      assert a + b == a;
    } else {
      assert (a + b)[..|a + b| - 1] == a + b[..|b| - 1];
      AwaitsAdd(a, b[..|b| - 1]);
    }
  }

  lemma AwaitsOfOne(d: Declaration)
    requires Refusal(d) == None
    ensures Unwind(Entries(d)).awaits == if AwaitedOnce(d) then 1 else 0
  {
    if Entries(d) != [] { assert Entries(d)[..0] == []; }
  }

  /** A scope awaits once for each of them, for `await using` of null too. */
  lemma {:induction false} AwaitsPerDeclaration(decls: seq<Declaration>)
    ensures Unwind(Registered(decls)).awaits == AwaitCount(decls)
    decreases |decls|
  {
    if decls != [] && Refusal(decls[0]).None? {
      AwaitsPerDeclaration(decls[1..]);
      AwaitsAdd(Entries(decls[0]), Registered(decls[1..]));
      AwaitsOfOne(decls[0]);
    }
  }

  /** A scope with `using` declarations, its code ending normally or in one error. */
  method RunScope(decls: seq<Declaration>, code: seq<JsError>) returns (s: Scope, c: Completion)
    requires |code| <= 1
    ensures fresh(s) && s.stack == []
    ensures s.done == Then(Ledger([], BodyError(decls, code), 0), Unwind(Registered(decls)))
    ensures c == Chain(s.done.errors) && s.done.awaits == AwaitCount(decls)
  {
    AwaitsPerDeclaration(decls);
    s := new Scope();
    var thrown := Declare(s, decls);
    assert [] + Registered(decls) == Registered(decls);
    c := s.CallDispose(if thrown == [] then code else thrown);
  }

  /** The disposers of a stack in the order they were registered. */
  ghost function Captured(stack: seq<Entry>): seq<nat> {
    if stack == [] then []
    else Captured(stack[..|stack| - 1]) +
         if stack[|stack| - 1].disposer.Some? then [stack[|stack| - 1].disposer.value.id] else []
  }

  /** Each captured disposer is called exactly once, in reverse order of registration, whatever
      the others do. */
  lemma {:induction false} CallsReverseCaptured(stack: seq<Entry>)
    ensures var calls, captured := Unwind(stack).calls, Captured(stack);
            |calls| == |captured| && forall i :: 0 <= i < |calls| ==> calls[i] == captured[|captured| - 1 - i]
  {
    if stack != [] { CallsReverseCaptured(stack[..|stack| - 1]); }
  }

  ghost predicate AllSucceed(stack: seq<Entry>) {
    forall e :: e in stack ==> ErrorOf(e) == []
  }

  /** Disposal completes normally exactly when the body and every disposer did. */
  lemma NormalIffAllSucceed(body: seq<JsError>, stack: seq<Entry>)
    ensures Chain(body + Unwind(stack).errors).Normal? <==> body == [] && AllSucceed(stack)
  {
    NoErrorsIff(stack);
    if body + Unwind(stack).errors != [] { ChainKeepsErrors(body + Unwind(stack).errors); }
  }

  lemma {:induction false} NoErrorsIff(stack: seq<Entry>)
    ensures Unwind(stack).errors == [] <==> AllSucceed(stack)
  {
    if stack != [] {
      var init, last := stack[..|stack| - 1], stack[|stack| - 1];
      assert stack == init + [last];
      NoErrorsIff(init);
      assert Unwind(stack).errors == ErrorOf(last) + Unwind(init).errors;
    }
  }

  // ---------------------------------------------------------------- the proposal

  /** What looking up a dispose method gives: none, an error, or a method and whether what it returns
      is ignored. */
  datatype Lookup = NoMethod | NotAMethod | Found(d: Disposer, ignored: bool)

  /** GetMethod of the language: null counts as no method, anything else must be callable. */
  ghost function GetMethod(p: Property, ignored: bool): Lookup {
    match p
    case Undefined => NoMethod
    case Null => NoMethod
    case NotCallable => NotAMethod
    case Callable(d) => Found(d, ignored)
  }

  /** GetDisposeMethod of the proposal: without an asynchronous method an awaited value falls back to
      its synchronous one, the result of which is then ignored. */
  ghost function DisposeMethod(d: Declaration): Lookup
    requires d.value.Object?
  {
    if !d.isAsync then GetMethod(d.value.dispose, false)
    else if GetMethod(d.value.asyncDispose, false) != NoMethod then GetMethod(d.value.asyncDispose, false)
    else GetMethod(d.value.dispose, true)
  }

  /** The proposal has a TypeError for these; its text is left open and taken from `__using` here. */
  ghost function ProposedRefusal(d: Declaration): Option<JsError> {
    match d.value
    case Nullish => None
    case Primitive => Some(TypeError("Object expected to be assigned to \"using\" declaration"))
    case Object(_, _) => if DisposeMethod(d).Found? then None else Some(TypeError("Object not disposable"))
  }

  ghost function ProposedBody(decls: seq<Declaration>, code: seq<JsError>): seq<JsError> {
    if decls == [] then code
    else if ProposedRefusal(decls[0]).Some? then [ProposedRefusal(decls[0]).value]
    else ProposedBody(decls[1..], code)
  }

  ghost function ProposedCall(d: Declaration): seq<nat>
    requires ProposedRefusal(d) == None
  {
    if d.value.Nullish? then [] else [DisposeMethod(d).d.id]
  }

  ghost function ProposedError(d: Declaration): seq<JsError>
    requires ProposedRefusal(d) == None
  {
    if d.value.Nullish? then []
    else match DisposeMethod(d).d.effect
      case Throws(e) => [e]
      case Returns(Fulfilled) => []
      case Returns(Rejected(e)) => if d.isAsync && !DisposeMethod(d).ignored then [e] else []
  }

  /** DisposeResources: the accepted declarations from the last one on. */
  ghost function ProposedCalls(decls: seq<Declaration>): seq<nat> {
    if decls == [] || ProposedRefusal(decls[0]).Some? then [] else ProposedCalls(decls[1..]) + ProposedCall(decls[0])
  }

  ghost function ProposedErrors(decls: seq<Declaration>): seq<JsError> {
    if decls == [] || ProposedRefusal(decls[0]).Some? then [] else ProposedErrors(decls[1..]) + ProposedError(decls[0])
  }

  /** What can be seen of a scope: the disposers it calls and its errors, that of the body first. */
  datatype Seen = Seen(calls: seq<nat>, errors: seq<JsError>)

  ghost function Proposed(decls: seq<Declaration>, code: seq<JsError>): Seen {
    Seen(ProposedCalls(decls), ProposedBody(decls, code) + ProposedErrors(decls))
  }

  /** ... of the scope that `RunScope` runs. */
  ghost function Actual(decls: seq<Declaration>, code: seq<JsError>): Seen {
    var l := Then(Ledger([], BodyError(decls, code), 0), Unwind(Registered(decls)));
    Seen(l.calls, l.errors)
  }

  // ---------------------------------------------------------------- where the two differ

  /** An awaited value without an asynchronous disposer, whose synchronous one returns a promise that
      rejects. */
  ghost predicate RejectsLate(d: Declaration) {
    && d.isAsync && d.value.Object? && d.value.asyncDispose.Undefined? && d.value.dispose.Callable?
    && d.value.dispose.d.effect.Returns? && d.value.dispose.d.effect.settles.Rejected?
  }

  /** An awaited value whose asynchronous disposer is null and whose synchronous one is callable. */
  ghost predicate NullAsync(d: Declaration) {
    d.isAsync && d.value.Object? && d.value.asyncDispose.Null? && d.value.dispose.Callable?
  }

  /** One of the declarations that are accepted does so. */
  ghost predicate SomeRejectLate(decls: seq<Declaration>) {
    decls != [] && Refusal(decls[0]).None? && (RejectsLate(decls[0]) || SomeRejectLate(decls[1..]))
  }

  /** One of the declarations that are reached is like that. */
  ghost predicate SomeNullAsync(decls: seq<Declaration>) {
    decls != [] && (NullAsync(decls[0]) || (Refusal(decls[0]).None? && SomeNullAsync(decls[1..])))
  }

  lemma SameRefusal(d: Declaration)
    ensures if NullAsync(d) then Refusal(d).Some? && ProposedRefusal(d).None? && |ProposedCall(d)| == 1
            else Refusal(d) == ProposedRefusal(d)
  {}

  /** A stack from the top down, `f` giving what each entry adds. */
  ghost function Down<T>(f: Entry -> seq<T>, stack: seq<Entry>): seq<T> {
    if stack == [] then [] else f(stack[|stack| - 1]) + Down(f, stack[..|stack| - 1])
  }

  ghost function CallOf(e: Entry): seq<nat> {
    if e.disposer.Some? then [e.disposer.value.id] else []
  }

  lemma {:induction false} UnwindIsDown(stack: seq<Entry>)
    ensures Unwind(stack).errors == Down(ErrorOf, stack) && Unwind(stack).calls == Down(CallOf, stack)
    decreases |stack|
  {
    if stack != [] { UnwindIsDown(stack[..|stack| - 1]); }
  }

  lemma DownLast<T>(f: Entry -> seq<T>, stack: seq<Entry>, last: Entry)
    ensures Down(f, stack + [last]) == f(last) + Down(f, stack)
  {
    assert (stack + [last])[..|stack|] == stack;
  }

  lemma Join<T>(a: seq<T>, b: seq<T>, c: seq<T>)
    ensures a + (b + c) == (a + b) + c
  {}

  lemma {:induction false} DownBoth<T>(f: Entry -> seq<T>, a: seq<Entry>, b: seq<Entry>)
    ensures Down(f, a + b) == Down(f, b) + Down(f, a)
    decreases |b|
  {
    if b == [] {
      assert a + b == a;
    } else {
      var init, last := b[..|b| - 1], b[|b| - 1];
      DownBoth(f, a, init);
      DownLast(f, a + init, last);
      assert a + b == (a + init) + [last];
      Join(f(last), Down(f, init), Down(f, a));
    }
  }

  lemma DownOne<T>(f: Entry -> seq<T>, e: Entry)
    ensures Down(f, [e]) == f(e) && Down(f, []) == []
  {
    assert [e][..0] == [];
  }

  lemma OneDeclaration(d: Declaration)
    requires Refusal(d) == None == ProposedRefusal(d)
    ensures Down(CallOf, Entries(d)) == ProposedCall(d)
    ensures var ours, theirs := Down(ErrorOf, Entries(d)), ProposedError(d);
            if RejectsLate(d) then |ours| == 1 && theirs == [] else ours == theirs
  {
    var e := if Entries(d) == [] then Entry(false, None) else Entries(d)[0];
    DownOne(ErrorOf, e);
    DownOne(CallOf, e);
  }

  /** With a null asynchronous disposer the proposal calls more; without, the calls are the same. */
  lemma {:induction false} CompareCalls(decls: seq<Declaration>)
    ensures var ours, theirs := Down(CallOf, Registered(decls)), ProposedCalls(decls);
            if SomeNullAsync(decls) then |ours| < |theirs| else ours == theirs
    decreases |decls|
  {
    if decls != [] {
      SameRefusal(decls[0]);
      if Refusal(decls[0]).None? {
        CompareCalls(decls[1..]);
        DownBoth(CallOf, Entries(decls[0]), Registered(decls[1..]));
        OneDeclaration(decls[0]);
      }
    }
  }

  lemma {:induction false} CompareErrors(decls: seq<Declaration>, code: seq<JsError>)
    requires !SomeNullAsync(decls)
    ensures BodyError(decls, code) == ProposedBody(decls, code)
    ensures var ours, theirs := Down(ErrorOf, Registered(decls)), ProposedErrors(decls);
            if SomeRejectLate(decls) then |ours| > |theirs| else ours == theirs
    decreases |decls|
  {
    if decls != [] {
      SameRefusal(decls[0]);
      if Refusal(decls[0]).None? {
        CompareErrors(decls[1..], code);
        DownBoth(ErrorOf, Entries(decls[0]), Registered(decls[1..]));
        OneDeclaration(decls[0]);
      }
    }
  }

  /** A scope calls the disposers and has the errors of the proposal if and only if no accepted value
      falls back to a synchronous disposer that returns a rejecting promise, and none that is reached
      has null for its asynchronous disposer beside a callable synchronous one. */
  lemma AgreesWithProposalIff(decls: seq<Declaration>, code: seq<JsError>)
    ensures Actual(decls, code) == Proposed(decls, code) <==> !SomeRejectLate(decls) && !SomeNullAsync(decls)
  {
    UnwindIsDown(Registered(decls));
    CompareCalls(decls);
    assert Actual(decls, code).calls == Down(CallOf, Registered(decls));
    if !SomeNullAsync(decls) { CompareErrors(decls, code); }
  }

  lemma OneActual(decls: seq<Declaration>, code: seq<JsError>)
    requires |decls| == 1
    ensures var d := decls[0];
            Actual(decls, code).errors == if Refusal(d).Some? then [Refusal(d).value] else code + Down(ErrorOf, Entries(d))
  {
    var d, rest := decls[0], decls[1..];
    assert rest == [] && Registered(rest) == [] && BodyError(rest, code) == code;
    UnwindIsDown(Registered(decls));
    if Refusal(d).Some? {
      assert Down(ErrorOf, []) == [];
    } else {
      assert Registered(decls) == Entries(d) + [] == Entries(d);
    }
  }

  lemma OneProposed(decls: seq<Declaration>, code: seq<JsError>)
    requires |decls| == 1
    ensures var d := decls[0];
            Proposed(decls, code).errors == if ProposedRefusal(d).Some? then [ProposedRefusal(d).value] else code + ProposedError(d)
  {
    var d, rest := decls[0], decls[1..];
    assert rest == [] && ProposedErrors(rest) == [] && ProposedBody(rest, code) == code;
  }

  lemma ChainOne(errors: seq<JsError>, e: JsError)
    requires errors == [e]
    ensures Chain(errors) == Throw(e)
  {}

  ghost function Awaited(asyncDispose: Property, effect: Effect): Declaration {
    Declaration(Object(asyncDispose, Callable(Disposer(0, effect))), true)
  }

  /** A value of the first kind: the scope throws where the proposal has it complete normally. */
  lemma FallbackRejects(e: JsError, decls: seq<Declaration>)
    requires decls == [Awaited(Undefined, Returns(Rejected(e)))]
    ensures Chain(Actual(decls, []).errors) == Throw(e) && Chain(Proposed(decls, []).errors) == Normal
  {
    OneActual(decls, []);
    OneProposed(decls, []);
    FallbackErrors(decls[0], e);
    assert [] + [e] == [e];
    ChainOne(Actual(decls, []).errors, e);
  }

  lemma FallbackErrors(d: Declaration, e: JsError)
    requires d == Awaited(Undefined, Returns(Rejected(e)))
    ensures Refusal(d) == None == ProposedRefusal(d) && Down(ErrorOf, Entries(d)) == [e] && ProposedError(d) == []
  {
    DownOne(ErrorOf, Entry(true, Some(d.value.dispose.d)));
  }

  /** A value of the second kind: the scope refuses what the proposal disposes of. */
  lemma NullIsRefused(e: JsError, decls: seq<Declaration>)
    requires decls == [Awaited(Null, Throws(e))]
    ensures Chain(Actual(decls, []).errors) == Throw(TypeError("Object not disposable"))
    ensures Chain(Proposed(decls, []).errors) == Throw(e)
  {
    OneActual(decls, []);
    OneProposed(decls, []);
    ChainOne(Actual(decls, []).errors, TypeError("Object not disposable"));
    ChainOne(Proposed(decls, []).errors, e);
  }
}
