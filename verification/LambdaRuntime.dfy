/** The Lambda runtime's invocation loop: one invocation at a time is received, its handler is raced
    against a deadline and one answer is posted, while handlers that lost their race keep running. */
module LambdaRuntime {
  import opened Options

  /** What awaited user code gives. A `Response` that is not genuine stands for any other value
      that is neither undefined nor null; `Body` is the reply to reading a body. */
  datatype Reply = Response(status: nat, genuine: bool) | Body(text: string) | Missing | Null | Throws

  /** What is posted as a response: what reading the body gave, the object that `formatResponse` puts
      around it for an HTTP event, or the plain acceptance of a WebSocket. */
  datatype Output = Text(body: Reply) | Formatted(status: nat, body: Reply) | Accepted

  datatype Result = Value(output: Output) | Undefined | Rejected

  /** Where `#acceptRequest` is waiting; with a body to come, the status it comes with. */
  datatype Stage = InFetch | InError | InSocket(responded: bool) | InText(status: nat) | Settled(result: Result)

  datatype Task = Task(http: bool, stage: Stage)

  datatype Kind = Http | Plain | SocketMessage | Malformed

  /** What happens next, outside the runtime's control. */
  datatype Choice =
    | Invocation(id: string, complete: bool, kind: Kind)
    | Network(ok: bool)
    | Timer
    | Resume(task: nat, reply: Reply)
    | Upgrade(task: nat)
    | Reload

  datatype Verdict = TimedOut | Done(result: Result)
  datatype Answer = Reported(output: Output) | Failed(error: string)
  datatype Event = Received(id: Option<string>) | Posted(id: Option<string>, answer: Answer)
  datatype Round = Round(id: Option<string>, verdict: Verdict)

  // ---------------------------------------------------------------- handlers

  predicate Fetching(s: Stage) {
    s.InFetch? || s.InError?
  }

  /** What a value returned by `fetch` leads to. */
  function AfterFetch(r: Reply): Stage {
    match r
    case Response(status, _) => if status == 101 then InSocket(true) else InText(status)
    case _ => Settled(Rejected)
  }

  /** The value `fetch` returns at this point, if it returns. */
  function Returned(s: Stage, r: Reply, upgraded: bool, hasError: bool): Option<Reply>
    requires Fetching(s)
  {
    if s.InError? then Some(if r.Throws? then Response(500, true) else r)
    else if r.Response? && r.genuine then Some(r)
    else if r.Missing? && upgraded then Some(Response(101, true))
    else if hasError then None
    else Some(Response(500, true))
  }

  /** What reading the body gives. Any value's `text` may give undefined, a `Response`'s too. */
  function AfterText(http: bool, status: nat, r: Reply): Result {
    if r.Throws? then Rejected
    else if http then Value(Formatted(status, r))
    else if r.Missing? then Undefined
    else Value(Text(r))
  }

  function NextStage(t: Task, r: Reply, upgraded: bool, hasError: bool): Stage {
    match t.stage
    case Settled(_) => t.stage
    case InText(status) => Settled(AfterText(t.http, status, r))
    case InSocket(responded) =>
      if r.Throws? then Settled(Rejected)
      else if !responded || t.http then Settled(Value(Accepted))
      else InText(101)
    case _ =>
      if r.Body? then t.stage
      else
        var returned := Returned(t.stage, r, upgraded, hasError);
        if returned.None? then InError else AfterFetch(returned.value)
  }

  function StartTask(kind: Kind): Task {
    match kind
    case Http => Task(true, InFetch)
    case Plain => Task(false, InFetch)
    case SocketMessage => Task(false, InSocket(false))
    case Malformed => Task(false, Settled(Rejected))
  }

  ghost function Pending(tasks: seq<Task>): nat {
    if tasks == [] then 0
    else Pending(tasks[..|tasks| - 1]) + if Fetching(tasks[|tasks| - 1].stage) then 1 else 0
  }

  lemma {:induction false} PendingUpdate(tasks: seq<Task>, k: nat, t: Task)
    requires k < |tasks|
    ensures Pending(tasks[k := t]) + (if Fetching(tasks[k].stage) then 1 else 0)
         == Pending(tasks) + (if Fetching(t.stage) then 1 else 0)
    decreases |tasks|
  {
    var n := |tasks| - 1;
    if k == n {
      assert tasks[k := t][..n] == tasks[..n];
    } else {
      assert tasks[k := t][..n] == tasks[..n][k := t];
      PendingUpdate(tasks[..n], k, t);
    }
  }

  function AnswerOf(v: Verdict): Answer {
    match v
    case TimedOut => Failed("TimeoutError")
    case Done(Value(output)) => Reported(output)
    case Done(Undefined) => Failed("TimeoutError")
    case Done(Rejected) => Failed("RequestError")
  }

  // ---------------------------------------------------------------- runs

  /** What the loop itself is waiting for. */
  datatype Phase = Receiving | Reading(kind: Kind) | Racing(own: nat) | Posting | Stopped(open: bool)

  /** `upgrade` is the handler whose `server.upgrade` left the response that is standing, if any. */
  datatype State = State(phase: Phase, requestId: Option<string>, log: seq<Event>, tasks: seq<Task>,
                         upgrade: Option<nat>, hasError: bool, rounds: seq<Round>)

  /** Handlers go on whatever the loop waits for; `fetch` leaves through its `finally`. */
  ghost function Others(s: State, c: Choice): State {
    match c
    case Resume(k, r) =>
      if k >= |s.tasks| then s
      else
        var t := s.tasks[k];
        var next := NextStage(t, r, s.upgrade.Some?, s.hasError);
        s.(tasks := s.tasks[k := t.(stage := next)],
           upgrade := if Fetching(t.stage) && !Fetching(next) then None else s.upgrade)
    case Upgrade(k) => s.(upgrade := Some(k))
    case Reload => s.(hasError := true)
    case _ => s
  }

  ghost function Posts(s: State, v: Verdict): State {
    s.(phase := Posting, log := s.log + [Posted(s.requestId, AnswerOf(v))], rounds := s.rounds + [Round(s.requestId, v)])
  }

  /** The race is over once the invocation's own handler has settled. */
  ghost function Decide(s: State, own: nat): State {
    if own < |s.tasks| && s.tasks[own].stage.Settled? then Posts(s, Done(s.tasks[own].stage.result)) else s
  }

  ghost function Begin(s: State, kind: Kind): State {
    Decide(s.(phase := Racing(|s.tasks|), tasks := s.tasks + [StartTask(kind)]), |s.tasks|)
  }

  ghost function Step(s: State, c: Choice): State {
    match s.phase
    case Receiving =>
      if c.Network? then s.(phase := Stopped(false))
      else if !c.Invocation? then Others(s, c)
      else s.(requestId := Some(c.id), log := s.log + [Received(Some(c.id))],
              phase := if c.complete then Reading(c.kind) else Stopped(true))
    case Reading(kind) =>
      if c == Network(true) then Begin(s, kind)
      else if c.Network? || c.Invocation? then s.(phase := Stopped(true))
      else Others(s, c)
    case Racing(own) => if c.Timer? then Posts(s, TimedOut) else Decide(Others(s, c), own)
    case Posting =>
      if c == Network(true) then s.(phase := Receiving, requestId := None)
      else if c.Network? || c.Invocation? then s.(phase := Stopped(false))
      else Others(s, c)
    case Stopped(_) => s
  }

  ghost function Exec(s: State, world: seq<Choice>): State
    decreases |world|
  {
    if world == [] then s else Exec(Step(s, world[0]), world[1..])
  }

  ghost function Init(hasError: bool): State {
    State(Receiving, None, [], [], None, hasError, [])
  }

  // ---------------------------------------------------------------- what every run keeps

  ghost function Trace(rounds: seq<Round>): seq<Event> {
    if rounds == [] then []
    else
      var r := rounds[|rounds| - 1];
      Trace(rounds[..|rounds| - 1]) + [Received(r.id), Posted(r.id, AnswerOf(r.verdict))]
  }

  lemma TraceAppend(rounds: seq<Round>, r: Round)
    ensures Trace(rounds + [r]) == Trace(rounds) + [Received(r.id)] + [Posted(r.id, AnswerOf(r.verdict))]
  {
    assert (rounds + [r])[..|rounds|] == rounds;
  }

  /** In such a trace every received id is followed at once by its only post, under its own id. */
  lemma {:induction false} TraceAlternates(rounds: seq<Round>)
    ensures |Trace(rounds)| == 2 * |rounds|
    ensures forall i :: 0 <= i < |rounds| ==>
              && Trace(rounds)[2 * i] == Received(rounds[i].id)
              && Trace(rounds)[2 * i + 1] == Posted(rounds[i].id, AnswerOf(rounds[i].verdict))
    decreases |rounds|
  {
    if rounds != [] {
      TraceAlternates(rounds[..|rounds| - 1]);
    }
  }

  /** Each decided round carries the result of its own handler: the i-th answer is for the i-th. */
  ghost predicate Own(rounds: seq<Round>, tasks: seq<Task>) {
    |rounds| <= |tasks| && forall i :: 0 <= i < |rounds| ==>
      rounds[i].id.Some? && (rounds[i].verdict.Done? ==> tasks[i].stage == Settled(rounds[i].verdict.result))
  }

  /** An id was received that has no answer yet. */
  ghost predicate Open(p: Phase) {
    p.Reading? || p.Racing? || p == Stopped(true)
  }

  /** The log is one post for each id received, save the open one; the loop knows the open id. */
  ghost predicate Logged(s: State) {
    && s.log == Trace(s.rounds) + (if Open(s.phase) then [Received(s.requestId)] else [])
    && (Open(s.phase) ==> s.requestId.Some?)
  }

  ghost predicate Paired(s: State) {
    && Own(s.rounds, s.tasks)
    && (match s.phase
        case Racing(own) => own == |s.rounds| && |s.tasks| == own + 1 && !s.tasks[own].stage.Settled?
        case Stopped(_) => true
        case _ => |s.tasks| == |s.rounds|)
  }

  lemma OthersKeep(s: State, c: Choice)
    requires Own(s.rounds, s.tasks)
    ensures var t := Others(s, c);
            && Own(t.rounds, t.tasks) && |t.tasks| == |s.tasks| && t.rounds == s.rounds
            && t.log == s.log && t.requestId == s.requestId && t.phase == s.phase
  {}

  lemma PostsKeep(s: State, v: Verdict, own: nat)
    requires Logged(s) && s.phase.Racing? && Own(s.rounds, s.tasks) && own == |s.rounds| && |s.tasks| == own + 1
    requires v.Done? ==> s.tasks[own].stage == Settled(v.result)
    ensures Logged(Posts(s, v)) && Paired(Posts(s, v))
  {
    TraceAppend(s.rounds, Round(s.requestId, v));
  }

  lemma DecideKeeps(s: State, own: nat)
    requires Logged(s) && s.phase == Racing(own) && Own(s.rounds, s.tasks) && own == |s.rounds| && |s.tasks| == own + 1
    ensures Logged(Decide(s, own)) && Paired(Decide(s, own))
  {
    if s.tasks[own].stage.Settled? { PostsKeep(s, Done(s.tasks[own].stage.result), own); }
  }

  lemma BeginKeeps(s: State, kind: Kind)
    requires Logged(s) && Paired(s) && s.phase.Reading?
    ensures Logged(Begin(s, kind)) && Paired(Begin(s, kind))
  {
    DecideKeeps(s.(phase := Racing(|s.tasks|), tasks := s.tasks + [StartTask(kind)]), |s.tasks|);
  }

  lemma StepPairs(s: State, c: Choice)
    requires Logged(s) && Paired(s)
    ensures Paired(Step(s, c))
  {
    OthersKeep(s, c);
    match s.phase
    case Reading(kind) => if c == Network(true) { BeginKeeps(s, kind); }
    case Racing(own) => if c.Timer? { PostsKeep(s, TimedOut, own); } else { DecideKeeps(Others(s, c), own); }
    case _ =>
  }

  lemma StepLogs(s: State, c: Choice)
    requires Logged(s) && Paired(s)
    ensures Logged(Step(s, c))
  {
    OthersKeep(s, c);
    match s.phase
    case Reading(kind) => if c == Network(true) { BeginKeeps(s, kind); }
    case Racing(own) => if c.Timer? { PostsKeep(s, TimedOut, own); } else { DecideKeeps(Others(s, c), own); }
    case _ =>
  }

  /** After any run the log is one post for each id received, in turn and under that id, with the
      verdict on that invocation's own handler; only the last id may still be open. */
  lemma {:induction false} RunsKeep(s: State, world: seq<Choice>)
    requires Logged(s) && Paired(s)
    ensures Logged(Exec(s, world)) && Paired(Exec(s, world))
    decreases |world|
  {
    if world != [] {
      StepPairs(s, world[0]);
      StepLogs(s, world[0]);
      RunsKeep(Step(s, world[0]), world[1..]);
    }
  }

  // ---------------------------------------------------------------- what decides an answer

  lemma {:induction false} RoundsGrow(s: State, world: seq<Choice>)
    ensures s.rounds <= Exec(s, world).rounds
    decreases |world|
  {
    if world != [] { RoundsGrow(Step(s, world[0]), world[1..]); }
  }

  /** The invocation's own handler has just read a body that turned out to be undefined. */
  ghost predicate ReadsUndefined(s: State, c: Choice, i: nat) {
    c == Resume(i, Missing) && i < |s.tasks| && !s.tasks[i].http && s.tasks[i].stage.InText?
  }

  ghost predicate SaysTimeout(r: Round) {
    AnswerOf(r.verdict) == Failed("TimeoutError")
  }

  lemma ErrorNames(v: Verdict)
    ensures AnswerOf(v) == Failed("TimeoutError") <==> v == TimedOut || v == Done(Undefined)
  {
    assert "RequestError"[0] != "TimeoutError"[0];
  }

  /** What one choice does to the answers: none is added, or the one for the invocation in the race. */
  lemma DecidingStep(s: State, c: Choice)
    requires Paired(s)
    ensures var t, i := Step(s, c), |s.rounds|;
            t.rounds == s.rounds || (
              && |t.rounds| == i + 1
              && (t.rounds[i].verdict == TimedOut <==> s.phase == Racing(i) && c == Timer)
              && (SaysTimeout(t.rounds[i]) <==> s.phase == Racing(i) && (c == Timer || ReadsUndefined(s, c, i))))
  {
    var t, i := Step(s, c), |s.rounds|;
    if t.rounds != s.rounds { ErrorNames(t.rounds[i].verdict); }
  }

  /** Every answer of every run was decided by one choice p while its invocation was in the race or
      was about to start. It says that the invocation timed out if and only if that choice was the
      deadline, or the invocation's own handler read a body and got undefined. */
  lemma {:induction false} TimeoutIff(s: State, world: seq<Choice>, i: nat) returns (p: nat)
    requires Logged(s) && Paired(s) && |s.rounds| <= i < |Exec(s, world).rounds|
    ensures p < |world|
    ensures var before, round := Exec(s, world[..p]), Exec(s, world).rounds[i];
            && |before.rounds| == i && |Step(before, world[p]).rounds| == i + 1
            && (round.verdict == TimedOut <==> before.phase == Racing(i) && world[p] == Timer)
            && (SaysTimeout(round) <==>
                 before.phase == Racing(i) && (world[p] == Timer || ReadsUndefined(before, world[p], i)))
    decreases |world|
  {
    var t := Step(s, world[0]);
    DecidingStep(s, world[0]);
    if t.rounds != s.rounds && i == |s.rounds| {
      p := 0;
      RoundsGrow(t, world[1..]);
      assert world[..0] == [];
    } else {
      StepPairs(s, world[0]);
      StepLogs(s, world[0]);
      var q := TimeoutIff(t, world[1..], i);
      p := q + 1;
      assert world[..p][0] == world[0] && world[..p][1..] == world[1..][..q];
    }
  }

  /** What a choice makes of the invocation in the race, from the answer's side. */
  ghost predicate Answers(s: State, c: Choice, i: nat, a: Answer) {
    match a
    case Failed(error) => (error == "TimeoutError" && TimesOut(s, c, i)) || (error == "RequestError" && Fails(s, c, i))
    case Reported(output) =>
      Racing(i) == s.phase && i < |s.tasks| && c.Resume? && c.task == i && c.reply != Throws &&
      var t := s.tasks[i];
      match output
      case Text(body) => t.stage.InText? && !t.http && body == c.reply && body != Missing
      case Formatted(status, body) => t.stage == InText(status) && t.http && body == c.reply
      case Accepted => t.stage == InSocket(false) || (t.stage == InSocket(true) && t.http)
  }

  /** The deadline has passed, or the handler of an event that is not HTTP has read undefined. */
  ghost predicate TimesOut(s: State, c: Choice, i: nat) {
    s.phase == Racing(i) && (c == Timer || ReadsUndefined(s, c, i))
  }

  /** The event is malformed, a WebSocket or the reading of a body failed, or the error callback gave
      nothing that could be answered with. */
  ghost predicate Fails(s: State, c: Choice, i: nat) {
    || (s.phase == Reading(Malformed) && c == Network(true))
    || (s.phase == Racing(i) && i < |s.tasks| && c.Resume? && c.task == i &&
        var stage := s.tasks[i].stage;
        || ((stage.InText? || stage.InSocket?) && c.reply == Throws)
        || (stage == InError && (c.reply == Missing || c.reply == Null)))
  }

  lemma AnsweringStep(s: State, c: Choice)
    requires Paired(s) && Step(s, c).rounds != s.rounds
    ensures var t, i := Step(s, c), |s.rounds|;
            |t.rounds| == i + 1 && t.rounds[..i] == s.rounds && Answers(s, c, i, AnswerOf(t.rounds[i].verdict))
  {}

  /** Only one answer fits a choice. */
  lemma AnswersOnce(s: State, c: Choice, i: nat, a: Answer, b: Answer)
    requires Answers(s, c, i, a) && Answers(s, c, i, b)
    ensures a == b
  {}

  /** Over every run: the i-th post in the log is, under the id received before it, the one answer that
      fits the choice which decided it: the text that was read, with its status around it for an HTTP
      event, the acceptance of a WebSocket, a timeout or an error. */
  lemma AnswerIff(s: State, world: seq<Choice>, i: nat, a: Answer) returns (p: nat)
    requires Logged(s) && Paired(s) && |s.rounds| <= i < |Exec(s, world).rounds|
    ensures p < |world| && |Exec(s, world[..p]).rounds| == i
    ensures var log := Exec(s, world).log;
            && 2 * i + 1 < |log| && log[2 * i].Received? && log[2 * i].id.Some?
            && (log[2 * i + 1] == Posted(log[2 * i].id, a) <==> Answers(Exec(s, world[..p]), world[p], i, a))
  {
    var t := Exec(s, world);
    p := DecidedAt(s, world, i);
    RunsKeep(s, world);
    TraceAlternates(t.rounds);
    var b := AnswerOf(t.rounds[i].verdict);
    if Answers(Exec(s, world[..p]), world[p], i, a) { AnswersOnce(Exec(s, world[..p]), world[p], i, a, b); }
  }

  lemma {:induction false} DecidedAt(s: State, world: seq<Choice>, i: nat) returns (p: nat)
    requires Logged(s) && Paired(s) && |s.rounds| <= i < |Exec(s, world).rounds|
    ensures p < |world| && |Exec(s, world[..p]).rounds| == i
    ensures Answers(Exec(s, world[..p]), world[p], i, AnswerOf(Exec(s, world).rounds[i].verdict))
    decreases |world|
  {
    var t := Step(s, world[0]);
    if t.rounds != s.rounds { AnsweringStep(s, world[0]); }
    if t.rounds != s.rounds && i == |s.rounds| {
      p := 0;
      RoundsGrow(t, world[1..]);
      assert world[..0] == [];
    } else {
      StepPairs(s, world[0]);
      StepLogs(s, world[0]);
      var q := DecidedAt(t, world[1..], i);
      p := q + 1;
      assert world[..p][0] == world[0] && world[..p][1..] == world[1..][..q];
    }
  }

  /** How a handler comes to wait for what, from the stage that it reaches: for the error callback, if
      there is one and `fetch` gave neither a `Response` nor undefined with an upgrade standing; for a
      WebSocket after status 101; for the body of whatever was returned, or of the 500 response. */
  ghost predicate Reaches(t: Task, r: Reply, upgraded: bool, hasError: bool, next: Stage) {
    var good := r.Response? && r.genuine;
    var upgrades := r == Missing && upgraded;
    match next
    case InFetch => t.stage == InFetch && r.Body?
    case InError => (t.stage == InError && r.Body?) || (t.stage == InFetch && !r.Body? && !good && !upgrades && hasError)
    case InSocket(responded) =>
      responded && ((t.stage == InFetch && (upgrades || (good && r.status == 101)))
                    || (t.stage == InError && r.Response? && r.status == 101))
    case InText(status) =>
      || (t.stage == InFetch && good && r.status == status != 101)
      || (t.stage == InFetch && !r.Body? && !good && !upgrades && !hasError && status == 500)
      || (t.stage == InError && r.Response? && r.status == status != 101)
      || (t.stage == InError && r == Throws && status == 500)
      || (t.stage == InSocket(true) && r != Throws && !t.http && status == 101)
    case Settled(result) =>
      || t.stage == next
      || (t.stage == InError && (r == Missing || r == Null) && result == Rejected)
      || ((t.stage.InSocket? || t.stage.InText?) && r == Throws && result == Rejected)
      || (t.stage.InSocket? && r != Throws && (t.stage == InSocket(false) || t.http) && result == Value(Accepted))
      || (t.stage.InText? && r != Throws && t.http && result == Value(Formatted(t.stage.status, r)))
      || (t.stage.InText? && r != Throws && !t.http && result == if r == Missing then Undefined else Value(Text(r)))
  }

  lemma ReachesIff(t: Task, r: Reply, upgraded: bool, hasError: bool, next: Stage)
    ensures NextStage(t, r, upgraded, hasError) == next <==> Reaches(t, r, upgraded, hasError, next)
  {}

  /** A run without any deadline that reports a timeout: `fetch` returns a `Response` whose `text`
      gives undefined. No error callback is involved. */
  const UNDEFINED_BODY: seq<Choice> :=
    [Invocation("a", true, Plain), Network(true), Resume(0, Response(200, true)), Resume(0, Missing), Network(true)]

  lemma FalseTimeout()
    ensures Timer !in UNDEFINED_BODY
    ensures Exec(Init(false), UNDEFINED_BODY).log ==
            [Received(Some("a")), Posted(Some("a"), Failed("TimeoutError"))]
  {
    var w := UNDEFINED_BODY;
    var s1 := Step(Init(false), w[0]);
    var s2 := Step(s1, w[1]);
    var s3 := Step(s2, w[2]);
    var s4 := Step(s3, w[3]);
    ExecFive(Init(false), w);
    assert s2.tasks == [Task(false, InFetch)];
    assert s3.tasks == [Task(false, InText(200))];
    assert s4.log == [Received(Some("a")), Posted(Some("a"), Failed("TimeoutError"))];
  }

  lemma ExecFive(s: State, w: seq<Choice>)
    requires |w| == 5
    ensures Exec(s, w) == Step(Step(Step(Step(Step(s, w[0]), w[1]), w[2]), w[3]), w[4])
  {
    var w1, w2, w3, w4 := w[1..], w[1..][1..], w[1..][1..][1..], w[1..][1..][1..][1..];
    var s1 := Step(s, w[0]);
    assert Exec(s, w) == Exec(s1, w1);
    var s2 := Step(s1, w1[0]);
    assert Exec(s1, w1) == Exec(s2, w2);
    var s3 := Step(s2, w2[0]);
    assert Exec(s2, w2) == Exec(s3, w3);
    var s4 := Step(s3, w3[0]);
    assert Exec(s3, w3) == Exec(s4, w4);
  }

  // ---------------------------------------------------------------- handlers over runs

  function Awaits(s: Stage): nat {
    match s
    case InFetch => 4
    case InError => 3
    case InSocket(_) => 2
    case InText(_) => 1
    case Settled(_) => 0
  }

  /** The awaits a handler still has at most, also before it starts. */
  ghost function Left(s: State, k: nat): nat {
    if k < |s.tasks| then Awaits(s.tasks[k].stage) else 4
  }

  /** How often a run moves handler k on. */
  ghost function Moves(s: State, world: seq<Choice>, k: nat): nat
    decreases |world|
  {
    if world == [] then 0
    else
      var t := Step(s, world[0]);
      (if k < |s.tasks| && k < |t.tasks| && t.tasks[k] != s.tasks[k] then 1 else 0) + Moves(t, world[1..], k)
  }

  lemma StepMoves(s: State, c: Choice, k: nat)
    ensures Left(Step(s, c), k) <= Left(s, k)
    ensures k < |s.tasks| && k < |Step(s, c).tasks| && Step(s, c).tasks[k] != s.tasks[k] ==>
              Left(Step(s, c), k) < Left(s, k)
  {}

  /** Over every run a handler is moved on at most four times, whatever the others do. */
  lemma {:induction false} HandlersSettle(s: State, world: seq<Choice>, k: nat)
    ensures Moves(s, world, k) + Left(Exec(s, world), k) <= Left(s, k) <= 4
    decreases |world|
  {
    if world != [] {
      StepMoves(s, world[0], k);
      HandlersSettle(Step(s, world[0]), world[1..], k);
    }
  }

  lemma {:induction false} ExecSplit(s: State, a: seq<Choice>, b: seq<Choice>)
    ensures Exec(s, a + b) == Exec(Exec(s, a), b)
    decreases |a|
  {
    if a == [] {
      assert a + b == b;
    } else {
      assert (a + b)[1..] == a[1..] + b;
      ExecSplit(Step(s, a[0]), a[1..], b);
    }
  }

  // ---------------------------------------------------------------- when a run ends

  lemma LastStep(s: State, world: seq<Choice>)
    requires world != []
    ensures Exec(s, world) == Step(Exec(s, world[..|world| - 1]), world[|world| - 1])
  {
    assert world == world[..|world| - 1] + [world[|world| - 1]];
    ExecSplit(s, world[..|world| - 1], [world[|world| - 1]]);
  }

  /** The run goes on and with it the handlers. */
  ghost predicate Live(s: State) {
    !s.phase.Stopped?
  }

  /** The process exits: no request comes or it lacks a header, its body cannot be read, or an answer
      cannot be posted. */
  ghost predicate Ends(s: State, c: Choice) {
    match s.phase
    case Receiving => c.Network? || (c.Invocation? && !c.complete)
    case Reading(_) => c == Network(false) || c.Invocation?
    case Posting => c == Network(false) || c.Invocation?
    case _ => false
  }

  lemma EndStep(s: State, c: Choice)
    ensures !Live(Step(s, c)) <==> !Live(s) || Ends(s, c)
  {}

  ghost predicate EndsAt(s: State, world: seq<Choice>, p: nat) {
    p < |world| && Ends(Exec(s, world[..p]), world[p])
  }

  /** Over every run: it is over if and only if one of those things happened; a handler never ends it. */
  lemma {:induction false} StoppedIff(s: State, world: seq<Choice>)
    requires Live(s)
    ensures !Live(Exec(s, world)) <==> exists p: nat :: EndsAt(s, world, p)
    decreases |world|
  {
    if world != [] {
      var init, n := world[..|world| - 1], |world| - 1;
      LastStep(s, world);
      EndStep(Exec(s, init), world[n]);
      StoppedIff(s, init);
      if Ends(Exec(s, init), world[n]) { assert EndsAt(s, world, n); }
      if p: nat :| EndsAt(s, init, p) {
        assert init[..p] == world[..p];
        assert EndsAt(s, world, p);
      }
      if p: nat :| EndsAt(s, world, p) {
        if p < n {
          assert init[..p] == world[..p];
          assert EndsAt(s, init, p);
        }
      }
    }
  }

  ghost predicate ReloadedAt(s: State, world: seq<Choice>, p: nat) {
    p < |world| && world[p] == Reload && Live(Exec(s, world[..p]))
  }

  lemma ReloadStep(s: State, c: Choice)
    ensures Step(s, c).hasError <==> s.hasError || (c == Reload && Live(s))
  {}

  /** Over every run: there is an error callback if and only if there was one at the start or a reload
      brought one. */
  lemma {:induction false} ErrorCallbackIff(s: State, world: seq<Choice>)
    ensures Exec(s, world).hasError <==> s.hasError || exists p: nat :: ReloadedAt(s, world, p)
    decreases |world|
  {
    if world != [] {
      var init, n := world[..|world| - 1], |world| - 1;
      LastStep(s, world);
      ReloadStep(Exec(s, init), world[n]);
      ErrorCallbackIff(s, init);
      if world[n] == Reload && Live(Exec(s, init)) { assert ReloadedAt(s, world, n); }
      if p: nat :| ReloadedAt(s, init, p) {
        assert init[..p] == world[..p];
        assert ReloadedAt(s, world, p);
      }
      if p: nat :| ReloadedAt(s, world, p) {
        if p < n {
          assert init[..p] == world[..p];
          assert ReloadedAt(s, init, p);
        }
      }
    }
  }

  // ---------------------------------------------------------------- whose handler it is

  /** Choice p brought an invocation of this kind, which the loop was waiting for. */
  ghost predicate Brought(s: State, world: seq<Choice>, p: nat, id: string, kind: Kind) {
    p < |world| && world[p] == Invocation(id, true, kind) && Exec(s, world[..p]).phase == Receiving
  }

  lemma BroughtBefore(s: State, world: seq<Choice>, p: nat, id: string, kind: Kind)
    requires world != [] && Brought(s, world[..|world| - 1], p, id, kind)
    ensures Brought(s, world, p, id, kind)
  {
    assert world[..|world| - 1][..p] == world[..p];
  }

  lemma {:induction false} ReadingFrom(s: State, world: seq<Choice>, kind: Kind) returns (p: nat, id: string)
    requires s.phase == Receiving && Exec(s, world).phase == Reading(kind)
    ensures Brought(s, world, p, id, kind) && Exec(s, world).requestId == Some(id)
    decreases |world|
  {
    LastStep(s, world);
    var init := world[..|world| - 1];
    if Exec(s, init).phase.Receiving? {
      p, id := |init|, world[|init|].id;
    } else {
      p, id := ReadingFrom(s, init, kind);
      BroughtBefore(s, world, p, id, kind);
    }
  }

  /** How the handler of an invocation of this kind begins: with `fetch`, for a WebSocket with its
      message, and for a malformed event not at all. Only HTTP responses are formatted. */
  ghost predicate Starts(kind: Kind, t: Task) {
    && (t.http <==> kind == Http)
    && match t.stage
       case InFetch => kind == Http || kind == Plain
       case InSocket(responded) => kind == SocketMessage && !responded
       case Settled(result) => kind == Malformed && result == Rejected
       case _ => false
  }

  /** Choice q begins handler i as one of this kind. */
  ghost predicate Began(s: State, world: seq<Choice>, q: nat, i: nat, kind: Kind) {
    && q < |world| && |Exec(s, world[..q]).tasks| == i < |Exec(s, world[..q + 1]).tasks|
    && Starts(kind, Exec(s, world[..q + 1]).tasks[i])
  }

  lemma BeganBefore(s: State, world: seq<Choice>, q: nat, i: nat, kind: Kind)
    requires world != [] && Began(s, world[..|world| - 1], q, i, kind)
    ensures Began(s, world, q, i, kind)
  {
    assert world[..|world| - 1][..q] == world[..q] && world[..|world| - 1][..q + 1] == world[..q + 1];
  }

  lemma BeginsNow(s: State, world: seq<Choice>, kind: Kind)
    requires world != []
    requires var before := Exec(s, world[..|world| - 1]);
             Paired(before) && before.phase == Reading(kind) && |Exec(s, world).tasks| > |before.tasks|
    ensures Began(s, world, |world| - 1, |Exec(s, world[..|world| - 1]).tasks|, kind)
  {
    var n := |world| - 1;
    LastStep(s, world);
    StepStartsHandler(Exec(s, world[..n]), world[n]);
    assert world[..n + 1] == world;
  }

  /** Over every run each handler belongs to one invocation the loop was waiting for: it begins as that
      kind does, stays of that kind, and its answer is posted under that invocation's id. */
  lemma {:induction false} HandlerOf(hasError: bool, world: seq<Choice>, i: nat) returns (p: nat, q: nat, id: string, kind: Kind)
    requires i < |Exec(Init(hasError), world).tasks|
    ensures Brought(Init(hasError), world, p, id, kind) && Began(Init(hasError), world, q, i, kind)
    ensures var t := Exec(Init(hasError), world);
            && (t.tasks[i].http <==> kind == Http)
            && (i < |t.rounds| ==> t.rounds[i].id == Some(id)) && (t.phase == Racing(i) ==> t.requestId == Some(id))
    decreases |world|
  {
    var s, init := Init(hasError), world[..|world| - 1];
    var before, last := Exec(s, init), world[|world| - 1];
    LastStep(s, world);
    RunsKeep(s, init);
    if i < |before.tasks| {
      p, q, id, kind := HandlerOf(hasError, init, i);
      BroughtBefore(s, world, p, id, kind);
      BeganBefore(s, world, q, i, kind);
      StepKeepsHandler(before, last, i, id);
    } else {
      StepStartsHandler(before, last);
      kind, q := before.phase.kind, |init|;
      p, id := ReadingFrom(s, init, kind);
      BroughtBefore(s, world, p, id, kind);
      BeginsNow(s, world, kind);
    }
  }

  lemma StepStartsHandler(s: State, c: Choice)
    requires Paired(s) && |Step(s, c).tasks| > |s.tasks|
    ensures var t, i := Step(s, c), |s.tasks|;
            && s.phase.Reading? && |t.tasks| == i + 1 && Starts(s.phase.kind, t.tasks[i])
            && (i < |t.rounds| ==> t.rounds[i].id == s.requestId) && t.requestId == s.requestId
  {}

  lemma StepKeepsHandler(s: State, c: Choice, i: nat, id: string)
    requires Paired(s) && i < |s.tasks|
    requires (i < |s.rounds| ==> s.rounds[i].id == Some(id)) && (s.phase == Racing(i) ==> s.requestId == Some(id))
    ensures var t := Step(s, c);
            && i < |t.tasks| && t.tasks[i].http == s.tasks[i].http
            && (i < |t.rounds| ==> t.rounds[i].id == Some(id)) && (t.phase == Racing(i) ==> t.requestId == Some(id))
  {}

  // ---------------------------------------------------------------- the standing upgrade

  /** This choice sets the standing upgrade or clears it: a `server.upgrade`, or any `fetch` that is left. */
  ghost predicate Touches(s: State, c: Choice) {
    Live(s) && (
      || c.Upgrade?
      || (c.Resume? && c.task < |s.tasks| && Fetching(s.tasks[c.task].stage)
          && !Fetching(NextStage(s.tasks[c.task], c.reply, s.upgrade.Some?, s.hasError))))
  }

  lemma UpgradeStep(s: State, c: Choice)
    ensures Step(s, c).upgrade == if !Touches(s, c) then s.upgrade else if c.Upgrade? then Some(c.task) else None
  {}

  /** Choice p is an upgrade by handler k, and nothing touched the standing upgrade after it. */
  ghost predicate LastUpgrade(s: State, world: seq<Choice>, p: nat, k: nat) {
    && p < |world| && world[p] == Upgrade(k) && Live(Exec(s, world[..p]))
    && forall r :: p < r < |world| ==> !Touches(Exec(s, world[..r]), world[r])
  }

  lemma LastUpgradeOfPrefix(s: State, world: seq<Choice>, p: nat, k: nat)
    requires p < |world| - 1 && !Touches(Exec(s, world[..|world| - 1]), world[|world| - 1])
    ensures LastUpgrade(s, world, p, k) <==> LastUpgrade(s, world[..|world| - 1], p, k)
  {
    var init := world[..|world| - 1];
    forall r | 0 <= r < |world| ensures world[..r] == init[..r] {}
  }

  /** Over every run: the standing upgrade is handler k's if and only if some choice was an upgrade by k
      and no later one was another upgrade or left a `fetch`, whosever that was. */
  lemma {:induction false} UpgradeIff(s: State, world: seq<Choice>, k: nat)
    requires s.upgrade.None?
    ensures Exec(s, world).upgrade == Some(k) <==> exists p: nat :: LastUpgrade(s, world, p, k)
    decreases |world|
  {
    if world != [] {
      var init, last := world[..|world| - 1], world[|world| - 1];
      var t := Exec(s, init);
      assert world == init + [last];
      ExecSplit(s, init, [last]);
      UpgradeStep(t, last);
      if Touches(t, last) {
        if last == Upgrade(k) { assert LastUpgrade(s, world, |init|, k); }
      } else {
        UpgradeIff(s, init, k);
        if p: nat :| LastUpgrade(s, init, p, k) { LastUpgradeOfPrefix(s, world, p, k); }
        if p: nat :| LastUpgrade(s, world, p, k) {
          if p < |init| { LastUpgradeOfPrefix(s, world, p, k); }
        }
      }
    }
  }

  /** After this run handler k is still in `fetch`, about to come back with undefined. */
  ghost predicate ReturnsUndefined(s: State, k: nat) {
    Live(s) && k < |s.tasks| && s.tasks[k].stage == InFetch
  }

  lemma UndefinedStep(s: State, k: nat)
    requires ReturnsUndefined(s, k)
    ensures var t := Step(s, Resume(k, Missing));
            && k < |t.tasks|
            && t.tasks[k].stage == if s.upgrade.Some? then InSocket(true) else if s.hasError then InError else InText(500)
  {}

  /** Over every run a handler that returns undefined goes on with its own upgrade if and only if it
      made one after which nobody upgraded and nobody left `fetch`; with another's, if and only if that
      one's was the last; and otherwise it fails, although it may have upgraded. */
  lemma OwnUpgradeIff(hasError: bool, world: seq<Choice>, k: nat)
    requires ReturnsUndefined(Exec(Init(hasError), world), k)
    ensures var s := Exec(Init(hasError), world);
            var t := Step(s, Resume(k, Missing));
            && k < |t.tasks|
            && (t.tasks[k].stage == InSocket(true) && s.upgrade == Some(k) <==>
                 exists p: nat :: LastUpgrade(Init(hasError), world, p, k))
            && (t.tasks[k].stage == InSocket(true) <==>
                 exists j: nat, p: nat :: LastUpgrade(Init(hasError), world, p, j))
            && (t.tasks[k].stage != InSocket(true) ==> t.tasks[k].stage == if s.hasError then InError else InText(500))
  {
    var s := Exec(Init(hasError), world);
    UndefinedStep(s, k);
    UpgradeIff(Init(hasError), world, k);
    if s.upgrade.Some? { UpgradeIff(Init(hasError), world, s.upgrade.value); }
    if j: nat, p: nat :| LastUpgrade(Init(hasError), world, p, j) { UpgradeIff(Init(hasError), world, j); }
  }

  const FIRST_TIMES_OUT: seq<Choice> :=
    [Invocation("a", true, Http), Network(true), Timer, Network(true), Invocation("b", true, Http)]
  const LATE_UPGRADE: seq<Choice> := [Network(true), Reload, Upgrade(0), Resume(1, Missing), Reload]
  const LATE_RETURN: seq<Choice> := [Network(true), Upgrade(1), Resume(0, Response(200, true)), Resume(1, Missing), Timer]

  lemma SecondReceived()
    ensures var s := Exec(Init(false), FIRST_TIMES_OUT);
            s.tasks == [Task(true, InFetch)] && s.phase == Reading(Http) && s.upgrade == None && !s.hasError
  {
    ExecFive(Init(false), FIRST_TIMES_OUT);
  }

  /** The handler of "a" has timed out and upgrades late; "b", which upgraded nothing and returned
      undefined, goes on with that 101 response instead of an error. */
  lemma BorrowedUpgrade()
    ensures Exec(Init(false), FIRST_TIMES_OUT + LATE_UPGRADE).tasks == [Task(true, InFetch), Task(true, InSocket(true))]
  {
    ExecSplit(Init(false), FIRST_TIMES_OUT, LATE_UPGRADE);
    SecondReceived();
    var s := Exec(Init(false), FIRST_TIMES_OUT);
    ExecFive(s, LATE_UPGRADE);
    LateUpgrade(Step(s, LATE_UPGRADE[0]));
  }

  lemma LateUpgrade(s: State)
    requires s.phase == Racing(1) && s.tasks == [Task(true, InFetch), Task(true, InFetch)]
    ensures var t := Step(Step(Step(s, Reload), Upgrade(0)), Resume(1, Missing));
            t.phase == Racing(1) && t.tasks == [Task(true, InFetch), Task(true, InSocket(true))]
  {}

  /** "b" upgrades and returns undefined, but in between the handler of "a", which has timed out, comes
      back and its `finally` clears the upgrade: "b" goes on with the 500 response. */
  lemma LostUpgrade()
    ensures Exec(Init(false), FIRST_TIMES_OUT + LATE_RETURN).tasks == [Task(true, InText(200)), Task(true, InText(500))]
  {
    ExecSplit(Init(false), FIRST_TIMES_OUT, LATE_RETURN);
    SecondReceived();
    var s := Exec(Init(false), FIRST_TIMES_OUT);
    ExecFive(s, LATE_RETURN);
    var s1 := Step(s, LATE_RETURN[0]);
    LateReturn(s1);
  }

  lemma LateReturn(s: State)
    requires s.phase == Racing(1) && s.tasks == [Task(true, InFetch), Task(true, InFetch)] && !s.hasError
    ensures var t := Step(Step(Step(s, Upgrade(1)), Resume(0, Response(200, true))), Resume(1, Missing));
            t.phase == Racing(1) && t.tasks == [Task(true, InText(200)), Task(true, InText(500))]
  {
    var t := Step(Step(s, Upgrade(1)), Resume(0, Response(200, true)));
    assert t.tasks == [Task(true, InText(200)), Task(true, InFetch)] && t.upgrade == None && t.phase == Racing(1);
  }

  // ---------------------------------------------------------------- the runtime

  class Runtime {
    var requestId: Option<string>
    var log: seq<Event>
    var tasks: seq<Task>
    var pendingRequests: int
    var upgrade: Option<nat>
    var hasError: bool
    var world: seq<Choice>
    ghost var rounds: seq<Round>

    constructor (choices: seq<Choice>, withError: bool)
      ensures Valid() && At(Receiving) == Init(withError) && world == choices
    {
      requestId, log, tasks, pendingRequests := None, [], [], 0;
      upgrade, hasError, world, rounds := None, withError, choices, [];
    }

    /** `pendingRequests` counts the fetches that are running. */
    ghost predicate Valid() reads this {
      pendingRequests == Pending(tasks)
    }

    ghost function At(p: Phase): State reads this {
      State(p, requestId, log, tasks, upgrade, hasError, rounds)
    }

    /** One handler goes on until its next await; `fetch` leaves through its `finally`. */
    method RunTask(k: nat, reply: Reply, ghost p: Phase)
      requires Valid() && k < |tasks|
      modifies `tasks, `pendingRequests, `upgrade
      ensures Valid() && At(p) == Others(old(At(p)), Resume(k, reply))
    {
      var t := tasks[k];
      var s := NextStage(t, reply, upgrade.Some?, hasError);
      PendingUpdate(tasks, k, t.(stage := s));
      if Fetching(t.stage) && !Fetching(s) {
        pendingRequests := pendingRequests - 1;
        upgrade := None;
      }
      tasks := tasks[k := t.(stage := s)];
    }

    /** A choice that is not what the loop waits for. */
    method Background(c: Choice, ghost p: Phase)
      requires Valid()
      modifies `tasks, `pendingRequests, `upgrade, `hasError
      ensures Valid() && At(p) == Others(old(At(p)), c)
    {
      match c
      case Resume(k, reply) => if k < |tasks| { RunTask(k, reply, p); }
      case Upgrade(k) => upgrade := Some(k);
      case Reload => hasError := true;
      case _ =>
    }

    /** An await of the network: other handlers run until the reply comes. None when the run ends. */
    method AwaitNetwork(ghost p: Phase, ghost final: State) returns (r: Option<Choice>)
      requires Valid() && final == Exec(At(p), world) && (p.Receiving? || p.Reading? || p.Posting?)
      modifies `tasks, `pendingRequests, `upgrade, `hasError, `world
      ensures Valid() && |world| <= |old(world)|
      ensures r.None? ==> final == At(p)
      ensures r.Some? ==> (r.value.Network? || r.value.Invocation?) && |world| < |old(world)|
                          && final == Exec(Step(At(p), r.value), world)
    {
      r := None;
      while world != [] && r.None?
        invariant Valid() && |world| <= |old(world)|
        invariant final == Exec(if r.Some? then Step(At(p), r.value) else At(p), world)
        invariant r.Some? ==> (r.value.Network? || r.value.Invocation?) && |world| < |old(world)|
        decreases |world|
      {
        var c := world[0];
        world := world[1..];
        if c.Network? || c.Invocation? { r := Some(c); } else { Background(c, p); }
      }
    }

    /** `receiveRequest`: the id is kept as soon as it is known; missing headers and bad JSON exit. */
    method ReceiveRequest(ghost final: State) returns (kind: Option<Kind>, ghost p: Phase)
      requires Valid() && final == Exec(At(Receiving), world)
      modifies this
      ensures Valid() && |world| <= |old(world)|
      ensures kind.Some? ==> requestId.Some? && |world| < |old(world)|
      ensures kind.Some? ==> final == Exec(Begin(At(Reading(kind.value)), kind.value), world)
      ensures kind.None? ==> final == At(p)
    {
      kind, p := None, Receiving;
      var r := AwaitNetwork(Receiving, final);
      if r.None? { return; }
      if r.value.Network? {
        p := Stopped(false);
        StoppedStays(At(p), world);
        return;
      }
      requestId, log := Some(r.value.id), log + [Received(Some(r.value.id))];
      p := if r.value.complete then Reading(r.value.kind) else Stopped(true);
      if !r.value.complete {
        StoppedStays(At(p), world);
        return;
      }
      var json := AwaitNetwork(p, final);
      if json.None? { return; }
      if json.value == Network(true) {
        kind := Some(r.value.kind);
      } else {
        p := Stopped(true);
        StoppedStays(At(p), world);
      }
    }

    /** `#acceptRequest` up to its first await. */
    method Start(kind: Kind) returns (own: nat)
      requires Valid()
      modifies `tasks, `pendingRequests
      ensures Valid() && own == |old(tasks)| && tasks == old(tasks) + [StartTask(kind)]
    {
      own := |tasks|;
      var t := StartTask(kind);
      tasks := tasks + [t];
      assert tasks[..own] == old(tasks);
      if Fetching(t.stage) { pendingRequests := pendingRequests + 1; }
    }

    /** The race of the invocation's own handler against its deadline. None when the run ends first. */
    method Race(own: nat, ghost final: State) returns (v: Option<Verdict>)
      requires Valid() && own < |tasks| && final == Exec(Decide(At(Racing(own)), own), world)
      modifies `tasks, `pendingRequests, `upgrade, `hasError, `world
      ensures Valid() && |world| <= |old(world)|
      ensures v.Some? ==> final == Exec(Posts(At(Racing(own)), v.value), world)
      ensures v.None? ==> final == At(Racing(own))
    {
      v := None;
      while v.None? && !tasks[own].stage.Settled? && world != []
        invariant Valid() && |world| <= |old(world)| && own < |tasks|
        invariant final == Exec(if v.Some? then Posts(At(Racing(own)), v.value) else Decide(At(Racing(own)), own), world)
        decreases |world|, v.None?
      {
        var c := world[0];
        world := world[1..];
        if c.Timer? { v := Some(TimedOut); } else { Background(c, Racing(own)); }
      }
      if v.None? && tasks[own].stage.Settled? { v := Some(Done(tasks[own].stage.result)); }
    }

    /** `fetch` for a post: the request goes out; anything but a good reply ends the process. */
    method Post(answer: Answer, ghost v: Verdict, ghost own: nat, ghost final: State) returns (alive: bool, ghost p: Phase)
      requires Valid() && answer == AnswerOf(v) && final == Exec(Posts(At(Racing(own)), v), world)
      modifies `log, `tasks, `pendingRequests, `upgrade, `hasError, `world, `rounds
      ensures Valid() && |world| <= |old(world)|
      ensures alive ==> final == Exec(At(Receiving).(requestId := None), world)
      ensures !alive ==> final == At(p)
    {
      log, rounds := log + [Posted(requestId, answer)], rounds + [Round(requestId, v)];
      var r := AwaitNetwork(Posting, final);
      alive, p := r == Some(Network(true)), Posting;
      if r.Some? && !alive {
        p := Stopped(false);
        StoppedStays(At(p), world);
      }
    }

    method SendError(error: string, ghost v: Verdict, ghost own: nat, ghost final: State) returns (alive: bool, ghost p: Phase)
      requires Valid() && Failed(error) == AnswerOf(v) && final == Exec(Posts(At(Racing(own)), v), world)
      modifies `log, `tasks, `pendingRequests, `upgrade, `hasError, `world, `rounds
      ensures Valid() && |world| <= |old(world)|
      ensures alive ==> final == Exec(At(Receiving).(requestId := None), world)
      ensures !alive ==> final == At(p)
    {
      alive, p := Post(Failed(error), v, own, final);
    }

    /** Without an id the process ends; the loop always has one here. */
    method SendResponse(output: Output, ghost v: Verdict, ghost own: nat, ghost final: State) returns (alive: bool, ghost p: Phase)
      requires Valid() && Reported(output) == AnswerOf(v) && final == Exec(Posts(At(Racing(own)), v), world)
      modifies `log, `tasks, `pendingRequests, `upgrade, `hasError, `world, `rounds
      ensures Valid() && |world| <= |old(world)|
      ensures requestId.None? ==> !alive && At(p) == old(At(Stopped(false)))
      ensures requestId.Some? && alive ==> final == Exec(At(Receiving).(requestId := None), world)
      ensures requestId.Some? && !alive ==> final == At(p)
    {
      if requestId.None? { return false, Stopped(false); }
      alive, p := Post(Reported(output), v, own, final);
    }

    /** The response or the error that the race led to. */
    method Answer(v: Verdict, ghost own: nat, ghost final: State) returns (alive: bool, ghost p: Phase)
      requires Valid() && requestId.Some? && final == Exec(Posts(At(Racing(own)), v), world)
      modifies `log, `tasks, `pendingRequests, `upgrade, `hasError, `world, `rounds
      ensures Valid() && |world| <= |old(world)|
      ensures alive ==> final == Exec(At(Receiving).(requestId := None), world)
      ensures !alive ==> final == At(p)
    {
      match v
      case Done(Value(output)) => alive, p := SendResponse(output, v, own, final);
      case Done(Rejected) => alive, p := SendError("RequestError", v, own, final);
      case _ => alive, p := SendError("TimeoutError", v, own, final);
    }

    /** `accept`, then the response if there is one. */
    method AcceptAndAnswer(kind: Kind, ghost final: State) returns (alive: bool, ghost p: Phase)
      requires Valid() && requestId.Some? && final == Exec(Begin(At(Reading(kind)), kind), world)
      modifies `log, `tasks, `pendingRequests, `upgrade, `hasError, `world, `rounds
      ensures Valid() && |world| <= |old(world)|
      ensures alive ==> final == Exec(At(Receiving).(requestId := None), world)
      ensures !alive ==> final == At(p)
    {
      var own := Start(kind);
      var verdict := Race(own, final);
      if verdict.None? { return false, Racing(own); }
      alive, p := Answer(verdict.value, own, final);
    }
  }

  lemma {:induction false} StoppedStays(s: State, world: seq<Choice>)
    requires s.phase.Stopped?
    ensures Exec(s, world) == s
    decreases |world|
  {
    if world != [] { StoppedStays(s, world[1..]); }
  }

  /** The loop, over everything that can happen: it is the run of the specification, so each id
      received gets one post in turn, under that id, of the verdict on its own handler. */
  method Serve(rt: Runtime) returns (ghost p: Phase)
    requires rt.Valid() && rt.At(Receiving) == Init(rt.hasError)
    modifies rt
    ensures rt.At(p) == Exec(Init(old(rt.hasError)), old(rt.world))
    ensures Logged(rt.At(p)) && Own(rt.rounds, rt.tasks) && rt.pendingRequests == Pending(rt.tasks)
  {
    ghost var final := Exec(rt.At(Receiving), rt.world);
    RunsKeep(rt.At(Receiving), rt.world);
    var alive := true;
    p := Receiving;
    while alive
      invariant rt.Valid() && final == if alive then Exec(rt.At(Receiving), rt.world) else rt.At(p)
      decreases |rt.world|, alive
    {
      var kind;
      kind, p := rt.ReceiveRequest(final);
      alive := kind.Some?;
      if alive { alive, p := rt.AcceptAndAnswer(kind.value, final); }
      if alive { rt.requestId := None; }
    }
  }

  /** The false timeout above, from the loop itself. */
  method ServeUndefinedBody() returns (log: seq<Event>)
    ensures log == [Received(Some("a")), Posted(Some("a"), Failed("TimeoutError"))]
  {
    var rt := new Runtime(UNDEFINED_BODY, false);
    var _ := Serve(rt);
    FalseTimeout();
    log := rt.log;
  }
}
