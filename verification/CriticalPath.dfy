/** The chain of last blockers that leads to the unit finishing last. */
module CriticalPath {
  import opened BuildTimings
  import opened Options

  /** Section `name` of a unit, the first one if there are several. */
  function FindSection(sections: seq<Section>, name: string): (r: Option<Section>)
    ensures r.Some? ==> r.value in sections && r.value.name == name
    ensures r.None? ==> forall s :: s in sections ==> s.name != name
  {
    if sections == [] then None
    else if sections[0].name == name then Some(sections[0])
    else FindSection(sections[1..], name)
  }

  /** When a unit unblocks those that only need its metadata. */
  function RmetaEnd(u: Unit): real {
    var fe := FindSection(u.sections, "frontend");
    u.start + if fe.Some? then fe.value.end else u.duration
  }

  datatype Blocker = Blocker(unit: Unit, at: real)

  /** Section i is the first with this name. */
  ghost predicate FirstNamed(sections: seq<Section>, name: string, i: nat) {
    i < |sections| && sections[i].name == name && forall j :: 0 <= j < i ==> sections[j].name != name
  }

  /** The metadata is there when the frontend is done, or at the end of a unit without that section. */
  ghost predicate MetadataAt(u: Unit, at: real) {
    || (exists i: nat :: FirstNamed(u.sections, "frontend", i) && at == u.start + u.sections[i].end)
    || ((forall i :: 0 <= i < |u.sections| ==> u.sections[i].name != "frontend") && at == u.start + u.duration)
  }

  lemma {:induction false} FindsFirst(sections: seq<Section>, name: string)
    ensures var r := FindSection(sections, name);
            if r.Some? then exists i: nat :: FirstNamed(sections, name, i) && r.value == sections[i]
            else forall i :: 0 <= i < |sections| ==> sections[i].name != name
    decreases |sections|
  {
    if sections != [] {
      if sections[0].name == name {
        assert FirstNamed(sections, name, 0);
      } else {
        FindsFirst(sections[1..], name);
        if i: nat :| FirstNamed(sections[1..], name, i) && FindSection(sections[1..], name) == Some(sections[1..][i]) {
          assert FirstNamed(sections, name, i + 1);
        }
      }
    }
  }

  lemma MetadataIff(u: Unit, at: real)
    ensures at == RmetaEnd(u) <==> MetadataAt(u, at)
  {
    FindsFirst(u.sections, "frontend");
    var fe := FindSection(u.sections, "frontend");
    if fe.Some? {
      var i: nat :| FirstNamed(u.sections, "frontend", i) && fe.value == u.sections[i];
      assert forall j: nat :: FirstNamed(u.sections, "frontend", j) ==> j == i;
    }
  }

  /** b.unit unblocks the unit with this id at time b.at. */
  ghost predicate Unblocks(b: Blocker, id: int) {
    || (id in b.unit.unblocked && b.at == b.unit.start + b.unit.duration)
    || (id in b.unit.unblockedRmeta && MetadataAt(b.unit, b.at))
  }

  /** A recorded blocker of u that was done by the time u started, scheduler jitter allowed for. */
  ghost predicate Eligible(units: seq<Unit>, u: Unit, b: Blocker) {
    b.unit in units && Unblocks(b, u.id) && b.at <= u.start + 0.5
  }

  /** p was the last to unblock u. */
  ghost predicate LastBlocker(units: seq<Unit>, p: Unit, u: Unit) {
    exists b: Blocker :: b.unit == p && Eligible(units, u, b) && forall c :: Eligible(units, u, c) ==> c.at <= b.at
  }

  ghost predicate FinishesLast(units: seq<Unit>, u: Unit) {
    u in units && forall v :: v in units ==> v.start + v.duration <= u.start + u.duration
  }

  /** One entry for each time an id is listed. */
  ghost function Listed(b: Blocker, ids: seq<int>, id: int): seq<Blocker> {
    if ids == [] then []
    else Listed(b, ids[..|ids| - 1], id) + if ids[|ids| - 1] == id then [b] else []
  }

  /** The blockers of an id, in the order they are recorded. */
  ghost function BlockersOf(units: seq<Unit>, id: int): seq<Blocker> {
    if units == [] then []
    else
      var u := units[|units| - 1];
      BlockersOf(units[..|units| - 1], id) + Listed(Blocker(u, u.End()), u.unblocked, id)
        + Listed(Blocker(u, RmetaEnd(u)), u.unblockedRmeta, id)
  }

  lemma {:induction false} ListedIn(b: Blocker, ids: seq<int>, id: int, c: Blocker)
    ensures c in Listed(b, ids, id) <==> c == b && id in ids
    decreases |ids|
  {
    if ids != [] {
      ListedIn(b, ids[..|ids| - 1], id, c);
      assert ids == ids[..|ids| - 1] + [ids[|ids| - 1]];
    }
  }

  /** The blockers of an id are exactly the unblocking edges to it, inverted. */
  lemma {:induction false} BlockersAreEdges(units: seq<Unit>, id: int, b: Blocker)
    ensures b in BlockersOf(units, id) <==> b.unit in units && Unblocks(b, id)
    decreases |units|
  {
    if units != [] {
      var init, u := units[..|units| - 1], units[|units| - 1];
      assert units == init + [u];
      BlockersAreEdges(init, id, b);
      ListedIn(Blocker(u, u.End()), u.unblocked, id, b);
      ListedIn(Blocker(u, RmetaEnd(u)), u.unblockedRmeta, id, b);
      MetadataIff(u, b.at);
    }
  }

  type WaitsOn = map<int, seq<Blocker>>

  function At(m: WaitsOn, id: int): seq<Blocker> {
    if id in m then m[id] else []
  }

  ghost function Recorded(m: WaitsOn, ids: seq<int>, b: Blocker): WaitsOn {
    if ids == [] then m
    else
      var n, id := Recorded(m, ids[..|ids| - 1], b), ids[|ids| - 1];
      n[id := At(n, id) + [b]]
  }

  lemma {:induction false} RecordedAt(m: WaitsOn, ids: seq<int>, b: Blocker, id: int)
    ensures At(Recorded(m, ids, b), id) == At(m, id) + Listed(b, ids, id)
    decreases |ids|
  {
    if ids != [] { RecordedAt(m, ids[..|ids| - 1], b, id); }
  }

  /** Record one unit's blocked ids. */
  method AddBlockers(m: WaitsOn, ids: seq<int>, b: Blocker) returns (m': WaitsOn)
    ensures m' == Recorded(m, ids, b)
  {
    m' := m;
    for i := 0 to |ids|
      invariant m' == Recorded(m, ids[..i], b)
    {
      assert ids[..i + 1][..i] == ids[..i];
      m' := m'[ids[i] := At(m', ids[i]) + [b]];
    }
    assert ids[..|ids|] == ids;
  }

  ghost function AllRecorded(units: seq<Unit>): WaitsOn {
    if units == [] then map[]
    else
      var u := units[|units| - 1];
      Recorded(Recorded(AllRecorded(units[..|units| - 1]), u.unblocked, Blocker(u, u.End())),
               u.unblockedRmeta, Blocker(u, RmetaEnd(u)))
  }

  lemma {:induction false} AllRecordedAt(units: seq<Unit>, id: int)
    ensures At(AllRecorded(units), id) == BlockersOf(units, id)
    decreases |units|
  {
    if units != [] {
      var m, u := AllRecorded(units[..|units| - 1]), units[|units| - 1];
      AllRecordedAt(units[..|units| - 1], id);
      RecordedAt(m, u.unblocked, Blocker(u, u.End()), id);
      RecordedAt(Recorded(m, u.unblocked, Blocker(u, u.End())), u.unblockedRmeta, Blocker(u, RmetaEnd(u)), id);
    }
  }

  /** Who was waited on, and until when, for every id. */
  method BuildWaitsOn(units: seq<Unit>) returns (m: WaitsOn)
    ensures forall id :: At(m, id) == BlockersOf(units, id)
  {
    m := map[];
    for i := 0 to |units|
      invariant m == AllRecorded(units[..i])
    {
      assert units[..i + 1][..i] == units[..i];
      m := AddBlockers(m, units[i].unblocked, Blocker(units[i], units[i].End()));
      m := AddBlockers(m, units[i].unblockedRmeta, Blocker(units[i], RmetaEnd(units[i])));
    }
    assert units[..|units|] == units;
    forall id ensures At(m, id) == BlockersOf(units, id) { AllRecordedAt(units, id); }
  }

  /** The unit that finishes last; the later of two that finish together. */
  ghost function LastOf(units: seq<Unit>): Unit
    requires units != []
  {
    var b := units[|units| - 1];
    if |units| == 1 then b
    else
      var a := LastOf(units[..|units| - 1]);
      if a.End() > b.End() then a else b
  }

  lemma {:induction false} LastOfFinishesLast(units: seq<Unit>)
    requires units != []
    ensures FinishesLast(units, LastOf(units))
    decreases |units|
  {
    if |units| > 1 {
      LastOfFinishesLast(units[..|units| - 1]);
      assert units == units[..|units| - 1] + [units[|units| - 1]];
    }
  }

  /** Unit i finishes last, and all after it finish earlier. */
  ghost predicate LastAt(units: seq<Unit>, i: nat) {
    && i < |units|
    && (forall j :: 0 <= j < |units| ==> units[j].start + units[j].duration <= units[i].start + units[i].duration)
    && (forall j :: i < j < |units| ==> units[j].start + units[j].duration < units[i].start + units[i].duration)
  }

  /** Of several that finish together it is the last one. */
  lemma {:induction false} LastOfTies(units: seq<Unit>) returns (i: nat)
    requires units != []
    ensures LastAt(units, i) && LastOf(units) == units[i]
    decreases |units|
  {
    i := |units| - 1;
    if |units| > 1 {
      var k := LastOfTies(units[..|units| - 1]);
      assert forall j :: 0 <= j < |units| - 1 ==> units[..|units| - 1][j] == units[j];
      if LastOf(units) == units[k] && units[k].End() > units[i].End() { i := k; }
    }
  }

  method LastUnit(units: seq<Unit>) returns (cur: Unit)
    requires units != []
    ensures cur == LastOf(units)
  {
    cur := units[0];
    for i := 1 to |units|
      invariant cur == LastOf(units[..i])
    {
      assert units[..i + 1][..i] == units[..i];
      if !(cur.End() > units[i].End()) { cur := units[i]; }
    }
    assert units[..|units|] == units;
  }

  /** The first of the latest blockers no later than the given time. */
  ghost function Latest(blockers: seq<Blocker>, limit: real): Option<Blocker> {
    if blockers == [] then None
    else
      var best, b := Latest(blockers[..|blockers| - 1], limit), blockers[|blockers| - 1];
      if b.at <= limit && (best.None? || b.at > best.value.at) then Some(b) else best
  }

  lemma {:induction false} LatestIsLatest(blockers: seq<Blocker>, limit: real)
    ensures var best := Latest(blockers, limit);
            if best.None? then forall b :: b in blockers ==> b.at > limit
            else best.value in blockers && best.value.at <= limit
                 && forall b :: b in blockers && b.at <= limit ==> b.at <= best.value.at
    decreases |blockers|
  {
    if blockers != [] {
      LatestIsLatest(blockers[..|blockers| - 1], limit);
      assert blockers == blockers[..|blockers| - 1] + [blockers[|blockers| - 1]];
    }
  }

  /** Blocker i is within the limit, none within it is later, and those before it are earlier. */
  ghost predicate LatestAt(blockers: seq<Blocker>, limit: real, i: nat) {
    && i < |blockers| && blockers[i].at <= limit
    && (forall j :: 0 <= j < |blockers| && blockers[j].at <= limit ==> blockers[j].at <= blockers[i].at)
    && (forall j :: 0 <= j < i && blockers[j].at <= limit ==> blockers[j].at < blockers[i].at)
  }

  /** Of several at the same time it is the one recorded first. */
  lemma {:induction false} LatestTies(blockers: seq<Blocker>, limit: real) returns (i: nat)
    requires Latest(blockers, limit).Some?
    ensures LatestAt(blockers, limit, i) && Latest(blockers, limit).value == blockers[i]
    decreases |blockers|
  {
    var init := blockers[..|blockers| - 1];
    LatestIsLatest(init, limit);
    i := |blockers| - 1;
    if Latest(init, limit).Some? {
      var k := LatestTies(init, limit);
      assert forall j :: 0 <= j < |init| ==> init[j] == blockers[j];
      if !(blockers[i].at <= limit && blockers[i].at > blockers[k].at) { i := k; }
    } else {
      assert forall j :: 0 <= j < |init| ==> blockers[j] in init;
    }
  }

  method LatestBy(blockers: seq<Blocker>, limit: real) returns (best: Option<Blocker>)
    ensures best == Latest(blockers, limit)
  {
    best := None;
    for i := 0 to |blockers|
      invariant best == Latest(blockers[..i], limit)
    {
      assert blockers[..i + 1][..i] == blockers[..i];
      if blockers[i].at <= limit && (best.None? || blockers[i].at > best.value.at) { best := Some(blockers[i]); }
    }
    assert blockers[..|blockers|] == blockers;
  }

  /** The unit that u was waiting on when it started, if any. */
  ghost function Before(units: seq<Unit>, u: Unit): Option<Unit> {
    var b := Latest(BlockersOf(units, u.id), u.start + 0.5);
    if b.None? then None else Some(b.value.unit)
  }

  /** It is the last to unblock u, and there is none only if u waited on nothing. */
  lemma BeforeIsLastBlocker(units: seq<Unit>, u: Unit)
    ensures Before(units, u).Some? ==> LastBlocker(units, Before(units, u).value, u)
    ensures Before(units, u).None? ==> NothingBefore(units, u)
  {
    var blockers := BlockersOf(units, u.id);
    LatestIsLatest(blockers, u.start + 0.5);
    forall b ensures b in blockers <==> b.unit in units && Unblocks(b, u.id) { BlockersAreEdges(units, u.id, b); }
    var best := Latest(blockers, u.start + 0.5);
    if best.Some? {
      assert Eligible(units, u, best.value);
    }
  }

  type Step = Unit -> Option<Unit>

  ghost function Stepper(units: seq<Unit>): Step {
    (u: Unit) => Before(units, u)
  }

  /** At most n units from u on back. */
  ghost function Walk(before: Step, u: Unit, n: nat): seq<Unit>
    requires n > 0
    decreases n, u
  {
    if n == 1 || before(u).None? then [u] else [u] + Walk(before, before(u).value, n - 1)
  }

  /** path is a chain of last blockers, newest first. */
  ghost predicate ChainBack(units: seq<Unit>, path: seq<Unit>) {
    forall i :: 0 <= i < |path| - 1 ==> LastBlocker(units, path[i + 1], path[i])
  }

  /** The same chain, oldest first. */
  ghost predicate Chain(units: seq<Unit>, path: seq<Unit>) {
    forall i :: 0 <= i < |path| - 1 ==> LastBlocker(units, path[i], path[i + 1])
  }

  function Reversed(path: seq<Unit>): (r: seq<Unit>)
    ensures |r| == |path| && forall i :: 0 <= i < |r| ==> r[i] == path[|path| - 1 - i]
  {
    if path == [] then [] else Reversed(path[1..]) + [path[0]]
  }

  ghost predicate NothingBefore(units: seq<Unit>, u: Unit) {
    forall b :: !Eligible(units, u, b)
  }

  /** Each step goes to a last blocker, and there is none only where nothing was waited on. */
  ghost predicate StepsBack(units: seq<Unit>, before: Step) {
    forall u :: if before(u).Some? then LastBlocker(units, before(u).value, u) else NothingBefore(units, u)
  }

  lemma StepperStepsBack(units: seq<Unit>)
    ensures StepsBack(units, Stepper(units))
  {
    forall u ensures if Before(units, u).Some? then LastBlocker(units, Before(units, u).value, u) else NothingBefore(units, u) {
      BeforeIsLastBlocker(units, u);
    }
  }

  lemma {:induction false} WalkIsChain(units: seq<Unit>, before: Step, u: Unit, n: nat)
    requires n > 0 && StepsBack(units, before)
    ensures var path := Walk(before, u, n);
            && 1 <= |path| <= n && path[0] == u && ChainBack(units, path)
            && (|path| == n || NothingBefore(units, path[|path| - 1]))
    decreases n
  {
    if n > 1 && before(u).Some? { WalkIsChain(units, before, before(u).value, n - 1); }
  }

  /** The whole path, newest first. */
  ghost function PathBack(units: seq<Unit>): seq<Unit>
    requires units != []
  {
    Walk(Stepper(units), LastOf(units), 81)
  }

  /** `criticalPath`; reducing an empty list throws. */
  method FindCriticalPath(units: seq<Unit>) returns (r: Option<seq<Unit>>)
    ensures r == if units == [] then None else Some(Reversed(PathBack(units)))
  {
    if units == [] { return None; }
    var waitsOn := BuildWaitsOn(units);
    var cur := LastUnit(units);
    forall u ensures Follows(waitsOn, Stepper(units), u) {}
    var path := FollowBack(waitsOn, cur, 81, Stepper(units));
    r := Some(Reversed(path));
  }

  /** The map leads from u where `before` does. */
  ghost predicate Follows(waitsOn: WaitsOn, before: Step, u: Unit) {
    var b := Latest(At(waitsOn, u.id), u.start + 0.5);
    before(u) == if b.None? then None else Some(b.value.unit)
  }

  method FollowBack(waitsOn: WaitsOn, last: Unit, limit: nat, ghost before: Step) returns (path: seq<Unit>)
    requires limit > 0 && forall u :: Follows(waitsOn, before, u)
    ensures path == Walk(before, last, limit)
  {
    var cur := last;
    path := [cur];
    ghost var whole := Walk(before, last, limit);
    ghost var front, rest: seq<Unit> := [], whole;
    while true
      invariant |path| <= limit && path == front + [cur]
      invariant rest == Walk(before, cur, limit - |front|) && whole == front + rest
      decreases limit - |path|
    {
      var next := StepBack(waitsOn, cur, before);
      if next.None? || |path| > limit - 1 { break; }
      Onward(before, front, cur, next.value, limit - |front|);
      front, rest := path, Walk(before, next.value, limit - |path|);
      path := path + [next.value];
      cur := next.value;
    }
  }

  method StepBack(waitsOn: WaitsOn, cur: Unit, ghost before: Step) returns (next: Option<Unit>)
    requires Follows(waitsOn, before, cur)
    ensures next == before(cur)
  {
    var b := LatestBy(At(waitsOn, cur.id), cur.start + 0.5);
    next := if b.None? then None else Some(b.value.unit);
  }

  lemma Onward(before: Step, front: seq<Unit>, cur: Unit, next: Unit, n: nat)
    requires n > 1 && before(cur) == Some(next)
    ensures front + Walk(before, cur, n) == front + [cur] + Walk(before, next, n - 1)
  {}

  /** The path ends at a unit that finishes last, each unit was the last to unblock the next one, and
      it starts where nothing was waited on or after 81 units. */
  lemma PathIsCritical(units: seq<Unit>)
    requires units != []
    ensures var path := Reversed(PathBack(units));
            && 1 <= |path| <= 81 && FinishesLast(units, path[|path| - 1])
            && Chain(units, path) && (|path| == 81 || NothingBefore(units, path[0]))
  {
    LastOfFinishesLast(units);
    StepperStepsBack(units);
    WalkIsChain(units, Stepper(units), LastOf(units), 81);
  }

  // ---------------------------------------------------------------- time along the path

  /** How long after its start a unit unblocks the first of those it blocks. */
  ghost function Delay(u: Unit): real {
    if u.duration <= RmetaEnd(u) - u.start then u.duration else RmetaEnd(u) - u.start
  }

  /** The delays from i to j, each less the jitter allowed for. */
  ghost function Advance(path: seq<Unit>, i: nat, j: nat): real
    requires i <= j <= |path|
    decreases j
  {
    if i == j then 0.0 else Advance(path, i, j - 1) + Delay(path[j - 1]) - 0.5
  }

  lemma BlockerAdvances(units: seq<Unit>, p: Unit, u: Unit)
    requires LastBlocker(units, p, u)
    ensures p.start + Delay(p) - 0.5 <= u.start
  {
    var b: Blocker :| b.unit == p && Eligible(units, u, b);
    MetadataIff(p, b.at);
  }

  /** Whatever the units, a chain goes forward in time by at least its delays less the jitter; so it
      goes strictly forward where every delay is longer than that. */
  lemma {:induction false} ChainAdvances(units: seq<Unit>, path: seq<Unit>, i: nat, j: nat)
    requires Chain(units, path) && i <= j < |path|
    ensures path[i].start + Advance(path, i, j) <= path[j].start
    decreases j
  {
    if i < j {
      ChainAdvances(units, path, i, j - 1);
      BlockerAdvances(units, path[j - 1], path[j]);
    }
  }

  // ---------------------------------------------------------------- units on the path twice

  ghost function Back(before: Step, u: Unit, n: nat): Option<Unit> {
    if n == 0 then Some(u)
    else
      var p := Back(before, u, n - 1);
      if p.None? then None else before(p.value)
  }

  lemma {:induction false} BackTwice(before: Step, u: Unit, m: nat, n: nat)
    ensures Back(before, u, m).None? ==> Back(before, u, m + n).None?
    ensures Back(before, u, m).Some? ==> Back(before, u, m + n) == Back(before, Back(before, u, m).value, n)
    decreases n
  {
    if n > 0 {
      BackTwice(before, u, m, n - 1);
      assert m + n - 1 == m + (n - 1);
    }
  }

  lemma {:induction false} WalkAt(before: Step, u: Unit, n: nat, i: nat)
    requires n > 0
    ensures i < |Walk(before, u, n)| ==> Back(before, u, i) == Some(Walk(before, u, n)[i])
    ensures i == |Walk(before, u, n)| < n ==> Back(before, u, i).None?
    decreases n
  {
    if i > 0 {
      BackTwice(before, u, 1, i - 1);
      assert Back(before, u, 0) == Some(u) && Back(before, u, 1) == before(u);
      if n > 1 && before(u).Some? { WalkAt(before, before(u).value, n - 1, i - 1); }
    }
  }

  ghost predicate Repeats(path: seq<Unit>) {
    exists i, j :: 0 <= i < j < |path| && path[i] == path[j]
  }

  /** Going back i and then d more times from u leads to the same unit. */
  ghost predicate CycleAt(before: Step, u: Unit, i: nat, d: nat) {
    d >= 1 && Back(before, u, i).Some? && Back(before, u, i + d) == Back(before, u, i)
  }

  lemma {:induction false} CycleNeverEnds(before: Step, u: Unit, i: nat, d: nat, m: nat)
    requires CycleAt(before, u, i, d)
    ensures Back(before, u, m).Some?
    decreases m
  {
    if m <= i + d {
      BackTwice(before, u, m, i + d - m);
    } else {
      CycleNeverEnds(before, u, i, d, m - d);
      SameTurn(before, u, i, d, m - d - i);
    }
  }

  lemma SameTurn(before: Step, u: Unit, i: nat, d: nat, t: nat)
    requires Back(before, u, i).Some? && Back(before, u, i + d) == Back(before, u, i)
    ensures Back(before, u, i + d + t) == Back(before, u, i + t)
  {
    BackTwice(before, u, i, t);
    BackTwice(before, u, i + d, t);
  }

  /** Only the limit ends a walk from where a cycle is reached. */
  lemma CycleFillsTheWalk(before: Step, u: Unit, n: nat, i: nat, d: nat)
    requires n > 0 && CycleAt(before, u, i, d)
    ensures |Walk(before, u, n)| == n
  {
    var path := Walk(before, u, n);
    WalkLength(before, u, n);
    CycleNeverEnds(before, u, i, d, |path|);
    WalkAt(before, u, n, |path|);
  }

  lemma {:induction false} WalkLength(before: Step, u: Unit, n: nat)
    requires n > 0
    ensures |Walk(before, u, n)| <= n
    decreases n
  {
    if n > 1 && before(u).Some? { WalkLength(before, before(u).value, n - 1); }
  }

  /** A unit is on the path twice if and only if last blockers lead from its end into a cycle, and
      around it once, within the limit. */
  lemma RepeatsIffCycle(before: Step, u: Unit, n: nat)
    requires n > 0
    ensures Repeats(Walk(before, u, n)) <==> exists i: nat, d: nat :: CycleAt(before, u, i, d) && i + d < n
  {
    var path := Walk(before, u, n);
    if Repeats(path) {
      var i, j :| 0 <= i < j < |path| && path[i] == path[j];
      WalkAt(before, u, n, i);
      WalkAt(before, u, n, j);
      WalkLength(before, u, n);
      assert CycleAt(before, u, i, j - i);
    }
    if i: nat, d: nat :| CycleAt(before, u, i, d) && i + d < n {
      CycleFillsTheWalk(before, u, n, i, d);
      WalkAt(before, u, n, i);
      WalkAt(before, u, n, i + d);
      assert path[i] == path[i + d];
    }
  }

  /** Then only the limit ends the walk: a shorter path has no unit twice. */
  lemma RepeatingFillsThePath(before: Step, u: Unit, n: nat)
    requires n > 0 && Repeats(Walk(before, u, n))
    ensures |Walk(before, u, n)| == n
  {
    RepeatsIffCycle(before, u, n);
    var i: nat, d: nat :| CycleAt(before, u, i, d) && i + d < n;
    CycleFillsTheWalk(before, u, n, i, d);
  }

  lemma {:induction false} BackIn(units: seq<Unit>, u: Unit, n: nat)
    requires u in units && Back(Stepper(units), u, n).Some?
    ensures Back(Stepper(units), u, n).value in units
    decreases n
  {
    if n > 0 {
      BackIn(units, u, n - 1);
      LastBlockerIn(units, Back(Stepper(units), u, n - 1).value);
    }
  }

  /** Units that differ are no more than there are to choose from. */
  lemma {:induction false} DistinctFit(path: seq<Unit>, s: set<Unit>)
    requires !Repeats(path) && forall i :: 0 <= i < |path| ==> path[i] in s
    ensures |path| <= |s|
    decreases |path|
  {
    if path != [] {
      var init, u := path[..|path| - 1], path[|path| - 1];
      forall i | 0 <= i < |init| ensures init[i] in s - {u} { assert init[i] == path[i]; }
      DistinctFit(init, s - {u});
    }
  }

  /** With at most 80 different units, some unit is on the path twice if and only if the path is full. */
  lemma RepeatsIffFull(units: seq<Unit>)
    requires units != [] && |set u | u in units| <= 80
    ensures Repeats(PathBack(units)) <==> |PathBack(units)| == 81
  {
    var before, last, path := Stepper(units), LastOf(units), PathBack(units);
    if Repeats(path) {
      RepeatingFillsThePath(before, last, 81);
    } else {
      LastOfFinishesLast(units);
      forall i | 0 <= i < |path| ensures path[i] in (set u | u in units) {
        WalkAt(before, last, 81, i);
        BackIn(units, last, i);
      }
      DistinctFit(path, set u | u in units);
    }
  }

  /** Recorded edges lead to higher ranks: there is no cycle of units unblocking each other. */
  ghost predicate Ranked(units: seq<Unit>, rank: int -> int) {
    forall u, id :: u in units && (id in u.unblocked || id in u.unblockedRmeta) ==> rank(u.id) < rank(id)
  }

  lemma LastBlockerIsLower(units: seq<Unit>, rank: int -> int, p: Unit, u: Unit)
    requires Ranked(units, rank) && LastBlocker(units, p, u)
    ensures rank(p.id) < rank(u.id)
  {
    var b: Blocker :| b.unit == p && Eligible(units, u, b);
  }

  lemma {:induction false} BackLowers(units: seq<Unit>, before: Step, rank: int -> int, u: Unit, n: nat)
    requires StepsBack(units, before) && Ranked(units, rank) && Back(before, u, n).Some?
    ensures rank(Back(before, u, n).value.id) + n <= rank(u.id)
    decreases n
  {
    if n > 0 {
      BackLowers(units, before, rank, u, n - 1);
      LastBlockerIsLower(units, rank, Back(before, u, n).value, Back(before, u, n - 1).value);
    }
  }

  /** Whatever the times, a build whose recorded edges have no cycle has no unit twice. */
  lemma AcyclicEdgesDoNotRepeat(units: seq<Unit>, rank: int -> int)
    requires units != [] && Ranked(units, rank)
    ensures !Repeats(PathBack(units))
  {
    var before, last := Stepper(units), LastOf(units);
    RepeatsIffCycle(before, last, 81);
    StepperStepsBack(units);
    if i: nat, d: nat :| CycleAt(before, last, i, d) && i + d < 81 {
      BackTwice(before, last, i, d);
      BackLowers(units, before, rank, Back(before, last, i).value, d);
      assert false;
    }
  }

  /** A unit recorded as unblocking itself, done before the jitter is over. */
  const LOOP := Unit(7, "loop", 0.0, 0.25, [7], [], [])

  lemma LoopBefore()
    ensures Before([LOOP], LOOP) == Some(LOOP)
  {
    var b := Blocker(LOOP, LOOP.End());
    LoopIsBlocker(b);
    BeforeIsLastBlocker([LOOP], LOOP);
    assert Eligible([LOOP], LOOP, b);
    LastBlockerIn([LOOP], LOOP);
  }

  lemma LoopIsBlocker(b: Blocker)
    requires b == Blocker(LOOP, LOOP.End())
    ensures Eligible([LOOP], LOOP, b)
  {}

  lemma LastBlockerIn(units: seq<Unit>, u: Unit)
    requires Before(units, u).Some?
    ensures Before(units, u).value in units
  {
    BeforeIsLastBlocker(units, u);
    var b: Blocker :| b.unit == Before(units, u).value && Eligible(units, u, b);
  }

  lemma {:induction false} LoopWalk(before: Step, u: Unit, n: nat)
    requires n > 0 && before(u) == Some(u)
    ensures |Walk(before, u, n)| == n && forall i :: 0 <= i < n ==> Walk(before, u, n)[i] == u
    decreases n
  {
    if n > 1 { LoopWalk(before, u, n - 1); }
  }

  /** Its critical path is that unit, 81 times. */
  method LoopFillsThePath() returns (path: seq<Unit>)
    ensures |path| == 81 && Repeats(path) && forall i :: 0 <= i < 81 ==> path[i] == LOOP
  {
    var r := FindCriticalPath([LOOP]);
    LoopBefore();
    LoopWalk(Stepper([LOOP]), LOOP, 81);
    path := r.value;
    assert path[0] == path[1];
  }
}
