/** Analysis of a build timing report: windows of low parallelism and the critical path. */
module BuildTimings {

  import opened Options

  datatype Section = Section(name: string, start: real, end: real)

  datatype Unit = Unit(id: int, name: string, start: real, duration: real,
                       unblocked: seq<int>, unblockedRmeta: seq<int>, sections: seq<Section>)
  {
    function End(): real {
      start + duration
    }
  }

  // ---------------------------------------------------------------- how many units run when

  ghost predicate RunsAt(u: Unit, x: real) {
    u.start <= x < u.End()
  }

  ghost function Running(units: seq<Unit>, x: real): nat {
    if units == [] then 0
    else Running(units[..|units| - 1], x) + if RunsAt(units[|units| - 1], x) then 1 else 0
  }

  /** A unit starts (+1) or ends (-1). */
  datatype Event = Event(t: real, d: int)

  function EventsOf(units: seq<Unit>): (events: seq<Event>)
    ensures |events| == 2 * |units|
  {
    if units == [] then []
    else
      var u := units[|units| - 1];
      EventsOf(units[..|units| - 1]) + [Event(u.start, 1), Event(u.End(), -1)]
  }

  ghost predicate Sorted(events: seq<Event>) {
    forall i, j :: 0 <= i < j < |events| ==> events[i].t <= events[j].t
  }

  /** The count kept by the sweep after n events. */
  ghost function Active(events: seq<Event>, n: nat): int
    requires n <= |events|
  {
    if n == 0 then 0 else Active(events, n - 1) + events[n - 1].d
  }

  /** The events up to time x, summed. */
  ghost function SumUpTo(events: seq<Event>, x: real): int {
    if events == [] then 0
    else SumUpTo(events[..|events| - 1], x) + Contribution(events[|events| - 1], x)
  }

  ghost function Contribution(e: Event, x: real): int {
    if e.t <= x then e.d else 0
  }

  lemma SumAppend(events: seq<Event>, e: Event, x: real)
    ensures SumUpTo(events + [e], x) == SumUpTo(events, x) + Contribution(e, x)
  {
    assert (events + [e])[..|events + [e]| - 1] == events;
  }

  lemma {:induction false} SumConcat(a: seq<Event>, b: seq<Event>, x: real)
    ensures SumUpTo(a + b, x) == SumUpTo(a, x) + SumUpTo(b, x)
  {
    if b == [] {
      assert a + b == a;
    } else {
      var init, last := b[..|b| - 1], b[|b| - 1];
      SumConcat(a, init, x);
      assert a + b == (a + init) + [last];
      SumAppend(a + init, last, x);
    }
  }

  /** The last event, found in another order of the events. */
  lemma SplitAtLast(a: seq<Event>, b: seq<Event>) returns (left: seq<Event>, right: seq<Event>)
    requires a != [] && multiset(a) == multiset(b)
    ensures b == left + [a[|a| - 1]] + right && multiset(a[..|a| - 1]) == multiset(left + right)
  {
    var init, e := a[..|a| - 1], a[|a| - 1];
    assert a == init + [e];
    assert e in multiset(a) && e in multiset(b);
    var i :| 0 <= i < |b| && b[i] == e;
    left, right := b[..i], b[i + 1..];
    assert b == left + [e] + right;
    WithoutOne(init, [], e);
    WithoutOne(left, right, e);
    assert init + [] == init && init + [e] + [] == a;
  }

  lemma WithoutOne(a: seq<Event>, b: seq<Event>, e: Event)
    ensures multiset(a + b) == multiset(a + [e] + b) - multiset{e}
  {
    assert multiset(a + [e] + b) == multiset(a + b) + multiset{e};
  }

  /** The sum does not depend on the order of the events. */
  lemma {:induction false} SumOfPermutation(a: seq<Event>, b: seq<Event>, x: real)
    requires multiset(a) == multiset(b)
    ensures SumUpTo(a, x) == SumUpTo(b, x)
    decreases |a|
  {
    if a == [] {
      assert |multiset(a)| == |a| && |multiset(b)| == |b|;
    } else {
      var init, e := a[..|a| - 1], a[|a| - 1];
      assert a == init + [e];
      var left, right := SplitAtLast(a, b);
      SumOfPermutation(init, left + right, x);
      SumAppend(left, e, x);
      SumConcat(left + [e], right, x);
      SumConcat(left, right, x);
    }
  }

  ghost predicate NonNegative(units: seq<Unit>) {
    forall i :: 0 <= i < |units| ==> units[i].start >= 0.0 && units[i].duration >= 0.0
  }

  lemma {:induction false} SumIsRunning(units: seq<Unit>, x: real)
    requires NonNegative(units)
    ensures SumUpTo(EventsOf(units), x) == Running(units, x)
  {
    if units != [] {
      var init, u := units[..|units| - 1], units[|units| - 1];
      SumIsRunning(init, x);
      SumAppend(EventsOf(init), Event(u.start, 1), x);
      SumAppend(EventsOf(init) + [Event(u.start, 1)], Event(u.End(), -1), x);
      assert EventsOf(units) == EventsOf(init) + [Event(u.start, 1)] + [Event(u.End(), -1)];
    }
  }

  lemma {:induction false} ActiveIsSum(events: seq<Event>, n: nat, x: real)
    requires n <= |events| && (forall i :: 0 <= i < |events| ==> (events[i].t <= x <==> i < n))
    ensures Active(events, n) == SumUpTo(events, x)
    decreases |events|
  {
    if events != [] {
      var init := events[..|events| - 1];
      if n == |events| {
        ActiveIsSum(init, n - 1, x);
        ActiveOfPrefix(events, |events| - 1, n - 1);
      } else {
        ActiveIsSum(init, n, x);
        ActiveOfPrefix(events, |events| - 1, n);
      }
    }
  }

  lemma {:induction false} ActiveOfPrefix(events: seq<Event>, m: nat, n: nat)
    requires n <= m <= |events|
    ensures Active(events[..m], n) == Active(events, n)
  {
    if n > 0 { ActiveOfPrefix(events, m, n - 1); }
  }

  // ---------------------------------------------------------------- the timeline

  ghost function EndTime(units: seq<Unit>): real
    requires units != []
  {
    var u := units[|units| - 1];
    if |units| == 1 then u.End()
    else
      var rest := EndTime(units[..|units| - 1]);
      if rest > u.End() then rest else u.End()
  }

  lemma {:induction false} EndTimeBounds(units: seq<Unit>, i: nat)
    requires i < |units|
    ensures units[i].End() <= EndTime(units)
  {
    if i < |units| - 1 { EndTimeBounds(units[..|units| - 1], i); }
  }

  /** Events in time order, ties in any order, of units that started at or after time 0. */
  ghost predicate Timeline(units: seq<Unit>, events: seq<Event>) {
    units != [] && NonNegative(units) && Sorted(events) && multiset(events) == multiset(EventsOf(units))
  }

  /** When the n-th count takes effect; the last one lasts until everything has ended. */
  ghost function Time(units: seq<Unit>, events: seq<Event>, n: nat): real
    requires units != [] && n <= |events| + 1
  {
    if n == 0 then 0.0 else if n <= |events| then events[n - 1].t else EndTime(units)
  }

  lemma {:induction false} EventOfUnit(units: seq<Unit>, e: Event)
    requires units != [] && NonNegative(units) && e in EventsOf(units)
    ensures 0.0 <= e.t <= EndTime(units)
  {
    var init, u := units[..|units| - 1], units[|units| - 1];
    EndTimeBounds(units, |units| - 1);
    if e in EventsOf(init) {
      EventOfUnit(init, e);
    }
  }

  lemma TimeMonotone(units: seq<Unit>, events: seq<Event>, m: nat, n: nat)
    requires Timeline(units, events) && m <= n <= |events| + 1
    ensures 0.0 <= Time(units, events, m) <= Time(units, events, n)
  {
    if 0 < m <= |events| {
      assert events[m - 1] in multiset(events);
      EventOfUnit(units, events[m - 1]);
    }
    if 0 < n <= |events| {
      assert events[n - 1] in multiset(events);
      EventOfUnit(units, events[n - 1]);
    }
    if m == 0 && n == |events| + 1 { EndTimeBounds(units, 0); }
    if m == |events| + 1 { EndTimeBounds(units, 0); }
  }

  /** The count in effect at time x. */
  lemma {:induction false} CountAt(units: seq<Unit>, events: seq<Event>, n: nat, x: real)
    requires Timeline(units, events) && n <= |events|
    requires Time(units, events, n) <= x < Time(units, events, n + 1)
    ensures Active(events, n) == Running(units, x)
  {
    forall i | 0 <= i < |events| ensures events[i].t <= x <==> i < n {
      if i < n { TimeMonotone(units, events, i + 1, n); } else { TimeMonotone(units, events, n + 1, i + 1); }
    }
    ActiveIsSum(events, n, x);
    SumOfPermutation(events, EventsOf(units), x);
    SumIsRunning(units, x);
  }

  lemma {:induction false} FindCount(units: seq<Unit>, events: seq<Event>, x: real, k: nat) returns (n: nat)
    requires Timeline(units, events) && k <= |events| + 1 && 0.0 <= x < Time(units, events, k)
    ensures n < k && Time(units, events, n) <= x < Time(units, events, n + 1)
    decreases k
  {
    if x < Time(units, events, k - 1) {
      n := FindCount(units, events, x, k - 1);
    } else {
      n := k - 1;
    }
  }

  // ---------------------------------------------------------------- the sweep

  /** A stretch of consecutive counts, first to last. */
  datatype Run = Run(first: nat, last: nat)

  datatype Sweep = Sweep(closed: seq<Run>, open: Option<nat>)

  ghost predicate Low(events: seq<Event>, maxActive: int, n: nat)
    requires n <= |events|
  {
    Active(events, n) <= maxActive
  }

  /** The stretches the sweep has closed after n events, and where the open one began. */
  ghost function SweepTo(events: seq<Event>, maxActive: int, n: nat): Sweep
    requires n <= |events|
  {
    if n == 0 then Sweep([], Some(0))
    else
      var s := SweepTo(events, maxActive, n - 1);
      if !Low(events, maxActive, n - 1) && Low(events, maxActive, n) then Sweep(s.closed, Some(n))
      else if Low(events, maxActive, n - 1) && !Low(events, maxActive, n) && s.open.Some? then
        Sweep(s.closed + [Run(s.open.value, n - 1)], None)
      else s
  }

  ghost function AllRuns(events: seq<Event>, maxActive: int): seq<Run> {
    var s := SweepTo(events, maxActive, |events|);
    if s.open.Some? then s.closed + [Run(s.open.value, |events|)] else s.closed
  }

  /** A stretch of low counts that cannot be extended. */
  ghost predicate MaximalRun(events: seq<Event>, maxActive: int, r: Run) {
    && r.first <= r.last <= |events|
    && (forall k :: r.first <= k <= r.last ==> Low(events, maxActive, k))
    && (r.first > 0 ==> !Low(events, maxActive, r.first - 1))
    && (r.last < |events| ==> !Low(events, maxActive, r.last + 1))
  }

  lemma {:induction false} SweepOpen(events: seq<Event>, maxActive: nat, n: nat)
    requires n <= |events|
    ensures var o := SweepTo(events, maxActive, n).open;
            && (o.Some? <==> Low(events, maxActive, n))
            && (o.Some? ==> o.value <= n && (forall k :: o.value <= k <= n ==> Low(events, maxActive, k)))
            && (o.Some? && o.value > 0 ==> !Low(events, maxActive, o.value - 1))
  {
    if n > 0 { SweepOpen(events, maxActive, n - 1); }
  }

  ghost predicate AllMaximal(events: seq<Event>, maxActive: int, n: nat, runs: seq<Run>) {
    forall a :: 0 <= a < |runs| ==> runs[a].last < n && MaximalRun(events, maxActive, runs[a])
  }

  lemma {:induction false} SweepClosed(events: seq<Event>, maxActive: nat, n: nat)
    requires n <= |events|
    ensures AllMaximal(events, maxActive, n, SweepTo(events, maxActive, n).closed)
  {
    if n > 0 {
      SweepClosed(events, maxActive, n - 1);
      SweepOpen(events, maxActive, n - 1);
    }
  }

  ghost predicate Ordered(runs: seq<Run>) {
    forall a, b :: 0 <= a < b < |runs| ==> runs[a].last < runs[b].first
  }

  lemma {:induction false} SweepOrdered(events: seq<Event>, maxActive: nat, n: nat)
    requires n <= |events|
    ensures var s := SweepTo(events, maxActive, n);
            && Ordered(s.closed)
            && (s.open.Some? ==> forall a :: 0 <= a < |s.closed| ==> s.closed[a].last < s.open.value)
  {
    if n > 0 {
      SweepOrdered(events, maxActive, n - 1);
      SweepOpen(events, maxActive, n - 1);
      SweepClosed(events, maxActive, n - 1);
    }
  }

  ghost predicate InRun(runs: seq<Run>, k: nat) {
    exists a :: 0 <= a < |runs| && runs[a].first <= k <= runs[a].last
  }

  lemma {:induction false} SweepCovers(events: seq<Event>, maxActive: nat, n: nat, k: nat)
    requires k <= n <= |events| && Low(events, maxActive, k)
    ensures var s := SweepTo(events, maxActive, n);
            InRun(s.closed, k) || (s.open.Some? && s.open.value <= k)
  {
    SweepOpen(events, maxActive, n);
    if k < n {
      SweepCovers(events, maxActive, n - 1, k);
      SweepOpen(events, maxActive, n - 1);
      var before, after := SweepTo(events, maxActive, n - 1), SweepTo(events, maxActive, n);
      if InRun(before.closed, k) {
        var a :| 0 <= a < |before.closed| && before.closed[a].first <= k <= before.closed[a].last;
        assert after.closed[a] == before.closed[a];
      } else if after.open != before.open {
        assert after.closed[|before.closed|] == Run(before.open.value, n - 1);
      }
    }
  }

  lemma RunsCover(events: seq<Event>, maxActive: nat, k: nat)
    requires k <= |events| && Low(events, maxActive, k)
    ensures InRun(AllRuns(events, maxActive), k)
  {
    var n := |events|;
    var s, runs := SweepTo(events, maxActive, n), AllRuns(events, maxActive);
    SweepCovers(events, maxActive, n, k);
    if InRun(s.closed, k) {
      var a :| 0 <= a < |s.closed| && s.closed[a].first <= k <= s.closed[a].last;
      assert runs[a] == s.closed[a];
    } else {
      assert runs[|s.closed|] == Run(s.open.value, n);
    }
  }

  /** The sweep finds exactly the maximal stretches of low counts, in order. */
  lemma RunsAreMaximal(events: seq<Event>, maxActive: nat)
    ensures var runs := AllRuns(events, maxActive);
            && Ordered(runs)
            && (forall a :: 0 <= a < |runs| ==> MaximalRun(events, maxActive, runs[a]))
            && (forall k :: 0 <= k <= |events| && Low(events, maxActive, k) ==> InRun(runs, k))
  {
    var n := |events|;
    var runs := AllRuns(events, maxActive);
    SweepOpen(events, maxActive, n);
    SweepClosed(events, maxActive, n);
    SweepOrdered(events, maxActive, n);
    forall k | 0 <= k <= |events| && Low(events, maxActive, k) ensures InRun(runs, k) { RunsCover(events, maxActive, k); }
  }

  // ---------------------------------------------------------------- windows

  datatype Window = Window(s: real, e: real)

  ghost function WindowOf(units: seq<Unit>, events: seq<Event>, r: Run): Window
    requires units != [] && r.first <= r.last <= |events|
  {
    Window(Time(units, events, r.first), Time(units, events, r.last + 1))
  }

  ghost predicate RunsInRange(runs: seq<Run>, n: nat) {
    forall a :: 0 <= a < |runs| ==> runs[a].first <= runs[a].last <= n
  }

  /** The windows of some stretches that last longer than minDur. */
  ghost function Kept(units: seq<Unit>, events: seq<Event>, runs: seq<Run>, minDur: real): seq<Window>
    requires units != [] && RunsInRange(runs, |events|)
  {
    if runs == [] then []
    else
      var w := WindowOf(units, events, runs[|runs| - 1]);
      Kept(units, events, runs[..|runs| - 1], minDur) + if w.e - w.s > minDur then [w] else []
  }

  /** What the sweep reports. */
  ghost function Reported(units: seq<Unit>, events: seq<Event>, maxActive: nat, minDur: real): seq<Window>
    requires units != []
  {
    RunsAreMaximal(events, maxActive);
    Kept(units, events, AllRuns(events, maxActive), minDur)
  }

  ghost predicate LongRun(units: seq<Unit>, events: seq<Event>, minDur: real, r: Run, w: Window)
    requires units != []
  {
    r.first <= r.last <= |events| && WindowOf(units, events, r) == w && w.e - w.s > minDur
  }

  lemma {:induction false} KeptWindows(units: seq<Unit>, events: seq<Event>, runs: seq<Run>, minDur: real, w: Window)
    requires units != [] && RunsInRange(runs, |events|)
    ensures w in Kept(units, events, runs, minDur) <==>
            exists a :: 0 <= a < |runs| && LongRun(units, events, minDur, runs[a], w)
  {
    if runs != [] {
      var init, last := runs[..|runs| - 1], runs[|runs| - 1];
      KeptWindows(units, events, init, minDur, w);
      if a: nat :| a < |init| && LongRun(units, events, minDur, init[a], w) {
        assert LongRun(units, events, minDur, runs[a], w);
      }
      if a: nat :| a < |runs| && LongRun(units, events, minDur, runs[a], w) {
        if a < |init| { assert LongRun(units, events, minDur, init[a], w); }
      }
    }
  }

  lemma ReportedRun(units: seq<Unit>, events: seq<Event>, maxActive: nat, minDur: real, w: Window) returns (r: Run)
    requires units != [] && w in Reported(units, events, maxActive, minDur)
    ensures MaximalRun(events, maxActive, r) && r in AllRuns(events, maxActive)
    ensures WindowOf(units, events, r) == w && w.e - w.s > minDur
  {
    RunsAreMaximal(events, maxActive);
    var runs := AllRuns(events, maxActive);
    KeptWindows(units, events, runs, minDur, w);
    var a :| 0 <= a < |runs| && LongRun(units, events, minDur, runs[a], w);
    r := runs[a];
  }

  lemma RunReported(units: seq<Unit>, events: seq<Event>, maxActive: nat, minDur: real, r: Run)
    requires units != [] && r in AllRuns(events, maxActive) && r.first <= r.last <= |events|
    requires WindowOf(units, events, r).e - WindowOf(units, events, r).s > minDur
    ensures WindowOf(units, events, r) in Reported(units, events, maxActive, minDur)
  {
    RunsAreMaximal(events, maxActive);
    var runs := AllRuns(events, maxActive);
    KeptWindows(units, events, runs, minDur, WindowOf(units, events, r));
    var a :| 0 <= a < |runs| && runs[a] == r;
    assert LongRun(units, events, minDur, runs[a], WindowOf(units, events, r));
  }

  /** An instant lies in the window of a stretch exactly when its count lies in the stretch. */
  lemma CountInRun(units: seq<Unit>, events: seq<Event>, r: Run, n: nat, x: real)
    requires Timeline(units, events) && r.first <= r.last <= |events| && n <= |events|
    requires Time(units, events, n) <= x < Time(units, events, n + 1)
    ensures r.first <= n <= r.last <==> WindowOf(units, events, r).s <= x < WindowOf(units, events, r).e
  {
    if n < r.first {
      TimeMonotone(units, events, n + 1, r.first);
    } else if n > r.last {
      TimeMonotone(units, events, r.last + 1, n);
    } else {
      TimeMonotone(units, events, r.first, n);
      TimeMonotone(units, events, n + 1, r.last + 1);
    }
  }

  lemma WindowBounds(units: seq<Unit>, events: seq<Event>, r: Run)
    requires Timeline(units, events) && r.first <= r.last <= |events|
    ensures 0.0 <= WindowOf(units, events, r).s && WindowOf(units, events, r).e <= EndTime(units)
  {
    TimeMonotone(units, events, r.first, r.first);
    TimeMonotone(units, events, r.last + 1, |events| + 1);
  }

  lemma RunIsQuiet(units: seq<Unit>, events: seq<Event>, maxActive: nat, r: Run, x: real)
    requires Timeline(units, events) && MaximalRun(events, maxActive, r)
    requires WindowOf(units, events, r).s <= x < WindowOf(units, events, r).e
    ensures Running(units, x) <= maxActive
  {
    WindowBounds(units, events, r);
    var n := FindCount(units, events, x, |events| + 1);
    CountInRun(units, events, r, n, x);
    assert Low(events, maxActive, n);
    CountAt(units, events, n, x);
  }

  /** Every instant with few units running is in the window of some stretch. */
  lemma QuietIsInRun(units: seq<Unit>, events: seq<Event>, maxActive: nat, x: real) returns (r: Run)
    requires Timeline(units, events) && 0.0 <= x < EndTime(units) && Running(units, x) <= maxActive
    ensures r in AllRuns(events, maxActive) && MaximalRun(events, maxActive, r)
    ensures WindowOf(units, events, r).s <= x < WindowOf(units, events, r).e
  {
    var n := FindCount(units, events, x, |events| + 1);
    CountAt(units, events, n, x);
    RunsAreMaximal(events, maxActive);
    var runs := AllRuns(events, maxActive);
    assert Low(events, maxActive, n);
    var a :| 0 <= a < |runs| && runs[a].first <= n <= runs[a].last;
    r := runs[a];
    CountInRun(units, events, r, n, x);
  }

  /** In any order of tied events: throughout a reported window at most maxActive units run. */
  lemma WindowsAreQuiet(units: seq<Unit>, events: seq<Event>, maxActive: nat, minDur: real, w: Window, x: real)
    requires Timeline(units, events) && w in Reported(units, events, maxActive, minDur) && w.s <= x < w.e
    ensures Running(units, x) <= maxActive && 0.0 <= x < EndTime(units)
  {
    var r := ReportedRun(units, events, maxActive, minDur, w);
    WindowBounds(units, events, r);
    RunIsQuiet(units, events, maxActive, r, x);
  }

  /** In any order of tied events: with no minimum, every such instant is in a reported window. */
  lemma WindowsCover(units: seq<Unit>, events: seq<Event>, maxActive: nat, x: real)
    requires Timeline(units, events) && 0.0 <= x < EndTime(units) && Running(units, x) <= maxActive
    ensures exists w :: w in Reported(units, events, maxActive, 0.0) && w.s <= x < w.e
  {
    var r := QuietIsInRun(units, events, maxActive, x);
    RunReported(units, events, maxActive, 0.0, r);
  }

  ghost predicate InTimeOrder(ws: seq<Window>) {
    forall a, b :: 0 <= a < b < |ws| ==> ws[a].e <= ws[b].s
  }

  lemma {:induction false} KeptOrdered(units: seq<Unit>, events: seq<Event>, runs: seq<Run>, minDur: real)
    requires Timeline(units, events) && RunsInRange(runs, |events|) && Ordered(runs)
    ensures InTimeOrder(Kept(units, events, runs, minDur))
  {
    if runs != [] {
      var init, last := runs[..|runs| - 1], runs[|runs| - 1];
      KeptOrdered(units, events, init, minDur);
      var ws := Kept(units, events, init, minDur);
      forall a | 0 <= a < |ws| ensures ws[a].e <= WindowOf(units, events, last).s {
        KeptWindows(units, events, init, minDur, ws[a]);
        var k :| 0 <= k < |init| && LongRun(units, events, minDur, init[k], ws[a]);
        assert runs[k].last < last.first;
        TimeMonotone(units, events, init[k].last + 1, last.first);
      }
    }
  }

  /** In any order of tied events: the windows are in time order and do not overlap. */
  lemma WindowsAreOrdered(units: seq<Unit>, events: seq<Event>, maxActive: nat, minDur: real)
    requires Timeline(units, events)
    ensures InTimeOrder(Reported(units, events, maxActive, minDur))
  {
    RunsAreMaximal(events, maxActive);
    KeptOrdered(units, events, AllRuns(events, maxActive), minDur);
  }

  // ---------------------------------------------------------------- maximal windows

  ghost predicate Quiet(units: seq<Unit>, maxActive: nat, a: real, b: real)
    requires units != []
  {
    0.0 <= a < b <= EndTime(units) && forall x :: a <= x < b ==> Running(units, x) <= maxActive
  }

  ghost predicate Maximal(units: seq<Unit>, maxActive: nat, a: real, b: real)
    requires units != []
  {
    Quiet(units, maxActive, a, b) &&
    forall a', b' :: a' <= a && b <= b' && Quiet(units, maxActive, a', b') ==> a' == a && b' == b
  }

  /** The report is exactly the maximal quiet intervals that last longer than minDur. */
  ghost predicate Exact(units: seq<Unit>, events: seq<Event>, maxActive: nat, minDur: real)
    requires units != []
  {
    forall w :: w in Reported(units, events, maxActive, minDur) <==>
      Maximal(units, maxActive, w.s, w.e) && w.e - w.s > minDur
  }

  /** Events at one instant, in the order they are swept, lift the count above maxActive although
      it is at most maxActive just before and just after that instant. */
  ghost predicate Spike(units: seq<Unit>, events: seq<Event>, maxActive: nat, a: nat, n: nat, b: nat)
    requires units != []
  {
    && a < n < b <= |events|
    && Low(events, maxActive, a) && !Low(events, maxActive, n) && Low(events, maxActive, b)
    && Time(units, events, a) < Time(units, events, a + 1) == Time(units, events, b) < Time(units, events, b + 1)
  }

  /** The last count of positive length before time t. */
  lemma {:induction false} LastBefore(units: seq<Unit>, events: seq<Event>, t: real, lo: nat, hi: nat) returns (k: nat)
    requires Timeline(units, events) && lo <= hi <= |events|
    requires Time(units, events, lo) < t == Time(units, events, hi + 1)
    ensures lo <= k <= hi && Time(units, events, k) < t == Time(units, events, k + 1)
    decreases hi - lo
  {
    if Time(units, events, hi) < t {
      k := hi;
    } else {
      TimeMonotone(units, events, hi, hi + 1);
      k := LastBefore(units, events, t, lo, hi - 1);
    }
  }

  /** A run whose window ends inside a quiet interval ends in a spike. */
  lemma SpikeAtEnd(units: seq<Unit>, events: seq<Event>, maxActive: nat, r: Run, a: real, b: real) returns (k: nat, n: nat)
    requires Timeline(units, events) && Quiet(units, maxActive, a, b)
    requires r in AllRuns(events, maxActive) && MaximalRun(events, maxActive, r)
    requires WindowOf(units, events, r).s <= a < WindowOf(units, events, r).e < b
    ensures Spike(units, events, maxActive, k, r.last + 1, n) && Time(units, events, n) == WindowOf(units, events, r).e
  {
    var t := WindowOf(units, events, r).e;
    assert Running(units, t) <= maxActive;
    TimeMonotone(units, events, 0, r.last + 1);
    n := FindCount(units, events, t, |events| + 1);
    CountAt(units, events, n, t);
    if n < r.last + 1 { TimeMonotone(units, events, n + 1, r.last + 1); }
    TimeMonotone(units, events, r.last + 1, n);
    k := LastBefore(units, events, t, r.first, r.last);
  }

  lemma RunIsQuietInterval(units: seq<Unit>, events: seq<Event>, maxActive: nat, r: Run)
    requires Timeline(units, events) && MaximalRun(events, maxActive, r)
    requires WindowOf(units, events, r).s < WindowOf(units, events, r).e
    ensures Quiet(units, maxActive, WindowOf(units, events, r).s, WindowOf(units, events, r).e)
  {
    var w := WindowOf(units, events, r);
    WindowBounds(units, events, r);
    forall x | w.s <= x < w.e ensures Running(units, x) <= maxActive {
      RunIsQuiet(units, events, maxActive, r, x);
    }
  }

  /** Two stretches of the sweep whose windows share an instant are the same. */
  lemma SameRun(units: seq<Unit>, events: seq<Event>, maxActive: nat, r: Run, q: Run, x: real)
    requires Timeline(units, events) && r in AllRuns(events, maxActive) && q in AllRuns(events, maxActive)
    requires r.first <= r.last <= |events| && q.first <= q.last <= |events|
    requires WindowOf(units, events, r).s <= x < WindowOf(units, events, r).e
    requires WindowOf(units, events, q).s <= x < WindowOf(units, events, q).e
    ensures r == q
  {
    WindowBounds(units, events, r);
    var n := FindCount(units, events, x, |events| + 1);
    CountInRun(units, events, r, n, x);
    CountInRun(units, events, q, n, x);
    RunsAreMaximal(events, maxActive);
    var runs := AllRuns(events, maxActive);
    var i :| 0 <= i < |runs| && runs[i] == r;
    var j :| 0 <= j < |runs| && runs[j] == q;
  }

  // A quiet interval extended as far as it goes.

  lemma {:induction false} QuietTo(units: seq<Unit>, events: seq<Event>, maxActive: nat, a: real, k: nat) returns (e: real)
    requires Timeline(units, events) && k <= |events| + 1 && Quiet(units, maxActive, a, Time(units, events, k))
    ensures Quiet(units, maxActive, a, e) && Time(units, events, k) <= e
    ensures e == EndTime(units) || Running(units, e) > maxActive
    decreases |events| + 1 - k
  {
    e := Time(units, events, k);
    if k <= |events| && Running(units, e) <= maxActive {
      TimeMonotone(units, events, k, k + 1);
      TimeMonotone(units, events, k + 1, |events| + 1);
      QuietCount(units, events, maxActive, k);
      e := QuietTo(units, events, maxActive, a, k + 1);
    }
  }

  lemma {:induction false} QuietFrom(units: seq<Unit>, events: seq<Event>, maxActive: nat, b: real, k: nat) returns (s: real)
    requires Timeline(units, events) && k <= |events| && Quiet(units, maxActive, Time(units, events, k), b)
    ensures Quiet(units, maxActive, s, b) && s <= Time(units, events, k) && Blocked(units, maxActive, s)
    decreases k
  {
    s := Time(units, events, k);
    if k > 0 {
      var t := Time(units, events, k - 1);
      TimeMonotone(units, events, k - 1, k);
      QuietCount(units, events, maxActive, k - 1);
      if t == s || Running(units, t) <= maxActive {
        s := QuietFrom(units, events, maxActive, b, k - 1);
      } else {
        assert Busy(units, maxActive, t, s);
      }
    }
  }

  /** Just before s too many units run, or s is the start. */
  ghost predicate Blocked(units: seq<Unit>, maxActive: nat, s: real) {
    s == 0.0 || exists l :: 0.0 <= l < s && Busy(units, maxActive, l, s)
  }

  ghost predicate Busy(units: seq<Unit>, maxActive: nat, l: real, s: real) {
    forall x :: l <= x < s ==> Running(units, x) > maxActive
  }

  lemma BusyIsNotQuiet(units: seq<Unit>, maxActive: nat, l: real, s: real, a: real, b: real)
    requires units != [] && l < s && Busy(units, maxActive, l, s) && a < s <= b
    ensures !Quiet(units, maxActive, a, b)
  {
    var x := if a < l then l else a;
    assert Running(units, x) > maxActive;
  }

  /** The number of units running does not change while one count is in effect. */
  lemma QuietCount(units: seq<Unit>, events: seq<Event>, maxActive: nat, n: nat)
    requires Timeline(units, events) && n <= |events|
    ensures var t, t' := Time(units, events, n), Time(units, events, n + 1);
            0.0 <= t && forall x :: t <= x < t' ==> Running(units, x) == Running(units, t)
  {
    TimeMonotone(units, events, n, n + 1);
    forall x | Time(units, events, n) <= x < Time(units, events, n + 1)
      ensures Running(units, x) == Running(units, Time(units, events, n))
    {
      CountAt(units, events, n, x);
      CountAt(units, events, n, Time(units, events, n));
    }
  }

  lemma BlockedIsMaximal(units: seq<Unit>, maxActive: nat, s: real, e: real)
    requires units != [] && Quiet(units, maxActive, s, e) && Blocked(units, maxActive, s)
    requires e == EndTime(units) || Running(units, e) > maxActive
    ensures Maximal(units, maxActive, s, e)
  {
    forall a, b | a <= s && e <= b && Quiet(units, maxActive, a, b) ensures a == s && b == e {
      if a < s {
        var l :| 0.0 <= l < s && Busy(units, maxActive, l, s);
        BusyIsNotQuiet(units, maxActive, l, s, a, b);
        assert false;
      }
    }
  }

  lemma MaximalAround(units: seq<Unit>, events: seq<Event>, maxActive: nat, r: Run) returns (w: Window)
    requires Timeline(units, events) && MaximalRun(events, maxActive, r)
    requires WindowOf(units, events, r).s < WindowOf(units, events, r).e
    ensures Maximal(units, maxActive, w.s, w.e)
    ensures w.s <= WindowOf(units, events, r).s && WindowOf(units, events, r).e <= w.e
  {
    RunIsQuietInterval(units, events, maxActive, r);
    var e := QuietTo(units, events, maxActive, Time(units, events, r.first), r.last + 1);
    var s := QuietFrom(units, events, maxActive, e, r.first);
    BlockedIsMaximal(units, maxActive, s, e);
    w := Window(s, e);
  }

  /** A spike strictly inside a maximal quiet interval that lasts longer than minDur. */
  ghost predicate SpikeInside(units: seq<Unit>, events: seq<Event>, maxActive: nat, minDur: real, w: Window, a: nat, n: nat, b: nat)
    requires units != []
  {
    && Maximal(units, maxActive, w.s, w.e) && w.e - w.s > minDur
    && Spike(units, events, maxActive, a, n, b) && w.s < Time(units, events, b) < w.e
  }

  ghost predicate NoSpikeInside(units: seq<Unit>, events: seq<Event>, maxActive: nat, minDur: real)
    requires units != []
  {
    forall w, a, n, b :: !SpikeInside(units, events, maxActive, minDur, w, a, n, b)
  }

  lemma InsideIsNotReported(units: seq<Unit>, events: seq<Event>, maxActive: nat, minDur: real, w: Window, a: nat, n: nat, b: nat)
    requires Timeline(units, events) && SpikeInside(units, events, maxActive, minDur, w, a, n, b)
    ensures w !in Reported(units, events, maxActive, minDur)
  {
    if w in Reported(units, events, maxActive, minDur) {
      var r := ReportedRun(units, events, maxActive, minDur, w);
      SpikeInRun(units, events, maxActive, r, a, n, b);
      assert false;
    }
  }

  lemma SpikeInRun(units: seq<Unit>, events: seq<Event>, maxActive: nat, r: Run, a: nat, n: nat, b: nat)
    requires Timeline(units, events) && r.first <= r.last <= |events| && Spike(units, events, maxActive, a, n, b)
    requires WindowOf(units, events, r).s < Time(units, events, b) < WindowOf(units, events, r).e
    ensures r.first <= n <= r.last && !MaximalRun(events, maxActive, r)
  {
    TimeMonotone(units, events, a + 1, n);
    TimeMonotone(units, events, n, b);
    TimeOrder(units, events, r.first, n);
    TimeOrder(units, events, n, r.last + 1);
    assert !Low(events, maxActive, n);
  }

  lemma TimeOrder(units: seq<Unit>, events: seq<Event>, m: nat, n: nat)
    requires Timeline(units, events) && m <= |events| + 1 && n <= |events| + 1
    requires Time(units, events, m) < Time(units, events, n)
    ensures m < n
  {
    if n <= m {
      TimeMonotone(units, events, n, m);
      assert false;
    }
  }

  lemma MaximalIsReported(units: seq<Unit>, events: seq<Event>, maxActive: nat, minDur: real, w: Window) returns (r: Run)
    requires Timeline(units, events) && NoSpikeInside(units, events, maxActive, minDur) && minDur >= 0.0
    requires Maximal(units, maxActive, w.s, w.e) && w.e - w.s > minDur
    ensures w in Reported(units, events, maxActive, minDur)
    ensures r in AllRuns(events, maxActive) && MaximalRun(events, maxActive, r) && WindowOf(units, events, r) == w
  {
    assert Running(units, w.s) <= maxActive;
    r := QuietIsInRun(units, events, maxActive, w.s);
    if WindowOf(units, events, r).e < w.e {
      EarlyEndIsSpike(units, events, maxActive, minDur, w, r);
      assert false;
    }
    RunIsQuietInterval(units, events, maxActive, r);
    RunReported(units, events, maxActive, minDur, r);
  }

  lemma EarlyEndIsSpike(units: seq<Unit>, events: seq<Event>, maxActive: nat, minDur: real, w: Window, r: Run)
    requires Timeline(units, events) && Maximal(units, maxActive, w.s, w.e) && w.e - w.s > minDur
    requires r in AllRuns(events, maxActive) && MaximalRun(events, maxActive, r)
    requires WindowOf(units, events, r).s <= w.s < WindowOf(units, events, r).e < w.e
    ensures !NoSpikeInside(units, events, maxActive, minDur)
  {
    var a, b := SpikeAtEnd(units, events, maxActive, r, w.s, w.e);
    assert SpikeInside(units, events, maxActive, minDur, w, a, r.last + 1, b);
  }

  lemma ReportedIsMaximal(units: seq<Unit>, events: seq<Event>, maxActive: nat, minDur: real, w: Window)
    requires Timeline(units, events) && NoSpikeInside(units, events, maxActive, minDur) && minDur >= 0.0
    requires w in Reported(units, events, maxActive, minDur)
    ensures Maximal(units, maxActive, w.s, w.e) && w.e - w.s > minDur
  {
    var r := ReportedRun(units, events, maxActive, minDur, w);
    var m := MaximalAround(units, events, maxActive, r);
    var q := MaximalIsReported(units, events, maxActive, minDur, m);
    SameRun(units, events, maxActive, r, q, w.s);
  }

  /** For each minimum duration: the report is exact if and only if no spike lies inside a maximal
      quiet interval longer than it. */
  lemma ExactIffNoSpike(units: seq<Unit>, events: seq<Event>, maxActive: nat, minDur: real)
    requires Timeline(units, events) && minDur >= 0.0
    ensures Exact(units, events, maxActive, minDur) <==> NoSpikeInside(units, events, maxActive, minDur)
  {
    if NoSpikeInside(units, events, maxActive, minDur) {
      forall w ensures w in Reported(units, events, maxActive, minDur) <==>
                       Maximal(units, maxActive, w.s, w.e) && w.e - w.s > minDur
      {
        if w in Reported(units, events, maxActive, minDur) {
          ReportedIsMaximal(units, events, maxActive, minDur, w);
        } else if Maximal(units, maxActive, w.s, w.e) && w.e - w.s > minDur {
          var _ := MaximalIsReported(units, events, maxActive, minDur, w);
        }
      }
    } else {
      var w, a, n, b :| SpikeInside(units, events, maxActive, minDur, w, a, n, b);
      InsideIsNotReported(units, events, maxActive, minDur, w, a, n, b);
    }
  }

  lemma SpikeTies(units: seq<Unit>, events: seq<Event>, maxActive: nat, a: nat, n: nat, b: nat)
    requires units != [] && Spike(units, events, maxActive, a, n, b)
    ensures exists i, j :: 0 <= i < j < |events| && events[i].t == events[j].t
  {
    assert events[a].t == events[b - 1].t;
  }

  /** Distinct event times leave no room for a spike. */
  lemma DistinctTimesAreExact(units: seq<Unit>, events: seq<Event>, maxActive: nat, minDur: real)
    requires Timeline(units, events) && minDur >= 0.0
    requires forall i, j :: 0 <= i < j < |events| ==> events[i].t != events[j].t
    ensures Exact(units, events, maxActive, minDur)
  {
    ExactIffNoSpike(units, events, maxActive, minDur);
    if w: Window, a: nat, n: nat, b: nat :| SpikeInside(units, events, maxActive, minDur, w, a, n, b) {
      SpikeTies(units, events, maxActive, a, n, b);
      assert false;
    }
  }

  ghost const LATER := Unit(0, "b", 5.0, 5.0, [], [], [])
  ghost const EARLIER := Unit(1, "a", 0.0, 5.0, [], [], [])
  ghost const TIED_UNITS := [LATER, EARLIER]
  ghost const TIED_EVENTS := [Event(0.0, 1), Event(5.0, 1), Event(5.0, -1), Event(10.0, -1)]

  lemma TiedEventsOf()
    ensures EventsOf(TIED_UNITS) == [Event(5.0, 1), Event(10.0, -1), Event(0.0, 1), Event(5.0, -1)]
    ensures EndTime(TIED_UNITS) == 10.0
  {
    assert TIED_UNITS[..1] == [LATER] && [LATER][..0] == [];
    assert EventsOf([LATER]) == [Event(5.0, 1), Event(10.0, -1)];
  }

  lemma TiedOrder()
    ensures StableEvents(TIED_UNITS) == TIED_EVENTS
  {
    var e1, e2, e3, e4 := Event(5.0, 1), Event(10.0, -1), Event(0.0, 1), Event(5.0, -1);
    TiedEventsOf();
    StableSortFour(e1, e2, e3, e4);
    assert Inserted([], e1) == [e1];
    assert Inserted([e1], e2) == [e1, e2];
    assert [e1, e2][..1] == [e1] && [e1][..0] == [];
    assert Inserted([e1], e3) == [e3, e1];
    assert Inserted([e1, e2], e3) == [e3, e1, e2];
    assert [e3, e1, e2][..2] == [e3, e1];
    assert Inserted([e3, e1], e4) == [e3, e1, e4];
    assert Inserted([e3, e1, e2], e4) == [e3, e1, e4, e2];
  }

  lemma StableSortFour(a: Event, b: Event, c: Event, d: Event)
    ensures StableSort([a, b, c, d]) == Inserted(Inserted(Inserted(Inserted([], a), b), c), d)
  {
    assert [a, b, c, d][..3] == [a, b, c] && [a, b, c][..2] == [a, b] && [a, b][..1] == [a] && [a][..0] == [];
    assert StableSort([a]) == Inserted([], a);
    assert StableSort([a, b]) == Inserted(StableSort([a]), b);
    assert StableSort([a, b, c]) == Inserted(StableSort([a, b]), c);
  }

  lemma TiedRunning(x: real)
    ensures Running(TIED_UNITS, x) == if 0.0 <= x < 10.0 then 1 else 0
  {
    assert TIED_UNITS[..1] == [LATER] && [LATER][..0] == [];
    assert Running([LATER], x) == if RunsAt(LATER, x) then 1 else 0;
  }

  lemma TiedSpike(minDur: real)
    requires minDur < 10.0
    ensures SpikeInside(TIED_UNITS, TIED_EVENTS, 1, minDur, Window(0.0, 10.0), 1, 2, 3)
  {
    TiedEventsOf();
    assert Active(TIED_EVENTS, 1) == 1;
    assert Active(TIED_EVENTS, 2) == 2;
    assert Active(TIED_EVENTS, 3) == 1;
    forall x | 0.0 <= x < 10.0 ensures Running(TIED_UNITS, x) <= 1 { TiedRunning(x); }
  }

  /** With ties the report can miss the point: two units that run one after the other, listed with
      the later one first, are never more than one at a time, yet their ten seconds are not
      reported as one window, whatever the minimum. */
  lemma TiesCanSplit(minDur: real)
    requires 0.0 <= minDur < 10.0
    ensures !Exact(TIED_UNITS, StableEvents(TIED_UNITS), 1, minDur)
    ensures Window(0.0, 10.0) !in Reported(TIED_UNITS, StableEvents(TIED_UNITS), 1, minDur)
  {
    TiedOrder();
    StableTimeline(TIED_UNITS);
    TiedSpike(minDur);
    InsideIsNotReported(TIED_UNITS, TIED_EVENTS, 1, minDur, Window(0.0, 10.0), 1, 2, 3);
  }

  // ---------------------------------------------------------------- the order of tied events

  /** e after all that are no later. */
  ghost function Inserted(events: seq<Event>, e: Event): seq<Event> {
    if events == [] || events[|events| - 1].t <= e.t then events + [e]
    else Inserted(events[..|events| - 1], e) + [events[|events| - 1]]
  }

  ghost function StableSort(raw: seq<Event>): seq<Event> {
    if raw == [] then [] else Inserted(StableSort(raw[..|raw| - 1]), raw[|raw| - 1])
  }

  /** The order in which the sweep sees the events of these units. */
  ghost function StableEvents(units: seq<Unit>): seq<Event> {
    StableSort(EventsOf(units))
  }

  /** The events at one instant, in order. */
  ghost function AtTime(events: seq<Event>, t: real): seq<Event> {
    if events == [] then []
    else AtTime(events[..|events| - 1], t) + if events[|events| - 1].t == t then [events[|events| - 1]] else []
  }

  lemma AtTimeLast(events: seq<Event>, e: Event, t: real)
    ensures AtTime(events + [e], t) == AtTime(events, t) + if e.t == t then [e] else []
  {
    assert (events + [e])[..|events|] == events;
  }

  lemma {:induction false} InsertedIsStable(events: seq<Event>, e: Event, t: real)
    requires Sorted(events)
    ensures AtTime(Inserted(events, e), t) == AtTime(events, t) + if e.t == t then [e] else []
    decreases |events|
  {
    if events == [] || events[|events| - 1].t <= e.t {
      AtTimeLast(events, e, t);
    } else {
      var init, last := events[..|events| - 1], events[|events| - 1];
      InsertedIsStable(init, e, t);
      AtTimeLast(Inserted(init, e), last, t);
    }
  }

  lemma {:induction false} InsertedIsSorted(events: seq<Event>, e: Event)
    requires Sorted(events)
    ensures Sorted(Inserted(events, e)) && multiset(Inserted(events, e)) == multiset(events) + multiset{e}
    ensures forall x :: x in Inserted(events, e) ==> x in events || x == e
    decreases |events|
  {
    if events != [] && events[|events| - 1].t > e.t {
      var init, last := events[..|events| - 1], events[|events| - 1];
      InsertedIsSorted(init, e);
      assert events == init + [last];
      SortedLast(Inserted(init, e), last);
    }
  }

  lemma SortedLast(events: seq<Event>, last: Event)
    requires Sorted(events) && forall x :: x in events ==> x.t <= last.t
    ensures Sorted(events + [last])
  {}

  lemma {:induction false} StableSortSorts(raw: seq<Event>)
    ensures Sorted(StableSort(raw)) && multiset(StableSort(raw)) == multiset(raw)
    decreases |raw|
  {
    if raw != [] {
      var init, last := raw[..|raw| - 1], raw[|raw| - 1];
      StableSortSorts(init);
      InsertedIsSorted(StableSort(init), last);
      assert raw == init + [last];
    }
  }

  /** Events at the same time keep the order they had: units in order, a start before its own end. */
  lemma {:induction false} StableSortIsStable(raw: seq<Event>, t: real)
    ensures AtTime(StableSort(raw), t) == AtTime(raw, t)
    decreases |raw|
  {
    if raw != [] {
      StableSortIsStable(raw[..|raw| - 1], t);
      StableSortSorts(raw[..|raw| - 1]);
      InsertedIsStable(StableSort(raw[..|raw| - 1]), raw[|raw| - 1], t);
    }
  }

  lemma StableTimeline(units: seq<Unit>)
    requires units != [] && NonNegative(units)
    ensures Timeline(units, StableEvents(units))
  {
    StableSortSorts(EventsOf(units));
  }

  // ---------------------------------------------------------------- the code

  /** Events by time; earlier ones first among equals. */
  method SortEvents(raw: seq<Event>) returns (events: seq<Event>)
    ensures events == StableSort(raw)
  {
    events := [];
    for i := 0 to |raw|
      invariant events == StableSort(raw[..i])
    {
      assert raw[..i + 1][..i] == raw[..i];
      events := InsertEvent(events, raw[i]);
    }
    assert raw[..|raw|] == raw;
  }

  method InsertEvent(events: seq<Event>, e: Event) returns (r: seq<Event>)
    ensures r == Inserted(events, e)
  {
    var k := |events|;
    assert events[..k] == events && events[k..] == [];
    while k > 0 && e.t < events[k - 1].t
      invariant 0 <= k <= |events| && Inserted(events, e) == Inserted(events[..k], e) + events[k..]
    {
      InsertBefore(events, e, k);
      k := k - 1;
    }
    r := events[..k] + [e] + events[k..];
  }

  lemma InsertBefore(events: seq<Event>, e: Event, k: nat)
    requires 0 < k <= |events| && e.t < events[k - 1].t
    ensures Inserted(events[..k], e) + events[k..] == Inserted(events[..k - 1], e) + events[k - 1..]
  {
    assert events[..k][..k - 1] == events[..k - 1] && events[k - 1..] == [events[k - 1]] + events[k..];
  }

  /** The names of the units that overlap a window, each once, in order of first appearance. */
  function Overlapping(units: seq<Unit>, since: real, until: Option<real>): (names: seq<string>)
    ensures forall x :: x in names <==>
      exists i :: 0 <= i < |units| && units[i].name == x && units[i].End() > since && (until.Some? ==> units[i].start < until.value)
    ensures forall i, j :: 0 <= i < j < |names| ==> names[i] != names[j]
  {
    if units == [] then []
    else
      var names, u := Overlapping(units[..|units| - 1], since, until), units[|units| - 1];
      if u.End() > since && (until.Some? ==> u.start < until.value) && u.name !in names then names + [u.name] else names
  }

  /** A reported window with the names of the units running in it. */
  datatype Report = Report(window: Window, names: seq<string>)

  ghost function WindowsOf(out: seq<Report>): seq<Window> {
    seq(|out|, i requires 0 <= i < |out| => out[i].window)
  }

  ghost predicate NamesRunning(units: seq<Unit>, r: Report) {
    || r.names == Overlapping(units, r.window.s, Some(r.window.e))
    || (units != [] && r.window.e == EndTime(units) && r.names == Overlapping(units, r.window.s, None))
  }

  ghost predicate AllNamed(units: seq<Unit>, out: seq<Report>) {
    forall i :: 0 <= i < |out| ==> NamesRunning(units, out[i])
  }

  /** The windows of the stretches closed after n events. */
  ghost function ReportedTo(units: seq<Unit>, events: seq<Event>, maxActive: nat, n: nat, minDur: real): seq<Window>
    requires units != [] && n <= |events|
  {
    ClosedInRange(events, maxActive, n);
    Kept(units, events, SweepTo(events, maxActive, n).closed, minDur)
  }

  lemma ClosedInRange(events: seq<Event>, maxActive: nat, n: nat)
    requires n <= |events|
    ensures RunsInRange(SweepTo(events, maxActive, n).closed, |events|)
  {
    SweepClosed(events, maxActive, n);
    var c := SweepTo(events, maxActive, n).closed;
    forall a | 0 <= a < |c| ensures c[a].first <= c[a].last <= |events| {
      assert MaximalRun(events, maxActive, c[a]);
    }
  }

  /** When the open stretch began. */
  ghost function SinceAt(units: seq<Unit>, events: seq<Event>, maxActive: nat, n: nat): Option<real>
    requires units != [] && n <= |events|
  {
    SweepOpen(events, maxActive, n);
    var o := SweepTo(events, maxActive, n).open;
    if o.Some? then Some(Time(units, events, o.value)) else None
  }

  lemma ReportStep(units: seq<Unit>, events: seq<Event>, maxActive: nat, n: nat, minDur: real)
    requires units != [] && n < |events|
    ensures var was, now := Low(events, maxActive, n), Low(events, maxActive, n + 1);
            var since, t := SinceAt(units, events, maxActive, n), events[n].t;
            var more := if was && !now && since.Some? && t - since.value > minDur then [Window(since.value, t)] else [];
            && ReportedTo(units, events, maxActive, n + 1, minDur) == ReportedTo(units, events, maxActive, n, minDur) + more
            && SinceAt(units, events, maxActive, n + 1) ==
                 if !was && now then Some(t) else if was && !now && since.Some? then None else since
  {
    SweepClosed(events, maxActive, n);
    SweepClosed(events, maxActive, n + 1);
    SweepOpen(events, maxActive, n);
    SweepOpen(events, maxActive, n + 1);
    var before, after := SweepTo(events, maxActive, n), SweepTo(events, maxActive, n + 1);
    if after.closed != before.closed {
      assert after.closed[..|after.closed| - 1] == before.closed;
    }
  }

  lemma ReportEnd(units: seq<Unit>, events: seq<Event>, maxActive: nat, minDur: real)
    requires units != []
    ensures var n := |events|;
            var since, t := SinceAt(units, events, maxActive, n), EndTime(units);
            var more := if since.Some? && t - since.value > minDur then [Window(since.value, t)] else [];
            Reported(units, events, maxActive, minDur) == ReportedTo(units, events, maxActive, n, minDur) + more
  {
    var n := |events|;
    SweepClosed(events, maxActive, n);
    SweepOpen(events, maxActive, n);
    RunsAreMaximal(events, maxActive);
    var s := SweepTo(events, maxActive, n);
    if s.open.Some? {
      assert AllRuns(events, maxActive)[..|s.closed|] == s.closed;
    }
  }

  method LastEnd(units: seq<Unit>) returns (end: real)
    requires units != []
    ensures end == EndTime(units)
  {
    end := units[0].End();
    for i := 1 to |units|
      invariant end == EndTime(units[..i])
    {
      assert units[..i + 1][..i] == units[..i];
      if end <= units[i].End() { end := units[i].End(); }
    }
    assert units[..|units|] == units;
  }

  /** Report a window if it lasts longer than minDur. */
  method Close(units: seq<Unit>, out: seq<Report>, since: real, t: real, last: bool, minDur: real) returns (out': seq<Report>)
    requires AllNamed(units, out) && (last ==> units != [] && t == EndTime(units))
    ensures WindowsOf(out') == WindowsOf(out) + if t - since > minDur then [Window(since, t)] else []
    ensures AllNamed(units, out')
  {
    out' := out;
    if t - since > minDur {
      var names := Overlapping(units, since, if last then None else Some(t));
      out' := out + [Report(Window(since, t), names)];
    }
  }

  /** `serialWindows`. */
  method SerialWindows(units: seq<Unit>, maxActive: nat, minDur: real) returns (out: seq<Report>)
    ensures WindowsOf(out) == if units == [] then [] else Reported(units, StableEvents(units), maxActive, minDur)
    ensures AllNamed(units, out)
  {
    var evs := SortEvents(EventsOf(units));
    out := [];
    if units == [] { return; }
    var active, since := 0, Some(0.0);
    var i := 0;
    while i < |evs|
      invariant 0 <= i <= |evs| && active == Active(evs, i) && since == SinceAt(units, evs, maxActive, i)
      invariant WindowsOf(out) == ReportedTo(units, evs, maxActive, i, minDur) && AllNamed(units, out)
    {
      ReportStep(units, evs, maxActive, i, minDur);
      var t, was := evs[i].t, active;
      active := active + evs[i].d;
      if was > maxActive && active <= maxActive { since := Some(t); }
      if was <= maxActive && active > maxActive && since.Some? {
        out := Close(units, out, since.value, t, false, minDur);
        since := None;
      }
      i := i + 1;
    }
    ReportEnd(units, evs, maxActive, minDur);
    if since.Some? {
      var end := LastEnd(units);
      out := Close(units, out, since.value, end, true, minDur);
    }
  }
}
