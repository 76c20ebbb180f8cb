/** Finding the slowest CI tests: the durations read from one log, and the pool of workers that
    merges the logs of all jobs in whatever order their fetches complete. */
module TestTimes {
  import opened Options

  // ---------------------------------------------------------------- one log

  /** A line that announces a test: its time and the name as it was cut from the line. */
  datatype Header = Header(time: int, name: string)

  function Get(m: map<string, int>, k: string): int {
    if k in m then m[k] else 0
  }

  /** The durations after the headers seen so far. */
  ghost function Parsed(hs: seq<Header>, clean: string -> string): map<string, int> {
    if |hs| < 2 then map[]
    else
      var n := |hs| - 1;
      var m := Parsed(hs[..n], clean);
      if hs[n - 1].name == "" then m
      else m[clean(hs[n - 1].name) := Get(m, clean(hs[n - 1].name)) + (hs[n].time - hs[n - 1].time)]
  }

  /** `parseLog`, after the lines were matched. */
  method ParseLog(hs: seq<Header>, clean: string -> string) returns (out: map<string, int>)
    ensures out == Parsed(hs, clean)
  {
    out := map[];
    var curName, curStart := "", 0;
    var i := 0;
    while i < |hs|
      invariant i <= |hs| && out == Parsed(hs[..i], clean)
      invariant i == 0 ==> curName == ""
      invariant i > 0 ==> curName == hs[i - 1].name && curStart == hs[i - 1].time
    {
      assert hs[..i + 1][..i] == hs[..i];
      if curName != "" {
        var name := clean(curName);
        out := out[name := Get(out, name) + (hs[i].time - curStart)];
      }
      curStart, curName := hs[i].time, hs[i].name;
      i := i + 1;
    }
    assert hs[..i] == hs;
  }

  /** The time spent in a file: the gaps after the headers that name it. */
  ghost function Elapsed(hs: seq<Header>, clean: string -> string, file: string): int {
    if |hs| < 2 then 0
    else
      var n := |hs| - 1;
      Elapsed(hs[..n], clean, file) +
      if hs[n - 1].name != "" && clean(hs[n - 1].name) == file then hs[n].time - hs[n - 1].time else 0
  }

  /** The time after headers whose name is empty, which no file is charged for. */
  ghost function Skipped(hs: seq<Header>): int {
    if |hs| < 2 then 0
    else
      var n := |hs| - 1;
      Skipped(hs[..n]) + if hs[n - 1].name == "" then hs[n].time - hs[n - 1].time else 0
  }

  lemma {:induction false} ParsedIsElapsed(hs: seq<Header>, clean: string -> string, file: string)
    ensures Get(Parsed(hs, clean), file) == Elapsed(hs, clean, file)
    decreases |hs|
  {
    if |hs| >= 2 {
      ParsedIsElapsed(hs[..|hs| - 1], clean, file);
    }
  }

  ghost predicate Ordered(hs: seq<Header>) {
    forall i :: 0 < i < |hs| ==> hs[i - 1].time <= hs[i].time
  }

  ghost predicate NonNegative(m: map<string, int>) {
    forall k :: k in m ==> m[k] >= 0
  }

  lemma {:induction false} OrderedIsNonNegative(hs: seq<Header>, clean: string -> string)
    requires Ordered(hs)
    ensures NonNegative(Parsed(hs, clean))
    decreases |hs|
  {
    if |hs| >= 2 {
      OrderedIsNonNegative(hs[..|hs| - 1], clean);
    }
  }

  ghost function Pick(m: map<string, int>): (k: string)
    requires m != map[]
    ensures k in m
  {
    var k :| k in m; k
  }

  ghost function Total(m: map<string, int>): int
    decreases |m|
  {
    if m == map[] then 0
    else
      var k := Pick(m);
      m[k] + Total(m - {k})
  }

  lemma {:induction false} TotalRemove(m: map<string, int>, k: string)
    requires k in m
    ensures Total(m) == m[k] + Total(m - {k})
    decreases |m|
  {
    var p := Pick(m);
    if p != k {
      TotalRemove(m - {p}, k);
      TotalRemove(m - {k}, p);
      assert m - {p} - {k} == m - {k} - {p};
    }
  }

  lemma TotalAdd(m: map<string, int>, k: string, d: int)
    ensures Total(m[k := Get(m, k) + d]) == Total(m) + d
  {
    var u := m[k := Get(m, k) + d];
    TotalRemove(u, k);
    assert u - {k} == m - {k};
    if k in m { TotalRemove(m, k); } else { assert m - {k} == m; }
  }

  /** The durations add up to the time from the first header to the last, less what was skipped. */
  lemma {:induction false} DurationsAddUp(hs: seq<Header>, clean: string -> string)
    requires hs != []
    ensures Total(Parsed(hs, clean)) + Skipped(hs) == hs[|hs| - 1].time - hs[0].time
    decreases |hs|
  {
    if |hs| >= 2 {
      var n := |hs| - 1;
      DurationsAddUp(hs[..n], clean);
      TotalAdd(Parsed(hs[..n], clean), clean(hs[n - 1].name), hs[n].time - hs[n - 1].time);
    }
  }

  // ---------------------------------------------------------------- merging logs

  datatype Agg = Agg(maxMs: int, maxPlat: string, perPlat: map<string, int>)

  datatype Job = Job(id: string, plat: string)

  /** What a job contributes; nothing when its log could not be fetched. */
  datatype Report = Report(plat: string, times: map<string, int>)

  /** One file of one report. */
  function Charge(a: Agg, plat: string, ms: int): Agg {
    var total := Get(a.perPlat, plat) + ms;
    var perPlat := a.perPlat[plat := total];
    if total > a.maxMs then Agg(total, plat, perPlat) else Agg(a.maxMs, a.maxPlat, perPlat)
  }

  function Entry(agg: map<string, Agg>, file: string): Agg {
    if file in agg then agg[file] else Agg(0, "", map[])
  }

  ghost function Merge(agg: map<string, Agg>, r: Report, files: set<string>): map<string, Agg>
    requires files <= r.times.Keys
  {
    map f | f in agg.Keys + files :: if f in files then Charge(Entry(agg, f), r.plat, r.times[f]) else Entry(agg, f)
  }

  /** All reports of these jobs, merged in this order. */
  ghost function MergeAll(js: seq<Job>, report: Job -> Report): map<string, Agg> {
    if js == [] then map[]
    else
      var r := report(js[|js| - 1]);
      Merge(MergeAll(js[..|js| - 1], report), r, r.times.Keys)
  }

  ghost function Sum(f: Job -> int, js: seq<Job>): int {
    if js == [] then 0 else Sum(f, js[..|js| - 1]) + f(js[|js| - 1])
  }

  ghost predicate Names(r: Report, file: string, plat: string) {
    r.plat == plat && file in r.times
  }

  /** What a job charges to a file on a platform. */
  ghost function Share(report: Job -> Report, file: string, plat: string): Job -> int {
    (j: Job) => if Names(report(j), file, plat) then report(j).times[file] else 0
  }

  ghost predicate Mentioned(js: seq<Job>, report: Job -> Report, file: string, plat: string) {
    exists j :: j in js && Names(report(j), file, plat)
  }

  lemma MergeStep(agg: map<string, Agg>, r: Report, file: string, plat: string)
    ensures var was, now := Entry(agg, file).perPlat, Entry(Merge(agg, r, r.times.Keys), file).perPlat;
            && (plat in now <==> plat in was || Names(r, file, plat))
            && Get(now, plat) == Get(was, plat) + if Names(r, file, plat) then r.times[file] else 0
  {}

  lemma MentionedLast(js: seq<Job>, j: Job, report: Job -> Report, file: string, plat: string)
    ensures Mentioned(js + [j], report, file, plat) <==> Mentioned(js, report, file, plat) || Names(report(j), file, plat)
  {
    assert j in js + [j];
    if Mentioned(js, report, file, plat) {
      var i :| i in js && Names(report(i), file, plat);
      assert i in js + [j];
    }
  }

  /** A file's total on a platform is the sum over the jobs, and it is there when some job named it. */
  lemma {:induction false} MergeTotals(js: seq<Job>, report: Job -> Report, file: string, plat: string)
    ensures Get(Entry(MergeAll(js, report), file).perPlat, plat) == Sum(Share(report, file, plat), js)
    ensures plat in Entry(MergeAll(js, report), file).perPlat <==> Mentioned(js, report, file, plat)
    decreases |js|
  {
    if js != [] {
      var init, j := js[..|js| - 1], js[|js| - 1];
      MergeTotals(init, report, file, plat);
      MergeStep(MergeAll(init, report), report(j), file, plat);
      MentionedLast(init, j, report, file, plat);
      assert js == init + [j];
    }
  }

  ghost predicate AllNonNegative(js: seq<Job>, report: Job -> Report) {
    forall j :: j in js ==> NonNegative(report(j).times)
  }

  // ---------------------------------------------------------------- the recorded maximum

  /** The recorded maximum is the largest total, whatever platform is recorded for it; it is 0 for a
      file without totals. */
  ghost predicate IsLargest(a: Agg) {
    && (forall p :: p in a.perPlat ==> a.perPlat[p] <= a.maxMs)
    && if a.perPlat == map[] then a.maxMs == 0 else exists p :: p in a.perPlat && a.perPlat[p] == a.maxMs
  }

  /** It is, and a positive one is that of the recorded platform. */
  ghost predicate IsMax(a: Agg) {
    && (forall p :: p in a.perPlat ==> a.perPlat[p] <= a.maxMs)
    && if a.maxMs > 0 then a.maxPlat in a.perPlat && a.perPlat[a.maxPlat] == a.maxMs
       else a.maxMs == 0 && (a.perPlat == map[] || exists p :: p in a.perPlat && a.perPlat[p] == 0)
  }

  /** The total that job k - 1 brought its platform to. */
  ghost function Running(js: seq<Job>, report: Job -> Report, file: string, k: nat): int
    requires 0 < k <= |js|
  {
    Sum(Share(report, file, report(js[k - 1]).plat), js[..k])
  }

  /** The highest total that any platform ever had, or 0. */
  ghost function Peak(js: seq<Job>, report: Job -> Report, file: string): int {
    if js == [] then 0
    else
      var before, n := Peak(js[..|js| - 1], report, file), |js|;
      if file in report(js[n - 1]).times && Running(js, report, file, n) > before then Running(js, report, file, n) else before
  }

  /** How many jobs had completed when it was first reached; 0 if no total was ever positive. */
  ghost function PeakAt(js: seq<Job>, report: Job -> Report, file: string): (k: nat)
    ensures k <= |js|
  {
    if js == [] then 0
    else
      var init, n := js[..|js| - 1], |js|;
      if file in report(js[n - 1]).times && Running(js, report, file, n) > Peak(init, report, file) then n
      else PeakAt(init, report, file)
  }

  lemma RunningOfPrefix(js: seq<Job>, report: Job -> Report, file: string, k: nat)
    requires 0 < k < |js|
    ensures Running(js[..|js| - 1], report, file, k) == Running(js, report, file, k)
  {
    assert js[..|js| - 1][..k] == js[..k];
  }

  /** The peak bounds every running total, is 0 or one of them, and is what is recorded. */
  lemma {:induction false} PeakIsReached(js: seq<Job>, report: Job -> Report, file: string)
    ensures var k, p := PeakAt(js, report, file), Peak(js, report, file);
            if k == 0 then p == 0 else file in report(js[k - 1]).times && p == Running(js, report, file, k) > 0
    decreases |js|
  {
    if js != [] {
      var init, k := js[..|js| - 1], PeakAt(js, report, file);
      PeakIsReached(init, report, file);
      PeakStarts(init, report, file);
      if 0 < k < |js| { RunningOfPrefix(js, report, file, k); }
    }
  }

  lemma {:induction false} PeakStarts(js: seq<Job>, report: Job -> Report, file: string)
    ensures Peak(js, report, file) >= 0
    decreases |js|
  {
    if js != [] { PeakStarts(js[..|js| - 1], report, file); }
  }

  lemma {:induction false} PeakBounds(js: seq<Job>, report: Job -> Report, file: string, k: nat)
    requires 0 < k <= |js| && file in report(js[k - 1]).times
    ensures Running(js, report, file, k) <= Peak(js, report, file)
    decreases |js|
  {
    if k < |js| {
      PeakBounds(js[..|js| - 1], report, file, k);
      RunningOfPrefix(js, report, file, k);
    }
  }

  lemma ChargeMax(agg: map<string, Agg>, r: Report, file: string)
    ensures var was, now := Entry(agg, file), Entry(Merge(agg, r, r.times.Keys), file);
            if file !in r.times then now == was
            else
              var total := Get(now.perPlat, r.plat);
              if total > was.maxMs then now.maxMs == total && now.maxPlat == r.plat
              else now.maxMs == was.maxMs && now.maxPlat == was.maxPlat
  {}

  /** Whatever the durations, what is recorded is the peak and the platform that first reached it. */
  lemma {:induction false} MaxIsPeak(js: seq<Job>, report: Job -> Report, file: string)
    ensures var a, k := Entry(MergeAll(js, report), file), PeakAt(js, report, file);
            a.maxMs == Peak(js, report, file) && a.maxPlat == if k == 0 then "" else report(js[k - 1]).plat
    decreases |js|
  {
    if js != [] {
      var init, n := js[..|js| - 1], |js|;
      var r := report(js[n - 1]);
      MaxIsPeak(init, report, file);
      ChargeMax(MergeAll(init, report), r, file);
      MergeTotals(js, report, file, r.plat);
      assert js[..n] == js;
    }
  }

  /** A total is the running total after the last job that charged it. */
  lemma {:induction false} TotalIsRunning(js: seq<Job>, report: Job -> Report, file: string, plat: string) returns (k: nat)
    requires Mentioned(js, report, file, plat)
    ensures 0 < k <= |js| && Names(report(js[k - 1]), file, plat)
    ensures Sum(Share(report, file, plat), js) == Running(js, report, file, k)
    decreases |js|
  {
    var init, n := js[..|js| - 1], |js|;
    assert js == init + [js[n - 1]] && js[..n] == js;
    if Names(report(js[n - 1]), file, plat) {
      k := n;
    } else {
      MentionedLast(init, js[n - 1], report, file, plat);
      k := TotalIsRunning(init, report, file, plat);
      RunningOfPrefix(js, report, file, k);
    }
  }

  lemma {:induction false} SumConcat(f: Job -> int, a: seq<Job>, b: seq<Job>)
    ensures Sum(f, a + b) == Sum(f, a) + Sum(f, b)
    decreases |b|
  {
    if b == [] {
      assert a + b == a;
    } else {
      SumConcat(f, a, b[..|b| - 1]);
      assert (a + b)[..|a + b| - 1] == a + b[..|b| - 1];
    }
  }

  lemma SumAround(f: Job -> int, js: seq<Job>, k: nat)
    requires k <= |js|
    ensures Sum(f, js) == Sum(f, js[..k]) + Sum(f, js[k..])
  {
    SumConcat(f, js[..k], js[k..]);
    assert js == js[..k] + js[k..];
  }

  /** What the platform that reached the peak is charged afterwards. */
  ghost function AfterPeak(js: seq<Job>, report: Job -> Report, file: string): int {
    var k := PeakAt(js, report, file);
    if k == 0 then 0 else Sum(Share(report, file, report(js[k - 1]).plat), js[k..])
  }

  lemma NoneAboveMax(js: seq<Job>, report: Job -> Report, file: string, plat: string)
    requires plat in Entry(MergeAll(js, report), file).perPlat
    ensures Entry(MergeAll(js, report), file).perPlat[plat] <= Entry(MergeAll(js, report), file).maxMs
  {
    MergeTotals(js, report, file, plat);
    var k := TotalIsRunning(js, report, file, plat);
    PeakBounds(js, report, file, k);
    MaxIsPeak(js, report, file);
  }

  lemma PeakPlatform(js: seq<Job>, report: Job -> Report, file: string)
    ensures var a, k := Entry(MergeAll(js, report), file), PeakAt(js, report, file);
            if k == 0 then a.maxMs == 0
            else a.maxMs > 0 && a.maxPlat in a.perPlat && a.perPlat[a.maxPlat] == a.maxMs + AfterPeak(js, report, file)
  {
    var k := PeakAt(js, report, file);
    PeakIsReached(js, report, file);
    MaxIsPeak(js, report, file);
    if k > 0 {
      var plat := report(js[k - 1]).plat;
      assert js[k - 1] in js && Names(report(js[k - 1]), file, plat);
      MergeTotals(js, report, file, plat);
      SumAround(Share(report, file, plat), js, k);
    }
  }

  /** Once some total was positive, the platform that first reached the peak is charged nothing in sum
      afterwards; if none ever was, some platform is charged 0 in sum or the file is never named. */
  ghost predicate KeepsPeak(js: seq<Job>, report: Job -> Report, file: string) {
    if PeakAt(js, report, file) > 0 then AfterPeak(js, report, file) == 0
    else
      || (forall plat :: !Mentioned(js, report, file, plat))
      || exists plat :: Mentioned(js, report, file, plat) && Sum(Share(report, file, plat), js) == 0
  }

  lemma SomeTotalIff(js: seq<Job>, report: Job -> Report, file: string, ms: int)
    ensures var t := Entry(MergeAll(js, report), file).perPlat;
            && (t == map[] <==> forall plat :: !Mentioned(js, report, file, plat))
            && ((exists p :: p in t && t[p] == ms) <==>
                 exists plat :: Mentioned(js, report, file, plat) && Sum(Share(report, file, plat), js) == ms)
  {
    var t := Entry(MergeAll(js, report), file).perPlat;
    forall plat ensures (plat in t <==> Mentioned(js, report, file, plat)) && Get(t, plat) == Sum(Share(report, file, plat), js) {
      MergeTotals(js, report, file, plat);
    }
    if t == map[] { assert forall plat :: plat !in t; }
    if p :| p in t && t[p] == ms { assert Mentioned(js, report, file, p); }
  }

  /** Some platform ends at the peak, or the file is never named. */
  ghost predicate EndsAtPeak(js: seq<Job>, report: Job -> Report, file: string) {
    || (forall plat :: !Mentioned(js, report, file, plat))
    || exists plat :: Mentioned(js, report, file, plat) && Sum(Share(report, file, plat), js) == Peak(js, report, file)
  }

  /** For any durations: the recorded maximum is the largest total if and only if some platform, not
      necessarily the one that first reached the peak, ends at it. */
  lemma LargestIff(js: seq<Job>, report: Job -> Report, file: string)
    ensures IsLargest(Entry(MergeAll(js, report), file)) <==> EndsAtPeak(js, report, file)
  {
    var a := Entry(MergeAll(js, report), file);
    MaxIsPeak(js, report, file);
    PeakPlatform(js, report, file);
    SomeTotalIff(js, report, file, Peak(js, report, file));
    forall p | p in a.perPlat ensures a.perPlat[p] <= a.maxMs { NoneAboveMax(js, report, file, p); }
  }

  /** It is the largest total and that of the recorded platform if and only if that platform keeps it. */
  lemma MaxIff(js: seq<Job>, report: Job -> Report, file: string)
    ensures IsMax(Entry(MergeAll(js, report), file)) <==> KeepsPeak(js, report, file)
  {
    var a := Entry(MergeAll(js, report), file);
    PeakPlatform(js, report, file);
    SomeTotalIff(js, report, file, 0);
    forall p | p in a.perPlat ensures a.perPlat[p] <= a.maxMs { NoneAboveMax(js, report, file, p); }
  }

  lemma {:induction false} SumNonNegative(f: Job -> int, js: seq<Job>)
    requires forall j :: j in js ==> f(j) >= 0
    ensures Sum(f, js) >= 0
    decreases |js|
  {
    if js != [] { SumNonNegative(f, js[..|js| - 1]); }
  }

  /** Without negative durations it always is. */
  lemma MaximaAreLargest(js: seq<Job>, report: Job -> Report, file: string)
    requires AllNonNegative(js, report)
    ensures IsMax(Entry(MergeAll(js, report), file))
  {
    var a, k := Entry(MergeAll(js, report), file), PeakAt(js, report, file);
    MaxIff(js, report, file);
    PeakPlatform(js, report, file);
    if k > 0 {
      NoneAboveMax(js, report, file, a.maxPlat);
      SumNonNegative(Share(report, file, report(js[k - 1]).plat), js[k..]);
    } else if plat :| Mentioned(js, report, file, plat) {
      MergeTotals(js, report, file, plat);
      NoneAboveMax(js, report, file, plat);
      SumNonNegative(Share(report, file, plat), js);
    }
  }

  // ---------------------------------------------------------------- any order of completion

  lemma {:induction false} SumSplit(f: Job -> int, a: seq<Job>, j: Job, b: seq<Job>)
    ensures Sum(f, a + [j] + b) == Sum(f, a + b) + f(j)
    decreases |b|
  {
    if b == [] {
      assert a + [j] + b == a + [j] && a + b == a && (a + [j])[..|a|] == a;
    } else {
      var n := |b| - 1;
      SumSplit(f, a, j, b[..n]);
      assert (a + [j] + b)[..|a| + 1 + n] == a + [j] + b[..n];
      assert (a + b)[..|a| + n] == a + b[..n];
    }
  }

  /** The last element of a sequence, found in a permutation of it. */
  lemma SameWithout(js: seq<Job>, ks: seq<Job>) returns (i: nat)
    requires js != [] && multiset(js) == multiset(ks)
    ensures i < |ks| && ks[i] == js[|js| - 1] && multiset(js[..|js| - 1]) == multiset(ks[..i] + ks[i + 1..])
  {
    var n, j := |js| - 1, js[|js| - 1];
    assert js == js[..n] + [j];
    assert j in multiset(js) && j in multiset(ks);
    i :| 0 <= i < |ks| && ks[i] == j;
    assert ks == ks[..i] + [j] + ks[i + 1..];
    assert multiset(ks[..i] + ks[i + 1..]) == multiset(ks) - multiset{j};
  }

  lemma {:induction false} SumOfPermutation(f: Job -> int, js: seq<Job>, ks: seq<Job>)
    requires multiset(js) == multiset(ks)
    ensures Sum(f, js) == Sum(f, ks)
    decreases |js|
  {
    if js == [] {
      assert |multiset(js)| == |js| && |multiset(ks)| == |ks|;
    } else {
      var n, j := |js| - 1, js[|js| - 1];
      var i := SameWithout(js, ks);
      SumOfPermutation(f, js[..n], ks[..i] + ks[i + 1..]);
      SumSplit(f, ks[..i], j, ks[i + 1..]);
      assert ks == ks[..i] + [j] + ks[i + 1..];
    }
  }

  lemma SameMembers(js: seq<Job>, ks: seq<Job>)
    requires multiset(js) == multiset(ks)
    ensures forall j :: j in js <==> j in ks
  {
    forall j ensures j in js <==> j in ks {
      assert j in multiset(js) <==> j in multiset(ks);
    }
  }

  lemma SameOnPlatform(js: seq<Job>, ks: seq<Job>, report: Job -> Report, file: string, plat: string)
    requires multiset(js) == multiset(ks)
    ensures var a, b := Entry(MergeAll(js, report), file).perPlat, Entry(MergeAll(ks, report), file).perPlat;
            (plat in a <==> plat in b) && Get(a, plat) == Get(b, plat)
  {
    MergeTotals(js, report, file, plat);
    MergeTotals(ks, report, file, plat);
    SumOfPermutation(Share(report, file, plat), js, ks);
    SameMembers(js, ks);
  }

  lemma SameTotals(js: seq<Job>, ks: seq<Job>, report: Job -> Report, file: string)
    requires multiset(js) == multiset(ks)
    ensures Entry(MergeAll(js, report), file).perPlat == Entry(MergeAll(ks, report), file).perPlat
  {
    var a, b := Entry(MergeAll(js, report), file).perPlat, Entry(MergeAll(ks, report), file).perPlat;
    forall plat ensures (plat in a <==> plat in b) && Get(a, plat) == Get(b, plat) {
      SameOnPlatform(js, ks, report, file, plat);
    }
  }

  lemma PeakPlatformSign(js: seq<Job>, ks: seq<Job>, report: Job -> Report, file: string)
    ensures Entry(MergeAll(js, report), file).maxMs >= 0 && Entry(MergeAll(ks, report), file).maxMs >= 0
  {
    MaxIsPeak(js, report, file);
    MaxIsPeak(ks, report, file);
    PeakStarts(js, report, file);
    PeakStarts(ks, report, file);
  }

  lemma SameMax(a: Agg, b: Agg)
    requires IsMax(a) && IsMax(b) && a.perPlat == b.perPlat && a.maxMs >= 0 && b.maxMs >= 0
    ensures a.maxMs == b.maxMs
  {}

  /** For any two orders of the same jobs every file has the same total on every platform and, when
      no duration is negative, the same maximum, which is the largest of these totals. */
  lemma OrderDoesNotMatter(js: seq<Job>, ks: seq<Job>, report: Job -> Report, file: string)
    requires multiset(js) == multiset(ks)
    ensures var a, b := Entry(MergeAll(js, report), file), Entry(MergeAll(ks, report), file);
            && a.perPlat == b.perPlat
            && (AllNonNegative(js, report) ==> a.maxMs == b.maxMs && IsMax(a))
  {
    SameTotals(js, ks, report, file);
    if AllNonNegative(js, report) {
      SameMembers(js, ks);
      MaximaAreLargest(js, report, file);
      MaximaAreLargest(ks, report, file);
      PeakPlatformSign(js, ks, report, file);
      SameMax(Entry(MergeAll(js, report), file), Entry(MergeAll(ks, report), file));
    }
  }

  // ---------------------------------------------------------------- the workers

  /** A job's report, from what fetching its log gives: its headers, or nothing. */
  ghost function Reporter(fetch: Job -> Option<seq<Header>>, clean: string -> string): Job -> Report {
    (j: Job) => Report(j.plat, if fetch(j).Some? then Parsed(fetch(j).value, clean) else map[])
  }

  lemma OrderedLogsAreNonNegative(js: seq<Job>, fetch: Job -> Option<seq<Header>>, clean: string -> string)
    requires forall j :: j in js && fetch(j).Some? ==> Ordered(fetch(j).value)
    ensures AllNonNegative(js, Reporter(fetch, clean))
  {
    forall j | j in js && fetch(j).Some? ensures NonNegative(Parsed(fetch(j).value, clean)) {
      OrderedIsNonNegative(fetch(j).value, clean);
    }
  }

  ghost function Holding(w: Option<Job>): multiset<Job> {
    if w.None? then multiset{} else multiset{w.value}
  }

  /** The jobs that workers are waiting for; a worker without one has returned. */
  ghost function Held(workers: seq<Option<Job>>): multiset<Job> {
    if workers == [] then multiset{}
    else Held(workers[..|workers| - 1]) + Holding(workers[|workers| - 1])
  }

  lemma AddToBoth(a: multiset<Job>, b: multiset<Job>, c: multiset<Job>, d: multiset<Job>, l: multiset<Job>)
    requires a + b == c + d
    ensures (a + l) + b == (c + l) + d
  {
    assert (a + l) + b == (a + b) + l;
  }

  lemma HeldLast(init: seq<Option<Job>>, w: Option<Job>)
    ensures Held(init + [w]) == Held(init) + Holding(w)
  {
    assert (init + [w])[..|init|] == init;
  }

  lemma SwapLast(l: multiset<Job>, a: multiset<Job>, b: multiset<Job>)
    ensures (l + a) + b == (l + b) + a
  {}

  lemma LastUpdate(init: seq<Option<Job>>, v: Option<Job>, w: Option<Job>)
    ensures Held(init + [w]) + Holding(v) == Held(init + [v]) + Holding(w)
  {
    HeldLast(init, v);
    HeldLast(init, w);
    SwapLast(Held(init), Holding(w), Holding(v));
  }

  lemma {:induction false} HeldUpdate(workers: seq<Option<Job>>, k: nat, w: Option<Job>)
    requires k < |workers|
    ensures Held(workers[k := w]) + Holding(workers[k]) == Held(workers) + Holding(w)
    decreases |workers|
  {
    var init, v := workers[..|workers| - 1], workers[|workers| - 1];
    assert workers == init + [v];
    if k == |init| {
      assert workers[k := w] == init + [w];
      LastUpdate(init, v, w);
    } else {
      assert workers[k := w] == init[k := w] + [v];
      HeldUpdate(init, k, w);
      HeldLast(init, v);
      HeldLast(init[k := w], v);
      AddToBoth(Held(init[k := w]), Holding(workers[k]), Held(init), Holding(w), Holding(v));
    }
  }

  lemma {:induction false} AllReturned(workers: seq<Option<Job>>)
    ensures Held(workers) == multiset{} <==> forall i :: 0 <= i < |workers| ==> workers[i].None?
    decreases |workers|
  {
    if workers != [] {
      AllReturned(workers[..|workers| - 1]);
      NothingHeld(Held(workers[..|workers| - 1]), workers[|workers| - 1]);
    }
  }

  lemma NothingHeld(held: multiset<Job>, w: Option<Job>)
    ensures held + Holding(w) == multiset{} <==> held == multiset{} && w.None?
  {
    if w.Some? { assert w.value in held + Holding(w); }
  }

  lemma TakeKeeps(e: multiset<Job>, h: multiset<Job>, q: multiset<Job>, done: multiset<Job>, h1: multiset<Job>, next: multiset<Job>, q1: multiset<Job>)
    requires next + q1 == q && h1 + done == h + next
    ensures (e + done) + h1 + q1 == e + h + q
  {
    assert (e + done) + h1 + q1 == e + (h1 + done) + q1;
    assert e + (h + next) + q1 == e + h + (next + q1);
  }

  function First(queue: seq<Job>): Option<Job> {
    if queue == [] then None else Some(queue[0])
  }

  function Rest(queue: seq<Job>): seq<Job> {
    if queue == [] then [] else queue[1..]
  }

  lemma ShiftKeeps(was: seq<Job>)
    ensures Holding(First(was)) + multiset(Rest(was)) == multiset(was)
  {
    if was != [] { assert was == [was[0]] + was[1..]; }
  }

  lemma MergeOne(agg: map<string, Agg>, r: Report, merged: set<string>, file: string)
    requires merged <= r.times.Keys && file in r.times && file !in merged
    ensures var now := Merge(agg, r, merged);
            now[file := Charge(Entry(now, file), r.plat, r.times[file])] == Merge(agg, r, merged + {file})
  {}

  lemma MergeLast(ended: seq<Job>, j: Job, report: Job -> Report)
    ensures MergeAll(ended + [j], report) == Merge(MergeAll(ended, report), report(j), report(j).times.Keys)
  {
    assert (ended + [j])[..|ended|] == ended;
  }

  lemma MergeNothing(agg: map<string, Agg>, plat: string)
    ensures Merge(agg, Report(plat, map[]), {}) == agg
  {}

  /** Who works on what: the queue, each worker's job, and the jobs handled so far. */
  datatype Floor = Floor(queue: seq<Job>, workers: seq<Option<Job>>, ended: seq<Job>)

  ghost function Completed(f: Floor, k: nat): Floor {
    if k >= |f.workers| || f.workers[k].None? then f
    else Floor(Rest(f.queue), f.workers[k := First(f.queue)], f.ended + [f.workers[k].value])
  }

  ghost function Scheduled(f: Floor, schedule: seq<nat>): Floor {
    if schedule == [] then f
    else Completed(Scheduled(f, schedule[..|schedule| - 1]), schedule[|schedule| - 1])
  }

  ghost function StartedOne(f: Floor): Floor {
    Floor(Rest(f.queue), f.workers + [First(f.queue)], f.ended)
  }

  ghost function Started(f: Floor, n: nat): Floor {
    if n == 0 then f else StartedOne(Started(f, n - 1))
  }

  /** Every job is done, being fetched or still in the queue, and counted once. */
  ghost predicate Conserved(f: Floor, jobs: seq<Job>) {
    multiset(f.ended) + Held(f.workers) + multiset(f.queue) == multiset(jobs)
  }

  lemma StartKeeps(f: Floor, jobs: seq<Job>)
    requires Conserved(f, jobs)
    ensures Conserved(StartedOne(f), jobs)
  {
    var job, now := First(f.queue), StartedOne(f);
    ShiftKeeps(f.queue);
    HeldLast(f.workers, job);
    TakeKeeps(multiset(f.ended), Held(f.workers), multiset(f.queue), multiset{}, Held(now.workers), Holding(job), multiset(now.queue));
  }

  lemma CompleteKeeps(f: Floor, k: nat, jobs: seq<Job>)
    requires Conserved(f, jobs)
    ensures Conserved(Completed(f, k), jobs)
  {
    if k < |f.workers| && f.workers[k].Some? {
      var next, now := First(f.queue), Completed(f, k);
      ShiftKeeps(f.queue);
      HeldUpdate(f.workers, k, next);
      TakeKeeps(multiset(f.ended), Held(f.workers), multiset(f.queue), Holding(f.workers[k]),
                Held(now.workers), Holding(next), multiset(now.queue));
    }
  }

  /** A worker returns only when the queue is empty. */
  ghost predicate IdleOnlyAtEnd(f: Floor) {
    forall i :: 0 <= i < |f.workers| && f.workers[i].None? ==> f.queue == []
  }

  lemma StartIdle(f: Floor)
    requires IdleOnlyAtEnd(f)
    ensures IdleOnlyAtEnd(StartedOne(f)) && |StartedOne(f).workers| == |f.workers| + 1
  {}

  lemma CompleteIdle(f: Floor, k: nat)
    requires IdleOnlyAtEnd(f)
    ensures IdleOnlyAtEnd(Completed(f, k)) && |Completed(f, k).workers| == |f.workers|
  {}

  /** What every start keeps, any number of them keeps. */
  lemma {:induction false} StartsKeep(f: Floor, inv: Floor -> bool, n: nat)
    requires inv(f) && forall g :: inv(g) ==> inv(StartedOne(g))
    ensures inv(Started(f, n))
  {
    if n > 0 { StartsKeep(f, inv, n - 1); }
  }

  lemma StartedKeeps(f: Floor, jobs: seq<Job>, n: nat)
    requires Conserved(f, jobs)
    ensures Conserved(Started(f, n), jobs)
  {
    var inv := (g: Floor) => Conserved(g, jobs);
    forall g | inv(g) ensures inv(StartedOne(g)) { StartKeeps(g, jobs); }
    StartsKeep(f, inv, n);
  }

  lemma {:induction false} StartedIdle(f: Floor, n: nat)
    requires IdleOnlyAtEnd(f)
    ensures IdleOnlyAtEnd(Started(f, n)) && |Started(f, n).workers| == |f.workers| + n
  {
    if n > 0 {
      StartedIdle(f, n - 1);
      StartIdle(Started(f, n - 1));
    }
  }

  lemma NothingYet(jobs: seq<Job>)
    ensures Conserved(Floor(jobs, [], []), jobs) && IdleOnlyAtEnd(Floor(jobs, [], []))
  {}

  /** Whatever completes when, no job is lost or repeated. */
  lemma {:induction false} ScheduledKeeps(f: Floor, schedule: seq<nat>, jobs: seq<Job>)
    requires Conserved(f, jobs) && IdleOnlyAtEnd(f)
    ensures var g := Scheduled(f, schedule); Conserved(g, jobs) && IdleOnlyAtEnd(g) && |g.workers| == |f.workers|
    decreases |schedule|
  {
    if schedule != [] {
      ScheduledKeeps(f, schedule[..|schedule| - 1], jobs);
      CompleteKeeps(Scheduled(f, schedule[..|schedule| - 1]), schedule[|schedule| - 1], jobs);
      CompleteIdle(Scheduled(f, schedule[..|schedule| - 1]), schedule[|schedule| - 1]);
    }
  }

  class Pool {
    const jobs: seq<Job>
    const fetch: Job -> Option<seq<Header>>
    const clean: string -> string
    var queue: seq<Job>
    var workers: seq<Option<Job>>
    var agg: map<string, Agg>
    var done: nat
    ghost var ended: seq<Job>

    ghost predicate Valid() reads this {
      done == |ended| && agg == MergeAll(ended, Reporter(fetch, clean))
    }

    ghost function View(): Floor reads this {
      Floor(queue, workers, ended)
    }

    constructor (js: seq<Job>, fetcher: Job -> Option<seq<Header>>, cleaner: string -> string)
      ensures Valid() && jobs == js && fetch == fetcher && clean == cleaner && View() == Floor(js, [], [])
    {
      jobs, fetch, clean := js, fetcher, cleaner;
      queue, workers, agg, done, ended := js, [], map[], 0, [];
    }

    method Shift() returns (job: Option<Job>)
      modifies `queue
      ensures job == First(old(queue)) && queue == Rest(old(queue))
    {
      if queue == [] { return None; }
      job, queue := Some(queue[0]), queue[1..];
    }

    /** A worker begins: it takes a job, or returns at once. */
    method StartWorker()
      modifies `queue, `workers
      ensures View() == StartedOne(old(View()))
    {
      var job := Shift();
      workers := workers + [job];
    }

    method AddReport(r: Report)
      modifies `agg
      ensures agg == Merge(old(agg), r, r.times.Keys)
    {
      var todo := r.times.Keys;
      ghost var merged: set<string> := {};
      assert agg == Merge(agg, r, {});
      while todo != {}
        invariant todo <= r.times.Keys && merged == r.times.Keys - todo
        invariant agg == Merge(old(agg), r, merged)
        decreases todo
      {
        var file :| file in todo;
        agg := agg[file := Charge(Entry(agg, file), r.plat, r.times[file])];
        MergeOne(old(agg), r, merged, file);
        todo, merged := todo - {file}, merged + {file};
      }
      assert merged == r.times.Keys;
    }

    /** The log, when it was fetched, is parsed and merged. */
    method Count(job: Job)
      modifies `agg
      ensures var r := Reporter(fetch, clean)(job); agg == Merge(old(agg), r, r.times.Keys)
    {
      var text := fetch(job);
      if text.Some? {
        var times := ParseLog(text.value, clean);
        AddReport(Report(job.plat, times));
      } else {
        MergeNothing(agg, job.plat);
      }
    }

    /** What a worker does from the end of one fetch to the start of the next. */
    method Complete(k: nat)
      requires Valid()
      modifies this
      ensures Valid() && View() == Completed(old(View()), k)
    {
      if k < |workers| && workers[k].Some? {
        var job := workers[k].value;
        Count(job);
        MergeLast(ended, job, Reporter(fetch, clean));
        ended, done := ended + [job], done + 1;
        var next := Shift();
        workers := workers[k := next];
      }
    }
  }

  lemma Counted(ended: seq<Job>, held: multiset<Job>, queue: seq<Job>, jobs: seq<Job>)
    requires multiset(ended) + held + multiset(queue) == multiset(jobs)
    ensures |ended| + |held| + |queue| == |jobs|
    ensures |ended| == |jobs| ==> held == multiset{} && queue == [] && multiset(ended) == multiset(jobs)
  {
    assert |multiset(ended) + held + multiset(queue)| == |ended| + |held| + |queue|;
  }

  /** Sixteen workers, and fetches that complete in any order: the jobs counted so far are merged, and
      all workers have returned exactly when every job was handled, each of them once. */
  method RunPool(pool: Pool, schedule: seq<nat>)
    requires pool.Valid() && pool.View() == Floor(pool.jobs, [], [])
    modifies pool
    ensures pool.View() == Scheduled(Started(Floor(pool.jobs, [], []), 16), schedule) && |pool.workers| == 16
    ensures Conserved(pool.View(), pool.jobs)
    ensures pool.agg == MergeAll(pool.ended, Reporter(pool.fetch, pool.clean))
    ensures multiset(pool.ended) == multiset(pool.jobs) <==> forall i :: 0 <= i < 16 ==> pool.workers[i].None?
  {
    StartAll(pool, 16);
    CompleteAll(pool, schedule);
    NothingYet(pool.jobs);
    StartedKeeps(Floor(pool.jobs, [], []), pool.jobs, 16);
    StartedIdle(Floor(pool.jobs, [], []), 16);
    ScheduledKeeps(Started(Floor(pool.jobs, [], []), 16), schedule, pool.jobs);
    AllReturned(pool.workers);
    Ended(pool.View(), pool.jobs);
  }

  method CompleteAll(pool: Pool, schedule: seq<nat>)
    requires pool.Valid()
    modifies pool
    ensures pool.Valid() && pool.View() == Scheduled(old(pool.View()), schedule)
  {
    for i := 0 to |schedule|
      invariant pool.Valid()
      invariant pool.View() == Scheduled(old(pool.View()), schedule[..i])
    {
      assert schedule[..i + 1][..i] == schedule[..i];
      pool.Complete(schedule[i]);
    }
    assert schedule[..|schedule|] == schedule;
  }

  method StartAll(pool: Pool, n: nat)
    requires pool.Valid()
    modifies pool
    ensures pool.Valid() && pool.View() == Started(old(pool.View()), n)
  {
    for i := 0 to n
      invariant pool.Valid() && pool.View() == Started(old(pool.View()), i)
    {
      pool.StartWorker();
    }
  }

  lemma Ended(f: Floor, jobs: seq<Job>)
    requires Conserved(f, jobs) && (Held(f.workers) == multiset{} ==> f.queue == [])
    ensures multiset(f.ended) == multiset(jobs) <==> Held(f.workers) == multiset{}
  {
    Counted(f.ended, Held(f.workers), f.queue, jobs);
    if multiset(f.ended) == multiset(jobs) { assert |multiset(f.ended)| == |multiset(jobs)|; }
  }

  /** All that is known of a file, in the merged reports of these jobs. */
  ghost predicate Final(agg: map<string, Agg>, jobs: seq<Job>, report: Job -> Report, file: string) {
    && Entry(agg, file).perPlat == Entry(MergeAll(jobs, report), file).perPlat
    && (AllNonNegative(jobs, report) ==>
          Entry(agg, file).maxMs == Entry(MergeAll(jobs, report), file).maxMs && IsMax(Entry(agg, file)))
  }

  /** The time that a job's log shows for a file on a platform; nothing if it could not be fetched. */
  ghost function Spent(fetch: Job -> Option<seq<Header>>, clean: string -> string, file: string, plat: string): Job -> int {
    (j: Job) => if j.plat == plat && fetch(j).Some? then Elapsed(fetch(j).value, clean, file) else 0
  }

  lemma {:induction false} SameSum(f: Job -> int, g: Job -> int, js: seq<Job>)
    requires forall j :: f(j) == g(j)
    ensures Sum(f, js) == Sum(g, js)
    decreases |js|
  {
    if js != [] { SameSum(f, g, js[..|js| - 1]); }
  }

  lemma ShareIsSpent(fetch: Job -> Option<seq<Header>>, clean: string -> string, file: string, plat: string, j: Job)
    ensures Share(Reporter(fetch, clean), file, plat)(j) == Spent(fetch, clean, file, plat)(j)
  {
    var report := Reporter(fetch, clean);
    if fetch(j).Some? {
      var times := Parsed(fetch(j).value, clean);
      ParsedIsElapsed(fetch(j).value, clean, file);
      assert report(j) == Report(j.plat, times) && Get(times, file) == Elapsed(fetch(j).value, clean, file);
    } else {
      assert report(j) == Report(j.plat, map[]);
    }
  }

  /** From the logs to the table: a file's total on a platform is the time that the logs of all jobs on
      that platform show for it. */
  lemma TotalIsTimeSpent(js: seq<Job>, fetch: Job -> Option<seq<Header>>, clean: string -> string, file: string, plat: string)
    ensures Get(Entry(MergeAll(js, Reporter(fetch, clean)), file).perPlat, plat) == Sum(Spent(fetch, clean, file, plat), js)
  {
    var report := Reporter(fetch, clean);
    MergeTotals(js, report, file, plat);
    forall j ensures Share(report, file, plat)(j) == Spent(fetch, clean, file, plat)(j) {
      ShareIsSpent(fetch, clean, file, plat, j);
    }
    SameSum(Share(report, file, plat), Spent(fetch, clean, file, plat), js);
  }

  /** Whatever the order: once all workers have returned, every file has the totals and the maximum it
      would have if the jobs had completed in queue order, and these are the times in the logs. */
  method CollectTimes(pool: Pool, schedule: seq<nat>)
    requires pool.Valid() && pool.View() == Floor(pool.jobs, [], [])
    modifies pool
    ensures |pool.workers| == 16 && ((forall i :: 0 <= i < 16 ==> pool.workers[i].None?) ==>
              forall file :: Final(pool.agg, pool.jobs, Reporter(pool.fetch, pool.clean), file))
    ensures (forall i :: 0 <= i < 16 ==> pool.workers[i].None?) ==>
              forall file, plat :: Get(Entry(pool.agg, file).perPlat, plat) == Sum(Spent(pool.fetch, pool.clean, file, plat), pool.jobs)
  {
    RunPool(pool, schedule);
    ghost var report := Reporter(pool.fetch, pool.clean);
    if multiset(pool.ended) == multiset(pool.jobs) {
      forall file ensures Final(pool.agg, pool.jobs, report, file) {
        FinalOf(pool.ended, pool.jobs, report, file);
      }
      forall file, plat ensures Get(Entry(pool.agg, file).perPlat, plat) == Sum(Spent(pool.fetch, pool.clean, file, plat), pool.jobs) {
        assert Final(pool.agg, pool.jobs, report, file);
        TotalIsTimeSpent(pool.jobs, pool.fetch, pool.clean, file, plat);
      }
    }
  }

  lemma FinalOf(ended: seq<Job>, jobs: seq<Job>, report: Job -> Report, file: string)
    requires multiset(ended) == multiset(jobs)
    ensures Final(MergeAll(ended, report), jobs, report, file)
  {
    OrderDoesNotMatter(ended, jobs, report, file);
    SameMembers(ended, jobs);
  }

  // ---------------------------------------------------------------- a log that goes back

  const FIRST_RUN := Job("1", "p")
  const SECOND_RUN := Job("2", "p")

  /** The second job's clock was set back while its test ran. */
  function BackwardsFetch(j: Job): Option<seq<Header>> {
    Some(if j == FIRST_RUN then [Header(0, "a"), Header(5, "z")] else [Header(3, "a"), Header(0, "z")])
  }

  function Unchanged(name: string): string {
    name
  }

  lemma OneGap(hs: seq<Header>, a: Header, b: Header)
    requires hs == [a, b] && a.name != ""
    ensures Parsed(hs, Unchanged) == map[a.name := b.time - a.time]
  {
    assert hs[..1] == [a];
  }

  lemma {:induction false} StartedWithTwo(j: Job, k: Job, n: nat)
    requires n >= 2
    ensures var f := Started(Floor([j, k], [], []), n);
            f.queue == [] && f.ended == [] && |f.workers| == n && f.workers[0] == Some(j) && f.workers[1] == Some(k)
  {
    if n == 2 {
      var f := Floor([j, k], [], []);
      assert Started(f, 0) == f;
      assert Started(f, 1) == Floor([k], [Some(j)], []);
    } else {
      StartedWithTwo(j, k, n - 1);
    }
  }

  lemma EndedInTurn(j: Job, k: Job, n: nat)
    requires n >= 2
    ensures Scheduled(Started(Floor([j, k], [], []), n), [0, 1]).ended == [j, k]
  {
    StartedWithTwo(j, k, n);
    var f := Started(Floor([j, k], [], []), n);
    assert [0, 1][..1] == [0] && [0][..0] == [];
    assert Scheduled(f, [0]) == Completed(f, 0);
  }

  lemma ChargeTwice()
    ensures Charge(Agg(0, "", map[]), "p", 5) == Agg(5, "p", map["p" := 5])
    ensures Charge(Agg(5, "p", map["p" := 5]), "p", -3) == Agg(5, "p", map["p" := 2])
  {
    var none: map<string, int> := map[];
    assert none["p" := 5] == map["p" := 5];
    assert map["p" := 5]["p" := 2] == map["p" := 2];
  }

  lemma ThirdCharge()
    ensures var a := Charge(Agg(5, "p", map["p" := 2]), "q", 5);
            a == Agg(5, "p", map["p" := 2, "q" := 5]) && IsLargest(a) && !IsMax(a)
  {
    var t := map["p" := 2, "q" := 5];
    assert map["p" := 2]["q" := 5] == t && t["q"] == 5;
  }

  lemma MergeOneFile(agg: map<string, Agg>, r: Report, file: string)
    requires file in r.times
    ensures Entry(Merge(agg, r, r.times.Keys), file) == Charge(Entry(agg, file), r.plat, r.times[file])
  {}

  lemma TwoCharges(j: Job, k: Job, report: Job -> Report, file: string)
    requires report(j) == Report("p", map[file := 5]) && report(k) == Report("p", map[file := -3])
    ensures Entry(MergeAll([j, k], report), file) == Agg(5, "p", map["p" := 2])
  {
    MergeLast([], j, report);
    MergeLast([j], k, report);
    assert [] + [j] == [j] && [j] + [k] == [j, k];
    MergeOneFile(MergeAll([], report), report(j), file);
    MergeOneFile(MergeAll([j], report), report(k), file);
    ChargeTwice();
  }

  /** When another platform reaches the same total, the maximum is right and its platform is not. */
  lemma TiedPlatformKeepsMax(j: Job, k: Job, l: Job, report: Job -> Report, file: string)
    requires report(j) == Report("p", map[file := 5]) && report(k) == Report("p", map[file := -3])
    requires report(l) == Report("q", map[file := 5])
    ensures var a := Entry(MergeAll([j, k, l], report), file);
            a == Agg(5, "p", map["p" := 2, "q" := 5]) && IsLargest(a) && !IsMax(a)
  {
    TwoCharges(j, k, report, file);
    MergeLast([j, k], l, report);
    assert [j, k] + [l] == [j, k, l];
    MergeOneFile(MergeAll([j, k], report), report(l), file);
    ThirdCharge();
  }

  /** From logs to the table: the maximum recorded for "a" is a total that no platform has. */
  method BackwardsLogBreaksMax() returns (agg: map<string, Agg>)
    ensures Entry(agg, "a") == Agg(5, "p", map["p" := 2]) && !IsLargest(Entry(agg, "a"))
  {
    var pool := new Pool([FIRST_RUN, SECOND_RUN], BackwardsFetch, Unchanged);
    RunPool(pool, [0, 1]);
    EndedInTurn(FIRST_RUN, SECOND_RUN, 16);
    OneGap(BackwardsFetch(FIRST_RUN).value, Header(0, "a"), Header(5, "z"));
    OneGap(BackwardsFetch(SECOND_RUN).value, Header(3, "a"), Header(0, "z"));
    TwoCharges(FIRST_RUN, SECOND_RUN, Reporter(BackwardsFetch, Unchanged), "a");
    agg := pool.agg;
  }
}
