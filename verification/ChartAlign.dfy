/** Puts several series on one shared time axis, with a time added inside each outage. Times are
    whole seconds and the axis counts half seconds, so the added times are the odd ones. */
module ChartAlign {
  import opened Basics

  const MAX_SERIES: nat := 8
  const GAP_FACTOR: int := 3

  datatype Point = Point(time: int, value: real)

  datatype NamedSeries = NamedSeries(name: string, points: seq<Point>)

  /** A line is joined over undefined values and broken at null. */
  datatype Value = Undefined | Null | At(value: real)

  datatype Aligned = Aligned(ticks: seq<int>, names: seq<string>, values: seq<seq<Value>>, hidden: seq<string>)

  // ---------------------------------------------------------------- sorting

  ghost predicate Increasing(s: seq<int>) {
    forall i, j :: 0 <= i < j < |s| ==> s[i] < s[j]
  }

  ghost predicate Ordered(s: seq<int>) {
    forall i, j :: 0 <= i < j < |s| ==> s[i] <= s[j]
  }

  function Insert(x: int, s: seq<int>): (r: seq<int>)
    ensures |r| == |s| + 1
    ensures forall y :: y in r <==> y == x || y in s
  {
    if s == [] || x <= s[0] then [x] + s else [s[0]] + Insert(x, s[1..])
  }

  function Sort(s: seq<int>): (r: seq<int>)
    ensures |r| == |s|
    ensures forall y :: y in r <==> y in s
  {
    if s == [] then [] else Insert(s[0], Sort(s[1..]))
  }

  lemma {:induction false} InsertKeepsOrder(x: int, s: seq<int>)
    requires Ordered(s)
    ensures Ordered(Insert(x, s))
  {
    if s != [] && s[0] < x {
      InsertKeepsOrder(x, s[1..]);
      var r := Insert(x, s[1..]);
      forall k | 0 <= k < |r| ensures s[0] <= r[k] {
        assert r[k] in r;
      }
    }
  }

  lemma {:induction false} SortOrders(s: seq<int>)
    ensures Ordered(Sort(s))
  {
    if s != [] {
      SortOrders(s[1..]);
      InsertKeepsOrder(s[0], Sort(s[1..]));
    }
  }

  lemma {:induction false} InsertIncreases(x: int, s: seq<int>)
    requires Increasing(s) && x !in s
    ensures Increasing(Insert(x, s))
  {
    if s != [] && s[0] < x {
      InsertIncreases(x, s[1..]);
      var r := Insert(x, s[1..]);
      forall k | 0 <= k < |r| ensures s[0] < r[k] {
        assert r[k] in r;
      }
    }
  }

  lemma {:induction false} SortIncreases(s: seq<int>)
    requires Distinct(s)
    ensures Increasing(Sort(s))
  {
    if s != [] {
      SortIncreases(s[1..]);
      InsertIncreases(s[0], Sort(s[1..]));
    }
  }

  // ---------------------------------------------------------------- outages

  function Deltas(times: seq<int>): (d: seq<int>)
    requires |times| > 0
    ensures |d| == |times| - 1
  {
    seq(|times| - 1, i requires 0 <= i < |times| - 1 => times[i + 1] - times[i])
  }

  /** The middle one of the gaps between times. */
  function Typical(times: seq<int>): int
    requires |times| >= 2
  {
    Sort(Deltas(times))[|Deltas(times)| / 2]
  }

  /** How long a gap has to be to be an outage. Fewer than three times have none. */
  function Limit(times: seq<int>): Option<int> {
    if |times| < 3 then None else Some(Typical(times) * GAP_FACTOR)
  }

  predicate Outage(times: seq<int>, limit: Option<int>, i: int)
    requires 0 < i < |times|
  {
    limit.Some? && times[i] - times[i - 1] > limit.value
  }

  function WithMiddle(times: seq<int>, limit: Option<int>, i: int, ticks: seq<int>): seq<int>
    requires 0 < i < |times|
  {
    if Outage(times, limit, i) then ticks + [2 * ((times[i - 1] + times[i]) / 2) + 1] else ticks
  }

  /** The axis over the first n times: each time, and half a second past the middle of each outage. */
  function Axis(times: seq<int>, limit: Option<int>, n: nat): seq<int>
    requires n <= |times|
  {
    if n == 0 then []
    else if n == 1 then [2 * times[0]]
    else WithMiddle(times, limit, n - 1, Axis(times, limit, n - 1)) + [2 * times[n - 1]]
  }

  function WholeTimes(ticks: seq<int>): seq<int> {
    if ticks == [] then []
    else WholeTimes(Front(ticks)) + if Last(ticks) % 2 == 0 then [Last(ticks) / 2] else []
  }

  lemma ShortAxis(times: seq<int>, ticks: seq<int>)
    requires |ticks| == |times| < 3 && forall i :: 0 <= i < |times| ==> ticks[i] == 2 * times[i]
    ensures ticks == Axis(times, Limit(times), |times|)
  {
    if |times| == 2 {
      assert Axis(times, None, 1) == [2 * times[0]];
      assert Axis(times, None, 2) == Axis(times, None, 1) + [2 * times[1]];
    }
  }

  method WithGaps(times: seq<int>) returns (ticks: seq<int>)
    ensures ticks == Axis(times, Limit(times), |times|)
  {
    if |times| < 3 {
      ticks := seq(|times|, i requires 0 <= i < |times| => 2 * times[i]);
      ShortAxis(times, ticks);
    } else {
      var typical := Sort(Deltas(times))[|Deltas(times)| / 2];
      ticks := PushTimes(times, Deltas(times), typical * GAP_FACTOR);
    }
  }

  method PushTimes(times: seq<int>, deltas: seq<int>, limit: int) returns (ticks: seq<int>)
    requires |times| > 0 && deltas == Deltas(times)
    ensures ticks == Axis(times, Some(limit), |times|)
  {
    ticks := [2 * times[0]];
    for i := 1 to |times|
      invariant ticks == Axis(times, Some(limit), i)
    {
      if deltas[i - 1] > limit {
        ticks := ticks + [2 * ((times[i - 1] + times[i]) / 2) + 1];
      }
      ticks := ticks + [2 * times[i]];
    }
  }

  /** The first n times of the axis, and the times added between them. */
  lemma {:induction false} AxisIsIncreasing(times: seq<int>, limit: Option<int>, n: nat)
    requires Increasing(times) && n <= |times|
    ensures Increasing(Axis(times, limit, n)) && (n > 0 ==> Axis(times, limit, n) != [] && Last(Axis(times, limit, n)) == 2 * times[n - 1])
  {
    if n > 1 {
      AxisIsIncreasing(times, limit, n - 1);
      assert times[n - 2] < times[n - 1];
      var before := Axis(times, limit, n - 1);
      forall k | 0 <= k < |before| ensures before[k] <= 2 * times[n - 2] {
        assert before[|before| - 1] == 2 * times[n - 2];
      }
    }
  }

  lemma RealTime(ticks: seq<int>, time: int)
    ensures WholeTimes(ticks + [2 * time]) == WholeTimes(ticks) + [time]
  {
    var all := ticks + [2 * time];
    assert Front(all) == ticks && Last(all) == 2 * time;
  }

  lemma AddedTime(times: seq<int>, limit: Option<int>, i: int, ticks: seq<int>)
    requires 0 < i < |times|
    ensures WholeTimes(WithMiddle(times, limit, i, ticks)) == WholeTimes(ticks)
  {
    if Outage(times, limit, i) {
      var all := WithMiddle(times, limit, i, ticks);
      assert Front(all) == ticks && Last(all) % 2 == 1;
      assert WholeTimes(ticks) + [] == WholeTimes(ticks);
    }
  }

  /** Taking the added times out of the axis gives the times back. */
  lemma {:induction false} AxisKeepsTimes(times: seq<int>, limit: Option<int>, n: nat)
    requires n <= |times|
    ensures WholeTimes(Axis(times, limit, n)) == times[..n]
  {
    if n > 0 {
      assert times[..n] == times[..n - 1] + [times[n - 1]];
      AxisKeepsTimes(times, limit, n - 1);
      if n == 1 {
        RealTime([], times[0]);
        assert Axis(times, None, 1) == [] + [2 * times[0]];
      } else {
        AddedTime(times, limit, n - 1, Axis(times, limit, n - 1));
        RealTime(WithMiddle(times, limit, n - 1, Axis(times, limit, n - 1)), times[n - 1]);
      }
    }
  }

  lemma {:induction false} InWholeTimes(ticks: seq<int>, time: int)
    ensures time in WholeTimes(ticks) <==> 2 * time in ticks
  {
    if ticks != [] {
      InWholeTimes(Front(ticks), time);
      InFrontOrLast(ticks, 2 * time);
    }
  }

  // ---------------------------------------------------------------- how many outages

  function CountOver(s: seq<int>, x: int): nat {
    if s == [] then 0 else (if s[0] > x then 1 else 0) + CountOver(s[1..], x)
  }

  lemma {:induction false} InsertCounts(y: int, s: seq<int>, x: int)
    ensures CountOver(Insert(y, s), x) == (if y > x then 1 else 0) + CountOver(s, x)
  {
    if s == [] || y <= s[0] {
      assert ([y] + s)[1..] == s;
    } else {
      InsertCounts(y, s[1..], x);
      assert Insert(y, s)[1..] == Insert(y, s[1..]);
    }
  }

  lemma {:induction false} SortCounts(s: seq<int>, x: int)
    ensures CountOver(Sort(s), x) == CountOver(s, x)
  {
    if s != [] {
      SortCounts(s[1..], x);
      InsertCounts(s[0], Sort(s[1..]), x);
    }
  }

  lemma {:induction false} FewOver(s: seq<int>, m: nat, x: int)
    requires m < |s| && Ordered(s) && s[m] <= x
    ensures CountOver(s, x) <= |s| - 1 - m
  {
    if m > 0 {
      FewOver(s[1..], m - 1, x);
    } else {
      CountIsBounded(s[1..], x);
    }
  }

  lemma {:induction false} CountIsBounded(s: seq<int>, x: int)
    ensures CountOver(s, x) <= |s|
  {
    if s != [] {
      CountIsBounded(s[1..], x);
    }
  }

  lemma {:induction false} CountOneMore(s: seq<int>, k: nat, x: int)
    requires k < |s|
    ensures CountOver(s[..k + 1], x) == CountOver(s[..k], x) + if s[k] > x then 1 else 0
  {
    if k > 0 {
      CountOneMore(s[1..], k - 1, x);
      assert s[..k + 1][1..] == s[1..][..k] && s[..k][1..] == s[1..][..k - 1];
    }
  }

  /** The axis is longer than the times by one for each gap over the limit. */
  lemma {:induction false} AxisLength(times: seq<int>, limit: int, n: nat)
    requires 1 <= n <= |times|
    ensures |Axis(times, Some(limit), n)| == n + CountOver(Deltas(times)[..n - 1], limit)
  {
    if n > 1 {
      AxisLength(times, limit, n - 1);
      CountOneMore(Deltas(times), n - 2, limit);
    }
  }

  /** Fewer than half of the gaps between times are taken for outages. */
  lemma OutagesAreFew(times: seq<int>)
    requires Increasing(times) && |times| >= 3
    ensures 2 * (|Axis(times, Limit(times), |times|)| - |times|) < |times| - 1
  {
    var deltas, limit := Deltas(times), Typical(times) * GAP_FACTOR;
    AxisLength(times, limit, |times|);
    assert deltas[..|times| - 1] == deltas;
    TypicalIsPositive(times);
    FewOverMiddle(deltas, limit);
  }

  lemma TypicalIsPositive(times: seq<int>)
    requires Increasing(times) && |times| >= 2
    ensures Typical(times) > 0
  {
    var deltas := Deltas(times);
    assert forall i :: 0 <= i < |deltas| ==> deltas[i] > 0;
    assert Sort(deltas)[|deltas| / 2] in deltas;
  }

  lemma FewOverMiddle(deltas: seq<int>, limit: int)
    requires deltas != [] && Sort(deltas)[|deltas| / 2] <= limit
    ensures 2 * CountOver(deltas, limit) < |deltas|
  {
    SortOrders(deltas);
    SortCounts(deltas, limit);
    FewOver(Sort(deltas), |deltas| / 2, limit);
  }

  // ---------------------------------------------------------------- which gaps are outages

  /** The upper middle of some numbers: one of them, with no more than half below it and fewer above. */
  ghost predicate IsMedian(s: seq<int>, x: int) {
    x in s && CountOver(s, x) < |s| - |s| / 2 <= CountOver(s, x - 1)
  }

  lemma {:induction false} CountsFall(s: seq<int>, x: int, y: int)
    requires x <= y
    ensures CountOver(s, y) <= CountOver(s, x)
  {
    if s != [] {
      CountsFall(s[1..], x, y);
    }
  }

  lemma {:induction false} ManyOver(s: seq<int>, m: nat, x: int)
    requires m < |s| && Ordered(s) && x < s[m]
    ensures CountOver(s, x) >= |s| - m
    decreases |s|
  {
    if m > 0 {
      ManyOver(s[1..], m - 1, x);
    } else if |s| > 1 {
      ManyOver(s[1..], 0, x);
    }
  }

  lemma CountsAround(sorted: seq<int>, h: nat, m: int)
    requires Ordered(sorted) && h < |sorted| && m == sorted[h]
    ensures CountOver(sorted, m) < |sorted| - h <= CountOver(sorted, m - 1)
  {
    FewOver(sorted, h, m);
    ManyOver(sorted, h, m - 1);
  }

  lemma SortedHasMedian(s: seq<int>, sorted: seq<int>, h: nat, m: int)
    requires s != [] && sorted == Sort(s) && h == |s| / 2 && m == sorted[h]
    ensures IsMedian(s, m)
  {
    SortOrders(s);
    CountsAround(sorted, h, m);
    SortCounts(s, m);
    SortCounts(s, m - 1);
    assert m in sorted;
  }

  lemma MedianIsUnique(s: seq<int>, x: int, y: int)
    requires IsMedian(s, x) && IsMedian(s, y)
    ensures x == y
  {
    if x < y {
      CountsFall(s, x, y - 1);
    } else if y < x {
      CountsFall(s, y, x - 1);
    }
  }

  /** There is one upper middle, and sorting finds it. */
  lemma SortFindsMedian(s: seq<int>, x: int)
    requires s != []
    ensures IsMedian(s, x) <==> x == Sort(s)[|s| / 2]
  {
    SortedHasMedian(s, Sort(s), |s| / 2, Sort(s)[|s| / 2]);
    if IsMedian(s, x) {
      MedianIsUnique(s, x, Sort(s)[|s| / 2]);
    }
  }

  /** A tick is the one added in a gap over the limit. */
  predicate IsMark(times: seq<int>, limit: Option<int>, i: int, tick: int)
    requires 0 < i < |times|
  {
    limit.Some? && times[i] - times[i - 1] > limit.value && tick == 2 * ((times[i - 1] + times[i]) / 2) + 1
  }

  lemma MarkIsInside(times: seq<int>, limit: Option<int>, i: int, tick: int)
    requires 0 < i < |times| && times[i - 1] < times[i] && IsMark(times, limit, i, tick)
    ensures 2 * times[i - 1] < tick < 2 * times[i]
  {
  }

  /** What one more time adds to the axis before it. */
  lemma OneMoreTime(before: seq<int>, times: seq<int>, limit: Option<int>, i: nat, tick: int)
    requires 0 < i < |times|
    ensures tick in WithMiddle(times, limit, i, before) + [2 * times[i]] <==>
              tick in before || tick == 2 * times[i] || IsMark(times, limit, i, tick)
  {
  }

  lemma NoneAfterLast(before: seq<int>, tick: int)
    requires Increasing(before) && before != [] && Last(before) < tick
    ensures tick !in before
  {
  }

  /** Where a limit is exceeded, and nowhere else, the axis has one tick between two times that follow
      each other. */
  lemma {:induction false} AxisBetween(times: seq<int>, limit: Option<int>, n: nat, i: nat, tick: int)
    requires Increasing(times) && 0 < i < n <= |times| && 2 * times[i - 1] < tick < 2 * times[i]
    ensures tick in Axis(times, limit, n) <==> IsMark(times, limit, i, tick)
  {
    var before := Axis(times, limit, n - 1);
    OneMoreTime(before, times, limit, n - 1, tick);
    if i < n - 1 {
      AxisBetween(times, limit, n - 1, i, tick);
      assert times[i] <= times[n - 2] < times[n - 1];
      if IsMark(times, limit, n - 1, tick) {
        MarkIsInside(times, limit, n - 1, tick);
      }
    } else {
      AxisIsIncreasing(times, limit, n - 1);
      NoneAfterLast(before, tick);
    }
  }

  /** The axis has a time inside a gap exactly when the gap is longer than three times the middle one of
      the gaps, and it is half a second past the whole second in the middle of the gap. */
  lemma OutagesAreMarked(times: seq<int>, gaps: seq<int>, middle: int, i: nat, tick: int)
    requires Increasing(times) && 0 < i < |times| && 2 * times[i - 1] < tick < 2 * times[i]
    requires |gaps| == |times| - 1 && (forall k :: 0 <= k < |gaps| ==> gaps[k] == times[k + 1] - times[k]) && IsMedian(gaps, middle)
    ensures tick in Axis(times, Limit(times), |times|)
       <==> |times| >= 3 && times[i] - times[i - 1] > 3 * middle && tick == 2 * ((times[i - 1] + times[i]) / 2) + 1
  {
    assert gaps == Deltas(times);
    SortFindsMedian(gaps, middle);
    AxisBetween(times, Limit(times), |times|, i, tick);
  }

  // ---------------------------------------------------------------- rows

  /** What a series shows at a tick. The last point of a time counts. */
  function ValueAt(points: seq<Point>, tick: int): Value {
    if points == [] then (if tick % 2 == 0 then Undefined else Null)
    else if 2 * Last(points).time == tick then At(Last(points).value)
    else ValueAt(Front(points), tick)
  }

  ghost predicate Shows(ticks: seq<int>, points: seq<Point>, row: seq<Value>) {
    |row| == |ticks| && forall i :: 0 <= i < |row| ==> row[i] == ValueAt(points, ticks[i])
  }

  ghost predicate Timed(points: seq<Point>, time: int) {
    exists k :: 0 <= k < |points| && points[k].time == time
  }

  ghost predicate AnyTimed(series: seq<NamedSeries>, time: int) {
    exists s :: 0 <= s < |series| && Timed(series[s].points, time)
  }

  /** The axis the shown series share: the sorted union of their times, with the outages marked. */
  ghost predicate SharedAxis(series: seq<NamedSeries>, times: seq<int>) {
    Increasing(times) && forall time :: time in times <==> AnyTimed(series, time)
  }

  method CollectTimes(series: seq<NamedSeries>) returns (times: seq<int>)
    ensures Distinct(times) && forall time :: time in times <==> AnyTimed(series, time)
  {
    times := [];
    for s := 0 to |series|
      invariant Distinct(times) && forall time :: time in times <==> AnyTimed(series[..s], time)
    {
      ghost var before := times;
      var points := series[s].points;
      for k := 0 to |points|
        invariant Distinct(times) && forall time :: time in times <==> time in before || Timed(points[..k], time)
      {
        TimedOneMore(points, k);
        if points[k].time !in times {
          times := times + [points[k].time];
        }
      }
      assert points[..|points|] == points;
      AnyTimedOneMore(series, s);
    }
    assert series[..|series|] == series;
  }

  lemma TimedOneMore(points: seq<Point>, k: nat)
    requires k < |points|
    ensures forall time :: Timed(points[..k + 1], time) <==> Timed(points[..k], time) || time == points[k].time
  {
    var all := points[..k + 1];
    assert all[k] == points[k] && forall m :: 0 <= m < k ==> all[m] == points[..k][m];
  }

  lemma AnyTimedOneMore(series: seq<NamedSeries>, s: nat)
    requires s < |series|
    ensures forall time :: AnyTimed(series[..s + 1], time) <==> AnyTimed(series[..s], time) || Timed(series[s].points, time)
  {
    var all := series[..s + 1];
    assert all[s] == series[s] && forall m :: 0 <= m < s ==> all[m] == series[..s][m];
  }

  /** Where each tick of the axis is. */
  method IndexTicks(ticks: seq<int>) returns (index: map<int, int>)
    requires Increasing(ticks)
    ensures forall i :: 0 <= i < |ticks| ==> ticks[i] in index && index[ticks[i]] == i
  {
    index := map[];
    for i := 0 to |ticks|
      invariant forall j :: 0 <= j < i ==> ticks[j] in index && index[ticks[j]] == j
    {
      index := index[ticks[i] := i];
    }
  }

  /** A series' row: blank first, then its points written where their times are. */
  method FillRow(ticks: seq<int>, index: map<int, int>, points: seq<Point>) returns (row: array<Value>)
    requires Increasing(ticks) && forall i :: 0 <= i < |ticks| ==> ticks[i] in index && index[ticks[i]] == i
    requires forall k :: 0 <= k < |points| ==> 2 * points[k].time in ticks
    ensures fresh(row) && Shows(ticks, points, row[..])
  {
    row := new Value[|ticks|](i requires 0 <= i < |ticks| => if ticks[i] % 2 == 0 then Undefined else Null);
    for k := 0 to |points|
      invariant row.Length == |ticks| && Shows(ticks, points[..k], row[..])
    {
      var i := index[2 * points[k].time];
      row[i] := At(points[k].value);
      assert Front(points[..k + 1]) == points[..k];
    }
    assert points[..|points|] == points;
  }

  function Names(series: seq<NamedSeries>): seq<string> {
    seq(|series|, i requires 0 <= i < |series| => series[i].name)
  }

  /** Only as many series as there are colors are shown. */
  function ShownOf(series: seq<NamedSeries>): seq<NamedSeries> {
    if |series| <= MAX_SERIES then series else series[..MAX_SERIES]
  }

  lemma AxisIsShared(series: seq<NamedSeries>, times: seq<int>, ticks: seq<int>)
    requires SharedAxis(series, times) && ticks == Axis(times, Limit(times), |times|)
    ensures Increasing(ticks) && WholeTimes(ticks) == times
    ensures forall s, k :: 0 <= s < |series| && 0 <= k < |series[s].points| ==> 2 * series[s].points[k].time in ticks
  {
    AxisIsIncreasing(times, Limit(times), |times|);
    AxisKeepsTimes(times, Limit(times), |times|);
    assert times[..|times|] == times;
    forall s, k | 0 <= s < |series| && 0 <= k < |series[s].points| ensures 2 * series[s].points[k].time in ticks {
      assert Timed(series[s].points, series[s].points[k].time);
      assert AnyTimed(series, series[s].points[k].time);
      InWholeTimes(ticks, series[s].points[k].time);
    }
  }

  /** The axis increases, its whole seconds are the sorted union of the shown series' times, and
      each row shows its own series. */
  method Align(series: seq<NamedSeries>) returns (a: Aligned)
    ensures |a.names| == (if |series| < 8 then |series| else 8) && |a.names| + |a.hidden| == |series|
    ensures forall i :: 0 <= i < |series| ==> series[i].name == (a.names + a.hidden)[i]
    ensures Increasing(a.ticks) && SharedAxis(series[..|a.names|], WholeTimes(a.ticks))
    ensures a.ticks == Axis(WholeTimes(a.ticks), Limit(WholeTimes(a.ticks)), |WholeTimes(a.ticks)|)
    ensures |a.values| == |a.names|
    ensures forall s :: 0 <= s < |a.values| ==> Shows(a.ticks, series[s].points, a.values[s])
  {
    var shown := ShownOf(series);
    var collected := CollectTimes(shown);
    SortIncreases(collected);
    var times := Sort(collected);
    var ticks := WithGaps(times);
    AxisIsShared(shown, times, ticks);
    var index := IndexTicks(ticks);
    var values := [];
    for s := 0 to |shown|
      invariant |values| == s && forall t :: 0 <= t < s ==> Shows(ticks, shown[t].points, values[t])
    {
      var row := FillRow(ticks, index, shown[s].points);
      values := values + [row[..]];
    }
    assert shown == series[..|shown|];
    a := Aligned(ticks, Names(shown), values, Names(series[|shown|..]));
  }

  // ---------------------------------------------------------------- reading a row back

  lemma {:induction false} ValueIsNullIff(points: seq<Point>, tick: int)
    ensures ValueAt(points, tick).Null? <==> tick % 2 == 1
  {
    if points != [] {
      ValueIsNullIff(Front(points), tick);
    }
  }

  /** A row breaks its line exactly at the added times, whatever its series holds. */
  lemma NullExactlyAtAddedTimes(ticks: seq<int>, points: seq<Point>, row: seq<Value>, i: nat)
    requires Shows(ticks, points, row) && i < |row|
    ensures row[i].Null? <==> ticks[i] % 2 == 1
  {
    ValueIsNullIff(points, ticks[i]);
  }

  /** A tick shows the last point of its time. */
  lemma {:induction false} ValueIsLast(points: seq<Point>, time: int, k: nat)
    requires k < |points| && points[k].time == time && forall j :: k < j < |points| ==> points[j].time != time
    ensures ValueAt(points, 2 * time) == At(points[k].value)
  {
    if k < |points| - 1 {
      assert points[|points| - 1] == Last(points) && forall j :: 0 <= j < |Front(points)| ==> Front(points)[j] == points[j];
      ValueIsLast(Front(points), time, k);
    }
  }

  ghost predicate TimesDiffer(points: seq<Point>) {
    forall i, j :: 0 <= i < j < |points| ==> points[i].time != points[j].time
  }

  ghost predicate ByTime(points: seq<Point>) {
    forall i, j :: 0 <= i < j < |points| ==> points[i].time < points[j].time
  }

  lemma {:induction false} ValueIsPoint(points: seq<Point>, p: Point)
    requires TimesDiffer(points)
    ensures ValueAt(points, 2 * p.time) == At(p.value) <==> p in points
  {
    if points != [] {
      assert forall k :: 0 <= k < |Front(points)| ==> Front(points)[k] == points[k];
      ValueIsPoint(Front(points), p);
      InFrontOrLast(points, p);
    }
  }

  /** The points a row shows, in the order of the axis. */
  function ReadBack(ticks: seq<int>, row: seq<Value>): seq<Point>
    requires |ticks| == |row|
  {
    if row == [] then []
    else
      var before := ReadBack(Front(ticks), Front(row));
      if Last(row).At? then before + [Point(Last(ticks) / 2, Last(row).value)] else before
  }

  ghost predicate ShowsPoint(ticks: seq<int>, row: seq<Value>, p: Point)
    requires |ticks| == |row|
  {
    exists i :: 0 <= i < |row| && row[i] == At(p.value) && ticks[i] / 2 == p.time
  }

  lemma {:induction false} ReadBackHolds(ticks: seq<int>, row: seq<Value>, p: Point)
    requires |ticks| == |row|
    ensures p in ReadBack(ticks, row) <==> ShowsPoint(ticks, row, p)
  {
    if row != [] {
      ReadBackHolds(Front(ticks), Front(row), p);
      assert forall i :: 0 <= i < |Front(row)| ==> Front(row)[i] == row[i] && Front(ticks)[i] == ticks[i];
      if ShowsPoint(ticks, row, p) {
        var i :| 0 <= i < |row| && row[i] == At(p.value) && ticks[i] / 2 == p.time;
        if i < |row| - 1 {
          assert Front(row)[i] == At(p.value);
        }
      }
    }
  }

  /** Points in the order of time, none after a tick. */
  ghost predicate ByTimeUpTo(points: seq<Point>, ticks: seq<int>) {
    ByTime(points) && forall k :: 0 <= k < |points| ==> ticks != [] && 2 * points[k].time <= Last(ticks)
  }

  lemma OneMorePoint(points: seq<Point>, ticks: seq<int>, p: Point)
    requires ticks != [] && Increasing(ticks) && ByTimeUpTo(points, Front(ticks)) && 2 * p.time == Last(ticks)
    ensures ByTimeUpTo(points + [p], ticks)
  {
    if |ticks| > 1 {
      assert Last(Front(ticks)) < Last(ticks);
    }
  }

  lemma NoMorePoint(points: seq<Point>, ticks: seq<int>)
    requires ticks != [] && Increasing(ticks) && ByTimeUpTo(points, Front(ticks))
    ensures ByTimeUpTo(points, ticks)
  {
    if |ticks| > 1 {
      assert Last(Front(ticks)) < Last(ticks);
    }
  }

  lemma {:induction false} ReadBackInOrder(ticks: seq<int>, row: seq<Value>)
    requires |ticks| == |row| && Increasing(ticks) && forall i :: 0 <= i < |row| && row[i].At? ==> ticks[i] % 2 == 0
    ensures ByTimeUpTo(ReadBack(ticks, row), ticks)
  {
    if row != [] {
      assert forall i :: 0 <= i < |Front(row)| ==> Front(row)[i] == row[i] && Front(ticks)[i] == ticks[i];
      ReadBackInOrder(Front(ticks), Front(row));
      var before := ReadBack(Front(ticks), Front(row));
      if Last(row).At? {
        OneMorePoint(before, ticks, Point(Last(ticks) / 2, Last(row).value));
      } else {
        NoMorePoint(before, ticks);
      }
    }
  }

  /** Lists in the order of time with the same points are the same list. */
  lemma {:induction false} SamePoints(s: seq<Point>, t: seq<Point>)
    requires ByTime(s) && ByTime(t) && forall p :: p in s <==> p in t
    ensures s == t
  {
    assert (s != [] ==> s[0] in s) && (t != [] ==> t[0] in t);
    if s != [] && t != [] {
      assert s[0] == t[0];
      forall p ensures p in s[1..] <==> p in t[1..] {
        assert p in s <==> p == s[0] || p in s[1..];
        assert p in t <==> p == t[0] || p in t[1..];
      }
      SamePoints(s[1..], t[1..]);
      assert s == [s[0]] + s[1..] && t == [t[0]] + t[1..];
    }
  }

  lemma RowReadsBack(ticks: seq<int>, points: seq<Point>, row: seq<Value>)
    requires Increasing(ticks) && Shows(ticks, points, row) && TimesDiffer(points)
    requires forall k :: 0 <= k < |points| ==> 2 * points[k].time in ticks
    ensures ByTime(ReadBack(ticks, row)) && forall p :: p in ReadBack(ticks, row) <==> p in points
  {
    forall i | 0 <= i < |row| && row[i].At? ensures ticks[i] % 2 == 0 {
      AtIsWhole(points, ticks[i]);
    }
    ReadBackInOrder(ticks, row);
    forall p ensures p in ReadBack(ticks, row) <==> p in points {
      ReadBackHolds(ticks, row, p);
      ValueIsPoint(points, p);
      if p in points {
        var i :| 0 <= i < |ticks| && ticks[i] == 2 * p.time;
        assert row[i] == At(p.value);
      }
    }
  }

  /** On a shared axis, a series whose times differ is read back from its row with exactly its
      points, in the order of time. When it came in that order it is read back as it was. */
  lemma SeriesReadsBack(series: seq<NamedSeries>, ticks: seq<int>, s: nat, row: seq<Value>)
    requires Increasing(ticks) && SharedAxis(series, WholeTimes(ticks)) && s < |series|
    requires Shows(ticks, series[s].points, row) && TimesDiffer(series[s].points)
    ensures ByTime(ReadBack(ticks, row)) && forall p :: p in ReadBack(ticks, row) <==> p in series[s].points
    ensures ByTime(series[s].points) ==> ReadBack(ticks, row) == series[s].points
  {
    var points := series[s].points;
    forall k | 0 <= k < |points| ensures 2 * points[k].time in ticks {
      assert Timed(points, points[k].time) && AnyTimed(series, points[k].time);
      InWholeTimes(ticks, points[k].time);
    }
    RowReadsBack(ticks, points, row);
    if ByTime(points) {
      SamePoints(ReadBack(ticks, row), points);
    }
  }

  lemma {:induction false} AtIsWhole(points: seq<Point>, tick: int)
    ensures ValueAt(points, tick).At? ==> tick % 2 == 0
  {
    if points != [] {
      AtIsWhole(Front(points), tick);
    }
  }
}
