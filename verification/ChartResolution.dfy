/** Which data a chart is read from, and how wide its buckets are. */
module ChartResolution {
  import opened Basics

  /** Division and truncation of the program's durations, which round toward zero. */
  function Divide(a: int, b: int): int
    requires b > 0
  {
    if a >= 0 then a / b else -((-a) / b)
  }

  function Truncate(a: int, unit: int): int
    requires unit > 0
  {
    Divide(a, unit) * unit
  }

  datatype Source = Raw | Minutes | Hours

  function Grain(source: Source): int {
    match source
    case Raw => SECOND
    case Minutes => MINUTE
    case Hours => HOUR
  }

  /** How long raw data and one-minute data are kept. */
  datatype Retention = Retention(raw: int, minute: int)

  datatype Choice = Choice(source: Source, step: int)

  function BaseStep(range: int, maxPoints: int): int
    requires maxPoints >= 1
  {
    Truncate(Divide(range, maxPoints), SECOND) + SECOND
  }

  function RoundUp(d: int, unit: int): int
    requires unit > 0
  {
    if d <= unit then unit else Divide(d + unit - 1, unit) * unit
  }

  function PickSource(rawOnly: bool, from: int, to: int, now: int, maxPoints: int, retention: Retention): Choice
    requires maxPoints >= 1
  {
    var step := BaseStep(to - from, maxPoints);
    if rawOnly || (step < MINUTE && from >= now - retention.raw) then Choice(Raw, step)
    else if step < HOUR && from >= now - retention.minute then Choice(Minutes, RoundUp(step, MINUTE))
    else Choice(Hours, RoundUp(step, HOUR))
  }

  // ---------------------------------------------------------------- the step

  predicate MultipleOf(a: int, unit: int)
    requires unit > 0
  {
    a % unit == 0
  }

  /** The least positive multiple of a grain that covers a range with a number of points. */
  ghost predicate LeastStep(step: int, grain: int, range: int, maxPoints: int)
    requires grain > 0
  {
    && step > 0 && MultipleOf(step, grain) && range < step * maxPoints
    && (forall other :: other > 0 && MultipleOf(other, grain) && range < other * maxPoints ==> step <= other)
  }

  lemma TimesMonotone(a: int, b: int, n: int)
    requires a <= b && n >= 1
    ensures a * n <= b * n
  {
  }

  lemma TimesReflects(a: int, b: int, n: int)
    requires a * n < b * n && n >= 1
    ensures a < b
  {
    if b <= a {
      TimesMonotone(b, a, n);
    }
  }

  /** Between two multiples of a unit there is room for the whole unit. */
  lemma MultiplesApart(a: int, b: int, unit: int)
    requires unit > 0 && MultipleOf(a, unit) && MultipleOf(b, unit) && a < b
    ensures a + unit <= b
  {
    assert a == (a / unit) * unit && b == (b / unit) * unit;
    if b / unit <= a / unit {
      TimesMonotone(b / unit, a / unit, unit);
    } else {
      TimesMonotone(a / unit + 1, b / unit, unit);
    }
  }

  lemma TimesIsMultiple(k: int, unit: int)
    requires unit > 0
    ensures MultipleOf(k * unit, unit)
  {
    assert (k * unit) % unit == 0 by {
      var r := (k * unit) % unit;
      var q := (k * unit) / unit;
      assert k * unit == q * unit + r;
      assert (k - q) * unit == r;
      if k - q >= 1 {
        TimesMonotone(1, k - q, unit);
      } else if k - q <= -1 {
        TimesMonotone(k - q, -1, unit);
      }
    }
  }

  lemma TruncateBounds(a: int, unit: int)
    requires unit > 0
    ensures MultipleOf(Truncate(a, unit), unit)
    ensures a >= 0 ==> Truncate(a, unit) <= a < Truncate(a, unit) + unit
    ensures a < 0 ==> a <= Truncate(a, unit) < a + unit && Truncate(a, unit) <= 0
  {
    TimesIsMultiple(Divide(a, unit), unit);
    if a < 0 {
      assert -a == ((-a) / unit) * unit + (-a) % unit;
    }
  }

  /** The step of whole seconds covers every range, backwards ones too. */
  lemma BaseStepCovers(range: int, maxPoints: int)
    requires maxPoints >= 1
    ensures range < BaseStep(range, maxPoints) * maxPoints
    ensures MultipleOf(BaseStep(range, maxPoints), SECOND)
  {
    var q := Divide(range, maxPoints);
    TruncateBounds(range, maxPoints);
    TruncateBounds(q, SECOND);
    TimesMonotone(q + 1, BaseStep(range, maxPoints), maxPoints);
    assert (q + 1) * maxPoints == q * maxPoints + maxPoints;
  }

  lemma BaseStepIsLeast(range: int, maxPoints: int, other: int)
    requires maxPoints >= 1 && range >= 0 && MultipleOf(other, SECOND) && range < other * maxPoints
    ensures BaseStep(range, maxPoints) <= other
  {
    var q := Divide(range, maxPoints);
    TruncateBounds(range, maxPoints);
    TruncateBounds(q, SECOND);
    TimesReflects(q, other, maxPoints);
    MultiplesApart(Truncate(q, SECOND), other, SECOND);
  }

  /** What rounding up gives: a positive multiple, less than a unit above. */
  lemma RoundUpBounds(d: int, unit: int)
    requires unit > 0
    ensures unit <= RoundUp(d, unit) && d <= RoundUp(d, unit) && MultipleOf(RoundUp(d, unit), unit)
    ensures RoundUp(d, unit) == unit || RoundUp(d, unit) < d + unit
  {
    if d <= unit {
      TimesIsMultiple(1, unit);
      assert 1 * unit == unit;
    } else {
      TruncateBounds(d + unit - 1, unit);
      assert RoundUp(d, unit) == Truncate(d + unit - 1, unit);
    }
  }

  /** Rounding up gives the least positive multiple that is no smaller. */
  lemma RoundUpIsLeast(d: int, unit: int, other: int)
    requires unit > 0 && other > 0 && MultipleOf(other, unit) && d <= other
    ensures RoundUp(d, unit) <= other
    ensures unit <= RoundUp(d, unit) && d <= RoundUp(d, unit) && MultipleOf(RoundUp(d, unit), unit)
  {
    RoundUpBounds(d, unit);
    TimesIsMultiple(0, unit);
    assert 0 * unit == 0;
    MultiplesApart(0, other, unit);
    if other < RoundUp(d, unit) {
      MultiplesApart(other, RoundUp(d, unit), unit);
    }
  }

  lemma GrainsNest(a: int)
    ensures MultipleOf(a, HOUR) ==> MultipleOf(a, MINUTE)
    ensures MultipleOf(a, MINUTE) ==> MultipleOf(a, SECOND)
  {
  }

  /** For every range, the chosen step leaves no part of the range uncovered and is made of whole
      grains of the chosen source. */
  lemma StepCoversRange(rawOnly: bool, from: int, to: int, now: int, maxPoints: int, retention: Retention)
    requires maxPoints >= 1
    ensures var c := PickSource(rawOnly, from, to, now, maxPoints, retention);
            to - from < c.step * maxPoints && MultipleOf(c.step, Grain(c.source))
  {
    var step := BaseStep(to - from, maxPoints);
    var c := PickSource(rawOnly, from, to, now, maxPoints, retention);
    BaseStepCovers(to - from, maxPoints);
    if !c.source.Raw? {
      RoundUpBounds(step, Grain(c.source));
      TimesMonotone(step, c.step, maxPoints);
    }
  }

  /** No smaller step of the chosen source would do. */
  lemma StepIsLeast(rawOnly: bool, from: int, to: int, now: int, maxPoints: int, retention: Retention)
    requires maxPoints >= 1 && from <= to
    ensures var c := PickSource(rawOnly, from, to, now, maxPoints, retention);
            LeastStep(c.step, Grain(c.source), to - from, maxPoints)
  {
    var range := to - from;
    var c := PickSource(rawOnly, from, to, now, maxPoints, retention);
    StepCoversRange(rawOnly, from, to, now, maxPoints, retention);
    if c.step <= 0 {
      TimesMonotone(c.step, 0, maxPoints);
    }
    forall other | other > 0 && MultipleOf(other, Grain(c.source)) && range < other * maxPoints ensures c.step <= other {
      GrainsNest(other);
      BaseStepIsLeast(range, maxPoints, other);
      if !c.source.Raw? {
        RoundUpIsLeast(BaseStep(range, maxPoints), Grain(c.source), other);
      }
    }
  }

  /** Data finer than an hour is only read where it is kept for the whole range, or where the metric
      has nothing else. And it is read whenever it is kept and fine enough buckets are asked for. */
  lemma SourceIsKept(rawOnly: bool, from: int, to: int, now: int, maxPoints: int, retention: Retention)
    requires maxPoints >= 1
    ensures var c := PickSource(rawOnly, from, to, now, maxPoints, retention);
            && (rawOnly ==> c.source.Raw?)
            && (c.source.Raw? && !rawOnly ==> now - from <= retention.raw && c.step < MINUTE)
            && (c.source.Minutes? ==> now - from <= retention.minute && c.step <= HOUR)
            && (!c.source.Raw? && now - from <= retention.raw ==> to - from >= (MINUTE - SECOND) * maxPoints)
            && (c.source.Hours? && now - from <= retention.minute ==> to - from >= (HOUR - SECOND) * maxPoints)
  {
    var range := to - from;
    var step := BaseStep(range, maxPoints);
    if step < HOUR {
      RoundUpIsLeast(step, MINUTE, HOUR);
    }
    BaseStepCovers(range, maxPoints);
    if step >= MINUTE {
      var q := Divide(range, maxPoints);
      TruncateBounds(q, SECOND);
      TruncateBounds(range, maxPoints);
      TimesMonotone(MINUTE - SECOND, q, maxPoints);
      if step >= HOUR {
        TimesMonotone(HOUR - SECOND, q, maxPoints);
      }
    }
  }

  /** Rank of a source, finest first. */
  function Coarseness(source: Source): int {
    match source
    case Raw => 0
    case Minutes => 1
    case Hours => 2
  }

  lemma QuotientMonotone(a: int, b: int, n: int)
    requires a <= b && n > 0
    ensures a / n <= b / n
  {
    var p, q := a / n, b / n;
    assert p * n <= a && b < q * n + n;
    if q < p {
      TimesMonotone(q + 1, p, n);
    }
  }

  lemma DivideMonotone(a: int, b: int, n: int)
    requires a <= b && n > 0
    ensures Divide(a, n) <= Divide(b, n)
  {
    if a >= 0 {
      QuotientMonotone(a, b, n);
    } else if b < 0 {
      QuotientMonotone(-b, -a, n);
    } else {
      QuotientMonotone(0, b, n);
      QuotientMonotone(0, -a, n);
      assert 0 / n == 0;
    }
  }

  lemma BaseStepMonotone(range: int, longer: int, maxPoints: int)
    requires range <= longer && maxPoints >= 1
    ensures BaseStep(range, maxPoints) <= BaseStep(longer, maxPoints)
  {
    DivideMonotone(range, longer, maxPoints);
    DivideMonotone(Divide(range, maxPoints), Divide(longer, maxPoints), SECOND);
  }

  lemma RoundUpMonotone(a: int, b: int, unit: int)
    requires a <= b && unit > 0
    ensures RoundUp(a, unit) <= RoundUp(b, unit)
  {
    RoundUpBounds(b, unit);
    RoundUpIsLeast(a, unit, RoundUp(b, unit));
  }

  /** Looking further back never gives finer data or smaller buckets. */
  lemma FurtherBackIsCoarser(rawOnly: bool, earlier: int, from: int, to: int, now: int, maxPoints: int, retention: Retention)
    requires maxPoints >= 1 && earlier <= from
    ensures var near := PickSource(rawOnly, from, to, now, maxPoints, retention);
            var far := PickSource(rawOnly, earlier, to, now, maxPoints, retention);
            Coarseness(near.source) <= Coarseness(far.source) && near.step <= far.step
  {
    var step, longer := BaseStep(to - from, maxPoints), BaseStep(to - earlier, maxPoints);
    BaseStepMonotone(to - from, to - earlier, maxPoints);
    RoundUpMonotone(step, longer, MINUTE);
    RoundUpMonotone(step, longer, HOUR);
    RoundUpBounds(longer, MINUTE);
    RoundUpBounds(longer, HOUR);
    if step < HOUR {
      RoundUpIsLeast(step, MINUTE, HOUR);
    }
  }

  // ---------------------------------------------------------------- the buckets

  /** The bucket a time falls into. Buckets are counted from a fixed origin. */
  function Bucket(time: int, step: int, origin: int): int
    requires step > 0
  {
    (time - origin) / step
  }

  /** The database keeps times to the microsecond. */
  const MICROSECOND: int := 1000

  /** How far apart the times of a source's rows can lie. Rollups have one row a minute or an hour. */
  function RowGrain(source: Source): (grain: int)
    ensures grain > 0
  {
    match source
    case Raw => MICROSECOND
    case Minutes => MINUTE
    case Hours => HOUR
  }

  /** The times of a series: increasing buckets that hold rows of the range. */
  ghost predicate PointsOf(points: seq<int>, from: int, to: int, grain: int, step: int, origin: int)
    requires grain > 0 && step > 0
  {
    && (forall i, j :: 0 <= i < j < |points| ==> points[i] < points[j])
    && (forall i :: 0 <= i < |points| ==> Touched(points[i], from, to, grain, step, origin))
  }

  ghost predicate Touched(bucket: int, from: int, to: int, grain: int, step: int, origin: int)
    requires grain > 0 && step > 0
  {
    exists time :: from <= time < to && MultipleOf(time, grain) && Bucket(time, step, origin) == bucket
  }

  /** The first time at or after another that a row can have. */
  function FirstRow(from: int, grain: int): int
    requires grain > 0
  {
    ((from + grain - 1) / grain) * grain
  }

  lemma FirstRowIs(from: int, grain: int)
    requires grain > 0
    ensures from <= FirstRow(from, grain) < from + grain && MultipleOf(FirstRow(from, grain), grain)
    ensures forall time :: from <= time && MultipleOf(time, grain) ==> FirstRow(from, grain) <= time
  {
    var first := FirstRow(from, grain);
    TimesIsMultiple((from + grain - 1) / grain, grain);
    assert from + grain - 1 == ((from + grain - 1) / grain) * grain + (from + grain - 1) % grain;
    forall time | from <= time && MultipleOf(time, grain) ensures first <= time {
      if time < first {
        MultiplesApart(time, first, grain);
      }
    }
  }

  /** Raw rows are at whole microseconds, the others at whole minutes and hours. */
  lemma RowsAreAt(source: Source, from: int)
    ensures var first, grain := FirstRow(from, RowGrain(source)), if source.Raw? then 1000 else if source.Minutes? then 60 * SECOND else 3600 * SECOND;
            from <= first < from + grain && first % grain == 0
  {
    FirstRowIs(from, RowGrain(source));
  }

  lemma BucketMonotone(a: int, b: int, step: int, origin: int)
    requires step > 0 && a <= b
    ensures Bucket(a, step, origin) <= Bucket(b, step, origin)
  {
    QuotientMonotone(a - origin, b - origin, step);
  }

  lemma {:induction false} IncreasingSpreads(points: seq<int>, k: nat)
    requires k < |points| && forall i, j :: 0 <= i < j < |points| ==> points[i] < points[j]
    ensures points[k] >= points[0] + k
  {
    if k > 0 {
      IncreasingSpreads(points, k - 1);
    }
  }

  /** Points fit between the bucket of any time no row is before and the bucket of the range's end. */
  lemma PointsFit(points: seq<int>, from: int, low: int, to: int, grain: int, step: int, origin: int)
    requires grain > 0 && step > 0 && PointsOf(points, from, to, grain, step, origin) && points != []
    requires forall time :: from <= time && MultipleOf(time, grain) ==> low <= time
    ensures low < to && |points| <= Bucket(to - 1, step, origin) - Bucket(low, step, origin) + 1
  {
    IncreasingSpreads(points, |points| - 1);
    var first :| from <= first < to && MultipleOf(first, grain) && Bucket(first, step, origin) == points[0];
    var last :| from <= last < to && MultipleOf(last, grain) && Bucket(last, step, origin) == points[|points| - 1];
    BucketMonotone(low, first, step, origin);
    BucketMonotone(last, to - 1, step, origin);
  }

  function UpFrom(first: int, count: nat): seq<int> {
    seq(count, i => first + i)
  }

  /** A bucket that starts within the range holds its own start. */
  lemma BucketStartsInRange(from: int, to: int, step: int, origin: int, k: int)
    requires step > 0 && Bucket(from, step, origin) < k <= Bucket(to - 1, step, origin)
    ensures from <= origin + k * step < to && Bucket(origin + k * step, step, origin) == k
  {
    DivideExact(k, step);
    assert from - origin == Bucket(from, step, origin) * step + (from - origin) % step;
    assert to - 1 - origin == Bucket(to - 1, step, origin) * step + (to - 1 - origin) % step;
    TimesMonotone(Bucket(from, step, origin) + 1, k, step);
    TimesMonotone(k, Bucket(to - 1, step, origin), step);
  }

  lemma SumIsMultiple(a: int, b: int, unit: int)
    requires unit > 0 && MultipleOf(a, unit) && MultipleOf(b, unit)
    ensures MultipleOf(a + b, unit)
  {
    assert a == (a / unit) * unit && b == (b / unit) * unit;
    assert a + b == (a / unit + b / unit) * unit;
    TimesIsMultiple(a / unit + b / unit, unit);
  }

  lemma ProductIsMultiple(k: int, a: int, unit: int)
    requires unit > 0 && MultipleOf(a, unit)
    ensures MultipleOf(k * a, unit)
  {
    assert a == (a / unit) * unit;
    assert k * a == (k * (a / unit)) * unit;
    TimesIsMultiple(k * (a / unit), unit);
  }

  lemma BucketTouched(from: int, first: int, to: int, grain: int, step: int, origin: int, k: int)
    requires grain > 0 && step > 0 && MultipleOf(step, grain) && MultipleOf(origin, grain) && MultipleOf(first, grain)
    requires from <= first < to && Bucket(first, step, origin) <= k <= Bucket(to - 1, step, origin)
    ensures Touched(k, from, to, grain, step, origin)
  {
    if k > Bucket(first, step, origin) {
      BucketStartsInRange(first, to, step, origin, k);
      ProductIsMultiple(k, step, grain);
      SumIsMultiple(origin, k * step, grain);
    }
  }

  /** Every bucket from the first row's to the end can have a row. */
  lemma AllBucketsHoldData(from: int, low: int, to: int, grain: int, step: int, origin: int, first: int, count: nat)
    requires grain > 0 && step > 0 && MultipleOf(step, grain) && MultipleOf(origin, grain) && MultipleOf(low, grain) && from <= low < to
    requires first == Bucket(low, step, origin) && first + count - 1 == Bucket(to - 1, step, origin)
    ensures PointsOf(UpFrom(first, count), from, to, grain, step, origin)
  {
    var all := UpFrom(first, count);
    forall i | 0 <= i < |all| ensures Touched(all[i], from, to, grain, step, origin) {
      BucketTouched(from, low, to, grain, step, origin, first + i);
    }
  }

  lemma DivideExact(k: int, unit: int)
    requires unit > 0
    ensures (k * unit) / unit == k
  {
    TimesIsMultiple(k, unit);
    var q := (k * unit) / unit;
    assert q * unit == k * unit;
    if q < k {
      TimesMonotone(q + 1, k, unit);
    } else if k < q {
      TimesMonotone(k + 1, q, unit);
    }
  }

  lemma BucketsWithin(from: int, to: int, step: int, origin: int, n: int)
    requires step > 0 && from < to
    ensures Bucket(to - 1, step, origin) - Bucket(from, step, origin) + 1 <= n <==> (from - origin) % step + (to - from) <= step * n
  {
    var a, b := Bucket(from, step, origin), Bucket(to - 1, step, origin);
    assert from - origin == a * step + (from - origin) % step;
    assert to - 1 - origin == b * step + (to - 1 - origin) % step;
    assert (a + n) * step == a * step + step * n;
    if b + 1 <= a + n {
      TimesMonotone(b + 1, a + n, step);
      assert (b + 1) * step == b * step + step;
    } else {
      TimesMonotone(a + n, b, step);
    }
  }

  /** A chart has at most one point more than was asked for. */
  lemma AtMostOneExtraPoint(rawOnly: bool, from: int, to: int, now: int, maxPoints: int, retention: Retention,
                            origin: int, points: seq<int>)
    requires maxPoints >= 1 && from < to
    ensures var c := PickSource(rawOnly, from, to, now, maxPoints, retention);
            c.step > 0 && (PointsOf(points, from, to, RowGrain(c.source), c.step, origin) ==> |points| <= maxPoints + 1)
  {
    var c := PickSource(rawOnly, from, to, now, maxPoints, retention);
    StepIsLeast(rawOnly, from, to, now, maxPoints, retention);
    if PointsOf(points, from, to, RowGrain(c.source), c.step, origin) && points != [] {
      PointsFit(points, from, from, to, RowGrain(c.source), c.step, origin);
      assert c.step * (maxPoints + 1) == c.step * maxPoints + c.step;
      BucketsWithin(from, to, c.step, origin, maxPoints + 1);
    }
  }

  /** The part of the first row's bucket before it, and the range from it on, fit that many buckets. */
  predicate Fits(first: int, to: int, step: int, origin: int, maxPoints: int)
    requires step > 0
  {
    (first - origin) % step + (to - first) <= step * maxPoints
  }

  lemma FitsIff(from: int, to: int, grain: int, step: int, origin: int, maxPoints: int)
    requires grain > 0 && step > 0 && MultipleOf(step, grain) && MultipleOf(origin, grain) && maxPoints >= 1
    ensures (forall points :: PointsOf(points, from, to, grain, step, origin) ==> |points| <= maxPoints)
       <==> Fits(FirstRow(from, grain), to, step, origin, maxPoints)
  {
    var first := FirstRow(from, grain);
    FirstRowIs(from, grain);
    if to <= first {
      NoRowsFit(from, to, grain, step, origin, maxPoints);
    } else {
      BucketsWithin(first, to, step, origin, maxPoints);
      BucketMonotone(first, to - 1, step, origin);
      var bucket, count := Bucket(first, step, origin), Bucket(to - 1, step, origin) - Bucket(first, step, origin) + 1;
      AllBucketsHoldData(from, first, to, grain, step, origin, bucket, count);
      assert |UpFrom(bucket, count)| == count;
      forall points | Fits(first, to, step, origin, maxPoints) && PointsOf(points, from, to, grain, step, origin)
        ensures |points| <= maxPoints
      {
        if points != [] {
          PointsFit(points, from, first, to, grain, step, origin);
        }
      }
    }
  }

  /** Without a row in the range there is no point, and that fits. */
  lemma NoRowsFit(from: int, to: int, grain: int, step: int, origin: int, maxPoints: int)
    requires grain > 0 && step > 0 && maxPoints >= 1 && to <= FirstRow(from, grain)
    ensures forall points :: PointsOf(points, from, to, grain, step, origin) ==> points == []
    ensures Fits(FirstRow(from, grain), to, step, origin, maxPoints)
  {
    FirstRowIs(from, grain);
    forall points | PointsOf(points, from, to, grain, step, origin) ensures points == [] {
      if points != [] {
        PointsFit(points, from, FirstRow(from, grain), to, grain, step, origin);
      }
    }
    TimesMonotone(1, maxPoints, step);
  }

  lemma MultiplesNest(a: int, unit: int, part: int)
    requires unit > 0 && part > 0 && MultipleOf(a, unit) && MultipleOf(unit, part)
    ensures MultipleOf(a, part)
  {
    assert a == (a / unit) * unit;
    ProductIsMultiple(a / unit, unit, part);
  }

  /** Whole hours are whole grains of every source, and so is a step. */
  lemma GrainsDivide(source: Source, a: int)
    ensures MultipleOf(a, HOUR) ==> MultipleOf(a, RowGrain(source))
    ensures MultipleOf(a, Grain(source)) ==> MultipleOf(a, RowGrain(source))
  {
    if MultipleOf(a, HOUR) {
      MultiplesNest(a, HOUR, RowGrain(source));
    }
    if MultipleOf(a, Grain(source)) {
      MultiplesNest(a, Grain(source), RowGrain(source));
    }
  }

  /** The promised number of points is kept by every series exactly when the range from its first row on
      and the part of that row's bucket before it fit that many buckets. A range whose first row starts
      a bucket does. Buckets are counted from a whole hour. */
  lemma PromisedPointsIff(rawOnly: bool, from: int, to: int, now: int, maxPoints: int, retention: Retention, origin: int)
    requires maxPoints >= 1 && from < to && MultipleOf(origin, HOUR)
    ensures var c := PickSource(rawOnly, from, to, now, maxPoints, retention);
            var grain, first := RowGrain(c.source), FirstRow(from, RowGrain(c.source));
            && c.step > 0
            && ((forall points :: PointsOf(points, from, to, grain, c.step, origin) ==> |points| <= maxPoints)
                <==> (first - origin) % c.step + (to - first) <= c.step * maxPoints)
            && ((first - origin) % c.step == 0 ==> (first - origin) % c.step + (to - first) <= c.step * maxPoints)
  {
    var c := PickSource(rawOnly, from, to, now, maxPoints, retention);
    StepIsLeast(rawOnly, from, to, now, maxPoints, retention);
    GrainsDivide(c.source, c.step);
    GrainsDivide(c.source, origin);
    FitsIff(from, to, RowGrain(c.source), c.step, origin, maxPoints);
    FirstRowIs(from, RowGrain(c.source));
  }

  /** Two seconds of data that start inside a bucket give two points where one was asked for. */
  lemma UnalignedRangeHasExtraPoint()
    ensures var c := PickSource(false, 2 * SECOND, 4 * SECOND, 4 * SECOND, 1, Retention(HOUR, HOUR));
            c == Choice(Raw, 3 * SECOND) && PointsOf([0, 1], 2 * SECOND, 4 * SECOND, RowGrain(Raw), c.step, 0)
  {
    assert Bucket(2 * SECOND, 3 * SECOND, 0) == 0 && Bucket(3 * SECOND, 3 * SECOND, 0) == 1;
    assert Touched(0, 2 * SECOND, 4 * SECOND, MICROSECOND, 3 * SECOND, 0) && Touched(1, 2 * SECOND, 4 * SECOND, MICROSECOND, 3 * SECOND, 0);
  }

  /** A range that starts half way into a minute keeps to two points when it is read from minutes, since
      its first row is on the next minute. */
  lemma RollupRowsStartLater(points: seq<int>)
    ensures var c := PickSource(false, 30 * SECOND, 149 * SECOND, 10 * HOUR, 2, Retention(HOUR, 20 * HOUR));
            c == Choice(Minutes, MINUTE)
            && (PointsOf(points, 30 * SECOND, 149 * SECOND, RowGrain(Minutes), MINUTE, 0) ==> |points| <= 2)
  {
    PromisedPointsIff(false, 30 * SECOND, 149 * SECOND, 10 * HOUR, 2, Retention(HOUR, 20 * HOUR), 0);
    assert FirstRow(30 * SECOND, MINUTE) == MINUTE;
  }
}
