/** How the rows of a chart query become one series per label. */
module ChartSeries {
  import opened Basics

  /** A bucket's row. It has no value when none of its data has one. */
  datatype Row = Row(time: int, name: string, value: Option<real>)

  datatype Point = Point(time: int, value: real)

  datatype Series = Series(name: string, points: seq<Point>)

  /** Rows ordered by label hold each label's rows side by side. */
  ghost predicate Grouped(rows: seq<Row>) {
    forall i, j, k :: 0 <= i < j < k < |rows| && rows[i].name == rows[k].name ==> rows[j].name == rows[i].name
  }

  /** The points of a label among the first n rows, in their order. */
  function PointsFor(rows: seq<Row>, n: nat, name: string): seq<Point>
    requires n <= |rows|
  {
    if n == 0 then []
    else
      var before := PointsFor(rows, n - 1, name);
      if rows[n - 1].name == name && rows[n - 1].value.Some? then before + [Point(rows[n - 1].time, rows[n - 1].value.value)]
      else before
  }

  lemma {:induction false} PointsForSome(rows: seq<Row>, n: nat, name: string) returns (i: nat)
    requires n <= |rows| && PointsFor(rows, n, name) != []
    ensures i < n && rows[i].name == name && rows[i].value.Some?
  {
    i := n - 1;
    if !(rows[i].name == name && rows[i].value.Some?) {
      i := PointsForSome(rows, n - 1, name);
    }
  }

  /** Each series is whole: it has exactly the points of its label, and some. No label is twice. */
  ghost predicate Whole(rows: seq<Row>, n: nat, series: seq<Series>)
    requires n <= |rows|
  {
    && (forall s :: 0 <= s < |series| ==> series[s].points == PointsFor(rows, n, series[s].name) != [])
    && (forall s, t :: 0 <= s < t < |series| ==> series[s].name != series[t].name)
    && (forall i :: 0 <= i < n && rows[i].value.Some? ==> Shown(series, rows[i].name))
  }

  ghost predicate Shown(series: seq<Series>, name: string) {
    exists s :: 0 <= s < |series| && series[s].name == name
  }

  /** The last series is the one of the newest row that has a value. */
  ghost predicate Newest(rows: seq<Row>, n: nat, series: seq<Series>)
    requires n <= |rows|
  {
    series != [] ==> exists m :: 0 <= m < n && rows[m].name == Last(series).name && forall k :: m < k < n ==> rows[k].value.None?
  }

  /** A row whose label is not the last series' starts a label not seen yet. */
  lemma NewLabel(rows: seq<Row>, n: nat, series: seq<Series>)
    requires n < |rows| && Grouped(rows) && Whole(rows, n, series) && Newest(rows, n, series)
    requires series == [] || Last(series).name != rows[n].name
    ensures !Shown(series, rows[n].name)
  {
    if s :| 0 <= s < |series| && series[s].name == rows[n].name {
      var m :| 0 <= m < n && rows[m].name == Last(series).name && forall k :: m < k < n ==> rows[k].value.None?;
      var i := PointsForSome(rows, n, series[s].name);
      assert false;
    }
  }

  lemma NothingYet(rows: seq<Row>, n: nat, series: seq<Series>, name: string)
    requires n <= |rows| && Whole(rows, n, series) && !Shown(series, name)
    ensures PointsFor(rows, n, name) == []
  {
    if PointsFor(rows, n, name) != [] {
      var i := PointsForSome(rows, n, name);
      assert false;
    }
  }

  lemma StartSeries(rows: seq<Row>, n: nat, series: seq<Series>, series': seq<Series>)
    requires n < |rows| && rows[n].value.Some? && Whole(rows, n, series) && !Shown(series, rows[n].name)
    requires series' == series + [Series(rows[n].name, [Point(rows[n].time, rows[n].value.value)])]
    ensures Whole(rows, n + 1, series') && Newest(rows, n + 1, series')
  {
    NothingYet(rows, n, series, rows[n].name);
    assert rows[n].name == Last(series').name;
    forall i | 0 <= i < n + 1 && rows[i].value.Some? ensures Shown(series', rows[i].name) {
      if i < n {
        var s :| 0 <= s < |series| && series[s].name == rows[i].name;
        assert series'[s].name == rows[i].name;
      } else {
        assert series'[|series|].name == rows[i].name;
      }
    }
  }

  lemma ExtendSeries(rows: seq<Row>, n: nat, series: seq<Series>, series': seq<Series>)
    requires n < |rows| && rows[n].value.Some? && Whole(rows, n, series) && series != [] && Last(series).name == rows[n].name
    requires series' == Front(series) + [Series(rows[n].name, Last(series).points + [Point(rows[n].time, rows[n].value.value)])]
    ensures Whole(rows, n + 1, series') && Newest(rows, n + 1, series')
  {
    assert rows[n].name == Last(series').name;
    assert forall s :: 0 <= s < |series| ==> series'[s].name == series[s].name;
    forall i | 0 <= i < n + 1 && rows[i].value.Some? ensures Shown(series', rows[i].name) {
      var s :| 0 <= s < |series| && series[s].name == rows[i].name;
      assert series'[s].name == rows[i].name;
    }
  }

  lemma SkipRow(rows: seq<Row>, n: nat, series: seq<Series>)
    requires n < |rows| && rows[n].value.None? && Whole(rows, n, series) && Newest(rows, n, series)
    ensures Whole(rows, n + 1, series) && Newest(rows, n + 1, series)
  {
    if series != [] {
      var m :| 0 <= m < n && rows[m].name == Last(series).name && forall k :: m < k < n ==> rows[k].value.None?;
      assert forall k :: m < k < n + 1 ==> rows[k].value.None?;
    }
  }

  /** Only the last series is ever compared and extended, and still every series is whole. */
  method CollectSeries(rows: seq<Row>) returns (series: seq<Series>)
    requires Grouped(rows)
    ensures Whole(rows, |rows|, series)
  {
    series := [];
    for n := 0 to |rows|
      invariant Whole(rows, n, series) && Newest(rows, n, series)
    {
      var row := rows[n];
      ghost var before := series;
      if row.value.None? {
        SkipRow(rows, n, series);
        continue;
      }
      if series == [] || Last(series).name != row.name {
        NewLabel(rows, n, series);
        series := series + [Series(row.name, [])];
      }
      var newest := Last(series);
      series := Front(series) + [Series(newest.name, newest.points + [Point(row.time, row.value.value)])];
      if before == [] || Last(before).name != row.name {
        assert Front(before + [Series(row.name, [])]) == before;
        assert [] + [Point(row.time, row.value.value)] == [Point(row.time, row.value.value)];
        assert series == before + [Series(row.name, [Point(row.time, row.value.value)])];
        StartSeries(rows, n, before, series);
      } else {
        ExtendSeries(rows, n, before, series);
      }
    }
  }
}
