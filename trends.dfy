/**
  The historical trend chart. For every selected corridor the dashboard
  groups the corridor's records by quarter index, keeps the first value of
  each group (groups come out in ascending index order), tags the rows with
  the corridor, concatenates the corridors' series in selection order and
  labels every row with the quarter label at its index.
 */
module Trends {

  import opened Wrappers
  import opened Corridors
  import opened Aggregation
  import opened Quarters

  /** One point of a corridor's series. */
  datatype QuarterValue = QuarterValue(quarterIndex: nat, value: real)

  /** One row of the combined trend frame. */
  datatype TrendRow = TrendRow(quarterIndex: nat, value: real, corridor: string, quarter: string)

  predicate AtQuarter(p: TradePoint, name: string, qi: nat) {
    p.corridor == name && p.quarterIndex == qi
  }

  /** Record i is the earliest record of the corridor in quarter qi. */
  predicate FirstRecordAt(ps: seq<TradePoint>, i: nat, name: string, qi: nat) {
    && i < |ps|
    && AtQuarter(ps[i], name, qi)
    && forall j :: 0 <= j < i ==> !AtQuarter(ps[j], name, qi)
  }

  /** The value of the (corridor, quarter) group: the first value of the
      corridor's records that carry the quarter index. */
  function QuarterFirst(ps: seq<TradePoint>, name: string, qi: nat): Option<real> {
    FirstValue(Filter(ps, [name], qi), name)
  }

  /** A group exists exactly when some record of the corridor carries the
      index, and its value is that of the earliest such record. */
  lemma {:induction false} QuarterFirstSpec(ps: seq<TradePoint>, name: string, qi: nat)
    ensures QuarterFirst(ps, name, qi).None? <==> forall p :: p in ps ==> !AtQuarter(p, name, qi)
    ensures QuarterFirst(ps, name, qi).Some? ==>
      exists i: nat :: FirstRecordAt(ps, i, name, qi) && ps[i].value == QuarterFirst(ps, name, qi).value
    decreases |ps|
  {
    if |ps| > 0 {
      var x, rest := ps[0], ps[1..];
      assert ps == [x] + rest;
      FilterCons(x, rest, [name], qi);
      QuarterFirstSpec(rest, name, qi);
      if AtQuarter(x, name, qi) {
        assert Filter(ps, [name], qi) == [x] + Filter(rest, [name], qi);
        assert FirstRecordAt(ps, 0, name, qi);
      } else {
        assert Filter(ps, [name], qi) == Filter(rest, [name], qi);
        if QuarterFirst(rest, name, qi).Some? {
          var i: nat :| FirstRecordAt(rest, i, name, qi) && rest[i].value == QuarterFirst(rest, name, qi).value;
          assert FirstRecordAt(ps, i + 1, name, qi);
        }
      }
    }
  }

  /** One past the largest quarter index in the frame (0 for no records). */
  function IndexBound(ps: seq<TradePoint>): (b: nat)
    ensures forall p :: p in ps ==> p.quarterIndex < b
    ensures |ps| > 0 ==> exists p :: p in ps && p.quarterIndex + 1 == b
  {
    if |ps| == 0 then 0
    else
      var b := IndexBound(ps[1..]);
      assert forall p :: p in ps ==> p == ps[0] || p in ps[1..];
      if |ps| > 1 then
        var p :| p in ps[1..] && p.quarterIndex + 1 == b;
        assert p in ps;
        if ps[0].quarterIndex + 1 > b then ps[0].quarterIndex + 1 else b
      else ps[0].quarterIndex + 1
  }

  /** The groups of the corridor with index below n, in ascending index
      order. */
  function SeriesUpTo(ps: seq<TradePoint>, name: string, n: nat): seq<QuarterValue> {
    if n == 0 then []
    else
      var init := SeriesUpTo(ps, name, n - 1);
      match QuarterFirst(ps, name, n - 1)
      case Some(v) => init + [QuarterValue(n - 1, v)]
      case None => init
  }

  /** The per-corridor result of grouping the corridor's records by quarter
      index and keeping the first value of each group. */
  function CorridorSeries(ps: seq<TradePoint>, name: string): seq<QuarterValue> {
    SeriesUpTo(ps, name, IndexBound(ps))
  }

  predicate StrictlyIncreasing(s: seq<QuarterValue>) {
    forall i, j :: 0 <= i < j < |s| ==> s[i].quarterIndex < s[j].quarterIndex
  }

  /** Quarter indices come out below n and in strictly ascending order, so
      no quarter appears twice. */
  lemma {:induction false} SeriesOrdered(ps: seq<TradePoint>, name: string, n: nat)
    ensures StrictlyIncreasing(SeriesUpTo(ps, name, n))
    ensures forall e :: e in SeriesUpTo(ps, name, n) ==> e.quarterIndex < n
  {
    if n > 0 {
      SeriesOrdered(ps, name, n - 1);
    }
  }

  /** Every entry is the value of the earliest record of the corridor in
      that quarter. */
  lemma {:induction false} SeriesSound(ps: seq<TradePoint>, name: string, n: nat)
    ensures forall e :: e in SeriesUpTo(ps, name, n) ==>
      exists i: nat :: FirstRecordAt(ps, i, name, e.quarterIndex) && ps[i].value == e.value
  {
    if n > 0 {
      SeriesSound(ps, name, n - 1);
      QuarterFirstSpec(ps, name, n - 1);
    }
  }

  /** Every quarter below n in which the corridor has a record has an entry. */
  lemma {:induction false} SeriesComplete(ps: seq<TradePoint>, name: string, n: nat)
    ensures forall p :: p in ps && p.corridor == name && p.quarterIndex < n ==>
      exists e :: e in SeriesUpTo(ps, name, n) && e.quarterIndex == p.quarterIndex
  {
    if n > 0 {
      SeriesComplete(ps, name, n - 1);
      QuarterFirstSpec(ps, name, n - 1);
      var s := SeriesUpTo(ps, name, n);
      forall p | p in ps && p.corridor == name && p.quarterIndex < n
        ensures exists e :: e in s && e.quarterIndex == p.quarterIndex
      {
        if p.quarterIndex == n - 1 {
          assert AtQuarter(p, name, n - 1);
          assert s[|s| - 1].quarterIndex == p.quarterIndex;
        }
      }
    }
  }

  /** A corridor's series is exactly the grouping: one entry per quarter in
      which the corridor has records, ascending, each holding the value of
      the corridor's earliest record in that quarter. */
  lemma CorridorSeriesSpec(ps: seq<TradePoint>, name: string)
    ensures StrictlyIncreasing(CorridorSeries(ps, name))
    ensures forall e :: e in CorridorSeries(ps, name) ==>
      exists i: nat :: FirstRecordAt(ps, i, name, e.quarterIndex) && ps[i].value == e.value
    ensures forall p :: p in ps && p.corridor == name ==>
      exists e :: e in CorridorSeries(ps, name) && e.quarterIndex == p.quarterIndex
  {
    SeriesOrdered(ps, name, IndexBound(ps));
    SeriesSound(ps, name, IndexBound(ps));
    SeriesComplete(ps, name, IndexBound(ps));
  }

  /** Past the largest quarter index there are no more groups: extending
      the range beyond m adds no entry when every record's index is below m. */
  lemma {:induction false} SeriesStable(ps: seq<TradePoint>, name: string, m: nat, n: nat)
    requires m <= n
    requires forall p :: p in ps ==> p.quarterIndex < m
    ensures SeriesUpTo(ps, name, n) == SeriesUpTo(ps, name, m)
    decreases n - m
  {
    if n > m {
      SeriesStable(ps, name, m, n - 1);
      QuarterFirstSpec(ps, name, n - 1);
    }
  }

  /** Every record of a selected corridor indexes into the quarter labels
      (the labelling step looks each index up). */
  predicate Labelable(ps: seq<TradePoint>, selected: seq<string>, quarters: seq<string>) {
    forall p :: p in ps && p.corridor in selected ==> p.quarterIndex < |quarters|
  }

  /** A series' indices are indices of the corridor's records, so they fit
      the labels whenever those do. */
  lemma SeriesLabelable(ps: seq<TradePoint>, name: string, quarters: seq<string>)
    requires forall p :: p in ps && p.corridor == name ==> p.quarterIndex < |quarters|
    ensures forall e :: e in CorridorSeries(ps, name) ==> e.quarterIndex < |quarters|
  {
    SeriesSound(ps, name, IndexBound(ps));
    forall e | e in CorridorSeries(ps, name) ensures e.quarterIndex < |quarters| {
      var i: nat :| FirstRecordAt(ps, i, name, e.quarterIndex) && ps[i].value == e.value;
      assert ps[i] in ps;
    }
  }

  /** A corridor's series tagged with the corridor and labelled. */
  function Rows(series: seq<QuarterValue>, name: string, quarters: seq<string>): (rows: seq<TrendRow>)
    requires forall e :: e in series ==> e.quarterIndex < |quarters|
    ensures |rows| == |series|
    ensures forall i :: 0 <= i < |series| ==>
      rows[i] == TrendRow(series[i].quarterIndex, series[i].value, name, quarters[series[i].quarterIndex])
  {
    seq(|series|, i requires 0 <= i < |series| =>
      TrendRow(series[i].quarterIndex, series[i].value, name, quarters[series[i].quarterIndex]))
  }

  /** The combined trend frame of a selection. */
  function TrendOf(ps: seq<TradePoint>, selected: seq<string>, quarters: seq<string>): seq<TrendRow>
    requires Labelable(ps, selected, quarters)
    decreases |selected|
  {
    if |selected| == 0 then []
    else
      var name := selected[|selected| - 1];
      SeriesLabelable(ps, name, quarters);
      TrendOf(ps, selected[..|selected| - 1], quarters) + Rows(CorridorSeries(ps, name), name, quarters)
  }

  /** The trend loop: one series per selected corridor, appended in
      selection order. */
  method TrendData(ps: seq<TradePoint>, selected: seq<string>, quarters: seq<string>)
    returns (trend: seq<TrendRow>)
    requires Labelable(ps, selected, quarters)
    ensures trend == TrendOf(ps, selected, quarters)
  {
    trend := [];
    for n := 0 to |selected|
      invariant trend == TrendOf(ps, selected[..n], quarters)
    {
      var name := selected[n];
      assert selected[..n + 1][..n] == selected[..n];
      SeriesLabelable(ps, name, quarters);
      var series := CorridorSeries(ps, name);
      trend := trend + Rows(series, name, quarters);
    }
    assert selected[..|selected|] == selected;
  }

  /** A row is in the trend frame exactly when its corridor is selected,
      its (index, value) pair is in that corridor's series, and it carries
      the label at its index. */
  lemma {:induction false} TrendMembership(ps: seq<TradePoint>, selected: seq<string>, quarters: seq<string>,
                                           row: TrendRow)
    requires Labelable(ps, selected, quarters)
    ensures row in TrendOf(ps, selected, quarters) <==>
      && row.corridor in selected
      && QuarterValue(row.quarterIndex, row.value) in CorridorSeries(ps, row.corridor)
      && row.quarterIndex < |quarters|
      && row.quarter == quarters[row.quarterIndex]
    decreases |selected|
  {
    if |selected| > 0 {
      var init, name := selected[..|selected| - 1], selected[|selected| - 1];
      TrendMembership(ps, init, quarters, row);
      SeriesLabelable(ps, name, quarters);
      var series := CorridorSeries(ps, name);
      var rows := Rows(series, name, quarters);
      assert forall c :: c in selected <==> c in init || c == name;
      if row in rows {
        var i :| 0 <= i < |rows| && rows[i] == row;
        assert series[i] == QuarterValue(row.quarterIndex, row.value);
      }
      if row.corridor == name && QuarterValue(row.quarterIndex, row.value) in series
         && row.quarterIndex < |quarters| && row.quarter == quarters[row.quarterIndex] {
        var i :| 0 <= i < |series| && series[i] == QuarterValue(row.quarterIndex, row.value);
        assert rows[i] == row;
      }
    }
  }

  /** Python's string order: code point by code point, a proper prefix
      first. */
  predicate LexLess(a: string, b: string)
    decreases |a|
  {
    if |a| == 0 then |b| > 0
    else if |b| == 0 then false
    else if a[0] == b[0] then LexLess(a[1..], b[1..])
    else a[0] < b[0]
  }

  /** The axis of the pivoted chart as the code builds it: the pivot's index
      is the set of labels of the trend rows, sorted as strings. */
  predicate PivotAxis(axis: seq<string>, trend: seq<TrendRow>) {
    && (forall i, j :: 0 <= i < j < |axis| ==> LexLess(axis[i], axis[j]))
    && (forall r :: r in trend ==> r.quarter in axis)
    && (forall l :: l in axis ==> exists r :: r in trend && r.quarter == l)
  }

  /** On the string-sorted axis the first quarter of 2022 comes before the
      second quarter of 2021, although it is three quarters later. */
  lemma PivotAxisOutOfOrder(axis: seq<string>, trend: seq<TrendRow>, i: nat, j: nat)
    requires PivotAxis(axis, trend)
    requires i < |axis| && axis[i] == QuarterLabel(4)
    requires j < |axis| && axis[j] == QuarterLabel(1)
    ensures i < j
    ensures YearOf(1) < YearOf(4)
  {
    LabelsOutOfOrder();
    QuarterLabelsDistinct(1, 4);
  }

  /** "Q1 2022" sorts before "Q2 2021" as a string. */
  lemma LabelsOutOfOrder()
    ensures QuarterLabel(4) == "Q1 2022" && QuarterLabel(1) == "Q2 2021"
    ensures LexLess(QuarterLabel(4), QuarterLabel(1)) && !LexLess(QuarterLabel(1), QuarterLabel(4))
  {
    YearLabels();
    assert QuarterNumber(4) == 1 && YearOf(4) == 2022;
    assert QuarterNumber(1) == 2 && YearOf(1) == 2021;
    assert NatToString(1) == "1" && NatToString(2) == "2";
    var a, b := QuarterLabel(4), QuarterLabel(1);
    assert a == "Q" + "1" + " " + "2022";
    assert b == "Q" + "2" + " " + "2021";
    assert a[0] == b[0] && a[1] < b[1];
    assert LexLess(a[1..], b[1..]);
    assert !LexLess(b[1..], a[1..]);
  }

  /** The renderings of the first two years. */
  lemma YearLabels()
    ensures NatToString(2021) == "2021" && NatToString(2022) == "2022"
  {
    assert NatToString(2) == "2";
    assert NatToString(20) == NatToString(2) + ['0'];
    assert NatToString(202) == NatToString(20) + ['2'];
    assert NatToString(2021) == NatToString(202) + ['1'];
    assert NatToString(2022) == NatToString(202) + ['2'];
  }

  /** The axis the chart is meant to have: the quarter indices of the trend
      rows below n, in ascending order. */
  function ChartAxis(trend: seq<TrendRow>, n: nat): (axis: seq<nat>)
    ensures forall i, j :: 0 <= i < j < |axis| ==> axis[i] < axis[j]
    ensures forall q :: q in axis <==> q < n && exists r :: r in trend && r.quarterIndex == q
  {
    if n == 0 then []
    else
      var init := ChartAxis(trend, n - 1);
      if exists r :: r in trend && r.quarterIndex == n - 1 then
        assert forall i :: 0 <= i < |init| ==> init[i] in init;
        init + [n - 1]
      else init
  }

  /** Along the chart axis the quarters are in calendar order. */
  lemma ChartAxisChronological(trend: seq<TrendRow>, n: nat, i: nat, j: nat)
    requires i < j < |ChartAxis(trend, n)|
    ensures var axis := ChartAxis(trend, n);
      YearOf(axis[i]) < YearOf(axis[j]) ||
      (YearOf(axis[i]) == YearOf(axis[j]) && QuarterNumber(axis[i]) < QuarterNumber(axis[j]))
  {
    var axis := ChartAxis(trend, n);
    QuartersChronological(axis[i], axis[j]);
  }

  /** Every row of the trend frame sits on the chart axis at its own
      quarter index and carries that quarter's label. */
  lemma TrendOnChartAxis(ps: seq<TradePoint>, selected: seq<string>, quarters: seq<string>, row: TrendRow)
    requires Labelable(ps, selected, quarters)
    requires row in TrendOf(ps, selected, quarters)
    ensures row.quarterIndex in ChartAxis(TrendOf(ps, selected, quarters), |quarters|)
    ensures row.quarterIndex < |quarters| && row.quarter == quarters[row.quarterIndex]
  {
    TrendMembership(ps, selected, quarters, row);
  }
}
