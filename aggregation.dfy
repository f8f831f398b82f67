/**
  The figures the dashboard derives from the generated records for a
  selection of corridors and a selected quarter: the filtered frame, the
  first value per corridor and their total, the quarter-over-quarter delta,
  the trade-intensity band and each corridor's share of the global total.
 */
module Aggregation {

  import opened Wrappers
  import opened Corridors
  import opened RealArith

  /** No name occurs twice (the selection is built from dictionary keys). */
  predicate DistinctNames(names: seq<string>) {
    forall i, j :: 0 <= i < j < |names| ==> names[i] != names[j]
  }

  // ---------------------------------------------------------------------
  // The filter

  /** A record passes the filter when its corridor is selected and its
      quarter index is the selected one. */
  predicate Keep(p: TradePoint, selected: seq<string>, qi: nat) {
    p.corridor in selected && p.quarterIndex == qi
  }

  /** The filtered frame: the records that pass, in their original order. */
  function Filter(ps: seq<TradePoint>, selected: seq<string>, qi: nat): (r: seq<TradePoint>)
    ensures |r| <= |ps|
    ensures forall p :: p in r <==> p in ps && Keep(p, selected, qi)
  {
    if |ps| == 0 then []
    else
      var init := Filter(ps[..|ps| - 1], selected, qi);
      assert ps == ps[..|ps| - 1] + [ps[|ps| - 1]];
      if Keep(ps[|ps| - 1], selected, qi) then init + [ps[|ps| - 1]] else init
  }

  /** Filtering distributes over concatenation, so it keeps the relative
      order of the records it passes. */
  lemma {:induction false} FilterConcat(a: seq<TradePoint>, b: seq<TradePoint>, selected: seq<string>, qi: nat)
    ensures Filter(a + b, selected, qi) == Filter(a, selected, qi) + Filter(b, selected, qi)
    decreases |b|
  {
    if |b| == 0 {
      assert a + b == a;
    } else {
      var b' := b[..|b| - 1];
      assert (a + b)[..|a + b| - 1] == a + b';
      FilterConcat(a, b', selected, qi);
    }
  }

  /** Filtering a frame with a first record: that record, if it passes,
      followed by the filtered rest. */
  lemma FilterCons(x: TradePoint, rest: seq<TradePoint>, selected: seq<string>, qi: nat)
    ensures Filter([x] + rest, selected, qi) ==
      if Keep(x, selected, qi) then [x] + Filter(rest, selected, qi) else Filter(rest, selected, qi)
  {
    FilterConcat([x], rest, selected, qi);
    assert [x][..0] == [];
    if !Keep(x, selected, qi) {
      assert Filter([x], selected, qi) == [];
      assert [] + Filter(rest, selected, qi) == Filter(rest, selected, qi);
    }
  }

  /** A frame whose records all pass comes through unchanged. */
  lemma {:induction false} FilterKeepsAll(ps: seq<TradePoint>, selected: seq<string>, qi: nat)
    requires forall p :: p in ps ==> Keep(p, selected, qi)
    ensures Filter(ps, selected, qi) == ps
    decreases |ps|
  {
    if |ps| > 0 {
      assert ps[..|ps| - 1] + [ps[|ps| - 1]] == ps;
      FilterKeepsAll(ps[..|ps| - 1], selected, qi);
    }
  }

  /** A frame none of whose records passes filters to nothing; in
      particular an empty selection gives an empty frame. */
  lemma FilterDropsAll(ps: seq<TradePoint>, selected: seq<string>, qi: nat)
    requires forall p :: p in ps ==> !Keep(p, selected, qi)
    ensures Filter(ps, selected, qi) == []
  {
  }

  lemma EmptySelection(ps: seq<TradePoint>, qi: nat)
    ensures Filter(ps, [], qi) == []
  {
    FilterDropsAll(ps, [], qi);
  }

  /** Filtering twice with the same selection and quarter is filtering once. */
  lemma FilterIdempotent(ps: seq<TradePoint>, selected: seq<string>, qi: nat)
    ensures Filter(Filter(ps, selected, qi), selected, qi) == Filter(ps, selected, qi)
  {
    FilterKeepsAll(Filter(ps, selected, qi), selected, qi);
  }

  // ---------------------------------------------------------------------
  // First value per corridor

  /** A corridor with its value for the selected quarter. */
  datatype CorridorValue = CorridorValue(corridor: string, value: real)

  /** Position of the first record of the named corridor, if there is one. */
  function FirstIndex(ps: seq<TradePoint>, name: string): (r: Option<nat>)
    ensures r.Some? ==> r.value < |ps| && ps[r.value].corridor == name
    ensures r.Some? ==> forall j :: 0 <= j < r.value ==> ps[j].corridor != name
    ensures r.None? <==> forall p :: p in ps ==> p.corridor != name
  {
    if |ps| == 0 then None
    else if ps[0].corridor == name then Some(0)
    else
      var rest := FirstIndex(ps[1..], name);
      assert forall p :: p in ps ==> p == ps[0] || p in ps[1..];
      if rest.Some? then Some(rest.value + 1) else None
  }

  /** The value of the first record of the named corridor, if there is one. */
  function FirstValue(ps: seq<TradePoint>, name: string): Option<real> {
    if |ps| == 0 then None
    else if ps[0].corridor == name then Some(ps[0].value)
    else FirstValue(ps[1..], name)
  }

  /** FirstValue reads the record FirstIndex finds, and finds nothing
      exactly when no record of the corridor exists. */
  lemma {:induction false} FirstValueAtFirstIndex(ps: seq<TradePoint>, name: string)
    ensures FirstValue(ps, name).None? <==> !HasCorridor(ps, name)
    ensures FirstValue(ps, name).Some? ==>
      FirstIndex(ps, name).Some? && FirstValue(ps, name).value == ps[FirstIndex(ps, name).value].value
    decreases |ps|
  {
    if |ps| > 0 && ps[0].corridor != name {
      FirstValueAtFirstIndex(ps[1..], name);
      if FirstIndex(ps[1..], name).Some? {
        assert ps[1..][FirstIndex(ps[1..], name).value] == ps[FirstIndex(ps, name).value];
      }
    }
  }

  /** The frame without the records of one corridor, in order. */
  function Without(ps: seq<TradePoint>, name: string): (r: seq<TradePoint>)
    ensures |r| <= |ps|
    ensures forall p :: p in r <==> p in ps && p.corridor != name
  {
    if |ps| == 0 then []
    else
      assert forall p :: p in ps ==> p == ps[0] || p in ps[1..];
      (if ps[0].corridor == name then [] else [ps[0]]) + Without(ps[1..], name)
  }

  /** Removing another corridor's records does not change a corridor's
      first value. */
  lemma {:induction false} FirstValueWithout(ps: seq<TradePoint>, other: string, name: string)
    requires other != name
    ensures FirstValue(Without(ps, other), name) == FirstValue(ps, name)
    decreases |ps|
  {
    if |ps| > 0 {
      FirstValueWithout(ps[1..], other, name);
      if ps[0].corridor == other {
        assert Without(ps, other) == Without(ps[1..], other);
      } else {
        var w := Without(ps[1..], other);
        assert Without(ps, other) == [ps[0]] + w;
        assert ([ps[0]] + w)[1..] == w;
      }
    }
  }

  /** pandas' groupby('corridor')['value'].first(): one row per corridor
      present, holding the value of that corridor's first record; rows in
      order of first appearance. */
  function GroupFirst(ps: seq<TradePoint>): (rows: seq<CorridorValue>)
    ensures |rows| <= |ps|
    decreases |ps|
  {
    if |ps| == 0 then []
    else [CorridorValue(ps[0].corridor, ps[0].value)] + GroupFirst(Without(ps[1..], ps[0].corridor))
  }

  /** The corridors of the rows, in row order. */
  function Names(rows: seq<CorridorValue>): (names: seq<string>)
    ensures |names| == |rows|
  {
    if |rows| == 0 then [] else [rows[0].corridor] + Names(rows[1..])
  }

  predicate HasCorridor(ps: seq<TradePoint>, name: string) {
    exists p :: p in ps && p.corridor == name
  }

  /** Every corridor of the grouping occurs in the frame, and each one
      present in the frame has a row. */
  lemma {:induction false} GroupFirstNames(ps: seq<TradePoint>)
    ensures forall name :: name in Names(GroupFirst(ps)) <==> HasCorridor(ps, name)
    decreases |ps|
  {
    if |ps| > 0 {
      var c := ps[0].corridor;
      var w := Without(ps[1..], c);
      GroupFirstNames(w);
      assert Names(GroupFirst(ps)) == [c] + Names(GroupFirst(w));
      forall name | HasCorridor(w, name)
        ensures HasCorridor(ps, name)
      {
        var p :| p in w && p.corridor == name;
        assert p in ps[1..];
      }
      forall name | HasCorridor(ps, name) && name != c
        ensures HasCorridor(w, name)
      {
        var p :| p in ps && p.corridor == name;
        assert p in w;
      }
    }
  }

  /** The grouping has one row per corridor: no corridor occurs twice. */
  lemma {:induction false} GroupFirstDistinct(ps: seq<TradePoint>)
    ensures DistinctNames(Names(GroupFirst(ps)))
    decreases |ps|
  {
    if |ps| > 0 {
      var c := ps[0].corridor;
      var w := Without(ps[1..], c);
      var names := Names(GroupFirst(w));
      GroupFirstDistinct(w);
      GroupFirstNames(w);
      assert c !in names;
      assert Names(GroupFirst(ps)) == [c] + names;
    }
  }

  /** Each row of the grouping holds the value of its corridor's first
      record in the frame. */
  lemma {:induction false} GroupFirstValues(ps: seq<TradePoint>)
    ensures forall row :: row in GroupFirst(ps) ==> FirstValue(ps, row.corridor) == Some(row.value)
    decreases |ps|
  {
    if |ps| > 0 {
      var c := ps[0].corridor;
      var w := Without(ps[1..], c);
      var rest := GroupFirst(w);
      GroupFirstValues(w);
      GroupFirstNames(w);
      forall row | row in rest
        ensures FirstValue(ps, row.corridor) == Some(row.value)
      {
        NameOfRow(rest, row);
        var p :| p in w && p.corridor == row.corridor;
        FirstValueWithout(ps[1..], c, row.corridor);
      }
    }
  }

  lemma {:induction false} NameOfRow(rows: seq<CorridorValue>, row: CorridorValue)
    requires row in rows
    ensures row.corridor in Names(rows)
    decreases |rows|
  {
    if rows[0] != row {
      NameOfRow(rows[1..], row);
    }
  }

  // ---------------------------------------------------------------------
  // Totals

  function SumValues(rows: seq<CorridorValue>): real {
    if |rows| == 0 then 0.0 else rows[0].value + SumValues(rows[1..])
  }

  /** Total quarterly value of the filtered frame: the sum of the first
      value of every corridor present, 0 for an empty frame. */
  function TotalQuarterlyValue(filtered: seq<TradePoint>): real {
    var rows := GroupFirst(filtered);
    if |rows| > 0 then SumValues(rows) else 0.0
  }

  /** A selected corridor's quarterly value: its first record's value, or
      0 when the filtered frame has no record of it. */
  function SelectedValue(filtered: seq<TradePoint>, name: string): real {
    match FirstValue(filtered, name)
    case Some(v) => v
    case None => 0.0
  }

  /** Sum of the selected values of a list of corridors. */
  function SumSelected(filtered: seq<TradePoint>, selected: seq<string>): real {
    if |selected| == 0 then 0.0
    else SelectedValue(filtered, selected[0]) + SumSelected(filtered, selected[1..])
  }

  /** The selection without one name. */
  function Remove(selected: seq<string>, name: string): (r: seq<string>)
    ensures forall s :: s in r <==> s in selected && s != name
  {
    if |selected| == 0 then []
    else
      assert forall s :: s in selected ==> s == selected[0] || s in selected[1..];
      var rest := Remove(selected[1..], name);
      if selected[0] == name then rest else [selected[0]] + rest
  }

  /** Removing a name from a selection keeps it free of repeats. */
  lemma {:induction false} RemoveDistinct(selected: seq<string>, name: string)
    requires DistinctNames(selected)
    ensures DistinctNames(Remove(selected, name))
    decreases |selected|
  {
    if |selected| > 0 {
      var rest := Remove(selected[1..], name);
      RemoveDistinct(selected[1..], name);
      if selected[0] != name {
        assert selected[0] !in selected[1..];
        assert selected[0] !in rest;
        var r := [selected[0]] + rest;
        forall i, j | 0 <= i < j < |r|
          ensures r[i] != r[j]
        {
          if i > 0 {
            assert r[i] == rest[i - 1] && r[j] == rest[j - 1];
          } else {
            assert r[j] in rest;
          }
        }
      }
    }
  }

  lemma {:induction false} SumSelectedRemove(filtered: seq<TradePoint>, selected: seq<string>, name: string)
    requires DistinctNames(selected) && name in selected
    ensures SumSelected(filtered, selected)
         == SelectedValue(filtered, name) + SumSelected(filtered, Remove(selected, name))
    decreases |selected|
  {
    if selected[0] == name {
      assert name !in selected[1..];
      RemoveAbsent(selected[1..], name);
    } else {
      assert DistinctNames(selected[1..]);
      SumSelectedRemove(filtered, selected[1..], name);
    }
  }

  /** Removing a name the selection does not hold changes nothing. */
  lemma {:induction false} RemoveAbsent(selected: seq<string>, name: string)
    requires name !in selected
    ensures Remove(selected, name) == selected
    decreases |selected|
  {
    if |selected| > 0 {
      RemoveAbsent(selected[1..], name);
      assert [selected[0]] + selected[1..] == selected;
    }
  }

  lemma {:induction false} SumSelectedAgree(a: seq<TradePoint>, b: seq<TradePoint>, selected: seq<string>)
    requires forall name :: name in selected ==> SelectedValue(a, name) == SelectedValue(b, name)
    ensures SumSelected(a, selected) == SumSelected(b, selected)
    decreases |selected|
  {
    if |selected| > 0 {
      SumSelectedAgree(a, b, selected[1..]);
    }
  }

  lemma {:induction false} SumSelectedEmpty(selected: seq<string>)
    ensures SumSelected([], selected) == 0.0
    decreases |selected|
  {
    if |selected| > 0 {
      SumSelectedEmpty(selected[1..]);
    }
  }

  /** Summing the grouped first values equals summing, over the selection,
      each corridor's first value with 0 for a corridor without records. */
  lemma {:induction false} GroupSumIsSelectedSum(ps: seq<TradePoint>, selected: seq<string>)
    requires DistinctNames(selected)
    requires forall p :: p in ps ==> p.corridor in selected
    ensures SumValues(GroupFirst(ps)) == SumSelected(ps, selected)
    decreases |ps|
  {
    if |ps| == 0 {
      SumSelectedEmpty(selected);
    } else {
      var c := ps[0].corridor;
      var w := Without(ps[1..], c);
      var rest := Remove(selected, c);
      RemoveDistinct(selected, c);
      GroupSumIsSelectedSum(w, rest);
      SumSelectedRemove(ps, selected, c);
      forall name | name in rest
        ensures SelectedValue(ps, name) == SelectedValue(w, name)
      {
        FirstValueWithout(ps[1..], c, name);
      }
      SumSelectedAgree(ps, w, rest);
      assert GroupFirst(ps)[1..] == GroupFirst(w);
    }
  }

  /** The displayed total is the sum over the selected corridors of their
      quarterly values: 0 for an empty filtered frame, and a selected
      corridor without records contributes 0. */
  lemma TotalMatchesSelection(ps: seq<TradePoint>, selected: seq<string>, qi: nat)
    requires DistinctNames(selected)
    ensures TotalQuarterlyValue(Filter(ps, selected, qi)) == SumSelected(Filter(ps, selected, qi), selected)
  {
    GroupSumIsSelectedSum(Filter(ps, selected, qi), selected);
  }

  /** An empty frame totals 0. */
  lemma TotalOfEmpty()
    ensures TotalQuarterlyValue([]) == 0.0
  {
  }

  // ---------------------------------------------------------------------
  // Quarter-over-quarter change

  datatype Delta = NotAvailable | Change(percent: real)

  /** Total of the selection in quarter `prevQi`, computed as the source
      computes the previous quarter's total. */
  function PreviousTotal(ps: seq<TradePoint>, selected: seq<string>, prevQi: nat): real {
    var prev := Filter(ps, selected, prevQi);
    if |prev| > 0 then SumValues(GroupFirst(prev)) else 0.0
  }

  /** Relative change from `prev` to `total`, in percent. */
  function ChangePercent(total: real, prev: real): real
    requires prev != 0.0
  {
    (total - prev) / prev * 100.0
  }

  /** Applying the percentage to the previous total gives the current one,
      so the change is positive, zero or negative as the total rises, stays
      or falls. */
  lemma ChangePercentInverse(total: real, prev: real)
    requires prev > 0.0
    ensures prev * (1.0 + ChangePercent(total, prev) / 100.0) == total
    ensures ChangePercent(total, prev) > 0.0 <==> total > prev
    ensures ChangePercent(total, prev) == 0.0 <==> total == prev
  {
    var ratio := (total - prev) / prev;
    assert ratio * prev == total - prev;
    assert ChangePercent(total, prev) / 100.0 == ratio;
    CompareScaled(ratio, 0.0, prev);
  }

  /** The delta of a total against a previous total: a percentage when the
      previous total is positive, otherwise not available. */
  function DeltaAgainst(total: real, prev: real): Delta {
    if prev > 0.0 then Change(ChangePercent(total, prev)) else NotAvailable
  }

  /** The change of the selection's total against the previous quarter;
      not available for the first quarter. */
  function QoQDelta(ps: seq<TradePoint>, selected: seq<string>, qi: nat): Delta {
    if qi > 0 then
      DeltaAgainst(TotalQuarterlyValue(Filter(ps, selected, qi)), PreviousTotal(ps, selected, qi - 1))
    else NotAvailable
  }

  /** The previous quarter's total is the same figure the dashboard shows as
      the total when that quarter is selected. */
  lemma PreviousIsTotal(ps: seq<TradePoint>, selected: seq<string>, prevQi: nat)
    ensures PreviousTotal(ps, selected, prevQi) == TotalQuarterlyValue(Filter(ps, selected, prevQi))
  {
  }

  /** Against a positive previous total the delta is a percentage that,
      applied to the previous total, gives the current one; against any
      other previous total it is "N/A". */
  lemma DeltaAgainstSpec(total: real, prev: real)
    ensures DeltaAgainst(total, prev).NotAvailable? <==> prev <= 0.0
    ensures DeltaAgainst(total, prev).Change? ==>
      && prev * (1.0 + DeltaAgainst(total, prev).percent / 100.0) == total
      && (DeltaAgainst(total, prev).percent > 0.0 <==> total > prev)
      && (DeltaAgainst(total, prev).percent == 0.0 <==> total == prev)
  {
    if prev > 0.0 {
      ChangePercentInverse(total, prev);
    }
  }

  /** The quarter-over-quarter delta is "N/A" exactly for the first quarter
      or a previous total that is not positive; otherwise it is the change
      of the selected quarter's total against the previous quarter's. */
  lemma QoQDeltaSpec(ps: seq<TradePoint>, selected: seq<string>, qi: nat)
    ensures QoQDelta(ps, selected, qi).NotAvailable?
        <==> qi == 0 || PreviousTotal(ps, selected, qi - 1) <= 0.0
    ensures QoQDelta(ps, selected, qi).Change? ==>
      (QoQDelta(ps, selected, qi).percent > 0.0 <==>
       TotalQuarterlyValue(Filter(ps, selected, qi)) > PreviousTotal(ps, selected, qi - 1))
  {
    if qi > 0 {
      var total, prev := TotalQuarterlyValue(Filter(ps, selected, qi)), PreviousTotal(ps, selected, qi - 1);
      assert QoQDelta(ps, selected, qi) == DeltaAgainst(total, prev);
      DeltaAgainstSpec(total, prev);
    } else {
      assert QoQDelta(ps, selected, qi) == NotAvailable;
    }
  }

  // ---------------------------------------------------------------------
  // Trade intensity

  datatype Intensity = High | Moderate | Low

  /** Average value per selected corridor, 0 when nothing is selected. */
  function AverageCorridorValue(total: real, selectedCount: nat): real {
    if selectedCount > 0 then total / selectedCount as real else 0.0
  }

  function TradeIntensity(average: real): Intensity {
    if average > 200.0 then High else if average > 100.0 then Moderate else Low
  }

  function IntensityLevel(i: Intensity): nat {
    match i
    case Low => 0
    case Moderate => 1
    case High => 2
  }

  /** The bands in terms of the total and the number of selected corridors. */
  lemma IntensityBands(total: real, selectedCount: nat)
    ensures TradeIntensity(AverageCorridorValue(total, selectedCount)) == High
        <==> selectedCount > 0 && total > 200.0 * selectedCount as real
    ensures TradeIntensity(AverageCorridorValue(total, selectedCount)) == Moderate
        <==> selectedCount > 0 && 100.0 * selectedCount as real < total <= 200.0 * selectedCount as real
    ensures TradeIntensity(AverageCorridorValue(total, selectedCount)) == Low
        <==> selectedCount == 0 || total <= 100.0 * selectedCount as real
  {
    if selectedCount > 0 {
      var n := selectedCount as real;
      var avg := total / n;
      DivMul(total, n);
      CompareScaled(avg, 200.0, n);
      CompareScaled(avg, 100.0, n);
    }
  }

  /** A larger average never gives a lower band. */
  lemma IntensityMonotone(a: real, b: real)
    requires a <= b
    ensures IntensityLevel(TradeIntensity(a)) <= IntensityLevel(TradeIntensity(b))
  {
  }

  // ---------------------------------------------------------------------
  // Share of the global total

  /** Sum of the annual base values of a table. */
  function BaseSum(table: seq<Corridor>): real {
    if |table| == 0 then 0.0 else BaseSum(table[..|table| - 1]) + table[|table| - 1].baseValue
  }

  /** Corridor k's annual base value as a percentage of the whole table's,
      whatever the selection. */
  function GlobalSharePercent(table: seq<Corridor>, k: nat): real
    requires k < |table| && BaseSum(table) != 0.0
  {
    table[k].baseValue / BaseSum(table) * 100.0
  }

  /** Sum of the global shares of the first n corridors. */
  function ShareSum(table: seq<Corridor>, n: nat): real
    requires n <= |table| && BaseSum(table) != 0.0
  {
    if n == 0 then 0.0 else ShareSum(table, n - 1) + GlobalSharePercent(table, n - 1)
  }

  lemma {:induction false} ShareSumPrefix(table: seq<Corridor>, n: nat)
    requires n <= |table| && BaseSum(table) != 0.0
    ensures ShareSum(table, n) == BaseSum(table[..n]) / BaseSum(table) * 100.0
  {
    if n > 0 {
      ShareSumPrefix(table, n - 1);
      var t := BaseSum(table);
      var a, b := BaseSum(table[..n - 1]), table[n - 1].baseValue;
      assert table[..n][..n - 1] == table[..n - 1];
      assert BaseSum(table[..n]) == a + b;
      DivAdd(a, b, t);
    }
  }

  /** The global shares of all corridors add up to 100. */
  lemma GlobalSharesSumTo100(table: seq<Corridor>)
    requires BaseSum(table) != 0.0
    ensures ShareSum(table, |table|) == 100.0
  {
    ShareSumPrefix(table, |table|);
    assert table[..|table|] == table;
    DivSelf(BaseSum(table));
  }

  /** With positive base values every global share lies in (0, 100]. */
  lemma GlobalShareBounds(table: seq<Corridor>, k: nat)
    requires PositiveBases(table) && k < |table|
    ensures BaseSum(table) > 0.0
    ensures 0.0 < GlobalSharePercent(table, k) <= 100.0
  {
    BaseSumBounds(table, k);
    DivAtMostOne(table[k].baseValue, BaseSum(table));
  }

  /** With positive base values the sum is at least any one base value. */
  lemma {:induction false} BaseSumBounds(table: seq<Corridor>, k: nat)
    requires PositiveBases(table) && k < |table|
    ensures BaseSum(table) >= table[k].baseValue > 0.0
    decreases |table|
  {
    var init := table[..|table| - 1];
    var last := table[|table| - 1].baseValue;
    assert BaseSum(table) == BaseSum(init) + last;
    assert last > 0.0;
    if |init| > 0 {
      assert PositiveBases(init);
      if k < |init| {
        BaseSumBounds(init, k);
        assert init[k] == table[k];
      } else {
        BaseSumBounds(init, 0);
      }
    }
  }
}
