/**
  The page of the dashboard, assembled from the generated records: the map
  labels of the selected corridors and the ranking table, and the facts that
  tie the filtered frame and the trend chart back to the generator's groups.
 */
module Dashboard {

  import opened Wrappers
  import opened Corridors
  import opened Quarters
  import opened Synthesis
  import opened Aggregation
  import opened Currency
  import opened Ranking
  import opened Trends
  import opened RealArith

  // ---------------------------------------------------------------------
  // Map labels

  /** The label of one selected corridor on the map. */
  datatype CenterLabel = CenterLabel(
    name: string,
    center: Vertex,
    quarterlyValue: real,
    formattedValue: Formatted,
    quarter: string,
    annualEstimate: Formatted,
    globalShare: real)

  /** Every selected name is a key of the corridor table. */
  predicate InTable(table: seq<Corridor>, selected: seq<string>) {
    forall s :: s in selected ==> exists k :: 0 <= k < |table| && table[k].name == s
  }

  /** One label per selected corridor, in selection order: its table centre,
      its value in the filtered frame (0 without records), that value and
      four times it formatted, the selected quarter, and its base value's
      share of the whole table's. */
  method CorridorCenters(table: seq<Corridor>, filtered: seq<TradePoint>, selected: seq<string>,
                         selectedQuarter: string)
    returns (labels: seq<CenterLabel>)
    requires InTable(table, selected) && BaseSum(table) != 0.0
    ensures |labels| == |selected|
    ensures forall i :: 0 <= i < |selected| ==>
      && IndexOf(table, selected[i]).Some?
      && labels[i].name == selected[i]
      && labels[i].center == table[IndexOf(table, selected[i]).value].center
      && labels[i].quarterlyValue == SelectedValue(filtered, selected[i])
      && labels[i].formattedValue == FormatCurrency(labels[i].quarterlyValue)
      && labels[i].quarter == selectedQuarter
      && labels[i].annualEstimate == FormatCurrency(4.0 * labels[i].quarterlyValue)
      && Amount(labels[i].annualEstimate) == 4.0 * labels[i].quarterlyValue
      && labels[i].globalShare == GlobalSharePercent(table, IndexOf(table, selected[i]).value)
  {
    labels := [];
    for i := 0 to |selected|
      invariant |labels| == i
      invariant forall j :: 0 <= j < i ==>
        && IndexOf(table, selected[j]).Some?
        && labels[j].name == selected[j]
        && labels[j].center == table[IndexOf(table, selected[j]).value].center
        && labels[j].quarterlyValue == SelectedValue(filtered, selected[j])
        && labels[j].formattedValue == FormatCurrency(labels[j].quarterlyValue)
        && labels[j].quarter == selectedQuarter
        && labels[j].annualEstimate == FormatCurrency(4.0 * labels[j].quarterlyValue)
        && labels[j].globalShare == GlobalSharePercent(table, IndexOf(table, selected[j]).value)
    {
      var name := selected[i];
      assert name in selected;
      var k := IndexOf(table, name).value;
      var quarterlyValue := SelectedValue(filtered, name);
      labels := labels + [CenterLabel(name, table[k].center, quarterlyValue, FormatCurrency(quarterlyValue),
                                      selectedQuarter, FormatCurrency(4.0 * quarterlyValue),
                                      GlobalSharePercent(table, k))];
    }
  }

  // ---------------------------------------------------------------------
  // Ranking table

  /** The first value per corridor of the filtered frame, their total, and
      the ranking table built from them when there is at least one row. The
      table has one row per corridor present, ranked by non-increasing
      value, and with a positive total its shares add up to 100. */
  method RankingTable(filtered: seq<TradePoint>) returns (ranking: seq<RankingRow>, total: real)
    ensures total == TotalQuarterlyValue(filtered)
    ensures |ranking| == |GroupFirst(filtered)|
    ensures multiset(Entries(ranking)) == multiset(GroupFirst(filtered))
    ensures NonIncreasing(Entries(ranking))
    ensures forall i :: 0 <= i < |ranking| ==> ranking[i].rank == i + 1
    ensures forall name :: name in Names(Entries(ranking)) <==> HasCorridor(filtered, name)
    ensures DistinctNames(Names(Entries(ranking)))
    ensures forall i :: 0 <= i < |ranking| ==>
      ranking[i].quarterlyValue == FormatCurrency(Amount(ranking[i].quarterlyValue))
    ensures forall i :: 0 <= i < |ranking| ==>
      ranking[i].share == ShareOfSelection(Amount(ranking[i].quarterlyValue), total)
    ensures total > 0.0 ==> SumShares(ranking) == 100.0
  {
    var quarterlyValues := GroupFirst(filtered);
    total := if |quarterlyValues| > 0 then SumValues(quarterlyValues) else 0.0;
    if |quarterlyValues| > 0 {
      GroupFirstDistinct(filtered);
      ranking := RankCorridors(quarterlyValues, total);
      if total > 0.0 {
        SharesSumTo100(ranking, total);
      }
    } else {
      ranking := [];
    }
    GroupFirstNames(filtered);
    forall name ensures name in Names(Entries(ranking)) <==> HasCorridor(filtered, name) {
      NamesMembership(Entries(ranking), name);
      NamesMembership(quarterlyValues, name);
      if name in Names(Entries(ranking)) {
        var r :| r in Entries(ranking) && r.corridor == name;
        assert r in multiset(quarterlyValues);
      }
      if name in Names(quarterlyValues) {
        var r :| r in quarterlyValues && r.corridor == name;
        assert r in multiset(Entries(ranking));
      }
    }
  }

  // ---------------------------------------------------------------------
  // The filtered frame of the generated data

  /** The heat map of a quarter: a generated record is in the filtered
      frame exactly when it belongs to the group of a selected corridor for
      that quarter. */
  lemma HeatMapRecords(table: seq<Corridor>, sines: seq<real>, rng: Stream, selected: seq<string>,
                       q: nat, p: TradePoint)
    requires ValidInputs(table, sines) && q < QuarterCount
    ensures p in Filter(Synthesized(table, sines, rng), selected, q) <==>
      exists k :: 0 <= k < |table| && table[k].name in selected && p in Group(table, sines, rng, k, q)
  {
    if p in Filter(Synthesized(table, sines, rng), selected, q) {
      var groupOf := GroupOf(table, sines, rng);
      BeforeFromGroups(groupOf, |table|, p);
      var k, q' :| 0 <= k < |table| && 0 <= q' < QuarterCount && p in groupOf(k, q');
      assert p in Group(table, sines, rng, k, q');
      GroupShape(table, sines, rng, k, q');
    }
    if exists k :: 0 <= k < |table| && table[k].name in selected && p in Group(table, sines, rng, k, q) {
      var k :| 0 <= k < |table| && table[k].name in selected && p in Group(table, sines, rng, k, q);
      GroupShape(table, sines, rng, k, q);
      GroupInSynthesized(table, sines, rng, k, q, p);
    }
  }

  /** The first value of a selected corridor in the filtered frame is the
      value of that corridor's group for the quarter, as the trend chart
      shows it. */
  lemma {:induction false} FirstValueOfFilter(ps: seq<TradePoint>, selected: seq<string>, qi: nat, name: string)
    requires name in selected
    ensures FirstValue(Filter(ps, selected, qi), name) == QuarterFirst(ps, name, qi)
    decreases |ps|
  {
    if |ps| > 0 {
      var x, rest := ps[0], ps[1..];
      assert ps == [x] + rest;
      FilterCons(x, rest, selected, qi);
      FilterCons(x, rest, [name], qi);
      FirstValueOfFilter(rest, selected, qi, name);
      if AtQuarter(x, name, qi) {
        assert Filter(ps, selected, qi) == [x] + Filter(rest, selected, qi);
        assert Filter(ps, [name], qi) == [x] + Filter(rest, [name], qi);
      } else if Keep(x, selected, qi) {
        assert Filter(ps, selected, qi) == [x] + Filter(rest, selected, qi);
        assert Filter(ps, [name], qi) == Filter(rest, [name], qi);
      } else {
        assert Filter(ps, selected, qi) == Filter(rest, selected, qi);
        assert Filter(ps, [name], qi) == Filter(rest, [name], qi);
      }
    }
  }

  /** The group value of corridor k in quarter q of the generated data: the
      generated quarterly value, or nothing when int(value / 10) is 0 and
      the group has no record. */
  lemma QuarterFirstOfSynthesized(table: seq<Corridor>, sines: seq<real>, rng: Stream, k: nat, q: nat)
    requires ValidInputs(table, sines) && UniqueNames(table)
    requires k < |table| && q < QuarterCount
    ensures QuarterFirst(Synthesized(table, sines, rng), table[k].name, q) == GroupValue(table, sines, rng, k, q)
  {
    var ps, name := Synthesized(table, sines, rng), table[k].name;
    var group := Group(table, sines, rng, k, q);
    QuarterFirstSpec(ps, name, q);
    GroupShape(table, sines, rng, k, q);
    forall p | p in ps && AtQuarter(p, name, q) ensures p in group {
      HeatMapRecords(table, sines, rng, [name], q, p);
    }
    if |group| > 0 {
      assert group[0] in group;
      GroupInSynthesized(table, sines, rng, k, q, group[0]);
      assert AtQuarter(group[0], name, q);
    }
  }

  /** The quarterly value a map label shows for a selected corridor is the
      generated value of that corridor and quarter, or 0 when the corridor
      has no record in the quarter. */
  lemma SelectedValueOfSynthesized(table: seq<Corridor>, sines: seq<real>, rng: Stream,
                                   selected: seq<string>, k: nat, q: nat)
    requires ValidInputs(table, sines) && UniqueNames(table)
    requires k < |table| && q < QuarterCount && table[k].name in selected
    ensures SelectedValue(Filter(Synthesized(table, sines, rng), selected, q), table[k].name) ==
      if PointCount(Value(table, sines, rng, k, q)) > 0 then Value(table, sines, rng, k, q) else 0.0
  {
    FirstValueOfFilter(Synthesized(table, sines, rng), selected, q, table[k].name);
    QuarterFirstOfSynthesized(table, sines, rng, k, q);
  }

  // ---------------------------------------------------------------------
  // The trend chart of the generated data

  /** The generated series of corridor k for the quarters below n: one
      entry per quarter whose group has records. */
  function GeneratedSeries(table: seq<Corridor>, sines: seq<real>, rng: Stream, k: nat, n: nat): seq<QuarterValue>
    requires ValidInputs(table, sines) && k < |table| && n <= QuarterCount
  {
    if n == 0 then []
    else
      var v := Value(table, sines, rng, k, n - 1);
      GeneratedSeries(table, sines, rng, k, n - 1) + (if PointCount(v) > 0 then [QuarterValue(n - 1, v)] else [])
  }

  /** The value of group (k, q) when it has records, and nothing otherwise. */
  function GroupValue(table: seq<Corridor>, sines: seq<real>, rng: Stream, k: nat, q: nat): Option<real>
    requires ValidInputs(table, sines) && k < |table| && q < QuarterCount
  {
    var v := Value(table, sines, rng, k, q);
    if PointCount(v) > 0 then Some(v) else None
  }

  /** A frame whose group values for corridor k are the generated ones has
      the generated series below n. */
  lemma {:induction false} SeriesOfGroupValues(ps: seq<TradePoint>, table: seq<Corridor>, sines: seq<real>,
                                               rng: Stream, k: nat, n: nat)
    requires ValidInputs(table, sines) && k < |table| && n <= QuarterCount
    requires forall q :: 0 <= q < n ==> QuarterFirst(ps, table[k].name, q) == GroupValue(table, sines, rng, k, q)
    ensures SeriesUpTo(ps, table[k].name, n) == GeneratedSeries(table, sines, rng, k, n)
  {
    if n > 0 {
      SeriesOfGroupValues(ps, table, sines, rng, k, n - 1);
      var v, init := Value(table, sines, rng, k, n - 1), GeneratedSeries(table, sines, rng, k, n - 1);
      if PointCount(v) > 0 {
        assert GeneratedSeries(table, sines, rng, k, n) == init + [QuarterValue(n - 1, v)];
      } else {
        assert GeneratedSeries(table, sines, rng, k, n) == init + [];
      }
    }
  }

  /** The trend series of a generated corridor holds, in quarter order, the
      generated value of every quarter whose group has records. */
  lemma SeriesOfSynthesized(table: seq<Corridor>, sines: seq<real>, rng: Stream, k: nat)
    requires ValidInputs(table, sines) && UniqueNames(table) && UnitStream(rng)
    requires k < |table|
    ensures CorridorSeries(Synthesized(table, sines, rng), table[k].name) ==
      GeneratedSeries(table, sines, rng, k, QuarterCount)
  {
    var ps := Synthesized(table, sines, rng);
    var name := table[k].name;
    forall p | p in ps ensures p.quarterIndex < QuarterCount {
      SynthesizedRecord(table, sines, rng, p);
    }
    forall q | 0 <= q < QuarterCount ensures QuarterFirst(ps, name, q) == GroupValue(table, sines, rng, k, q) {
      QuarterFirstOfSynthesized(table, sines, rng, k, q);
    }
    var m := if IndexBound(ps) < QuarterCount then IndexBound(ps) else QuarterCount;
    SeriesStable(ps, name, m, IndexBound(ps));
    SeriesStable(ps, name, m, QuarterCount);
    SeriesOfGroupValues(ps, table, sines, rng, k, QuarterCount);
  }

  /** Every generated record indexes into a list of twenty quarter labels,
      so the trend labelling never falls outside it. */
  lemma SynthesizedLabelable(table: seq<Corridor>, sines: seq<real>, rng: Stream,
                             selected: seq<string>, quarters: seq<string>)
    requires ValidInputs(table, sines) && UnitStream(rng) && |quarters| == QuarterCount
    ensures Labelable(Synthesized(table, sines, rng), selected, quarters)
  {
    forall p | p in Synthesized(table, sines, rng) ensures p.quarterIndex < |quarters| {
      SynthesizedRecord(table, sines, rng, p);
    }
  }

  // ---------------------------------------------------------------------
  // Tables with large bases, such as the shipped one

  /** Every corridor's annual base is at least 270 (billions). */
  predicate LargeBases(table: seq<Corridor>) {
    forall k :: 0 <= k < |table| ==> table[k].baseValue >= 270.0
  }

  /** A base of at least 270 gives a quarterly value of at least
      270 / 4 * 0.81 > 50, so at least five records. */
  lemma LargeBaseValue(base: real, q: nat, sine: real, u: real)
    requires base >= 270.0 && -1.0 <= sine <= 1.0 && 0.0 <= u < 1.0
    ensures QuarterlyValue(base, q, sine, u) >= 54.675
    ensures PointCount(QuarterlyValue(base, q, sine, u)) >= 5
  {
    QuarterlyValueBounds(base, q, sine, u);
    MulNonNegative(base / 4.0 - 67.5, GrowthFactor(q));
    MulNonNegative(67.5, GrowthFactor(q) - 1.0);
  }

  lemma {:induction false} GeneratedSeriesFull(table: seq<Corridor>, sines: seq<real>, rng: Stream, k: nat, n: nat)
    requires ValidInputs(table, sines) && SinesInRange(sines) && UnitStream(rng) && LargeBases(table)
    requires k < |table| && n <= QuarterCount
    ensures |GeneratedSeries(table, sines, rng, k, n)| == n
    ensures forall q :: 0 <= q < n ==>
      GeneratedSeries(table, sines, rng, k, n)[q] == QuarterValue(q, Value(table, sines, rng, k, q))
  {
    if n > 0 {
      GeneratedSeriesFull(table, sines, rng, k, n - 1);
      var c := CursorAt(table, sines, rng, k, n - 1);
      LargeBaseValue(table[k].baseValue, n - 1, sines[(n - 1) % 4], rng(c));
    }
  }

  /** With bases of at least 270, each corridor's trend line has all twenty
      quarters, in order, each at the generated quarterly value. */
  lemma FullTrendSeries(table: seq<Corridor>, sines: seq<real>, rng: Stream, k: nat)
    requires ValidInputs(table, sines) && UniqueNames(table) && LargeBases(table)
    requires SinesInRange(sines) && UnitStream(rng) && k < |table|
    ensures |CorridorSeries(Synthesized(table, sines, rng), table[k].name)| == QuarterCount
    ensures forall q :: 0 <= q < QuarterCount ==>
      CorridorSeries(Synthesized(table, sines, rng), table[k].name)[q] ==
        QuarterValue(q, Value(table, sines, rng, k, q))
  {
    SeriesOfSynthesized(table, sines, rng, k);
    GeneratedSeriesFull(table, sines, rng, k, QuarterCount);
  }

  /** The shipped table meets the conditions: its corridor names are keys,
      every polygon has vertices, and every base is at least 270. */
  lemma ShippedTable()
    ensures ValidTable(Table) && LargeBases(Table)
  {
    TableIsValid();
  }
}
