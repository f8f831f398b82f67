/**
  The corridor ranking: the per-corridor quarterly values sorted by value,
  largest first, each row numbered from 1 and carrying the corridor's share
  of the selection's total. Rows with equal values may come in either
  order; nothing here fixes the order of ties.
 */
module Ranking {

  import opened Aggregation
  import opened Currency
  import opened RealArith

  predicate NonIncreasing(rows: seq<CorridorValue>) {
    forall i, j :: 0 <= i < j < |rows| ==> rows[i].value >= rows[j].value
  }

  /** Places a row into a non-increasing sequence, before the first row
      whose value does not exceed it. */
  function InsertDescending(x: CorridorValue, rows: seq<CorridorValue>): (r: seq<CorridorValue>)
    ensures |r| == |rows| + 1
    ensures multiset(r) == multiset(rows) + multiset{x}
  {
    if |rows| == 0 || rows[0].value <= x.value then
      assert multiset([x] + rows) == multiset{x} + multiset(rows);
      [x] + rows
    else
      var rest := InsertDescending(x, rows[1..]);
      assert rows == [rows[0]] + rows[1..];
      assert multiset([rows[0]] + rest) == multiset{rows[0]} + multiset(rest);
      [rows[0]] + rest
  }

  /** A row no smaller than every row of a non-increasing sequence can head it. */
  lemma ConsNonIncreasing(a: CorridorValue, rest: seq<CorridorValue>)
    requires NonIncreasing(rest)
    requires forall y :: y in rest ==> y.value <= a.value
    ensures NonIncreasing([a] + rest)
  {
    var s := [a] + rest;
    forall i, j | 0 <= i < j < |s| ensures s[i].value >= s[j].value {
      assert s[j] == rest[j - 1];
      if i > 0 {
        assert s[i] == rest[i - 1];
      } else {
        assert rest[j - 1] in rest;
      }
    }
  }

  /** Inserting into a non-increasing sequence keeps it non-increasing. */
  lemma {:induction false} InsertNonIncreasing(x: CorridorValue, rows: seq<CorridorValue>)
    requires NonIncreasing(rows)
    ensures NonIncreasing(InsertDescending(x, rows))
    decreases |rows|
  {
    if |rows| == 0 || rows[0].value <= x.value {
      forall y | y in rows ensures y.value <= x.value {
        var i :| 0 <= i < |rows| && rows[i] == y;
        assert rows[0].value >= rows[i].value || i == 0;
      }
      ConsNonIncreasing(x, rows);
    } else {
      var tail := rows[1..];
      var rest := InsertDescending(x, tail);
      assert NonIncreasing(tail) by {
        forall i, j | 0 <= i < j < |tail| ensures tail[i].value >= tail[j].value {
          assert tail[i] == rows[i + 1] && tail[j] == rows[j + 1];
        }
      }
      InsertNonIncreasing(x, tail);
      forall y | y in rest ensures y.value <= rows[0].value {
        assert y in multiset(rest);
        if y != x {
          assert y in tail;
          var i :| 0 <= i < |tail| && tail[i] == y;
          assert rows[i + 1] == y;
        }
      }
      ConsNonIncreasing(rows[0], rest);
    }
  }

  /** sort_values('value', ascending=False), up to the order of ties. */
  function SortDescending(rows: seq<CorridorValue>): (r: seq<CorridorValue>)
    ensures |r| == |rows|
    ensures multiset(r) == multiset(rows)
  {
    if |rows| == 0 then []
    else
      assert rows == [rows[0]] + rows[1..];
      InsertDescending(rows[0], SortDescending(rows[1..]))
  }

  /** The sorted rows are in non-increasing order of value. */
  lemma {:induction false} SortNonIncreasing(rows: seq<CorridorValue>)
    ensures NonIncreasing(SortDescending(rows))
    decreases |rows|
  {
    if |rows| > 0 {
      SortNonIncreasing(rows[1..]);
      InsertNonIncreasing(rows[0], SortDescending(rows[1..]));
    }
  }

  lemma {:induction false} InsertSum(x: CorridorValue, rows: seq<CorridorValue>)
    ensures SumValues(InsertDescending(x, rows)) == x.value + SumValues(rows)
    decreases |rows|
  {
    if |rows| > 0 && rows[0].value > x.value {
      InsertSum(x, rows[1..]);
      assert ([rows[0]] + InsertDescending(x, rows[1..]))[1..] == InsertDescending(x, rows[1..]);
    } else {
      assert ([x] + rows)[1..] == rows;
    }
  }

  /** Sorting keeps the total of the values. */
  lemma {:induction false} SortSum(rows: seq<CorridorValue>)
    ensures SumValues(SortDescending(rows)) == SumValues(rows)
    decreases |rows|
  {
    if |rows| > 0 {
      SortSum(rows[1..]);
      InsertSum(rows[0], SortDescending(rows[1..]));
    }
  }

  /** Inserting splits the rows at the insertion position. */
  lemma {:induction false} InsertSplit(x: CorridorValue, rows: seq<CorridorValue>)
    ensures InsertDescending(x, rows) == rows[..Position(x, rows)] + [x] + rows[Position(x, rows)..]
    decreases |rows|
  {
    if |rows| > 0 && rows[0].value > x.value {
      var tail := rows[1..];
      var k := Position(x, tail);
      InsertSplit(x, tail);
      assert rows[..k + 1] == [rows[0]] + tail[..k];
      assert rows[k + 1..] == tail[k..];
    } else {
      assert rows[..0] == [] && rows[0..] == rows;
    }
  }

  /** Where InsertDescending places a row. */
  function Position(x: CorridorValue, rows: seq<CorridorValue>): (k: nat)
    ensures k <= |rows|
  {
    if |rows| == 0 || rows[0].value <= x.value then 0 else 1 + Position(x, rows[1..])
  }

  /** Sorting keeps the corridors free of repeats. */
  lemma {:induction false} SortDistinct(rows: seq<CorridorValue>)
    requires DistinctNames(Names(rows))
    ensures DistinctNames(Names(SortDescending(rows)))
    decreases |rows|
  {
    if |rows| > 0 {
      var rest := rows[1..];
      var names := Names(rows);
      assert names == [rows[0].corridor] + Names(rest);
      assert DistinctNames(Names(rest)) by {
        forall i, j | 0 <= i < j < |Names(rest)| ensures Names(rest)[i] != Names(rest)[j] {
          assert names[i + 1] == Names(rest)[i] && names[j + 1] == Names(rest)[j];
        }
      }
      assert rows[0].corridor !in Names(rest) by {
        forall i | 0 <= i < |Names(rest)| ensures Names(rest)[i] != rows[0].corridor {
          assert names[0] == rows[0].corridor && names[i + 1] == Names(rest)[i];
        }
      }
      SortDistinct(rest);
      var sorted := SortDescending(rest);
      SortNamesSame(rest);
      InsertKeepsDistinct(rows[0], sorted);
    }
  }

  /** Inserting a row whose corridor is new keeps the corridors free of
      repeats. */
  lemma InsertKeepsDistinct(x: CorridorValue, rows: seq<CorridorValue>)
    requires DistinctNames(Names(rows)) && x.corridor !in Names(rows)
    ensures DistinctNames(Names(InsertDescending(x, rows)))
  {
    InsertSplit(x, rows);
    var k := Position(x, rows);
    var a, b := rows[..k], rows[k..];
    assert a + b == rows;
    NamesConcat(a, b);
    NamesConcat(a + [x], b);
    NamesConcat(a, [x]);
    assert Names([x]) == [x.corridor];
    assert Names(InsertDescending(x, rows)) == Names(a) + [x.corridor] + Names(b);
    InsertDistinct(Names(a), x.corridor, Names(b));
  }

  lemma {:induction false} NamesConcat(a: seq<CorridorValue>, b: seq<CorridorValue>)
    ensures Names(a + b) == Names(a) + Names(b)
    decreases |a|
  {
    if |a| > 0 {
      NamesConcat(a[1..], b);
      assert (a + b)[1..] == a[1..] + b;
    } else {
      assert a + b == b;
    }
  }

  /** A name not among a repeat-free list can be put anywhere in it. */
  lemma InsertDistinct(a: seq<string>, x: string, b: seq<string>)
    requires DistinctNames(a + b) && x !in a + b
    ensures DistinctNames(a + [x] + b)
  {
    var s := a + [x] + b;
    forall i, j | 0 <= i < j < |s| ensures s[i] != s[j] {
      if i < |a| && j < |a| {
        assert s[i] == (a + b)[i] && s[j] == (a + b)[j];
      } else if i < |a| && j > |a| {
        assert s[i] == (a + b)[i] && s[j] == (a + b)[j - 1];
      } else if i > |a| {
        assert s[i] == (a + b)[i - 1] && s[j] == (a + b)[j - 1];
      } else if i == |a| {
        assert s[j] == (a + b)[j - 1];
      } else {
        assert s[i] == (a + b)[i];
      }
    }
  }

  /** A name is among the corridors of some rows exactly when a row has it. */
  lemma NamesMembership(rows: seq<CorridorValue>, name: string)
    ensures name in Names(rows) <==> exists r :: r in rows && r.corridor == name
  {
    NamesIndex(rows);
    if name in Names(rows) {
      var i :| 0 <= i < |rows| && Names(rows)[i] == name;
      assert rows[i] in rows;
    }
    if exists r :: r in rows && r.corridor == name {
      var r :| r in rows && r.corridor == name;
      var i :| 0 <= i < |rows| && rows[i] == r;
      assert Names(rows)[i] == name;
    }
  }

  lemma {:induction false} NamesIndex(rows: seq<CorridorValue>)
    ensures forall i :: 0 <= i < |rows| ==> Names(rows)[i] == rows[i].corridor
    decreases |rows|
  {
    if |rows| > 0 {
      NamesIndex(rows[1..]);
    }
  }

  /** Sorting keeps the set of corridors. */
  lemma SortNamesSame(rows: seq<CorridorValue>)
    ensures forall name :: name in Names(SortDescending(rows)) <==> name in Names(rows)
  {
    var sorted := SortDescending(rows);
    forall name ensures name in Names(sorted) <==> name in Names(rows) {
      NamesMembership(rows, name);
      NamesMembership(sorted, name);
      forall r ensures r in rows <==> r in sorted {
        assert r in rows <==> r in multiset(rows);
        assert r in sorted <==> r in multiset(sorted);
      }
    }
  }

  // ---------------------------------------------------------------------
  // Ranking rows

  /** A share of the selection's total, or "0%" when the total is not
      positive. */
  datatype Share = Percent(pct: real) | ZeroPercent

  function ShareOfSelection(value: real, total: real): Share {
    if total > 0.0 then Percent(value / total * 100.0) else ZeroPercent
  }

  /** The percentage a share shows; "0%" shows 0. */
  function SharePercent(s: Share): real {
    match s
    case Percent(p) => p
    case ZeroPercent => 0.0
  }

  /** One row of the ranking table: its rank, the corridor, the formatted
      quarterly value and the share of the selection. */
  datatype RankingRow = RankingRow(rank: nat, corridor: string, quarterlyValue: Formatted, share: Share)

  /** The corridor and value each ranking row shows. */
  function Entries(ranking: seq<RankingRow>): (rows: seq<CorridorValue>)
    ensures |rows| == |ranking|
    ensures forall i :: 0 <= i < |ranking| ==>
      rows[i] == CorridorValue(ranking[i].corridor, Amount(ranking[i].quarterlyValue))
  {
    seq(|ranking|, i requires 0 <= i < |ranking| =>
      CorridorValue(ranking[i].corridor, Amount(ranking[i].quarterlyValue)))
  }

  /** The ranking loop: rows by non-increasing value, the rank of each row
      one more than the number of rows before it, every grouped corridor
      exactly once with its value, and each row's share of the total. */
  method RankCorridors(quarterlyValues: seq<CorridorValue>, total: real)
    returns (ranking: seq<RankingRow>)
    ensures |ranking| == |quarterlyValues|
    ensures forall i :: 0 <= i < |ranking| ==> ranking[i].rank == i + 1
    ensures NonIncreasing(Entries(ranking))
    ensures multiset(Entries(ranking)) == multiset(quarterlyValues)
    ensures SumValues(Entries(ranking)) == SumValues(quarterlyValues)
    ensures DistinctNames(Names(quarterlyValues)) ==> DistinctNames(Names(Entries(ranking)))
    ensures forall i :: 0 <= i < |ranking| ==>
      ranking[i].quarterlyValue == FormatCurrency(Amount(ranking[i].quarterlyValue))
    ensures forall i :: 0 <= i < |ranking| ==>
      ranking[i].share == ShareOfSelection(Amount(ranking[i].quarterlyValue), total)
  {
    var sorted := SortDescending(quarterlyValues);
    ranking := [];
    for i := 0 to |sorted|
      invariant |ranking| == i
      invariant forall j :: 0 <= j < i ==> ranking[j].rank == j + 1
      invariant forall j :: 0 <= j < i ==>
        ranking[j].corridor == sorted[j].corridor && ranking[j].quarterlyValue == FormatCurrency(sorted[j].value)
      invariant forall j :: 0 <= j < i ==> ranking[j].share == ShareOfSelection(sorted[j].value, total)
    {
      var row := sorted[i];
      ranking := ranking + [RankingRow(|ranking| + 1, row.corridor, FormatCurrency(row.value),
                                       ShareOfSelection(row.value, total))];
    }
    assert Entries(ranking) == sorted;
    SortNonIncreasing(quarterlyValues);
    SortSum(quarterlyValues);
    if DistinctNames(Names(quarterlyValues)) {
      SortDistinct(quarterlyValues);
    }
  }

  /** Sum of the shares shown. */
  function SumShares(ranking: seq<RankingRow>): real {
    if |ranking| == 0 then 0.0 else SharePercent(ranking[0].share) + SumShares(ranking[1..])
  }

  lemma {:induction false} SumSharesScaled(ranking: seq<RankingRow>, total: real)
    requires total > 0.0
    requires forall i :: 0 <= i < |ranking| ==>
      ranking[i].share == ShareOfSelection(Amount(ranking[i].quarterlyValue), total)
    ensures SumShares(ranking) == SumValues(Entries(ranking)) / total * 100.0
    decreases |ranking|
  {
    if |ranking| > 0 {
      var rest := ranking[1..];
      SumSharesScaled(rest, total);
      assert Entries(ranking)[1..] == Entries(rest);
      DivAdd(Amount(ranking[0].quarterlyValue), SumValues(Entries(rest)), total);
    }
  }

  /** When the total is the sum of the ranked values and positive, the
      shares shown add up to 100. */
  lemma {:induction false} SharesSumTo100(ranking: seq<RankingRow>, total: real)
    requires total > 0.0 && SumValues(Entries(ranking)) == total
    requires forall i :: 0 <= i < |ranking| ==>
      ranking[i].share == ShareOfSelection(Amount(ranking[i].quarterlyValue), total)
    ensures SumShares(ranking) == 100.0
  {
    SumSharesScaled(ranking, total);
    DivSelf(total);
  }

  /** With a total that is not positive every share shows "0%". */
  lemma SharesWithoutTotal(value: real, total: real)
    requires total <= 0.0
    ensures ShareOfSelection(value, total) == ZeroPercent
  {
  }
}
