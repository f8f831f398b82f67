/**
  The dashboard's timeline: twenty consecutive calendar quarters from
  Q1 2021, each labelled "Q<quarter> <year>" and known by its index 0..19.
 */
module Quarters {

  import opened Wrappers

  const QuarterCount: nat := 20
  const FirstYear: nat := 2021

  /** The character of a decimal digit. */
  function DigitChar(d: nat): (c: char)
    requires d < 10
    ensures '0' <= c <= '9'
  {
    ('0' as int + d) as char
  }

  predicate IsDigit(c: char) {
    '0' <= c <= '9'
  }

  predicate AllDigits(s: string) {
    forall i :: 0 <= i < |s| ==> IsDigit(s[i])
  }

  function DigitValue(c: char): (d: nat)
    requires IsDigit(c)
    ensures d < 10
  {
    c as int - '0' as int
  }

  /** Decimal rendering of a natural number, as Python's str() gives it. */
  function NatToString(n: nat): (s: string)
    ensures |s| > 0 && AllDigits(s)
    ensures n == 0 ==> s == "0"
    ensures n > 0 ==> s[0] != '0'
    decreases n
  {
    if n < 10 then [DigitChar(n)]
    else
      var init := NatToString(n / 10);
      assert (init + [DigitChar(n % 10)])[0] == init[0];
      init + [DigitChar(n % 10)]
  }

  /** Value of a string of decimal digits (the empty string reads as 0). */
  function StringToNat(s: string): nat
    requires AllDigits(s)
    decreases |s|
  {
    if |s| == 0 then 0 else 10 * StringToNat(s[..|s| - 1]) + DigitValue(s[|s| - 1])
  }

  /** Reading back a rendered number gives the number. */
  lemma {:induction false} NatToStringRoundTrip(n: nat)
    ensures StringToNat(NatToString(n)) == n
    decreases n
  {
    var s := NatToString(n);
    if n < 10 {
      assert s[..0] == [];
    } else {
      NatToStringRoundTrip(n / 10);
      assert s[..|s| - 1] == NatToString(n / 10);
      assert DigitValue(s[|s| - 1]) == n % 10;
    }
  }

  /** The quarter number 1..4 of the quarter at index i. */
  function QuarterNumber(i: nat): nat {
    i % 4 + 1
  }

  /** The calendar year of the quarter at index i. */
  function YearOf(i: nat): nat {
    FirstYear + i / 4
  }

  /** The label of the quarter at index i. */
  function QuarterLabel(i: nat): string {
    "Q" + NatToString(QuarterNumber(i)) + " " + NatToString(YearOf(i))
  }

  /** Reads a label of the form "Q<1-4> <year>", year at least 2021, back
      to its quarter index. */
  function ParseQuarterLabel(s: string): (r: Option<nat>)
    ensures r.Some? ==> |s| >= 4 && s[0] == 'Q' && s[2] == ' '
  {
    if |s| >= 4 && s[0] == 'Q' && '1' <= s[1] <= '4' && s[2] == ' '
       && AllDigits(s[3..]) && StringToNat(s[3..]) >= FirstYear
    then Some(4 * (StringToNat(s[3..]) - FirstYear) + DigitValue(s[1]) - 1)
    else None
  }

  /** Every label names its own index: the labels are distinct and
      the label of index i says quarter i % 4 + 1 of year 2021 + i / 4. */
  lemma {:induction false} QuarterLabelRoundTrip(i: nat)
    ensures ParseQuarterLabel(QuarterLabel(i)) == Some(i)
  {
    var y := NatToString(YearOf(i));
    var d := DigitChar(QuarterNumber(i));
    assert NatToString(QuarterNumber(i)) == [d];
    var s := QuarterLabel(i);
    assert s == ['Q', d, ' '] + y;
    assert s[3..] == y;
    NatToStringRoundTrip(YearOf(i));
    assert DigitValue(d) == QuarterNumber(i);
    assert 4 * (YearOf(i) - FirstYear) + QuarterNumber(i) - 1 == 4 * (i / 4) + i % 4;
  }

  /** Distinct indices have distinct labels. */
  lemma QuarterLabelsDistinct(i: nat, j: nat)
    requires i != j
    ensures QuarterLabel(i) != QuarterLabel(j)
  {
    QuarterLabelRoundTrip(i);
    QuarterLabelRoundTrip(j);
  }

  /** The timeline runs in calendar order: a later index is a later quarter. */
  lemma QuartersChronological(i: nat, j: nat)
    requires i < j
    ensures YearOf(i) < YearOf(j) || (YearOf(i) == YearOf(j) && QuarterNumber(i) < QuarterNumber(j))
  {
  }

  /** The label of index i, from its quarter number and year. */
  lemma LabelFromParts(i: nat, quarterNum: nat, year: nat)
    requires quarterNum == QuarterNumber(i) && year == YearOf(i)
    ensures "Q" + NatToString(quarterNum) + " " + NatToString(year) == QuarterLabel(i)
  {
  }

  /** Builds the twenty quarter labels, oldest first. */
  method BuildQuarters() returns (quarters: seq<string>)
    ensures |quarters| == QuarterCount
    ensures forall i :: 0 <= i < QuarterCount ==> quarters[i] == QuarterLabel(i)
    ensures forall i :: 0 <= i < QuarterCount ==> ParseQuarterLabel(quarters[i]) == Some(i)
  {
    quarters := [];
    for i := 0 to QuarterCount
      invariant |quarters| == i
      invariant forall j :: 0 <= j < i ==> quarters[j] == QuarterLabel(j)
    {
      var quarterNum := i % 4 + 1;
      var year := FirstYear + i / 4;
      var qLabel := "Q" + NatToString(quarterNum) + " " + NatToString(year);
      LabelFromParts(i, quarterNum, year);
      quarters := quarters + [qLabel];
    }
    forall i | 0 <= i < QuarterCount
      ensures ParseQuarterLabel(quarters[i]) == Some(i)
    {
      QuarterLabelRoundTrip(i);
    }
  }
}
