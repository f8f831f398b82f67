/**
  The dashboard's currency formatter: the threshold band of a value picks
  the unit it is divided by, the suffix shown after it and the number of
  decimals it is printed with. The text rendering of the scaled number is
  not modelled; a formatted value is the triple (scaled, decimals, suffix)
  printed after a "$".
 */
module Currency {

  const Billion: real := 1000000000.0
  const Million: real := 1000000.0
  const Thousand: real := 1000.0

  /** The threshold band a value falls in. */
  datatype Tier = Billions | Millions | Thousands | Units

  /** A formatted amount: "$", then `scaled` printed with `decimals`
      decimals, then the suffix. */
  datatype Formatted = Formatted(scaled: real, decimals: nat, suffix: string)

  /** Bands are tried from the largest threshold down. */
  function TierOf(value: real): Tier {
    if value >= Billion then Billions
    else if value >= Million then Millions
    else if value >= Thousand then Thousands
    else Units
  }

  function UnitOf(t: Tier): real {
    match t
    case Billions => Billion
    case Millions => Million
    case Thousands => Thousand
    case Units => 1.0
  }

  function SuffixOf(t: Tier): string {
    match t
    case Billions => "B"
    case Millions => "M"
    case Thousands => "K"
    case Units => ""
  }

  /** One decimal for billions, none otherwise. */
  function DecimalsOf(t: Tier): nat {
    if t == Billions then 1 else 0
  }

  /** The unit a suffix stands for, for reading a formatted amount back. */
  function SuffixUnit(suffix: string): real {
    if suffix == "B" then Billion
    else if suffix == "M" then Million
    else if suffix == "K" then Thousand
    else 1.0
  }

  /** The value a formatted amount stands for, before digit rounding. */
  function Amount(f: Formatted): real {
    f.scaled * SuffixUnit(f.suffix)
  }

  /** format_currency: B from 1e9 up, M from 1e6, K from 1e3, no suffix
      below; the scaled figure reads back as the value, and in the M and K
      bands it lies in [1, 1000). */
  function FormatCurrency(value: real): (f: Formatted)
    ensures f.suffix == "B" <==> value >= Billion
    ensures f.suffix == "M" <==> Million <= value < Billion
    ensures f.suffix == "K" <==> Thousand <= value < Million
    ensures f.suffix == "" <==> value < Thousand
    ensures Amount(f) == value
    ensures f.suffix == "B" ==> f.scaled >= 1.0 && f.decimals == 1
    ensures f.suffix in {"M", "K"} ==> 1.0 <= f.scaled < 1000.0 && f.decimals == 0
    ensures f.suffix == "" ==> f.scaled == value && f.decimals == 0
  {
    var t := TierOf(value);
    Formatted(value / UnitOf(t), DecimalsOf(t), SuffixOf(t))
  }

  function TierRank(t: Tier): nat {
    match t
    case Units => 0
    case Thousands => 1
    case Millions => 2
    case Billions => 3
  }

  /** A larger value never falls in a lower band. */
  lemma TierMonotone(v: real, w: real)
    requires v <= w
    ensures TierRank(TierOf(v)) <= TierRank(TierOf(w))
  {
  }

  /** Worked amounts: 5.3e9 shows as 5.3 with B and one decimal, 4.5e8 as
      450 with M, 2000 as 2 with K, 50 with no suffix. */
  lemma FormatExamples()
    ensures FormatCurrency(5300000000.0) == Formatted(5.3, 1, "B")
    ensures FormatCurrency(450000000.0) == Formatted(450.0, 0, "M")
    ensures FormatCurrency(2000.0) == Formatted(2.0, 0, "K")
    ensures FormatCurrency(50.0) == Formatted(50.0, 0, "")
  {
  }

  /** The dashboard passes quarterly values in billions of USD: a quarter
      of 1325 (billions) falls in the thousands band and shows as 1.325
      with suffix K, next to the caption "(Billions USD)". */
  lemma BillionsFigureInThousandsBand()
    ensures FormatCurrency(1325.0) == Formatted(1.325, 0, "K")
    ensures FormatCurrency(1325.0 * 4.0).suffix == "K"
  {
  }
}
