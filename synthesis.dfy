/**
  Synthesis of the heat-map dataset. For every corridor and every quarter
  the generator draws a random factor, derives the quarterly value from the
  base value with growth, seasonal and random factors, turns the value into
  a point count and emits that many records at uniformly drawn positions
  inside the corridor's bounding box.

  The random source is a stream of unit samples `rng(0), rng(1), ...`,
  consumed in the generator's order: one draw for the random factor, then a
  latitude draw and a longitude draw per emitted record. The sine of the
  seasonal term is supplied as `sines[q % 4]`.
 */
module Synthesis {

  import opened Corridors
  import opened Quarters
  import opened RealArith

  /** A source of unit samples, indexed by draw number. */
  type Stream = nat -> real

  /** Every sample lies in [0, 1), as a uniform generator promises. */
  ghost predicate UnitStream(rng: Stream) {
    forall i :: 0.0 <= rng(i) < 1.0
  }

  /** The supplied sines lie in [-1, 1]. */
  predicate SinesInRange(sines: seq<real>) {
    forall r :: 0 <= r < |sines| ==> -1.0 <= sines[r] <= 1.0
  }

  /** What the generator needs to run at all: a bounding box for every
      corridor and one sine per quarter of the year. */
  predicate ValidInputs(table: seq<Corridor>, sines: seq<real>) {
    HasRegions(table) && |sines| == 4
  }

  /** Python's int() on a float: truncation toward zero. */
  function Trunc(x: real): (t: int)
    ensures x >= 0.0 ==> t >= 0 && t as real <= x < t as real + 1.0
    ensures x < 0.0 ==> t <= 0 && t as real - 1.0 < x <= t as real
  {
    if x >= 0.0 then x.Floor else -((-x).Floor)
  }

  /** A draw from uniform(low, high) given the unit sample u. */
  function Uniform(low: real, high: real, u: real): (r: real)
    ensures low <= high && 0.0 <= u <= 1.0 ==> low <= r <= high
  {
    UniformInRange(low, high, u, low + (high - low) * u);
    low + (high - low) * u
  }

  /** Moving a unit fraction of the way from low to high stays between them. */
  lemma UniformInRange(low: real, high: real, u: real, r: real)
    requires r == low + (high - low) * u
    ensures low <= high && 0.0 <= u <= 1.0 ==> low <= r <= high
  {
    if low <= high && 0.0 <= u <= 1.0 {
      MulNonNegative(high - low, u);
      MulNonNegative(high - low, 1.0 - u);
    }
  }

  /** 1.5% linear growth per quarter. */
  function GrowthFactor(q: nat): real {
    1.0 + q as real * 0.015
  }

  /** Seasonal swing of amplitude 10% around 1. */
  function SeasonalFactor(sine: real): real {
    1.0 + 0.1 * sine
  }

  /** The random factor, uniform in [0.9, 1.1]. */
  function RandomFactor(u: real): real {
    Uniform(0.9, 1.1, u)
  }

  /** The quarterly value of a corridor with annual base value `base`. */
  function QuarterlyValue(base: real, q: nat, sine: real, u: real): real {
    (base / 4.0) * GrowthFactor(q) * SeasonalFactor(sine) * RandomFactor(u)
  }

  /** Number of records emitted for a value: int(value / 10), and none when
      that is not positive (a range over a non-positive count is empty). */
  function PointCount(value: real): (n: nat)
    ensures value >= 0.0 ==> n as real * 10.0 <= value < (n as real + 1.0) * 10.0
    ensures value < 10.0 ==> n == 0
  {
    var t := Trunc(value / 10.0);
    if t > 0 then t else 0
  }

  /** A quarterly value lies between 81% and 121% of the grown quarter
      share of the base value; with a positive base it is positive. */
  lemma QuarterlyValueBounds(base: real, q: nat, sine: real, u: real)
    requires base > 0.0 && -1.0 <= sine <= 1.0 && 0.0 <= u < 1.0
    ensures (base / 4.0) * GrowthFactor(q) * 0.81 <= QuarterlyValue(base, q, sine, u)
    ensures QuarterlyValue(base, q, sine, u) <= (base / 4.0) * GrowthFactor(q) * 1.21
    ensures QuarterlyValue(base, q, sine, u) > 0.0
  {
    var g := (base / 4.0) * GrowthFactor(q);
    var s, r := SeasonalFactor(sine), RandomFactor(u);
    assert g >= base / 4.0 > 0.0;
    assert 0.9 <= s <= 1.1 && 0.9 <= r <= 1.1;
    MulNonNegative(g, s - 0.9);
    MulNonNegative(g, 1.1 - s);
    MulNonNegative(g * s - g * 0.9, r);
    MulNonNegative(g * 0.9, r - 0.9);
    MulNonNegative(g * 1.1 - g * s, r);
    MulNonNegative(g * 1.1, 1.1 - r);
    assert QuarterlyValue(base, q, sine, u) == (g * s) * r;
  }

  /** The record for the i-th point of a group whose draws start at `start`. */
  function MakePoint(name: string, qLabel: string, q: nat, value: real, box: Box,
                     rng: Stream, start: nat, i: nat): TradePoint
  {
    TradePoint(name, qLabel, q,
      Uniform(box.latMin, box.latMax, rng(start + 2 * i)),
      Uniform(box.lonMin, box.lonMax, rng(start + 2 * i + 1)),
      value, 1)
  }

  /** The first n records of a group. */
  function EmitPoints(name: string, qLabel: string, q: nat, value: real, box: Box,
                      rng: Stream, start: nat, n: nat): (ps: seq<TradePoint>)
    ensures |ps| == n
  {
    if n == 0 then []
    else EmitPoints(name, qLabel, q, value, box, rng, start, n - 1)
         + [MakePoint(name, qLabel, q, value, box, rng, start, n - 1)]
  }

  /** Every record of a group carries the group's corridor, quarter and
      value with weight 1, and with unit samples lies inside the box. */
  lemma {:induction false} EmitPointsShape(name: string, qLabel: string, q: nat, value: real,
                                           box: Box, rng: Stream, start: nat, n: nat)
    ensures forall p :: p in EmitPoints(name, qLabel, q, value, box, rng, start, n) ==>
      p.corridor == name && p.quarter == qLabel && p.quarterIndex == q &&
      p.value == value && p.weight == 1
    ensures UnitStream(rng) && box.latMin <= box.latMax && box.lonMin <= box.lonMax ==>
      forall p :: p in EmitPoints(name, qLabel, q, value, box, rng, start, n) ==> InBox(p.lat, p.lon, box)
  {
    if n > 0 {
      EmitPointsShape(name, qLabel, q, value, box, rng, start, n - 1);
    }
  }

  /** Draws consumed by a group of value v: one for the random factor and
      two per record. */
  function Consumed(v: real): nat {
    1 + 2 * PointCount(v)
  }

  /** Stream position at the start of corridor k. */
  function Start(table: seq<Corridor>, sines: seq<real>, rng: Stream, k: nat): nat
    requires ValidInputs(table, sines) && k <= |table|
    decreases k, 0, 0
  {
    if k == 0 then 0 else CursorAt(table, sines, rng, k - 1, QuarterCount)
  }

  /** Stream position at the start of group (k, q); q == 20 is the end of
      corridor k. */
  function CursorAt(table: seq<Corridor>, sines: seq<real>, rng: Stream, k: nat, q: nat): nat
    requires ValidInputs(table, sines) && k < |table| && q <= QuarterCount
    decreases k, 1, q
  {
    if q == 0 then Start(table, sines, rng, k)
    else
      var c := CursorAt(table, sines, rng, k, q - 1);
      c + Consumed(QuarterlyValue(table[k].baseValue, q - 1, sines[(q - 1) % 4], rng(c)))
  }

  /** The quarterly value of corridor k in quarter q. */
  function Value(table: seq<Corridor>, sines: seq<real>, rng: Stream, k: nat, q: nat): real
    requires ValidInputs(table, sines) && k < |table| && q < QuarterCount
  {
    QuarterlyValue(table[k].baseValue, q, sines[q % 4], rng(CursorAt(table, sines, rng, k, q)))
  }

  /** The records of corridor k in quarter q. */
  function Group(table: seq<Corridor>, sines: seq<real>, rng: Stream, k: nat, q: nat): seq<TradePoint>
    requires ValidInputs(table, sines) && k < |table| && q < QuarterCount
  {
    var v := Value(table, sines, rng, k, q);
    EmitPoints(table[k].name, QuarterLabel(q), q, v, BoundingBox(table[k].region),
               rng, CursorAt(table, sines, rng, k, q) + 1, PointCount(v))
  }

  /** The records of group (k, q), for any k and q: the layout below is
      stated over such a function so that its lemmas do not depend on how a
      group is computed. */
  type GroupFn = (nat, nat) -> seq<TradePoint>

  function GroupOf(table: seq<Corridor>, sines: seq<real>, rng: Stream): GroupFn {
    (k: nat, q: nat) =>
      if ValidInputs(table, sines) && k < |table| && q < QuarterCount
      then Group(table, sines, rng, k, q) else []
  }

  /** All records of the corridors before k, corridor by corridor and
      quarter by quarter. */
  function Before(groupOf: GroupFn, k: nat): seq<TradePoint>
    decreases k, 0, 0
  {
    if k == 0 then [] else Upto(groupOf, k - 1, QuarterCount)
  }

  /** All records before group (k, q). */
  function Upto(groupOf: GroupFn, k: nat, q: nat): seq<TradePoint>
    requires q <= QuarterCount
    decreases k, 1, q
  {
    if q == 0 then Before(groupOf, k) else Upto(groupOf, k, q - 1) + groupOf(k, q - 1)
  }

  /** The whole generated dataset. */
  function Synthesized(table: seq<Corridor>, sines: seq<real>, rng: Stream): seq<TradePoint> {
    Before(GroupOf(table, sines, rng), |table|)
  }

  /** A group has exactly PointCount(value) records, each carrying the
      group's corridor, quarter, broadcast value and weight 1; with unit
      samples each lies inside the corridor's bounding box. */
  lemma GroupShape(table: seq<Corridor>, sines: seq<real>, rng: Stream, k: nat, q: nat)
    requires ValidInputs(table, sines)
    requires k < |table| && q < QuarterCount
    ensures |Group(table, sines, rng, k, q)| == PointCount(Value(table, sines, rng, k, q))
    ensures forall p :: p in Group(table, sines, rng, k, q) ==>
      && p.corridor == table[k].name
      && p.quarterIndex == q
      && p.quarter == QuarterLabel(q)
      && p.value == Value(table, sines, rng, k, q)
      && p.weight == 1
    ensures UnitStream(rng) ==> forall p :: p in Group(table, sines, rng, k, q) ==>
      InBox(p.lat, p.lon, BoundingBox(table[k].region))
  {
    var v := Value(table, sines, rng, k, q);
    EmitPointsShape(table[k].name, QuarterLabel(q), q, v, BoundingBox(table[k].region),
                    rng, CursorAt(table, sines, rng, k, q) + 1, PointCount(v));
  }

  /** With in-range sines and samples and a positive base, every quarterly
      value is positive, so the point count is int(value / 10) >= 0. */
  lemma ValuePositive(table: seq<Corridor>, sines: seq<real>, rng: Stream, k: nat, q: nat)
    requires ValidInputs(table, sines) && SinesInRange(sines) && UnitStream(rng)
    requires PositiveBases(table) && k < |table| && q < QuarterCount
    ensures Value(table, sines, rng, k, q) > 0.0
    ensures PointCount(Value(table, sines, rng, k, q)) == Trunc(Value(table, sines, rng, k, q) / 10.0)
  {
    var c := CursorAt(table, sines, rng, k, q);
    QuarterlyValueBounds(table[k].baseValue, q, sines[q % 4], rng(c));
  }

  /** Every record of the first n corridors comes from one of their groups. */
  lemma {:induction false} BeforeFromGroups(groupOf: GroupFn, n: nat, p: TradePoint)
    requires p in Before(groupOf, n)
    ensures exists k, q :: 0 <= k < n && 0 <= q < QuarterCount && p in groupOf(k, q)
    decreases n, 0, 0
  {
    UptoFromGroups(groupOf, n - 1, QuarterCount, p);
  }

  lemma {:induction false} UptoFromGroups(groupOf: GroupFn, k: nat, q: nat, p: TradePoint)
    requires q <= QuarterCount && p in Upto(groupOf, k, q)
    ensures exists k', q' :: 0 <= k' <= k && 0 <= q' < QuarterCount && p in groupOf(k', q')
    decreases k, 1, q
  {
    if q == 0 {
      BeforeFromGroups(groupOf, k, p);
    } else if p in Upto(groupOf, k, q - 1) {
      UptoFromGroups(groupOf, k, q - 1, p);
    } else {
      assert p in groupOf(k, q - 1);
    }
  }

  /** Every record of a group that comes before (k, q) is among the
      records up to (k, q). */
  lemma {:induction false} GroupInUpto(groupOf: GroupFn, k: nat, q: nat, k': nat, q': nat, p: TradePoint)
    requires q <= QuarterCount && q' < QuarterCount && p in groupOf(k', q')
    requires k' < k || (k' == k && q' < q)
    ensures p in Upto(groupOf, k, q)
    decreases k, q
  {
    if q == 0 {
      GroupInUpto(groupOf, k - 1, QuarterCount, k', q', p);
    } else if k' != k || q' != q - 1 {
      GroupInUpto(groupOf, k, q - 1, k', q', p);
    }
  }

  /** Every record of a group of the first n corridors is among their
      records. */
  lemma GroupInBefore(groupOf: GroupFn, n: nat, k: nat, q: nat, p: TradePoint)
    requires k < n && q < QuarterCount && p in groupOf(k, q)
    ensures p in Before(groupOf, n)
  {
    GroupInUpto(groupOf, n - 1, QuarterCount, k, q, p);
  }

  /** Every record of every group is part of the generated dataset. */
  lemma GroupInSynthesized(table: seq<Corridor>, sines: seq<real>, rng: Stream, k: nat, q: nat, p: TradePoint)
    requires ValidInputs(table, sines) && k < |table| && q < QuarterCount
    requires p in Group(table, sines, rng, k, q)
    ensures p in Synthesized(table, sines, rng)
  {
    var groupOf := GroupOf(table, sines, rng);
    assert p in groupOf(k, q);
    GroupInBefore(groupOf, |table|, k, q, p);
  }

  /** Every generated record has weight 1, a quarter index below 20 with its
      matching label, the name of a table corridor, and a position inside
      that corridor's bounding box. */
  lemma SynthesizedRecord(table: seq<Corridor>, sines: seq<real>, rng: Stream, p: TradePoint)
    requires ValidInputs(table, sines) && UnitStream(rng)
    requires p in Synthesized(table, sines, rng)
    ensures p.weight == 1 && p.quarterIndex < QuarterCount && p.quarter == QuarterLabel(p.quarterIndex)
    ensures exists k :: 0 <= k < |table| && p.corridor == table[k].name
                        && InBox(p.lat, p.lon, BoundingBox(table[k].region))
  {
    BeforeFromGroups(GroupOf(table, sines, rng), |table|, p);
    var k, q :| 0 <= k < |table| && 0 <= q < QuarterCount && p in GroupOf(table, sines, rng)(k, q);
    GroupShape(table, sines, rng, k, q);
  }

  /** Group (k, q) is the EmitPoints sequence of any arguments equal to its
      corridor name, label, value, box, first draw and count. */
  lemma GroupFromParts(table: seq<Corridor>, sines: seq<real>, rng: Stream, k: nat, q: nat,
                       name: string, qLabel: string, v: real, box: Box, start: nat, n: nat)
    requires ValidInputs(table, sines) && k < |table| && q < QuarterCount
    requires name == table[k].name && qLabel == QuarterLabel(q) && v == Value(table, sines, rng, k, q)
    requires box == BoundingBox(table[k].region) && start == CursorAt(table, sines, rng, k, q) + 1
    requires n == PointCount(v)
    ensures Group(table, sines, rng, k, q) == EmitPoints(name, qLabel, q, v, box, rng, start, n)
  {
    assert Group(table, sines, rng, k, q) ==
      EmitPoints(table[k].name, QuarterLabel(q), q, Value(table, sines, rng, k, q),
                 BoundingBox(table[k].region), rng, CursorAt(table, sines, rng, k, q) + 1,
                 PointCount(Value(table, sines, rng, k, q)));
  }

  /** The records of one group, appended point by point. */
  method EmitGroup(name: string, qLabel: string, q: nat, value: real, box: Box,
                   rng: Stream, start: nat, n: nat)
    returns (points: seq<TradePoint>)
    ensures points == EmitPoints(name, qLabel, q, value, box, rng, start, n)
  {
    points := [];
    var cursor := start;
    for i := 0 to n
      invariant points == EmitPoints(name, qLabel, q, value, box, rng, start, i)
      invariant cursor == start + 2 * i
    {
      var lat := Uniform(box.latMin, box.latMax, rng(cursor));
      var lon := Uniform(box.lonMin, box.lonMax, rng(cursor + 1));
      points := points + [TradePoint(name, qLabel, q, lat, lon, value, 1)];
      cursor := cursor + 2;
    }
  }

  /** One pass of the generator's quarter loop: the quarterly value of
      corridor k in quarter q from the draw at `cursor`, the point count, the
      bounding box and the records; `next` is the stream position after it. */
  method GenerateGroup(table: seq<Corridor>, sines: seq<real>, rng: Stream,
                       quarters: seq<string>, k: nat, q: nat, cursor: nat)
    returns (group: seq<TradePoint>, next: nat)
    requires ValidInputs(table, sines) && k < |table| && q < QuarterCount
    requires |quarters| == QuarterCount && quarters[q] == QuarterLabel(q)
    requires cursor == CursorAt(table, sines, rng, k, q)
    ensures group == Group(table, sines, rng, k, q)
    ensures next == CursorAt(table, sines, rng, k, q + 1)
  {
    var corridor := table[k];
    var quarterlyValue := QuarterlyValue(corridor.baseValue, q, sines[q % 4], rng(cursor));
    var numPoints := PointCount(quarterlyValue);
    var box := BoundingBox(corridor.region);
    assert quarterlyValue == Value(table, sines, rng, k, q);
    group := EmitGroup(corridor.name, quarters[q], q, quarterlyValue, box, rng, cursor + 1, numPoints);
    next := cursor + 1 + 2 * numPoints;
    GroupFromParts(table, sines, rng, k, q, corridor.name, quarters[q], quarterlyValue, box, cursor + 1, numPoints);
  }

  /** The generator: the quarter labels, then for every corridor and every
      quarter its group of records. */
  method GenerateCorridorData(table: seq<Corridor>, sines: seq<real>, rng: Stream)
    returns (points: seq<TradePoint>, quarters: seq<string>)
    requires ValidInputs(table, sines)
    ensures |quarters| == QuarterCount
    ensures forall i :: 0 <= i < QuarterCount ==> quarters[i] == QuarterLabel(i)
    ensures points == Synthesized(table, sines, rng)
  {
    quarters := BuildQuarters();
    ghost var groupOf := GroupOf(table, sines, rng);
    points := [];
    var cursor: nat := 0;
    for k := 0 to |table|
      invariant points == Before(groupOf, k)
      invariant cursor == Start(table, sines, rng, k)
    {
      for q := 0 to QuarterCount
        invariant points == Upto(groupOf, k, q)
        invariant cursor == CursorAt(table, sines, rng, k, q)
      {
        var group;
        group, cursor := GenerateGroup(table, sines, rng, quarters, k, q, cursor);
        assert group == groupOf(k, q);
        points := points + group;
      }
    }
  }
}
