/**
  Static reference data of the dashboard: the corridor table, the bounding
  box of a corridor polygon, and the heat-map record the generator emits.
 */
module Corridors {

  import opened Wrappers

  /** A polygon vertex or a map position: (latitude, longitude). */
  datatype Vertex = Vertex(lat: real, lon: real)

  /** A named trade corridor with its polygon, its label position and its
      annual base value (billions of USD). */
  datatype Corridor = Corridor(name: string, region: seq<Vertex>, center: Vertex, baseValue: real)

  /** One generated heat-map record; `value` is the corridor's quarterly
      value broadcast to every record of the same (corridor, quarter). */
  datatype TradePoint = TradePoint(
    corridor: string,
    quarter: string,
    quarterIndex: nat,
    lat: real,
    lon: real,
    value: real,
    weight: int)

  /** Axis-aligned latitude/longitude rectangle. */
  datatype Box = Box(latMin: real, latMax: real, lonMin: real, lonMax: real)

  /** The eight corridors, in the order the dashboard iterates them. */
  const Table: seq<Corridor> := [
    Corridor("South China Sea",
      [Vertex(5.0, 110.0), Vertex(5.0, 120.0), Vertex(20.0, 120.0), Vertex(20.0, 110.0)],
      Vertex(12.5, 115.0), 5300.0),
    Corridor("Malacca Strait",
      [Vertex(1.0, 102.5), Vertex(1.5, 104.0), Vertex(5.5, 100.0), Vertex(5.0, 99.5)],
      Vertex(3.0, 101.5), 3500.0),
    Corridor("Strait of Hormuz",
      [Vertex(26.5, 56.0), Vertex(26.5, 57.0), Vertex(25.5, 57.0), Vertex(25.5, 56.0)],
      Vertex(26.0, 56.5), 1400.0),
    Corridor("English Channel",
      [Vertex(50.5, -1.5), Vertex(50.5, 2.0), Vertex(51.0, 2.0), Vertex(51.0, -1.5)],
      Vertex(50.75, 0.25), 1400.0),
    Corridor("Strait of Gibraltar",
      [Vertex(35.9, -5.5), Vertex(35.9, -5.2), Vertex(36.1, -5.2), Vertex(36.1, -5.5)],
      Vertex(36.0, -5.35), 1200.0),
    Corridor("Red Sea / Suez Canal",
      [Vertex(30.5, 32.3), Vertex(30.5, 32.5), Vertex(12.5, 43.5), Vertex(12.5, 43.0)],
      Vertex(20.0, 38.0), 700.0),
    Corridor("Bosphorus Strait",
      [Vertex(41.0, 28.9), Vertex(41.0, 29.1), Vertex(41.3, 29.1), Vertex(41.3, 28.9)],
      Vertex(41.15, 29.0), 400.0),
    Corridor("Panama Canal",
      [Vertex(9.0, -79.9), Vertex(9.0, -79.4), Vertex(9.5, -79.4), Vertex(9.5, -79.9)],
      Vertex(9.25, -79.65), 270.0)
  ]

  /** The table is a dictionary keyed by name: no name occurs twice. */
  predicate UniqueNames(table: seq<Corridor>) {
    forall i, j :: 0 <= i < j < |table| ==> table[i].name != table[j].name
  }

  /** Every polygon has a vertex, so its bounding box exists. */
  predicate HasRegions(table: seq<Corridor>) {
    forall k :: 0 <= k < |table| ==> |table[k].region| > 0
  }

  predicate PositiveBases(table: seq<Corridor>) {
    forall k :: 0 <= k < |table| ==> table[k].baseValue > 0.0
  }

  predicate ValidTable(table: seq<Corridor>) {
    UniqueNames(table) && HasRegions(table) && PositiveBases(table)
  }

  /** The smallest element of a non-empty sequence. */
  function MinOf(xs: seq<real>): (m: real)
    requires |xs| > 0
    ensures m in xs
    ensures forall x :: x in xs ==> m <= x
  {
    if |xs| == 1 then xs[0]
    else
      var rest := MinOf(xs[1..]);
      assert forall x :: x in xs ==> x == xs[0] || x in xs[1..];
      if xs[0] <= rest then xs[0] else rest
  }

  /** The largest element of a non-empty sequence. */
  function MaxOf(xs: seq<real>): (m: real)
    requires |xs| > 0
    ensures m in xs
    ensures forall x :: x in xs ==> x <= m
  {
    if |xs| == 1 then xs[0]
    else
      var rest := MaxOf(xs[1..]);
      assert forall x :: x in xs ==> x == xs[0] || x in xs[1..];
      if xs[0] >= rest then xs[0] else rest
  }

  /** The latitudes of a polygon's vertices, in order. */
  function Lats(region: seq<Vertex>): (r: seq<real>)
    ensures |r| == |region|
    ensures forall i :: 0 <= i < |region| ==> r[i] == region[i].lat
  {
    seq(|region|, i requires 0 <= i < |region| => region[i].lat)
  }

  /** The longitudes of a polygon's vertices, in order. */
  function Lons(region: seq<Vertex>): (r: seq<real>)
    ensures |r| == |region|
    ensures forall i :: 0 <= i < |region| ==> r[i] == region[i].lon
  {
    seq(|region|, i requires 0 <= i < |region| => region[i].lon)
  }

  predicate InBox(lat: real, lon: real, b: Box) {
    b.latMin <= lat <= b.latMax && b.lonMin <= lon <= b.lonMax
  }

  /** The bounding rectangle of a polygon: the min/max of its vertex
      latitudes and longitudes. */
  function BoundingBox(region: seq<Vertex>): (b: Box)
    requires |region| > 0
    ensures b.latMin <= b.latMax && b.lonMin <= b.lonMax
    ensures forall v :: v in region ==> InBox(v.lat, v.lon, b)
  {
    var lats, lons := Lats(region), Lons(region);
    assert forall v :: v in region ==> v.lat in lats && v.lon in lons by {
      forall v | v in region ensures v.lat in lats && v.lon in lons {
        var i :| 0 <= i < |region| && region[i] == v;
        assert lats[i] == v.lat && lons[i] == v.lon;
      }
    }
    Box(MinOf(lats), MaxOf(lats), MinOf(lons), MaxOf(lons))
  }

  /** The bounding box is the tightest one: each of its four sides touches
      a vertex of the polygon. */
  lemma BoundingBoxTight(region: seq<Vertex>)
    requires |region| > 0
    ensures exists v :: v in region && v.lat == BoundingBox(region).latMin
    ensures exists v :: v in region && v.lat == BoundingBox(region).latMax
    ensures exists v :: v in region && v.lon == BoundingBox(region).lonMin
    ensures exists v :: v in region && v.lon == BoundingBox(region).lonMax
  {
    var b, lats, lons := BoundingBox(region), Lats(region), Lons(region);
    var i :| 0 <= i < |lats| && lats[i] == b.latMin;
    var j :| 0 <= j < |lats| && lats[j] == b.latMax;
    var m :| 0 <= m < |lons| && lons[m] == b.lonMin;
    var n :| 0 <= n < |lons| && lons[n] == b.lonMax;
    assert region[i] in region && region[j] in region && region[m] in region && region[n] in region;
  }

  /** The shipped table satisfies the dictionary invariants. */
  lemma TableIsValid()
    ensures ValidTable(Table)
    ensures |Table| == 8
  {
  }

  /** Index of the corridor with the given name, if any. */
  function IndexOf(table: seq<Corridor>, name: string): (r: Option<nat>)
    ensures r.Some? ==> r.value < |table| && table[r.value].name == name
    ensures r.None? <==> forall k :: 0 <= k < |table| ==> table[k].name != name
  {
    if |table| == 0 then None
    else if table[|table| - 1].name == name then Some(|table| - 1)
    else IndexOf(table[..|table| - 1], name)
  }

}
