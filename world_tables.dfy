/**
 * The enumerations and the fixed classification tables of the world:
 * terrain types, biomes, flow directions, the moisture and temperature zone
 * ranges and the (moisture zone, temperature zone) -> biome table.
 */
module WorldTables {

  import opened Results

  datatype Terrain = Ocean | Land | River | Lake | Coast | Mountain

  datatype Biome =
    | NoBiome | Glacial | Tundra | BorealForest | Shrubland | Grassland | Savanna
    | Desert | TemperateForest | TemperateRainforest | TropicalForest | TropicalRainforest

  datatype MoistureZone = Barren | Arid | SemiArid | SemiWet | Wet

  datatype TemperatureZone = Arctic | Subarctic | Temperate | Subtropical | Tropical

  datatype Direction = NoDirection | Up | Down | Left | Right

  /** An end of a zone range: a finite value or one of the two infinities. */
  datatype Bound = NegInfinity | Finite(value: real) | PosInfinity

  predicate AtLeast(v: real, b: Bound) {
    match b
    case NegInfinity => true
    case Finite(s) => v >= s
    case PosInfinity => false
  }

  predicate Below(v: real, b: Bound) {
    match b
    case NegInfinity => false
    case Finite(e) => v < e
    case PosInfinity => true
  }

  /** A half-open range [start, end). */
  datatype Range = Range(start: Bound, end: Bound) {
    predicate Contains(v: real) { AtLeast(v, start) && Below(v, end) }
  }

  /** The moisture zone table, in the order its entries are enumerated. */
  const MoistureZoneRanges: seq<(MoistureZone, Range)> := [
    (Barren, Range(Finite(0.0), Finite(25.0))),
    (Arid, Range(Finite(25.0), Finite(50.0))),
    (SemiArid, Range(Finite(50.0), Finite(100.0))),
    (SemiWet, Range(Finite(100.0), Finite(200.0))),
    (Wet, Range(Finite(200.0), PosInfinity))
  ]

  /** The temperature zone table, in the order its entries are enumerated. */
  const TemperatureZoneRanges: seq<(TemperatureZone, Range)> := [
    (Arctic, Range(NegInfinity, Finite(-10.0))),
    (Subarctic, Range(Finite(-10.0), Finite(2.0))),
    (Temperate, Range(Finite(2.0), Finite(15.0))),
    (Subtropical, Range(Finite(15.0), Finite(20.0))),
    (Tropical, Range(Finite(20.0), PosInfinity))
  ]

  /** Consecutive ranges of a table meet: each entry ends where the next one starts. */
  predicate Contiguous<Z>(table: seq<(Z, Range)>) {
    forall i :: 0 <= i < |table| - 1 ==> table[i].1.end == table[i + 1].1.start
  }

  /** Every range of a table is non-empty: its start lies strictly below its end. */
  predicate Increasing<Z>(table: seq<(Z, Range)>) {
    forall i :: 0 <= i < |table| ==> StartsBelowEnd(table[i].1)
  }

  predicate StartsBelowEnd(r: Range) {
    match (r.start, r.end)
    case (PosInfinity, _) => false
    case (_, NegInfinity) => false
    case (Finite(s), Finite(e)) => s < e
    case _ => true
  }

  /**
   * The zone of `v` as the lookup loop finds it: every entry is tested in
   * order, and the last entry whose range contains `v` is the one kept.
   */
  function LastMatch<Z>(table: seq<(Z, Range)>, v: real): (r: Option<Z>)
    ensures r.Some? <==> exists i :: 0 <= i < |table| && table[i].1.Contains(v)
    ensures r.Some? ==> exists i :: 0 <= i < |table| && table[i].1.Contains(v) && table[i].0 == r.value
  {
    if |table| == 0 then None
    else if table[|table| - 1].1.Contains(v) then Some(table[|table| - 1].0)
    else
      var r := LastMatch(table[..|table| - 1], v);
      assert forall i :: 0 <= i < |table| - 1 ==> table[..|table| - 1][i] == table[i];
      r
  }

  /** The moisture zone of a moisture value, if any range contains it. */
  function MoistureZoneOf(moisture: real): (r: Option<MoistureZone>)
    ensures r == Some(Barren) <==> 0.0 <= moisture < 25.0
    ensures r == Some(Arid) <==> 25.0 <= moisture < 50.0
    ensures r == Some(SemiArid) <==> 50.0 <= moisture < 100.0
    ensures r == Some(SemiWet) <==> 100.0 <= moisture < 200.0
    ensures r == Some(Wet) <==> 200.0 <= moisture
    ensures r.Some? <==> moisture >= 0.0
  {
    var t := MoistureZoneRanges;
    ZoneTablesPartition();
    if moisture < 0.0 then
      BelowFirstStartMatchesNothing(t, moisture);
      LastMatch(t, moisture)
    else
      var i := if moisture < 25.0 then 0 else if moisture < 50.0 then 1
               else if moisture < 100.0 then 2 else if moisture < 200.0 then 3 else 4;
      OnlyMatch(t, moisture, i);
      LastMatch(t, moisture)
  }

  /** The temperature zone of a temperature; every real temperature has one. */
  function TemperatureZoneOf(temperature: real): (r: Option<TemperatureZone>)
    ensures r == Some(Arctic) <==> temperature < -10.0
    ensures r == Some(Subarctic) <==> -10.0 <= temperature < 2.0
    ensures r == Some(Temperate) <==> 2.0 <= temperature < 15.0
    ensures r == Some(Subtropical) <==> 15.0 <= temperature < 20.0
    ensures r == Some(Tropical) <==> 20.0 <= temperature
    ensures r.Some?
  {
    var t := TemperatureZoneRanges;
    ZoneTablesPartition();
    var i := if temperature < -10.0 then 0 else if temperature < 2.0 then 1
             else if temperature < 15.0 then 2 else if temperature < 20.0 then 3 else 4;
    OnlyMatch(t, temperature, i);
    LastMatch(t, temperature)
  }

  /**
   * The moisture table starts at 0, ends at +infinity and its ranges are
   * contiguous and non-empty; so are the temperature table's, between the
   * two infinities.
   */
  lemma ZoneTablesPartition()
    ensures Contiguous(MoistureZoneRanges) && Increasing(MoistureZoneRanges)
    ensures MoistureZoneRanges[0].1.start == Finite(0.0)
    ensures MoistureZoneRanges[|MoistureZoneRanges| - 1].1.end == PosInfinity
    ensures Contiguous(TemperatureZoneRanges) && Increasing(TemperatureZoneRanges)
    ensures TemperatureZoneRanges[0].1.start == NegInfinity
    ensures TemperatureZoneRanges[|TemperatureZoneRanges| - 1].1.end == PosInfinity
  {
  }

  /**
   * In a contiguous table of non-empty ranges, a value contained in one range
   * lies below the start of every later range, so no later range contains it.
   */
  lemma {:induction false} AtMostOneZone<Z>(table: seq<(Z, Range)>, v: real, i: int, j: int)
    requires Contiguous(table) && Increasing(table)
    requires 0 <= i < j < |table|
    requires table[i].1.Contains(v)
    ensures !AtLeast(v, table[j].1.start)
    ensures !table[j].1.Contains(v)
    decreases j - i
  {
    assert table[j - 1].1.end == table[j].1.start;
    if j > i + 1 {
      AtMostOneZone(table, v, i, j - 1);
      assert StartsBelowEnd(table[j - 1].1);
    }
  }

  /** If range `i` contains `v`, the lookup finds exactly the zone of entry `i`. */
  lemma OnlyMatch<Z>(table: seq<(Z, Range)>, v: real, i: int)
    requires Contiguous(table) && Increasing(table)
    requires 0 <= i < |table| && table[i].1.Contains(v)
    ensures LastMatch(table, v) == Some(table[i].0)
  {
    var r := LastMatch(table, v);
    var k :| 0 <= k < |table| && table[k].1.Contains(v) && table[k].0 == r.value;
    if k < i {
      AtMostOneZone(table, v, k, i);
    } else if i < k {
      AtMostOneZone(table, v, i, k);
    }
  }

  /** A value below the start of the first range lies below the start of every range. */
  lemma {:induction false} BelowFirstStart<Z>(table: seq<(Z, Range)>, v: real, j: int)
    requires Contiguous(table) && Increasing(table)
    requires 0 <= j < |table| && !AtLeast(v, table[0].1.start)
    ensures !AtLeast(v, table[j].1.start)
  {
    if j > 0 {
      BelowFirstStart(table, v, j - 1);
      assert table[j - 1].1.end == table[j].1.start;
      assert StartsBelowEnd(table[j - 1].1);
    }
  }

  /** No range contains a value that lies below the start of the first range. */
  lemma BelowFirstStartMatchesNothing<Z>(table: seq<(Z, Range)>, v: real)
    requires Contiguous(table) && Increasing(table)
    requires 0 < |table| && !AtLeast(v, table[0].1.start)
    ensures LastMatch(table, v) == None
  {
    forall j | 0 <= j < |table| ensures !table[j].1.Contains(v) {
      BelowFirstStart(table, v, j);
    }
  }

  /** The biome lookup table; it is total and never yields the WATER-only biome. */
  function BiomeRanges(m: MoistureZone, t: TemperatureZone): (b: Biome)
    ensures b != NoBiome
    ensures t == Arctic ==> b in {Tundra, Glacial}
  {
    match m
    case Barren =>
      (match t
       case Arctic => Tundra
       case Subarctic => Tundra
       case Temperate => Grassland
       case Subtropical => Grassland
       case Tropical => Desert)
    case Arid =>
      (match t
       case Arctic => Tundra
       case Subarctic => Tundra
       case Temperate => Shrubland
       case Subtropical => Savanna
       case Tropical => Desert)
    case SemiArid =>
      (match t
       case Arctic => Glacial
       case Subarctic => BorealForest
       case Temperate => TemperateForest
       case Subtropical => Shrubland
       case Tropical => Savanna)
    case SemiWet =>
      (match t
       case Arctic => Glacial
       case Subarctic => BorealForest
       case Temperate => TemperateForest
       case Subtropical => TemperateForest
       case Tropical => TropicalForest)
    case Wet =>
      (match t
       case Arctic => Glacial
       case Subarctic => BorealForest
       case Temperate => TemperateRainforest
       case Subtropical => TemperateRainforest
       case Tropical => TropicalRainforest)
  }
}
