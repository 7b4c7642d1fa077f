/**
 * generateBiomes: every water cell (open sea, coastal water, lake) gets no
 * biome; every other cell gets the biome the (moisture zone, temperature
 * zone) table gives, where the moisture is a tenth of the stored value. The
 * lookup throws when no zone holds the value, which ends the whole pass.
 * Also the last pass of generateMoisture, which dries every oceanic cell.
 */
module Biomes {

  import opened Results
  import opened WorldTables
  import opened GridGeometry

  /** What generateBiomes throws: no zone range holds the moisture, or the temperature. */
  datatype BiomeError = NoMoistureZone(moisture: real) | NoTemperatureZone(temperature: real)

  /** The terrain types that get no biome: open sea, coastal water and lakes. */
  predicate IsWater(t: Terrain) {
    t == Ocean || t == Coast || t == Lake
  }

  /** The moisture the zone lookup uses: the stored value divided by 10. */
  function Moisture(stored: int): (r: real)
    ensures r * 10.0 == stored as real
    ensures r >= 0.0 <==> stored >= 0
  {
    stored as real / 10.0
  }

  /**
   * The per-cell lookup of generateBiomes. A water cell has no biome; any
   * other cell has a biome exactly when its moisture is not negative, and
   * that biome is never the no-biome value; a failure names the moisture
   * that no zone holds (every temperature has a zone).
   */
  function CellBiome(terrain: Terrain, stored: int, temperature: int): (r: Result<Biome, BiomeError>)
    ensures IsWater(terrain) ==> r == Success(NoBiome)
    ensures !IsWater(terrain) ==> (r.Success? <==> stored >= 0)
    ensures r.Success? ==> (r.value == NoBiome <==> IsWater(terrain))
    ensures r.Failure? ==> r.error == NoMoistureZone(Moisture(stored))
  {
    if IsWater(terrain) then Success(NoBiome)
    else
      var moisture := Moisture(stored);
      match (MoistureZoneOf(moisture), TemperatureZoneOf(temperature as real))
      case (None, _) => Failure(NoMoistureZone(moisture))
      case (_, None) => Failure(NoTemperatureZone(temperature as real))
      case (Some(m), Some(t)) => Success(BiomeRanges(m, t))
  }

  /**
   * A land cell below -10 degrees is tundra or glacial; a land cell with a
   * stored moisture of 2000 or more (a moisture of 200, the wet zone) at 20
   * degrees or more is tropical rainforest.
   */
  lemma CellBiomeExtremes(terrain: Terrain, stored: int, temperature: int)
    requires !IsWater(terrain) && stored >= 0
    ensures temperature < -10 ==> CellBiome(terrain, stored, temperature).value in {Tundra, Glacial}
    ensures stored >= 2000 && temperature >= 20 ==> CellBiome(terrain, stored, temperature) == Success(TropicalRainforest)
  {
    if stored >= 2000 && temperature >= 20 {
      assert MoistureZoneOf(Moisture(stored)) == Some(Wet);
      assert TemperatureZoneOf(temperature as real) == Some(Tropical);
    }
  }

  /** Every cell before (x, y) in scan order has a biome, and `biomes` holds it. */
  ghost predicate FilledBefore(biomes: array2<Biome>, temperatures: array2<int>, moistureMap: array2<int>,
                               terrainTypes: array2<Terrain>, x: int, y: int)
    reads biomes, temperatures, moistureMap, terrainTypes
    requires SameShape(biomes, temperatures, moistureMap, terrainTypes)
  {
    forall i, j :: 0 <= i < biomes.Length0 && 0 <= j < biomes.Length1 && ScanBefore((i, j), (x, y)) ==>
      CellBiome(terrainTypes[i, j], moistureMap[i, j], temperatures[i, j]) == Success(biomes[i, j])
  }

  /** Every lookup before (x, y) in scan order succeeds. */
  ghost predicate SucceedBefore(temperatures: array2<int>, moistureMap: array2<int>, terrainTypes: array2<Terrain>, x: int, y: int)
    reads temperatures, moistureMap, terrainTypes
    requires moistureMap.Length0 == terrainTypes.Length0 == temperatures.Length0
    requires moistureMap.Length1 == terrainTypes.Length1 == temperatures.Length1
  {
    forall i, j :: 0 <= i < terrainTypes.Length0 && 0 <= j < terrainTypes.Length1 && ScanBefore((i, j), (x, y)) ==>
      CellBiome(terrainTypes[i, j], moistureMap[i, j], temperatures[i, j]).Success?
  }

  /** The four buffers have the same width and height. */
  predicate SameShape(biomes: array2<Biome>, temperatures: array2<int>, moistureMap: array2<int>, terrainTypes: array2<Terrain>) {
    biomes.Length0 == temperatures.Length0 == moistureMap.Length0 == terrainTypes.Length0 &&
    biomes.Length1 == temperatures.Length1 == moistureMap.Length1 == terrainTypes.Length1
  }

  /**
   * generateBiomes: the biome buffer is filled in scan order. It succeeds
   * exactly when every cell's lookup does, and then holds every cell's
   * biome; otherwise it fails with the error of a cell whose lookup fails
   * and after every cell before it succeeded.
   */
  method GenerateBiomes(temperatures: array2<int>, moistureMap: array2<int>, terrainTypes: array2<Terrain>)
    returns (r: Result<array2<Biome>, BiomeError>)
    requires moistureMap.Length0 == terrainTypes.Length0 == temperatures.Length0
    requires moistureMap.Length1 == terrainTypes.Length1 == temperatures.Length1
    ensures r.Success? ==>
      fresh(r.value) && SameShape(r.value, temperatures, moistureMap, terrainTypes) &&
      forall x, y :: 0 <= x < r.value.Length0 && 0 <= y < r.value.Length1 ==>
        CellBiome(terrainTypes[x, y], moistureMap[x, y], temperatures[x, y]) == Success(r.value[x, y])
    ensures r.Failure? ==>
      exists x, y :: 0 <= x < terrainTypes.Length0 && 0 <= y < terrainTypes.Length1 &&
        CellBiome(terrainTypes[x, y], moistureMap[x, y], temperatures[x, y]) == Failure(r.error) &&
        SucceedBefore(temperatures, moistureMap, terrainTypes, x, y)
  {
    var biomes := new Biome[terrainTypes.Length0, terrainTypes.Length1]((i, j) => NoBiome);
    for x := 0 to terrainTypes.Length0
      invariant FilledBefore(biomes, temperatures, moistureMap, terrainTypes, x, 0)
    {
      var failure := FillBiomeColumn(biomes, temperatures, moistureMap, terrainTypes, x);
      if failure.Some? {
        return Failure(failure.value);
      }
    }
    forall x, y | 0 <= x < biomes.Length0 && 0 <= y < biomes.Length1
      ensures CellBiome(terrainTypes[x, y], moistureMap[x, y], temperatures[x, y]) == Success(biomes[x, y])
    {
      assert ScanBefore((x, y), (biomes.Length0, 0));
    }
    return Success(biomes);
  }

  /**
   * The cells of column x, from top to bottom: each gets its biome, until
   * a lookup fails; the failure is returned with the cells before it
   * filled.
   */
  method FillBiomeColumn(biomes: array2<Biome>, temperatures: array2<int>, moistureMap: array2<int>,
                         terrainTypes: array2<Terrain>, x: int)
    returns (failure: Option<BiomeError>)
    modifies biomes
    requires SameShape(biomes, temperatures, moistureMap, terrainTypes) && 0 <= x < biomes.Length0
    requires FilledBefore(biomes, temperatures, moistureMap, terrainTypes, x, 0)
    ensures failure.None? ==> FilledBefore(biomes, temperatures, moistureMap, terrainTypes, x + 1, 0)
    ensures failure.Some? ==>
      exists y :: 0 <= y < biomes.Length1 &&
        CellBiome(terrainTypes[x, y], moistureMap[x, y], temperatures[x, y]) == Failure(failure.value) &&
        SucceedBefore(temperatures, moistureMap, terrainTypes, x, y)
  {
    for y := 0 to biomes.Length1
      invariant FilledBefore(biomes, temperatures, moistureMap, terrainTypes, x, y)
    {
      var r := CellBiome(terrainTypes[x, y], moistureMap[x, y], temperatures[x, y]);
      if r.Failure? {
        return Some(r.error);
      }
      biomes[x, y] := r.value;
    }
    return None;
  }

  /**
   * The last pass of generateMoisture: every oceanic cell ends with
   * moisture 0, every other cell keeps its moisture.
   */
  method DryOceanicCells(moistureMap: array2<int>, terrainTypes: array2<Terrain>)
    modifies moistureMap
    requires moistureMap.Length0 == terrainTypes.Length0 && moistureMap.Length1 == terrainTypes.Length1
    ensures forall x, y :: 0 <= x < moistureMap.Length0 && 0 <= y < moistureMap.Length1 ==>
      moistureMap[x, y] == if IsOceanic(terrainTypes[x, y]) then 0 else old(moistureMap[x, y])
  {
    for x := 0 to moistureMap.Length0
      invariant forall i, j :: 0 <= i < moistureMap.Length0 && 0 <= j < moistureMap.Length1 ==>
        moistureMap[i, j] == if i < x && IsOceanic(terrainTypes[i, j]) then 0 else old(moistureMap[i, j])
    {
      for y := 0 to moistureMap.Length1
        invariant forall i, j :: 0 <= i < moistureMap.Length0 && 0 <= j < moistureMap.Length1 ==>
          moistureMap[i, j] == if ScanBefore((i, j), (x, y)) && IsOceanic(terrainTypes[i, j]) then 0 else old(moistureMap[i, j])
      {
        if IsOceanic(terrainTypes[x, y]) {
          moistureMap[x, y] := 0;
        }
      }
    }
  }
}
