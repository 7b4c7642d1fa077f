/**
 * decideTerrainTypes and decideMountains: the ocean, lake, coastal and
 * river marks of every cell, the terrain type they decide in a fixed order
 * of precedence, and the mountain overlay above a height threshold.
 */
module TerrainTypes {

  import opened WorldTables
  import opened GridGeometry
  import opened FlowRouting
  import opened OceanFill
  import opened UpstreamCount

  /** `some` over a neighbour list: some listed cell is marked in `a`. */
  function AnyNeighbor(ns: seq<Neighbor>, a: array2<bool>): (r: bool)
    reads a
    requires forall n :: n in ns ==> 0 <= n.x < a.Length0 && 0 <= n.y < a.Length1
    ensures r <==> exists n :: n in ns && a[n.x, n.y]
  {
    if |ns| == 0 then false
    else a[ns[0].x, ns[0].y] || AnyNeighbor(ns[1..], a)
  }

  /**
   * The coastal test of the scan: a cell that is neither ocean nor lake and
   * has an ocean or a lake cell among its neighbours.
   */
  ghost predicate Coastal(isOcean: array2<bool>, isLake: array2<bool>, c: (int, int))
    reads isOcean, isLake
    requires isLake.Length0 == isOcean.Length0 && isLake.Length1 == isOcean.Length1
    requires InGrid(c, isOcean.Length0, isOcean.Length1)
  {
    !isOcean[c.0, c.1] && !isLake[c.0, c.1] &&
    exists n :: n in CellNeighbors(c.0, c.1, isOcean.Length0, isOcean.Length1) && (isOcean[n.x, n.y] || isLake[n.x, n.y])
  }

  /** The test of the scan, with `some` over the neighbour list, is the coastal test. */
  lemma CoastalTest(isOcean: array2<bool>, isLake: array2<bool>, ns: seq<Neighbor>, x: int, y: int)
    requires isLake.Length0 == isOcean.Length0 && isLake.Length1 == isOcean.Length1
    requires 0 <= x < isOcean.Length0 && 0 <= y < isOcean.Length1
    requires ns == CellNeighbors(x, y, isOcean.Length0, isOcean.Length1)
    ensures (!isOcean[x, y] && !isLake[x, y] && (AnyNeighbor(ns, isOcean) || AnyNeighbor(ns, isLake)))
            <==> Coastal(isOcean, isLake, (x, y))
  {
  }

  /**
   * The coastal scan of decideTerrainTypes: column by column, the coastal
   * cells of the grid, each once, in scan order.
   */
  method FindCoastalCells(isOcean: array2<bool>, isLake: array2<bool>, cellNeighbors: array2<seq<Neighbor>>)
    returns (coastal: seq<(int, int)>)
    requires isLake.Length0 == isOcean.Length0 && isLake.Length1 == isOcean.Length1
    requires cellNeighbors.Length0 == isOcean.Length0 && cellNeighbors.Length1 == isOcean.Length1
    requires forall x, y :: 0 <= x < isOcean.Length0 && 0 <= y < isOcean.Length1 ==>
      cellNeighbors[x, y] == CellNeighbors(x, y, isOcean.Length0, isOcean.Length1)
    ensures forall c :: c in coastal <==> InGrid(c, isOcean.Length0, isOcean.Length1) && Coastal(isOcean, isLake, c)
    ensures InScanOrder(coastal)
  {
    var width, height := isOcean.Length0, isOcean.Length1;
    ghost var coast := CoastalSet(isOcean, isLake);
    coastal := [];
    for x := 0 to width
      invariant forall c :: c in coastal <==> c in coast && c.0 < x
      invariant InScanOrder(coastal)
    {
      for y := 0 to height
        invariant forall c :: c in coastal <==> c in coast && (c.0 < x || (c.0 == x && c.1 < y))
        invariant InScanOrder(coastal)
        invariant forall c :: c in coastal ==> ScanBefore(c, (x, y))
      {
        coastal := ScanCell(isOcean, isLake, cellNeighbors, x, y, coastal, coast);
      }
    }
  }

  /** One step of the coastal scan: the cell (x, y) is listed when it is coastal. */
  method ScanCell(isOcean: array2<bool>, isLake: array2<bool>, cellNeighbors: array2<seq<Neighbor>>, x: int, y: int,
                  coastal: seq<(int, int)>, ghost coast: set<(int, int)>)
    returns (coastal': seq<(int, int)>)
    requires isLake.Length0 == isOcean.Length0 && isLake.Length1 == isOcean.Length1
    requires cellNeighbors.Length0 == isOcean.Length0 && cellNeighbors.Length1 == isOcean.Length1
    requires 0 <= x < isOcean.Length0 && 0 <= y < isOcean.Length1
    requires cellNeighbors[x, y] == CellNeighbors(x, y, isOcean.Length0, isOcean.Length1)
    requires (x, y) in coast <==> Coastal(isOcean, isLake, (x, y))
    requires forall c :: c in coastal <==> c in coast && (c.0 < x || (c.0 == x && c.1 < y))
    requires InScanOrder(coastal) && forall c :: c in coastal ==> ScanBefore(c, (x, y))
    ensures forall c :: c in coastal' <==> c in coast && (c.0 < x || (c.0 == x && c.1 < y + 1))
    ensures InScanOrder(coastal') && forall c :: c in coastal' ==> ScanBefore(c, (x, y + 1))
  {
    var ns := cellNeighbors[x, y];
    var isCoastal := !isOcean[x, y] && !isLake[x, y] && (AnyNeighbor(ns, isOcean) || AnyNeighbor(ns, isLake));
    CoastalTest(isOcean, isLake, ns, x, y);
    if isCoastal {
      coastal' := coastal + [(x, y)];
    } else {
      coastal' := coastal;
    }
  }

  /** The coastal cells of the grid. */
  ghost function CoastalSet(isOcean: array2<bool>, isLake: array2<bool>): (r: set<(int, int)>)
    reads isOcean, isLake
    requires isLake.Length0 == isOcean.Length0 && isLake.Length1 == isOcean.Length1
    ensures forall c :: c in r <==> InGrid(c, isOcean.Length0, isOcean.Length1) && Coastal(isOcean, isLake, c)
  {
    set x, y | 0 <= x < isOcean.Length0 && 0 <= y < isOcean.Length1 && Coastal(isOcean, isLake, (x, y)) :: (x, y)
  }

  /**
   * The river marks of decideTerrainTypes: a cell is a river when its
   * upstream count exceeds the threshold (the 90% quantile of the positive
   * counts, which is not part of this model).
   */
  method MarkRivers(upstream: array2<int>, riverThreshold: real) returns (isRiver: array2<bool>)
    ensures fresh(isRiver) && isRiver.Length0 == upstream.Length0 && isRiver.Length1 == upstream.Length1
    ensures forall x, y :: 0 <= x < upstream.Length0 && 0 <= y < upstream.Length1 ==>
      (isRiver[x, y] <==> upstream[x, y] as real > riverThreshold)
  {
    var width, height := upstream.Length0, upstream.Length1;
    isRiver := new bool[width, height]((i, j) => false);
    for x := 0 to width
      invariant forall i, j :: 0 <= i < width && 0 <= j < height ==>
        (isRiver[i, j] <==> i < x && upstream[i, j] as real > riverThreshold)
    {
      for y := 0 to height
        invariant forall i, j :: 0 <= i < width && 0 <= j < height ==>
          (isRiver[i, j] <==> (i < x || (i == x && j < y)) && upstream[i, j] as real > riverThreshold)
      {
        if upstream[x, y] as real > riverThreshold {
          isRiver[x, y] := true;
        }
      }
    }
  }

  /**
   * The terrain type of one cell, by precedence: an ocean cell is coast when
   * its water is less than 10 deep and ocean otherwise; then lake; then
   * river; then land.
   */
  function Classify(ocean: bool, waterDepth: int, lake: bool, river: bool): Terrain {
    if ocean then (if waterDepth < 10 then Coast else Ocean)
    else if lake then Lake
    else if river then River
    else Land
  }

  /**
   * The precedence, stated type by type: oceanic exactly for ocean cells,
   * split by depth; lake for the lakes among the rest; river for the rivers
   * among what remains; land for everything else; never mountain.
   */
  lemma ClassifyPrecedence(ocean: bool, waterDepth: int, lake: bool, river: bool)
    ensures IsOceanic(Classify(ocean, waterDepth, lake, river)) <==> ocean
    ensures Classify(ocean, waterDepth, lake, river) == Coast <==> ocean && waterDepth < 10
    ensures Classify(ocean, waterDepth, lake, river) == Lake <==> !ocean && lake
    ensures Classify(ocean, waterDepth, lake, river) == River <==> !ocean && !lake && river
    ensures Classify(ocean, waterDepth, lake, river) == Land <==> !ocean && !lake && !river
    ensures Classify(ocean, waterDepth, lake, river) != Mountain
  {
  }

  /** A lake cell: the filled water stands above the ground. */
  predicate IsLake(heightmap: array2<byte>, waterheight: array2<byte>, c: (int, int))
    reads heightmap, waterheight
    requires InGrid(c, heightmap.Length0, heightmap.Length1)
    requires waterheight.Length0 == heightmap.Length0 && waterheight.Length1 == heightmap.Length1
  {
    waterheight[c.0, c.1] > heightmap[c.0, c.1]
  }

  /**
   * A coastal cell, in terms of the inputs: neither ocean nor lake, with an
   * ocean or a lake cell among its neighbours.
   */
  ghost predicate CoastalCell(heightmap: array2<byte>, waterheight: array2<byte>, sealevel: int, c: (int, int))
    reads heightmap, waterheight
    requires InGrid(c, heightmap.Length0, heightmap.Length1)
    requires waterheight.Length0 == heightmap.Length0 && waterheight.Length1 == heightmap.Length1
  {
    !SeaConnected(heightmap, sealevel, c) && !IsLake(heightmap, waterheight, c) &&
    exists n :: n in CellNeighbors(c.0, c.1, heightmap.Length0, heightmap.Length1) &&
      (SeaConnected(heightmap, sealevel, (n.x, n.y)) || IsLake(heightmap, waterheight, (n.x, n.y)))
  }

  /** The arrays' coastal test is the coastal test of the inputs. */
  lemma CoastalOfMarks(heightmap: array2<byte>, waterheight: array2<byte>, sealevel: int,
                       isOcean: array2<bool>, isLake: array2<bool>, c: (int, int))
    requires waterheight.Length0 == heightmap.Length0 && waterheight.Length1 == heightmap.Length1
    requires isOcean.Length0 == heightmap.Length0 && isOcean.Length1 == heightmap.Length1
    requires isLake.Length0 == heightmap.Length0 && isLake.Length1 == heightmap.Length1
    requires forall x, y :: 0 <= x < heightmap.Length0 && 0 <= y < heightmap.Length1 ==>
      (isOcean[x, y] <==> SeaConnected(heightmap, sealevel, (x, y))) && (isLake[x, y] <==> IsLake(heightmap, waterheight, (x, y)))
    requires InGrid(c, heightmap.Length0, heightmap.Length1)
    ensures Coastal(isOcean, isLake, c) <==> CoastalCell(heightmap, waterheight, sealevel, c)
  {
    var ns := CellNeighbors(c.0, c.1, heightmap.Length0, heightmap.Length1);
    assert forall n :: n in ns ==> OnGrid(n, heightmap.Length0, heightmap.Length1);
  }

  /** The input arrays of decideTerrainTypes share one grid, with its neighbour table. */
  ghost predicate TerrainInputs(heightmap: array2<byte>, waterheight: array2<byte>, flow: array2<Direction>,
                                cellNeighbors: array2<seq<Neighbor>>)
    reads flow, cellNeighbors
  {
    0 < heightmap.Length0 && 0 < heightmap.Length1 &&
    waterheight.Length0 == heightmap.Length0 && waterheight.Length1 == heightmap.Length1 &&
    flow.Length0 == heightmap.Length0 && flow.Length1 == heightmap.Length1 &&
    cellNeighbors.Length0 == heightmap.Length0 && cellNeighbors.Length1 == heightmap.Length1 &&
    (forall x, y :: 0 <= x < heightmap.Length0 && 0 <= y < heightmap.Length1 ==>
       cellNeighbors[x, y] == CellNeighbors(x, y, heightmap.Length0, heightmap.Length1)) &&
    forall x, y :: 0 <= x < heightmap.Length0 && 0 <= y < heightmap.Length1 ==>
      FlowsOff(flow, x, y, heightmap.Length0 * heightmap.Length1)
  }

  /**
   * decideTerrainTypes: ocean by flood fill from (0, 0), lakes where water
   * stands above the ground, the coastal cells by a scan, the upstream
   * counts from every coastal cell, rivers above the threshold, and the
   * terrain type of every cell by precedence.
   */
  method DecideTerrainTypes(sealevel: int, heightmap: array2<byte>, waterheight: array2<byte>, flow: array2<Direction>,
                            cellNeighbors: array2<seq<Neighbor>>, riverThreshold: real)
    returns (terrainTypes: array2<Terrain>, upstream: array2<int>, ghost coastal: seq<(int, int)>)
    requires TerrainInputs(heightmap, waterheight, flow, cellNeighbors)
    ensures fresh(terrainTypes) && fresh(upstream)
    ensures terrainTypes.Length0 == heightmap.Length0 && terrainTypes.Length1 == heightmap.Length1
    ensures forall c :: c in coastal <==>
      InGrid(c, heightmap.Length0, heightmap.Length1) && CoastalCell(heightmap, waterheight, sealevel, c)
    ensures InScanOrder(coastal) && AllInGrid(Grid(flow), coastal) && Drains(Grid(flow))
    ensures AccumulatedIn(Grid(flow), upstream, coastal, |coastal|)
    ensures forall x, y :: 0 <= x < heightmap.Length0 && 0 <= y < heightmap.Length1 ==>
      terrainTypes[x, y] == Classify(SeaConnected(heightmap, sealevel, (x, y)), sealevel - waterheight[x, y] as int,
                                     IsLake(heightmap, waterheight, (x, y)), upstream[x, y] as real > riverThreshold)
  {
    var isOcean, isLake, coastalCells := MarkWater(sealevel, heightmap, waterheight, cellNeighbors);
    coastal := coastalCells;
    ghost var g := Grid(flow);
    DrainsOf(flow, g);
    upstream := AccumulateUpstream(flow, cellNeighbors, coastalCells, g);
    var isRiver := MarkRivers(upstream, riverThreshold);
    terrainTypes := FillTerrain(sealevel, waterheight, isOcean, isLake, isRiver);
  }

  /**
   * The first half of decideTerrainTypes: the ocean fill, the lake marks
   * and the coastal scan.
   */
  method MarkWater(sealevel: int, heightmap: array2<byte>, waterheight: array2<byte>, cellNeighbors: array2<seq<Neighbor>>)
    returns (isOcean: array2<bool>, isLake: array2<bool>, coastal: seq<(int, int)>)
    requires 0 < heightmap.Length0 && 0 < heightmap.Length1
    requires waterheight.Length0 == heightmap.Length0 && waterheight.Length1 == heightmap.Length1
    requires cellNeighbors.Length0 == heightmap.Length0 && cellNeighbors.Length1 == heightmap.Length1
    requires forall x, y :: 0 <= x < heightmap.Length0 && 0 <= y < heightmap.Length1 ==>
      cellNeighbors[x, y] == CellNeighbors(x, y, heightmap.Length0, heightmap.Length1)
    ensures fresh(isOcean) && fresh(isLake)
    ensures isOcean.Length0 == heightmap.Length0 && isOcean.Length1 == heightmap.Length1
    ensures isLake.Length0 == heightmap.Length0 && isLake.Length1 == heightmap.Length1
    ensures forall x, y :: 0 <= x < heightmap.Length0 && 0 <= y < heightmap.Length1 ==>
      (isOcean[x, y] <==> SeaConnected(heightmap, sealevel, (x, y))) && (isLake[x, y] <==> IsLake(heightmap, waterheight, (x, y)))
    ensures forall c :: c in coastal <==>
      InGrid(c, heightmap.Length0, heightmap.Length1) && CoastalCell(heightmap, waterheight, sealevel, c)
    ensures InScanOrder(coastal)
  {
    isOcean := FillOcean(heightmap, sealevel, cellNeighbors);
    isLake := MarkLakes(heightmap, waterheight);
    coastal := FindCoastalCells(isOcean, isLake, cellNeighbors);
    forall c | InGrid(c, heightmap.Length0, heightmap.Length1)
      ensures Coastal(isOcean, isLake, c) <==> CoastalCell(heightmap, waterheight, sealevel, c)
    {
      CoastalOfMarks(heightmap, waterheight, sealevel, isOcean, isLake, c);
    }
  }

  /** The lake marks of decideTerrainTypes: water stands above the ground. */
  method MarkLakes(heightmap: array2<byte>, waterheight: array2<byte>) returns (isLake: array2<bool>)
    requires waterheight.Length0 == heightmap.Length0 && waterheight.Length1 == heightmap.Length1
    ensures fresh(isLake) && isLake.Length0 == heightmap.Length0 && isLake.Length1 == heightmap.Length1
    ensures forall x, y :: 0 <= x < heightmap.Length0 && 0 <= y < heightmap.Length1 ==>
      (isLake[x, y] <==> IsLake(heightmap, waterheight, (x, y)))
  {
    var width, height := heightmap.Length0, heightmap.Length1;
    isLake := new bool[width, height];
    for x := 0 to width
      invariant forall i, j :: 0 <= i < x && 0 <= j < height ==> (isLake[i, j] <==> IsLake(heightmap, waterheight, (i, j)))
    {
      for y := 0 to height
        invariant forall i, j :: 0 <= i < width && 0 <= j < height && (i < x || (i == x && j < y)) ==>
          (isLake[i, j] <==> IsLake(heightmap, waterheight, (i, j)))
      {
        isLake[x, y] := waterheight[x, y] > heightmap[x, y];
      }
    }
  }

  /** The terrain fill of decideTerrainTypes: every cell typed by precedence from its marks. */
  method FillTerrain(sealevel: int, waterheight: array2<byte>, isOcean: array2<bool>, isLake: array2<bool>,
                     isRiver: array2<bool>)
    returns (terrainTypes: array2<Terrain>)
    requires isOcean.Length0 == waterheight.Length0 && isOcean.Length1 == waterheight.Length1
    requires isLake.Length0 == waterheight.Length0 && isLake.Length1 == waterheight.Length1
    requires isRiver.Length0 == waterheight.Length0 && isRiver.Length1 == waterheight.Length1
    ensures fresh(terrainTypes) && terrainTypes.Length0 == waterheight.Length0 && terrainTypes.Length1 == waterheight.Length1
    ensures forall x, y :: 0 <= x < waterheight.Length0 && 0 <= y < waterheight.Length1 ==>
      terrainTypes[x, y] == Classify(isOcean[x, y], sealevel - waterheight[x, y] as int, isLake[x, y], isRiver[x, y])
  {
    var width, height := waterheight.Length0, waterheight.Length1;
    terrainTypes := new Terrain[width, height];
    for x := 0 to width
      invariant forall i, j :: 0 <= i < x && 0 <= j < height ==>
        terrainTypes[i, j] == Classify(isOcean[i, j], sealevel - waterheight[i, j] as int, isLake[i, j], isRiver[i, j])
    {
      for y := 0 to height
        invariant forall i, j :: 0 <= i < width && 0 <= j < height && (i < x || (i == x && j < y)) ==>
          terrainTypes[i, j] == Classify(isOcean[i, j], sealevel - waterheight[i, j] as int, isLake[i, j], isRiver[i, j])
      {
        terrainTypes[x, y] := Classify(isOcean[x, y], sealevel - waterheight[x, y] as int, isLake[x, y], isRiver[x, y]);
      }
    }
  }

  /**
   * decideMountains: every cell whose altitude above sea level reaches the
   * threshold (the 99% quantile of the altitudes, which is not part of this
   * model) becomes a mountain; every other cell keeps its type.
   */
  method DecideMountains(terrainTypes: array2<Terrain>, waterheight: array2<byte>, sealevel: int, mountainThreshold: real)
    modifies terrainTypes
    requires waterheight.Length0 == terrainTypes.Length0 && waterheight.Length1 == terrainTypes.Length1
    ensures forall x, y :: 0 <= x < terrainTypes.Length0 && 0 <= y < terrainTypes.Length1 ==>
      terrainTypes[x, y] == if (waterheight[x, y] as int - sealevel) as real >= mountainThreshold then Mountain
                            else old(terrainTypes[x, y])
  {
    var width, height := terrainTypes.Length0, terrainTypes.Length1;
    for x := 0 to width
      invariant forall i, j :: 0 <= i < width && 0 <= j < height ==>
        terrainTypes[i, j] == if i < x && (waterheight[i, j] as int - sealevel) as real >= mountainThreshold then Mountain
                              else old(terrainTypes[i, j])
    {
      for y := 0 to height
        invariant forall i, j :: 0 <= i < width && 0 <= j < height ==>
          terrainTypes[i, j] ==
            if (i < x || (i == x && j < y)) && (waterheight[i, j] as int - sealevel) as real >= mountainThreshold then Mountain
            else old(terrainTypes[i, j])
      {
        var altitude := waterheight[x, y] as int - sealevel;
        if altitude as real >= mountainThreshold {
          terrainTypes[x, y] := Mountain;
        }
      }
    }
  }
}
