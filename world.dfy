/**
 * The World rebuilt from the worker's flat buffers: a width x height grid
 * of Cell objects, the cells in insertion order, the drainage basins that
 * point their member cells back at themselves, the per-biome counts, and
 * the bounds-checked cell lookup.
 */
module WorldModel {

  import opened Results
  import opened WorldTables
  import opened GridGeometry
  import opened DrainageBasins

  /** A cell of the world: its buffer values, and the drainage basin it was put in, if any. */
  class Cell {
    const x: int
    const y: int
    const height: int
    const terrainType: Terrain
    const isLand: bool
    const flowDir: Direction
    const temperature: int
    const upstreamCount: int
    const moisture: int
    const biome: Biome
    var drainageBasin: Option<DrainageBasin>

    /** A cell is land exactly when its terrain is continental: neither open sea nor coastal water. */
    constructor (x: int, y: int, height: int, terrainType: Terrain, flowDir: Direction,
                 temperature: int, upstreamCount: int, moisture: int, biome: Biome)
      ensures this.x == x && this.y == y && this.height == height && this.terrainType == terrainType
      ensures this.flowDir == flowDir && this.temperature == temperature && this.upstreamCount == upstreamCount
      ensures this.moisture == moisture && this.biome == biome
      ensures isLand <==> IsContinental(terrainType)
      ensures drainageBasin == None
    {
      this.x, this.y, this.height, this.terrainType := x, y, height, terrainType;
      this.isLand := terrainType != Ocean && terrainType != Coast;
      this.flowDir, this.temperature, this.upstreamCount := flowDir, temperature, upstreamCount;
      this.moisture, this.biome := moisture, biome;
      this.drainageBasin := None;
    }
  }

  /** A drainage basin of the world: its number, its colour and its cells. */
  class DrainageBasin {
    const id: int
    const color: int
    const cells: seq<Cell>

    /** Building a basin points every one of its cells at it. */
    constructor (id: int, color: int, cells: seq<Cell>)
      modifies set c | c in cells
      ensures this.id == id && this.color == color && this.cells == cells
      ensures forall c :: c in cells ==> c.drainageBasin == Some(this)
    {
      this.id, this.color, this.cells := id, color, cells;
      new;
      for k := 0 to |cells|
        invariant forall i :: 0 <= i < k ==> cells[i].drainageBasin == Some(this)
      {
        cells[k].drainageBasin := Some(this);
      }
    }
  }

  /**
   * What the worker posts: the grid size, the sea level, one flat buffer per
   * layer, each holding the value of cell (x, y) at x * height + y, and
   * the drainage basins as (number, record) entries in enumeration order.
   */
  datatype WorkerOutput = WorkerOutput(
    width: nat, height: nat, sealevel: int,
    heightmap: seq<int>, terrainTypes: seq<Terrain>, flowDirections: seq<Direction>, temperatures: seq<int>,
    upstreamCells: seq<int>, moistureMap: seq<int>, biomes: seq<Biome>,
    drainageBasins: seq<(nat, BasinRecord)>)

  /**
   * Every buffer holds width * height values, and every basin cell lies on
   * the grid (a cell off the grid would be looked up as undefined).
   */
  predicate WellFormed(p: WorkerOutput) {
    var n := p.width * p.height;
    |p.heightmap| == n && |p.terrainTypes| == n && |p.flowDirections| == n && |p.temperatures| == n &&
    |p.upstreamCells| == n && |p.moistureMap| == n && |p.biomes| == n &&
    forall k, i :: 0 <= k < |p.drainageBasins| && 0 <= i < |p.drainageBasins[k].1.cells| ==>
      InGrid(p.drainageBasins[k].1.cells[i], p.width, p.height)
  }

  /** The position of cell (x, y) in the flat buffers. */
  function Index(x: int, y: int, height: int): int {
    x * height + y
  }

  /** Cells are laid out column by column: every cell of the grid has its own position in 0 .. width * height. */
  lemma IndexInRange(x: int, y: int, width: int, height: int)
    requires IsValidCell(x, y, width, height)
    ensures 0 <= Index(x, y, height) < width * height
  {
    assert x * height + y < (x + 1) * height <= width * height;
  }

  /** The cell object at grid position (x, y) carries the buffer values at Index(x, y). */
  ghost predicate Rehydrated(p: WorkerOutput, c: Cell, x: int, y: int)
    requires WellFormed(p) && IsValidCell(x, y, p.width, p.height)
  {
    IndexInRange(x, y, p.width, p.height);
    var k := Index(x, y, p.height);
    c.x == x && c.y == y && c.height == p.heightmap[k] && c.terrainType == p.terrainTypes[k] &&
    c.flowDir == p.flowDirections[k] && c.temperature == p.temperatures[k] &&
    c.upstreamCount == p.upstreamCells[k] && c.moisture == p.moistureMap[k] && c.biome == p.biomes[k] &&
    (c.isLand <==> IsContinental(c.terrainType))
  }

  /**
   * The index of the last basin entry that lists cell c: the basin a cell
   * ends up pointing at when it is listed more than once.
   */
  function Owner(entries: seq<(nat, BasinRecord)>, c: (int, int)): (r: Option<nat>)
    ensures r.Some? ==> r.value < |entries| && c in entries[r.value].1.cells
    ensures r.Some? ==> forall k :: r.value < k < |entries| ==> c !in entries[k].1.cells
    ensures r.None? <==> forall k :: 0 <= k < |entries| ==> c !in entries[k].1.cells
  {
    if |entries| == 0 then None
    else if c in entries[|entries| - 1].1.cells then Some(|entries| - 1)
    else
      var r := Owner(entries[..|entries| - 1], c);
      assert forall k :: 0 <= k < |entries| - 1 ==> entries[..|entries| - 1][k] == entries[k];
      r
  }

  /** When no two entries share a cell, a cell listed by entry k is owned by entry k. */
  lemma {:induction false} OwnerOfDisjoint(entries: seq<(nat, BasinRecord)>, k: int, c: (int, int))
    requires forall i, j, d :: 0 <= i < j < |entries| && d in entries[i].1.cells ==> d !in entries[j].1.cells
    requires 0 <= k < |entries| && c in entries[k].1.cells
    ensures Owner(entries, c) == Some(k)
  {
    var r := Owner(entries, c);
    assert c in entries[r.value].1.cells;
  }

  /** The world, built once from the worker's output and never changed afterwards. */
  class World {
    const width: nat
    const height: nat
    const sealevel: int
    const grid: seq<seq<Cell>>
    /** The cells of the world as a set that remembers insertion order. */
    const cells: seq<Cell>
    const drainageBasins: seq<DrainageBasin>
    const biomeCounts: map<Biome, nat>
    const landCount: nat

    /**
     * The grid has width columns of height cells; cell (x, y) knows its
     * coordinates; `cells` lists every grid cell once, column by column.
     */
    ghost predicate Valid() {
      |grid| == width && (forall x :: 0 <= x < width ==> |grid[x]| == height) &&
      (forall x, y :: 0 <= x < width && 0 <= y < height ==> grid[x][y].x == x && grid[x][y].y == y) &&
      |cells| == width * height &&
      (forall x, y :: 0 <= x < width && 0 <= y < height ==> 0 <= Index(x, y, height) < |cells| && cells[Index(x, y, height)] == grid[x][y]) &&
      (forall i, j :: 0 <= i < j < |cells| ==> cells[i] != cells[j])
    }

    /**
     * Rebuilds the world: every grid cell carries the buffer values of its
     * position, every basin holds the grid cells of its coordinates, every
     * cell points at the last basin that lists it (none if no basin does),
     * and the biome counts are those of the cells.
     */
    constructor (p: WorkerOutput)
      requires WellFormed(p)
      ensures Valid() && width == p.width && height == p.height && sealevel == p.sealevel
      ensures forall x, y :: 0 <= x < width && 0 <= y < height ==> Rehydrated(p, grid[x][y], x, y)
      ensures |drainageBasins| == |p.drainageBasins|
      ensures forall k :: 0 <= k < |drainageBasins| ==>
        drainageBasins[k].id == p.drainageBasins[k].0 && drainageBasins[k].color == p.drainageBasins[k].1.color &&
        drainageBasins[k].cells == CellsAt(grid, p.drainageBasins[k].1.cells, width, height)
      ensures forall x, y :: 0 <= x < width && 0 <= y < height ==>
        grid[x][y].drainageBasin == if Owner(p.drainageBasins, (x, y)).Some? then Some(drainageBasins[Owner(p.drainageBasins, (x, y)).value]) else None
      ensures landCount == LandCount(BiomesOf(cells))
      ensures forall b :: b in biomeCounts <==> b != NoBiome && Count(BiomesOf(cells), b) > 0
      ensures forall b :: b in biomeCounts ==> biomeCounts[b] == Count(BiomesOf(cells), b)
      ensures Total(biomeCounts, LandBiomes) == landCount
    {
      var grid', cells' := BuildGrid(p);
      var basins := AttachBasins(p, grid', cells');
      var counts, land := CountBiomes(BiomesOf(cells'));
      CountsSumToLand(BiomesOf(cells'), counts, land);
      width, height, sealevel := p.width, p.height, p.sealevel;
      grid, cells, drainageBasins := grid', cells', basins;
      biomeCounts, landCount := counts, land;
    }

    /** cellCount: the number of cells of the world. */
    function CellCount(): (n: int)
      requires Valid()
      ensures n == |cells|
    {
      width * height
    }

    /**
     * getCell: no cell outside the grid; inside it, the grid cell, which
     * has the asked coordinates.
     */
    function GetCell(x: int, y: int): (r: Option<Cell>)
      requires Valid()
      ensures r.None? <==> !IsValidCell(x, y, width, height)
      ensures r.Some? ==> r.value.x == x && r.value.y == y && r.value in cells
    {
      if x < 0 || y < 0 || x >= width || y >= height then None
      else Some(grid[x][y])
    }
  }

  /** The biome of every cell, in order. */
  function BiomesOf(cells: seq<Cell>): (r: seq<Biome>)
    ensures |r| == |cells| && forall i :: 0 <= i < |cells| ==> r[i] == cells[i].biome
  {
    seq(|cells|, i requires 0 <= i < |cells| => cells[i].biome)
  }

  /** The number of entries equal to b. */
  function Count(bs: seq<Biome>, b: Biome): nat {
    if bs == [] then 0 else Count(bs[..|bs| - 1], b) + (if bs[|bs| - 1] == b then 1 else 0)
  }

  /** The number of entries that are a biome, not the no-biome value. */
  function LandCount(bs: seq<Biome>): nat {
    if bs == [] then 0 else LandCount(bs[..|bs| - 1]) + (if bs[|bs| - 1] != NoBiome then 1 else 0)
  }

  /** Every biome other than the no-biome value. */
  const LandBiomes: seq<Biome> := [
    Glacial, Tundra, BorealForest, Shrubland, Grassland, Savanna,
    Desert, TemperateForest, TemperateRainforest, TropicalForest, TropicalRainforest]

  /** The sum of the counts of the biomes listed, a missing count being 0. */
  function Total(counts: map<Biome, nat>, kinds: seq<Biome>): nat {
    if kinds == [] then 0
    else Total(counts, kinds[..|kinds| - 1]) + (if kinds[|kinds| - 1] in counts then counts[kinds[|kinds| - 1]] else 0)
  }

  /** The number of entries of bs whose biome is one of those listed. */
  function CountOf(bs: seq<Biome>, kinds: seq<Biome>): nat {
    if kinds == [] then 0 else CountOf(bs, kinds[..|kinds| - 1]) + Count(bs, kinds[|kinds| - 1])
  }

  /**
   * The stats loop: for every cell with a biome, the land count goes up
   * and so does the count of its biome, starting at 1 the first time.
   */
  method CountBiomes(bs: seq<Biome>) returns (counts: map<Biome, nat>, landCount: nat)
    ensures landCount == LandCount(bs)
    ensures forall b :: b in counts <==> b != NoBiome && Count(bs, b) > 0
    ensures forall b :: b in counts ==> counts[b] == Count(bs, b)
  {
    counts, landCount := map[], 0;
    for k := 0 to |bs|
      invariant landCount == LandCount(bs[..k])
      invariant forall b :: b in counts <==> b != NoBiome && Count(bs[..k], b) > 0
      invariant forall b :: b in counts ==> counts[b] == Count(bs[..k], b)
    {
      assert bs[..k + 1][..k] == bs[..k];
      if bs[k] != NoBiome {
        landCount := landCount + 1;
        if bs[k] in counts {
          counts := counts[bs[k] := counts[bs[k]] + 1];
        } else {
          counts := counts[bs[k] := 1];
        }
      }
    }
    assert bs[..|bs|] == bs;
  }

  /** Dropping the last entry b of bs lowers the count of distinct kinds by one if b is among them. */
  lemma {:induction false} CountOfStep(bs: seq<Biome>, kinds: seq<Biome>)
    requires bs != [] && forall i, j :: 0 <= i < j < |kinds| ==> kinds[i] != kinds[j]
    ensures CountOf(bs, kinds) == CountOf(bs[..|bs| - 1], kinds) + if bs[|bs| - 1] in kinds then 1 else 0
  {
    if kinds != [] {
      var front := kinds[..|kinds| - 1];
      CountOfStep(bs, front);
      assert bs[|bs| - 1] in kinds <==> bs[|bs| - 1] in front || bs[|bs| - 1] == kinds[|kinds| - 1];
    }
  }

  /** The biomes listed in LandBiomes are all the biomes but the no-biome value, each once. */
  lemma LandBiomesComplete(b: Biome)
    ensures b in LandBiomes <==> b != NoBiome
    ensures forall i, j :: 0 <= i < j < |LandBiomes| ==> LandBiomes[i] != LandBiomes[j]
  {
    match b
    case NoBiome =>
    case _ =>
  }

  /** Counting every kind of biome counts every entry that has one. */
  lemma {:induction false} CountOfLand(bs: seq<Biome>)
    ensures CountOf(bs, LandBiomes) == LandCount(bs)
  {
    if bs == [] {
      CountOfNothing(LandBiomes);
    } else {
      CountOfLand(bs[..|bs| - 1]);
      LandBiomesComplete(bs[|bs| - 1]);
      CountOfStep(bs, LandBiomes);
    }
  }

  /** No entries, nothing counted. */
  lemma {:induction false} CountOfNothing(kinds: seq<Biome>)
    ensures CountOf([], kinds) == 0
  {
    if kinds != [] {
      CountOfNothing(kinds[..|kinds| - 1]);
    }
  }

  /** Summing counts that agree with the entries of bs sums the count of those kinds. */
  lemma {:induction false} TotalMatches(bs: seq<Biome>, counts: map<Biome, nat>, kinds: seq<Biome>)
    requires forall b :: b in counts <==> b != NoBiome && Count(bs, b) > 0
    requires forall b :: b in counts ==> counts[b] == Count(bs, b)
    requires NoBiome !in kinds
    ensures Total(counts, kinds) == CountOf(bs, kinds)
  {
    if kinds != [] {
      TotalMatches(bs, counts, kinds[..|kinds| - 1]);
      assert kinds[|kinds| - 1] in kinds;
    }
  }

  /** The per-biome counts of the stats add up to the land count. */
  lemma CountsSumToLand(bs: seq<Biome>, counts: map<Biome, nat>, landCount: nat)
    requires landCount == LandCount(bs)
    requires forall b :: b in counts <==> b != NoBiome && Count(bs, b) > 0
    requires forall b :: b in counts ==> counts[b] == Count(bs, b)
    ensures Total(counts, LandBiomes) == landCount
  {
    TotalMatches(bs, counts, LandBiomes);
    CountOfLand(bs);
  }

  /** A cell of column x comes after every cell of the columns before it. */
  lemma IndexBefore(i: int, j: int, x: int, height: int)
    requires 0 <= i < x && 0 <= j < height
    ensures Index(i, j, height) < x * height
  {
    assert (x - i - 1) * height >= 0;
  }

  /**
   * The grid loops of the World constructor: a fresh Cell for every
   * position, column by column, each added to the grid and to the cells.
   */
  method BuildGrid(p: WorkerOutput) returns (grid: seq<seq<Cell>>, cells: seq<Cell>)
    requires WellFormed(p)
    ensures |grid| == p.width && forall x :: 0 <= x < p.width ==> |grid[x]| == p.height
    ensures forall x, y :: 0 <= x < p.width && 0 <= y < p.height ==> Rehydrated(p, grid[x][y], x, y)
    ensures forall x, y :: 0 <= x < p.width && 0 <= y < p.height ==> grid[x][y].drainageBasin == None
    ensures |cells| == p.width * p.height
    ensures forall x, y :: 0 <= x < p.width && 0 <= y < p.height ==>
      0 <= Index(x, y, p.height) < |cells| && cells[Index(x, y, p.height)] == grid[x][y]
    ensures forall i, j :: 0 <= i < j < |cells| ==> cells[i] != cells[j]
    ensures forall i :: 0 <= i < |cells| ==> fresh(cells[i])
  {
    grid, cells := [], [];
    for x := 0 to p.width
      invariant |grid| == x && forall i :: 0 <= i < x ==> |grid[i]| == p.height
      invariant forall i, j :: 0 <= i < x && 0 <= j < p.height ==>
        Rehydrated(p, grid[i][j], i, j) && grid[i][j].drainageBasin == None
      invariant cells == Flatten(grid)
      invariant forall i, j :: 0 <= i < j < |cells| ==> cells[i] != cells[j]
      invariant forall i :: 0 <= i < |cells| ==> fresh(cells[i])
    {
      var column := BuildColumn(p, x);
      assert (grid + [column])[..x] == grid;
      grid, cells := grid + [column], cells + column;
    }
    FlattenLayout(grid, p.width, p.height);
  }

  /** The columns of the grid, one after the other. */
  ghost function Flatten(grid: seq<seq<Cell>>): seq<Cell> {
    if grid == [] then [] else Flatten(grid[..|grid| - 1]) + grid[|grid| - 1]
  }

  /** In the flattened grid, cell (x, y) sits at Index(x, y). */
  lemma {:induction false} FlattenLayout(grid: seq<seq<Cell>>, width: nat, height: nat)
    requires |grid| == width && forall x :: 0 <= x < width ==> |grid[x]| == height
    ensures |Flatten(grid)| == width * height
    ensures forall x, y :: 0 <= x < width && 0 <= y < height ==>
      0 <= Index(x, y, height) < |Flatten(grid)| && Flatten(grid)[Index(x, y, height)] == grid[x][y]
  {
    if width > 0 {
      var front := grid[..width - 1];
      FlattenLayout(front, width - 1, height);
      assert |Flatten(grid)| == (width - 1) * height + height;
      forall x, y | 0 <= x < width && 0 <= y < height
        ensures 0 <= Index(x, y, height) < |Flatten(grid)| && Flatten(grid)[Index(x, y, height)] == grid[x][y]
      {
        if x < width - 1 {
          IndexBefore(x, y, width - 1, height);
          assert front[x] == grid[x];
        }
      }
    }
  }

  /** The inner grid loop: the fresh cells of column x, from top to bottom. */
  method BuildColumn(p: WorkerOutput, x: int) returns (column: seq<Cell>)
    requires WellFormed(p) && 0 <= x < p.width
    ensures |column| == p.height
    ensures forall y :: 0 <= y < p.height ==> Rehydrated(p, column[y], x, y) && column[y].drainageBasin == None
    ensures forall y :: 0 <= y < p.height ==> fresh(column[y])
    ensures forall i, j :: 0 <= i < j < |column| ==> column[i] != column[j]
  {
    column := [];
    for y := 0 to p.height
      invariant |column| == y
      invariant forall j :: 0 <= j < y ==> Rehydrated(p, column[j], x, j) && column[j].drainageBasin == None
      invariant forall j :: 0 <= j < y ==> fresh(column[j])
      invariant forall i, j :: 0 <= i < j < |column| ==> column[i] != column[j]
    {
      IndexInRange(x, y, p.width, p.height);
      var k := Index(x, y, p.height);
      var cell := new Cell(x, y, p.heightmap[k], p.terrainTypes[k], p.flowDirections[k], p.temperatures[k],
                           p.upstreamCells[k], p.moistureMap[k], p.biomes[k]);
      column := column + [cell];
    }
  }

  /** The grid cells at the listed coordinates: `cells.map(([x, y]) => this.grid[x][y])`. */
  function CellsAt(grid: seq<seq<Cell>>, coords: seq<(int, int)>, width: nat, height: nat): (r: seq<Cell>)
    requires |grid| == width && forall x :: 0 <= x < width ==> |grid[x]| == height
    requires forall i :: 0 <= i < |coords| ==> 0 <= coords[i].0 < width && 0 <= coords[i].1 < height
    ensures |r| == |coords| && forall i :: 0 <= i < |coords| ==> r[i] == grid[coords[i].0][coords[i].1]
  {
    seq(|coords|, i requires 0 <= i < |coords| => grid[coords[i].0][coords[i].1])
  }

  /** The basin a grid cell points at after the first `entries` have been built. */
  ghost function OwnerBasin(entries: seq<(nat, BasinRecord)>, basins: seq<DrainageBasin>, c: (int, int)): Option<DrainageBasin>
    requires |basins| == |entries|
  {
    var o := Owner(entries, c);
    if o.Some? then Some(basins[o.value]) else None
  }

  /** The grid as the basin loop needs it: its shape, and each cell knowing its coordinates. */
  ghost predicate Shaped(grid: seq<seq<Cell>>, width: nat, height: nat) {
    |grid| == width && (forall x :: 0 <= x < width ==> |grid[x]| == height) &&
    forall x, y :: 0 <= x < width && 0 <= y < height ==> grid[x][y].x == x && grid[x][y].y == y
  }

  /**
   * The basin loop of the World constructor: one DrainageBasin per entry,
   * in order, holding the grid cells of the entry's coordinates; every
   * grid cell ends up pointing at the last basin that lists it.
   */
  method AttachBasins(p: WorkerOutput, grid: seq<seq<Cell>>, cells: seq<Cell>) returns (basins: seq<DrainageBasin>)
    modifies set c | c in cells
    requires WellFormed(p) && Shaped(grid, p.width, p.height)
    requires forall x, y :: 0 <= x < p.width && 0 <= y < p.height ==> grid[x][y] in cells && grid[x][y].drainageBasin == None
    ensures |basins| == |p.drainageBasins|
    ensures forall k :: 0 <= k < |basins| ==> Built(p, grid, basins[k], k)
    ensures forall x, y :: 0 <= x < p.width && 0 <= y < p.height ==>
      grid[x][y].drainageBasin == OwnerBasin(p.drainageBasins, basins, (x, y))
  {
    var entries := p.drainageBasins;
    basins := [];
    for k := 0 to |entries|
      invariant |basins| == k
      invariant forall i :: 0 <= i < k ==> Built(p, grid, basins[i], i)
      invariant forall x, y :: 0 <= x < p.width && 0 <= y < p.height ==>
        grid[x][y].drainageBasin == OwnerBasin(entries[..k], basins, (x, y))
    {
      var basins' := AttachBasin(p, grid, cells, k, basins);
      assert forall i :: 0 <= i < k ==> basins'[i] == basins[i];
      basins := basins';
    }
    assert entries[..|entries|] == entries;
  }

  /** The basin b holds the number, the colour and the grid cells of entry i. */
  ghost predicate Built(p: WorkerOutput, grid: seq<seq<Cell>>, b: DrainageBasin, i: int)
    requires WellFormed(p) && Shaped(grid, p.width, p.height) && 0 <= i < |p.drainageBasins|
  {
    b.id == p.drainageBasins[i].0 && b.color == p.drainageBasins[i].1.color &&
    b.cells == CellsAt(grid, p.drainageBasins[i].1.cells, p.width, p.height)
  }

  /** One pass of the basin loop: the basin of entry k, built and pointed at by its cells. */
  method AttachBasin(p: WorkerOutput, grid: seq<seq<Cell>>, cells: seq<Cell>, k: int, basins: seq<DrainageBasin>)
    returns (basins': seq<DrainageBasin>)
    modifies set c | c in cells
    requires WellFormed(p) && Shaped(grid, p.width, p.height)
    requires forall x, y :: 0 <= x < p.width && 0 <= y < p.height ==> grid[x][y] in cells
    requires 0 <= k < |p.drainageBasins| && |basins| == k
    requires forall x, y :: 0 <= x < p.width && 0 <= y < p.height ==>
      grid[x][y].drainageBasin == OwnerBasin(p.drainageBasins[..k], basins, (x, y))
    ensures |basins'| == k + 1 && basins'[..k] == basins && Built(p, grid, basins'[k], k)
    ensures forall x, y :: 0 <= x < p.width && 0 <= y < p.height ==>
      grid[x][y].drainageBasin == OwnerBasin(p.drainageBasins[..k + 1], basins', (x, y))
  {
    var entries := p.drainageBasins;
    var members := CellsAt(grid, entries[k].1.cells, p.width, p.height);
    assert forall c :: c in members ==> c in cells;
    var b := new DrainageBasin(entries[k].0, entries[k].1.color, members);
    basins' := basins + [b];
    assert entries[..k + 1][..k] == entries[..k];
    forall x, y | 0 <= x < p.width && 0 <= y < p.height
      ensures grid[x][y].drainageBasin == OwnerBasin(entries[..k + 1], basins', (x, y))
    {
      if grid[x][y] in members {
        var i :| 0 <= i < |members| && members[i] == grid[x][y];
        assert entries[k].1.cells[i] == (x, y);
      }
    }
  }
}
