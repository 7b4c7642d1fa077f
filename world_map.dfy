/**
 * The region bookkeeping of the world map: a map from region names to
 * regions, a grid holding the name of the region each cell was last put
 * in, and per cell the stream of region names announced for it, kept here
 * as the list of names emitted so far.
 */
module RegionMaps {

  import opened Results
  import opened WorldModel

  /** A region as the map sees it: its name and the coordinates of its cells. */
  datatype Region = Region(name: string, cells: seq<(int, int)>)

  /** `n` copies of `name`: what a stream shows after `name` was emitted `n` times. */
  function Repeat(name: string, n: nat): (r: seq<string>)
    ensures |r| == n && forall i :: 0 <= i < n ==> r[i] == name
  {
    if n == 0 then [] else Repeat(name, n - 1) + [name]
  }

  class WorldMap {
    const world: World
    const width: nat
    const height: nat
    var regionMap: map<string, Region>
    /** The region name of every cell; None where no region was ever added. */
    const cellRegionMap: array2<Option<string>>
    /** The names emitted on every cell's update stream, oldest first. */
    const cellRegionUpdates: array2<seq<string>>

    /** Both grids have the world's width and height. */
    ghost predicate Valid()
      reads this
    {
      cellRegionMap.Length0 == width && cellRegionMap.Length1 == height &&
      cellRegionUpdates.Length0 == width && cellRegionUpdates.Length1 == height
    }

    /** A map of the world's size with no region, no cell assigned and no name emitted. */
    constructor (world: World)
      ensures Valid() && this.world == world && width == world.width && height == world.height
      ensures fresh(cellRegionMap) && fresh(cellRegionUpdates)
      ensures regionMap == map[]
      ensures forall x, y :: 0 <= x < width && 0 <= y < height ==> cellRegionMap[x, y] == None && cellRegionUpdates[x, y] == []
    {
      this.world := world;
      width, height := world.width, world.height;
      regionMap := map[];
      cellRegionMap := new Option<string>[world.width, world.height]((x, y) => None);
      cellRegionUpdates := new seq<string>[world.width, world.height]((x, y) => []);
    }

    /**
     * addRegion: the region is filed under its name; every listed cell is
     * assigned the region's name, which is emitted once on the cell's
     * stream per time the cell is listed; no other cell changes.
     */
    method AddRegion(region: Region)
      modifies this, cellRegionMap, cellRegionUpdates
      requires Valid()
      requires forall i :: 0 <= i < |region.cells| ==> 0 <= region.cells[i].0 < width && 0 <= region.cells[i].1 < height
      ensures Valid()
      ensures regionMap == old(regionMap)[region.name := region]
      ensures forall x, y :: 0 <= x < width && 0 <= y < height ==>
        cellRegionMap[x, y] == if (x, y) in region.cells then Some(region.name) else old(cellRegionMap[x, y])
      ensures forall x, y :: 0 <= x < width && 0 <= y < height ==>
        cellRegionUpdates[x, y] == old(cellRegionUpdates[x, y]) + Repeat(region.name, multiset(region.cells)[(x, y)])
    {
      regionMap := regionMap[region.name := region];
      AssignAll(region.cells, region.name);
    }

    /** The loop of addRegion: each listed cell in turn is assigned `name`, which is emitted on its stream. */
    method AssignAll(cells: seq<(int, int)>, name: string)
      modifies cellRegionMap, cellRegionUpdates
      requires Valid()
      requires forall i :: 0 <= i < |cells| ==> 0 <= cells[i].0 < width && 0 <= cells[i].1 < height
      ensures forall x, y :: 0 <= x < width && 0 <= y < height ==>
        cellRegionMap[x, y] == if (x, y) in cells then Some(name) else old(cellRegionMap[x, y])
      ensures forall x, y :: 0 <= x < width && 0 <= y < height ==>
        cellRegionUpdates[x, y] == old(cellRegionUpdates[x, y]) + Repeat(name, multiset(cells)[(x, y)])
    {
      ghost var names := Snapshot(cellRegionMap);
      ghost var streams := Snapshot(cellRegionUpdates);
      for k := 0 to |cells|
        invariant Tracks(cells[..k], name, names, streams)
      {
        Assign(cells, k, name, names, streams);
      }
      assert cells[..|cells|] == cells;
    }

    /**
     * Every cell's name and stream are what assigning the cells of `done`
     * (in order) to `name` made of `names` and `streams`.
     */
    ghost predicate Tracks(done: seq<(int, int)>, name: string,
                           names: map<(int, int), Option<string>>, streams: map<(int, int), seq<string>>)
      reads this, cellRegionMap, cellRegionUpdates
      requires Valid()
    {
      forall x, y :: 0 <= x < width && 0 <= y < height ==>
        (x, y) in names && (x, y) in streams &&
        cellRegionMap[x, y] == Marked(done, name, names[(x, y)], (x, y)) &&
        cellRegionUpdates[x, y] == Emitted(done, name, streams[(x, y)], (x, y))
    }

    /**
     * One pass of the loop of addRegion: cell c is assigned `name`, and
     * `name` is emitted on its stream; the cells listed before it, `done`,
     * keep what they had.
     */
    method Assign(cells: seq<(int, int)>, k: int, name: string,
                  ghost names: map<(int, int), Option<string>>, ghost streams: map<(int, int), seq<string>>)
      modifies cellRegionMap, cellRegionUpdates
      requires Valid() && 0 <= k < |cells| && 0 <= cells[k].0 < width && 0 <= cells[k].1 < height
      requires Tracks(cells[..k], name, names, streams)
      ensures Tracks(cells[..k + 1], name, names, streams)
    {
      var c := cells[k];
      cellRegionMap[c.0, c.1] := Some(name);
      cellRegionUpdates[c.0, c.1] := cellRegionUpdates[c.0, c.1] + [name];
      assert cells[..k + 1] == cells[..k] + [c];
      forall x, y | 0 <= x < width && 0 <= y < height
        ensures cellRegionMap[x, y] == Marked(cells[..k + 1], name, names[(x, y)], (x, y))
        ensures cellRegionUpdates[x, y] == Emitted(cells[..k + 1], name, streams[(x, y)], (x, y))
      {
        AssignStep(cells[..k], c, name, names[(x, y)], streams[(x, y)], (x, y));
      }
    }
  }

  /** The contents of every cell of a grid, as a map from its coordinates. */
  ghost function Snapshot<T>(a: array2<T>): (m: map<(int, int), T>)
    reads a
    ensures forall x, y :: 0 <= x < a.Length0 && 0 <= y < a.Length1 ==> (x, y) in m && m[(x, y)] == a[x, y]
  {
    map c | c in (set x, y | 0 <= x < a.Length0 && 0 <= y < a.Length1 :: (x, y)) :: a[c.0, c.1]
  }

  /** The region name of cell c after the listed cells were assigned `name`. */
  function Marked(cells: seq<(int, int)>, name: string, before: Option<string>, c: (int, int)): Option<string> {
    if c in cells then Some(name) else before
  }

  /** The stream of cell c after `name` was emitted for each listed cell. */
  function Emitted(cells: seq<(int, int)>, name: string, before: seq<string>, c: (int, int)): seq<string> {
    before + Repeat(name, multiset(cells)[c])
  }

  /** Assigning one more cell d changes the name and the stream of d alone. */
  lemma AssignStep(cells: seq<(int, int)>, d: (int, int), name: string, before: Option<string>, stream: seq<string>, c: (int, int))
    ensures Marked(cells + [d], name, before, c) == if c == d then Some(name) else Marked(cells, name, before, c)
    ensures Emitted(cells + [d], name, stream, c) == if c == d then Emitted(cells, name, stream, c) + [name] else Emitted(cells, name, stream, c)
  {
    assert multiset(cells + [d]) == multiset(cells) + multiset{d};
  }
}
