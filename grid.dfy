/**
 * The geometry every stage of the generator shares: a `width` x `height`
 * grid of cells (x, y), the four labelled neighbours of a cell, the
 * direction arithmetic of flow directions, edge cells, the disc of cells
 * around a point, and the oceanic / continental terrain groups.
 */
module GridGeometry {

  import opened WorldTables

  /** A value of an 8-bit clamped buffer: the heightmap and the water heights. */
  newtype byte = v: int | 0 <= v < 256

  /** A neighbour (x, y) of some cell, labelled with the direction from that cell to it. */
  datatype Neighbor = Neighbor(x: int, y: int, dir: Direction)

  /** A cell lies on the grid when 0 <= x < width and 0 <= y < height. */
  predicate IsValidCell(x: int, y: int, width: int, height: int) {
    x >= 0 && y >= 0 && x < width && y < height
  }

  /** The neighbour `n` lies on the grid. */
  predicate OnGrid(n: Neighbor, width: int, height: int) {
    IsValidCell(n.x, n.y, width, height)
  }

  /** The coordinate pair `c` lies on the grid. */
  predicate InGrid(c: (int, int), width: int, height: int) {
    IsValidCell(c.0, c.1, width, height)
  }

  /** Cells a and b are side by side: they differ by one in exactly one coordinate. */
  predicate Adjacent(a: (int, int), b: (int, int)) {
    (a.0 == b.0 && (a.1 == b.1 + 1 || b.1 == a.1 + 1)) || (a.1 == b.1 && (a.0 == b.0 + 1 || b.0 == a.0 + 1))
  }

  /** The cell one step from (x, y) in direction `d`; no direction does not move. */
  function Step(x: int, y: int, d: Direction): (int, int) {
    match d
    case Up => (x, y - 1)
    case Down => (x, y + 1)
    case Left => (x - 1, y)
    case Right => (x + 1, y)
    case NoDirection => (x, y)
  }

  /** The direction back along a step; no direction is its own opposite. */
  function Opposite(d: Direction): Direction {
    match d
    case NoDirection => NoDirection
    case Up => Down
    case Down => Up
    case Left => Right
    case Right => Left
  }

  /** Taking the opposite twice gives the direction back, and only no direction maps to no direction. */
  lemma OppositeInvolution(d: Direction)
    ensures Opposite(Opposite(d)) == d
    ensures Opposite(d) == NoDirection <==> d == NoDirection
  {
  }

  /** A step followed by a step in the opposite direction returns to the start. */
  lemma StepBack(x: int, y: int, d: Direction)
    ensures Step(Step(x, y, d).0, Step(x, y, d).1, Opposite(d)) == (x, y)
  {
  }

  /** `n` is the neighbour of (x, y) in the direction it is labelled with, which is a real direction. */
  predicate LabelledFrom(x: int, y: int, n: Neighbor) {
    (n.x, n.y) == Step(x, y, n.dir) && n.dir != NoDirection
  }

  /** The four neighbours of (x, y), on the grid or not, in the order left, right, up, down. */
  function NeighborsLabelled(x: int, y: int): (r: seq<Neighbor>)
    ensures |r| == 4
    ensures forall k :: 0 <= k < |r| ==> LabelledFrom(x, y, r[k])
    ensures r[0].dir == Left && r[1].dir == Right && r[2].dir == Up && r[3].dir == Down
  {
    [Neighbor(x - 1, y, Left), Neighbor(x + 1, y, Right), Neighbor(x, y - 1, Up), Neighbor(x, y + 1, Down)]
  }

  /** The entries of `ns` that lie on the grid, in their original order. */
  function KeepValid(ns: seq<Neighbor>, width: int, height: int): (r: seq<Neighbor>)
    ensures |r| <= |ns|
    ensures forall n :: n in r <==> n in ns && OnGrid(n, width, height)
  {
    if ns == [] then []
    else if IsValidCell(ns[0].x, ns[0].y, width, height) then [ns[0]] + KeepValid(ns[1..], width, height)
    else KeepValid(ns[1..], width, height)
  }

  /** The entries of `ns` that lie off the grid, in their original order. */
  function KeepInvalid(ns: seq<Neighbor>, width: int, height: int): (r: seq<Neighbor>)
    ensures |r| <= |ns|
    ensures forall n :: n in r <==> n in ns && !OnGrid(n, width, height)
  {
    if ns == [] then []
    else if !IsValidCell(ns[0].x, ns[0].y, width, height) then [ns[0]] + KeepInvalid(ns[1..], width, height)
    else KeepInvalid(ns[1..], width, height)
  }

  /** Filtering a list both ways splits it: the kept and the dropped entries add up to it. */
  lemma {:induction false} SplitSizes(ns: seq<Neighbor>, width: int, height: int)
    ensures |KeepValid(ns, width, height)| + |KeepInvalid(ns, width, height)| == |ns|
  {
    if ns != [] {
      SplitSizes(ns[1..], width, height);
    }
  }

  /**
   * The neighbour list the traversals use for (x, y): its on-grid
   * neighbours, each labelled with the direction from (x, y) to it,
   * one per direction that stays on the grid.
   */
  function CellNeighbors(x: int, y: int, width: int, height: int): (r: seq<Neighbor>)
    ensures |r| <= 4
    ensures forall n :: n in r ==> OnGrid(n, width, height) && LabelledFrom(x, y, n)
  {
    KeepValid(NeighborsLabelled(x, y), width, height)
  }

  /** Every step from (x, y) that stays on the grid is in the neighbour list of (x, y), with its direction. */
  lemma NeighborInList(x: int, y: int, width: int, height: int, d: Direction)
    requires d != NoDirection && IsValidCell(Step(x, y, d).0, Step(x, y, d).1, width, height)
    ensures Neighbor(Step(x, y, d).0, Step(x, y, d).1, d) in CellNeighbors(x, y, width, height)
  {
    var all := NeighborsLabelled(x, y);
    var k := match d case Left => 0 case Right => 1 case Up => 2 case _ => 3;
    assert all[k] == Neighbor(Step(x, y, d).0, Step(x, y, d).1, d);
  }

  /** No two entries of `ns` name the same cell. */
  predicate DistinctCells(ns: seq<Neighbor>) {
    forall i, j :: 0 <= i < j < |ns| ==> (ns[i].x, ns[i].y) != (ns[j].x, ns[j].y)
  }

  /** Filtering keeps entries apart: a list naming each cell once still does after KeepValid. */
  lemma {:induction false} KeepValidDistinct(ns: seq<Neighbor>, width: int, height: int)
    requires DistinctCells(ns)
    ensures DistinctCells(KeepValid(ns, width, height))
  {
    if ns != [] {
      var tail := ns[1..];
      assert DistinctCells(tail) by {
        forall i, j | 0 <= i < j < |tail| ensures (tail[i].x, tail[i].y) != (tail[j].x, tail[j].y) {
          assert tail[i] == ns[i + 1] && tail[j] == ns[j + 1];
        }
      }
      KeepValidDistinct(tail, width, height);
      var r := KeepValid(tail, width, height);
      if IsValidCell(ns[0].x, ns[0].y, width, height) {
        var all := [ns[0]] + r;
        forall i, j | 0 <= i < j < |all| ensures (all[i].x, all[i].y) != (all[j].x, all[j].y) {
          if i == 0 {
            assert all[j] in tail;
            var t :| 0 <= t < |tail| && tail[t] == all[j];
            assert ns[t + 1] == all[j];
          } else {
            assert all[i] == r[i - 1] && all[j] == r[j - 1];
          }
        }
      }
    }
  }

  /** The neighbour list of a cell names each neighbour once. */
  lemma NeighborsDistinct(x: int, y: int, width: int, height: int)
    ensures DistinctCells(CellNeighbors(x, y, width, height))
  {
    KeepValidDistinct(NeighborsLabelled(x, y), width, height);
  }

  /** The neighbours of (x, y) that lie off the grid, in the order left, right, up, down. */
  function OffGridNeighbors(x: int, y: int, width: int, height: int): (r: seq<Neighbor>)
    ensures forall n :: n in r ==> !OnGrid(n, width, height) && LabelledFrom(x, y, n)
  {
    KeepInvalid(NeighborsLabelled(x, y), width, height)
  }

  /** An edge cell lies in the first or last column or row. */
  predicate IsEdge(x: int, y: int, width: int, height: int) {
    x == 0 || y == 0 || x == width - 1 || y == height - 1
  }

  /** When the first off-grid entry of `ns` sits at position k, filtering for off-grid entries starts with it. */
  lemma {:induction false} FirstInvalid(ns: seq<Neighbor>, width: int, height: int, k: int)
    requires 0 <= k < |ns| && !IsValidCell(ns[k].x, ns[k].y, width, height)
    requires forall i :: 0 <= i < k ==> IsValidCell(ns[i].x, ns[i].y, width, height)
    ensures |KeepInvalid(ns, width, height)| > 0 && KeepInvalid(ns, width, height)[0] == ns[k]
  {
    if k > 0 {
      FirstInvalid(ns[1..], width, height, k - 1);
    }
  }

  /** A list whose entries all lie on the grid has no off-grid entries to keep. */
  lemma {:induction false} NoneInvalid(ns: seq<Neighbor>, width: int, height: int)
    requires forall i :: 0 <= i < |ns| ==> IsValidCell(ns[i].x, ns[i].y, width, height)
    ensures KeepInvalid(ns, width, height) == []
  {
    if ns != [] {
      NoneInvalid(ns[1..], width, height);
    }
  }

  /**
   * The three ways the traversals recognise an edge cell agree: fewer than
   * four on-grid neighbours (removeDepressions), at least one off-grid
   * neighbour (determineFlowDirections), and lying in the first or last
   * column or row.
   */
  lemma EdgeCharacterisation(x: int, y: int, width: int, height: int)
    requires IsValidCell(x, y, width, height)
    ensures IsEdge(x, y, width, height) <==> |CellNeighbors(x, y, width, height)| != 4
    ensures IsEdge(x, y, width, height) <==> |OffGridNeighbors(x, y, width, height)| > 0
  {
    var all := NeighborsLabelled(x, y);
    SplitSizes(all, width, height);
    if x == 0 || y == 0 || x == width - 1 || y == height - 1 {
      var k := if x == 0 then 0 else if x == width - 1 then 1 else if y == 0 then 2 else 3;
      assert all[k] in OffGridNeighbors(x, y, width, height);
    } else {
      NoneInvalid(all, width, height);
    }
  }

  /**
   * The direction an edge cell is given before flow routing starts: that
   * of its first off-grid neighbour in the order left, right, up, down; it
   * points off the grid.
   */
  function FirstOffGridDirection(x: int, y: int, width: int, height: int): (d: Direction)
    requires IsValidCell(x, y, width, height) && IsEdge(x, y, width, height)
    ensures d == (if x == 0 then Left else if x == width - 1 then Right else if y == 0 then Up else Down)
    ensures !IsValidCell(Step(x, y, d).0, Step(x, y, d).1, width, height)
  {
    EdgeCharacterisation(x, y, width, height);
    var all := NeighborsLabelled(x, y);
    var k := if x == 0 then 0 else if x == width - 1 then 1 else if y == 0 then 2 else 3;
    FirstInvalid(all, width, height, k);
    OffGridNeighbors(x, y, width, height)[0].dir
  }

  /** Every cell of the grid, as a set of coordinates. */
  function GridCells(width: nat, height: nat): (s: set<(int, int)>)
    ensures forall c :: c in s <==> InGrid(c, width, height)
  {
    set x: int, y: int | 0 <= x < width && 0 <= y < height :: (x, y)
  }

  /** The cells of column x, as a set of coordinates. */
  function Column(x: int, height: nat): (s: set<(int, int)>)
    ensures forall c :: c in s <==> c.0 == x && 0 <= c.1 < height
  {
    set y: int | 0 <= y < height :: (x, y)
  }

  lemma {:induction false} ColumnSize(x: int, height: nat)
    ensures |Column(x, height)| == height
  {
    if height > 0 {
      ColumnSize(x, height - 1);
      assert Column(x, height) == Column(x, height - 1) + {(x, height - 1)};
    }
  }

  /** A grid one column wider adds that column's cells to the grid's. */
  lemma GridSplit(width: nat, height: nat)
    requires width > 0
    ensures |GridCells(width, height)| == |GridCells(width - 1, height)| + |Column(width - 1, height)|
  {
    assert GridCells(width, height) == GridCells(width - 1, height) + Column(width - 1, height);
    assert GridCells(width - 1, height) !! Column(width - 1, height);
  }

  /** The grid has exactly width * height cells. */
  lemma {:induction false} GridSize(width: nat, height: nat)
    ensures |GridCells(width, height)| == width * height
  {
    if width > 0 {
      GridSize(width - 1, height);
      ColumnSize(width - 1, height);
      GridSplit(width, height);
      assert width * height == (width - 1) * height + height;
    }
  }

  /**
   * The cells loopGridCircle reports around (x, y): inside the square
   * [x - radius, x + radius) x [y - radius, y + radius) and at Euclidean
   * distance at most `radius`, compared on squares.
   */
  predicate InCircle(x: int, y: int, radius: int, c: (int, int)) {
    x - radius <= c.0 < x + radius && y - radius <= c.1 < y + radius &&
    (x - c.0) * (x - c.0) + (y - c.1) * (y - c.1) <= radius * radius
  }

  /** Column-major order of the scan: by x first, then by y. */
  predicate ScanBefore(a: (int, int), b: (int, int)) {
    a.0 < b.0 || (a.0 == b.0 && a.1 < b.1)
  }

  /** The cells listed, in increasing column-major scan order. */
  predicate InScanOrder(cells: seq<(int, int)>) {
    forall i, j :: 0 <= i < j < |cells| ==> ScanBefore(cells[i], cells[j])
  }

  /**
   * loopGridCircle: every cell of the disc of `radius` around (x, y),
   * exactly once each, in column-major scan order. The cells may lie off
   * the grid.
   */
  method LoopGridCircle(x: int, y: int, radius: int) returns (cells: seq<(int, int)>)
    ensures forall c :: c in cells <==> InCircle(x, y, radius, c)
    ensures forall i, j :: 0 <= i < j < |cells| ==> ScanBefore(cells[i], cells[j])
  {
    cells := [];
    var cx := x - radius;
    while cx < x + radius
      invariant forall c :: c in cells <==> InCircle(x, y, radius, c) && ScanBefore(c, (cx, y - radius))
      invariant forall i, j :: 0 <= i < j < |cells| ==> ScanBefore(cells[i], cells[j])
      invariant forall c :: c in cells ==> ScanBefore(c, (cx, y - radius))
      decreases x + radius - cx
    {
      var cy := y - radius;
      while cy < y + radius
        invariant forall c :: c in cells <==> InCircle(x, y, radius, c) && ScanBefore(c, (cx, cy))
        invariant forall i, j :: 0 <= i < j < |cells| ==> ScanBefore(cells[i], cells[j])
        invariant forall c :: c in cells ==> ScanBefore(c, (cx, cy))
        decreases y + radius - cy
      {
        if (x - cx) * (x - cx) + (y - cy) * (y - cy) <= radius * radius {
          cells := cells + [(cx, cy)];
        }
        cy := cy + 1;
      }
      cx := cx + 1;
    }
  }

  /** isOceanic: open sea and shallow coastal water. */
  predicate IsOceanic(t: Terrain) {
    t == Ocean || t == Coast
  }

  /** isContinental: land, lakes, rivers and mountains. */
  predicate IsContinental(t: Terrain) {
    t == Land || t == Lake || t == River || t == Mountain
  }

  /** Every terrain type is either oceanic or continental, and never both. */
  lemma OceanicOrContinental(t: Terrain)
    ensures IsOceanic(t) != IsContinental(t)
  {
  }
}
