/**
 * The ocean flood fill of decideTerrainTypes: starting from the top-left
 * cell, a first-in first-out traversal marks as ocean every cell at or
 * below sea level that can be reached from (0, 0) through such cells.
 * The start cell is marked whatever its height, and it is not marked as
 * seen when it is first queued, so it may be queued once more.
 */
module OceanFill {

  import opened WorldTables
  import opened GridGeometry

  /** The cell c lies on the grid, at or below sea level. */
  ghost predicate Low(heightmap: array2<byte>, sealevel: int, c: (int, int))
    reads heightmap
  {
    InGrid(c, heightmap.Length0, heightmap.Length1) && heightmap[c.0, c.1] as int <= sealevel
  }

  /** A walk from (0, 0), one side-by-side step at a time, every cell after the first at or below sea level. */
  ghost predicate LowWalk(heightmap: array2<byte>, sealevel: int, p: seq<(int, int)>)
    reads heightmap
  {
    |p| > 0 && p[0] == (0, 0) &&
    forall i :: 1 <= i < |p| ==> Adjacent(p[i - 1], p[i]) && Low(heightmap, sealevel, p[i])
  }

  /** Some low walk from (0, 0) ends at c: c belongs to the ocean. */
  ghost predicate SeaConnected(heightmap: array2<byte>, sealevel: int, c: (int, int))
    reads heightmap
  {
    exists p :: LowWalk(heightmap, sealevel, p) && p[|p| - 1] == c
  }

  /** Every entry of a neighbour list is side by side with its cell. */
  lemma NeighborAdjacent(x: int, y: int, width: int, height: int, n: Neighbor)
    requires n in CellNeighbors(x, y, width, height)
    ensures Adjacent((x, y), (n.x, n.y))
  {
    assert LabelledFrom(x, y, n);
  }

  /** Every on-grid cell side by side with (x, y) is in its neighbour list. */
  lemma AdjacentInList(x: int, y: int, width: int, height: int, b: (int, int))
    requires Adjacent((x, y), b) && InGrid(b, width, height)
    ensures exists n :: n in CellNeighbors(x, y, width, height) && (n.x, n.y) == b
  {
    var d := if b.0 == x - 1 then Left else if b.0 == x + 1 then Right else if b.1 == y - 1 then Up else Down;
    NeighborInList(x, y, width, height, d);
  }

  /** Every low neighbour of the cell (x, y) has been seen. */
  ghost predicate Flooded(heightmap: array2<byte>, sealevel: int, seen: array2<bool>, x: int, y: int)
    reads heightmap, seen
    requires seen.Length0 == heightmap.Length0 && seen.Length1 == heightmap.Length1
  {
    forall n :: n in CellNeighbors(x, y, seen.Length0, seen.Length1) && Low(heightmap, sealevel, (n.x, n.y)) ==>
      seen[n.x, n.y]
  }

  /** An ocean cell is still queued, or all its low neighbours have been seen. */
  ghost predicate Waiting(heightmap: array2<byte>, sealevel: int, isOcean: array2<bool>, seen: array2<bool>,
                          q: seq<(int, int)>, x: int, y: int)
    reads heightmap, isOcean, seen
    requires seen.Length0 == isOcean.Length0 == heightmap.Length0 && seen.Length1 == isOcean.Length1 == heightmap.Length1
    requires 0 <= x < seen.Length0 && 0 <= y < seen.Length1
  {
    isOcean[x, y] ==> (x, y) in q || Flooded(heightmap, sealevel, seen, x, y)
  }

  /**
   * What the fill keeps true of the cell (x, y): it is unseen exactly when
   * it is not marked seen; once seen or marked ocean it has a low walk
   * recorded; and once seen it is marked ocean or still queued.
   */
  ghost predicate FillCell(isOcean: array2<bool>, seen: array2<bool>, q: seq<(int, int)>,
                           walks: map<(int, int), seq<(int, int)>>, unseen: set<(int, int)>, x: int, y: int)
    reads isOcean, seen
    requires seen.Length0 == isOcean.Length0 && seen.Length1 == isOcean.Length1
    requires 0 <= x < seen.Length0 && 0 <= y < seen.Length1
  {
    ((x, y) in unseen <==> !seen[x, y]) &&
    (isOcean[x, y] || seen[x, y] ==> (x, y) in walks) &&
    (seen[x, y] ==> isOcean[x, y] || (x, y) in q)
  }

  /** The arrays of the fill cover the heightmap's grid. */
  predicate FillShape(heightmap: array2<byte>, isOcean: array2<bool>, seen: array2<bool>) {
    isOcean != seen &&
    seen.Length0 == isOcean.Length0 == heightmap.Length0 && seen.Length1 == isOcean.Length1 == heightmap.Length1
  }

  /**
   * What holds of the fill between two steps: every recorded walk is a low
   * walk to its cell, queued cells are on the grid with a walk, the start
   * cell is ocean, and every cell is in its state.
   */
  ghost predicate FillState(heightmap: array2<byte>, sealevel: int, isOcean: array2<bool>, seen: array2<bool>,
                            q: seq<(int, int)>, walks: map<(int, int), seq<(int, int)>>, unseen: set<(int, int)>)
    reads heightmap, isOcean, seen
  {
    FillShape(heightmap, isOcean, seen) && 0 < seen.Length0 && 0 < seen.Length1 && isOcean[0, 0] &&
    (forall c :: c in walks ==> LowWalk(heightmap, sealevel, walks[c]) && walks[c][|walks[c]| - 1] == c) &&
    (forall i :: 0 <= i < |q| ==> InGrid(q[i], seen.Length0, seen.Length1) && q[i] in walks) &&
    (forall c :: c in unseen ==> InGrid(c, seen.Length0, seen.Length1)) &&
    (forall x, y :: 0 <= x < seen.Length0 && 0 <= y < seen.Length1 ==> FillCell(isOcean, seen, q, walks, unseen, x, y))
  }

  /**
   * Marks the low, unseen neighbour (nx, ny) of (cx, cy) as seen, queues it,
   * and records a walk to it through (cx, cy).
   */
  method SeeNeighbor(heightmap: array2<byte>, sealevel: int, isOcean: array2<bool>, seen: array2<bool>,
                     cx: int, cy: int, nx: int, ny: int,
                     q: seq<(int, int)>, ghost walks: map<(int, int), seq<(int, int)>>, ghost unseen: set<(int, int)>)
    returns (q': seq<(int, int)>, ghost walks': map<(int, int), seq<(int, int)>>, ghost unseen': set<(int, int)>)
    modifies seen
    requires FillState(heightmap, sealevel, isOcean, seen, q, walks, unseen)
    requires (cx, cy) in walks && Adjacent((cx, cy), (nx, ny))
    requires Low(heightmap, sealevel, (nx, ny)) && !seen[nx, ny]
    requires forall i, j :: 0 <= i < seen.Length0 && 0 <= j < seen.Length1 && (i != cx || j != cy) ==>
               Waiting(heightmap, sealevel, isOcean, seen, q, i, j)
    ensures seen[nx, ny] && q' == q + [(nx, ny)]
    ensures forall i, j :: 0 <= i < seen.Length0 && 0 <= j < seen.Length1 && (i != nx || j != ny) ==>
              seen[i, j] == old(seen[i, j])
    ensures forall i, j :: 0 <= i < seen.Length0 && 0 <= j < seen.Length1 && (i != cx || j != cy) ==>
              Waiting(heightmap, sealevel, isOcean, seen, q', i, j)
    ensures FillState(heightmap, sealevel, isOcean, seen, q', walks', unseen')
    ensures (cx, cy) in walks' && unseen' == unseen - {(nx, ny)} && |unseen'| + 1 == |unseen|
  {
    var walk := walks[(cx, cy)] + [(nx, ny)];
    assert LowWalk(heightmap, sealevel, walk) by {
      assert LowWalk(heightmap, sealevel, walks[(cx, cy)]);
      assert walks[(cx, cy)][|walks[(cx, cy)]| - 1] == (cx, cy);
    }
    assert FillCell(isOcean, seen, q, walks, unseen, nx, ny);
    seen[nx, ny] := true;
    q' := q + [(nx, ny)];
    walks' := walks[(nx, ny) := walk];
    unseen' := unseen - {(nx, ny)};
    forall i, j | 0 <= i < seen.Length0 && 0 <= j < seen.Length1
      ensures FillCell(isOcean, seen, q', walks', unseen', i, j)
    {
      if i != nx || j != ny {
        assert old(FillCell(isOcean, seen, q, walks, unseen, i, j));
      }
    }
    forall i, j | 0 <= i < seen.Length0 && 0 <= j < seen.Length1 && (i != cx || j != cy)
      ensures Waiting(heightmap, sealevel, isOcean, seen, q', i, j)
    {
      assert old(Waiting(heightmap, sealevel, isOcean, seen, q, i, j));
      if old(Flooded(heightmap, sealevel, seen, i, j)) {
        assert Flooded(heightmap, sealevel, seen, i, j);
      }
    }
  }

  /** The low cells among the first k neighbours have all been seen: none is left unseen. */
  ghost predicate Visited(heightmap: array2<byte>, sealevel: int, neighbors: seq<Neighbor>, k: int, unseen: set<(int, int)>)
    reads heightmap
    requires 0 <= k <= |neighbors|
  {
    forall m :: 0 <= m < k && Low(heightmap, sealevel, (neighbors[m].x, neighbors[m].y)) ==>
      (neighbors[m].x, neighbors[m].y) !in unseen
  }

  /**
   * One turn of the inner loop: the k-th neighbour of the taken cell (cx, cy)
   * is marked seen and queued when it is at or below sea level and unseen.
   */
  method VisitNeighbor(heightmap: array2<byte>, sealevel: int, isOcean: array2<bool>, seen: array2<bool>,
                       neighbors: seq<Neighbor>, k: int, cx: int, cy: int,
                       q: seq<(int, int)>, ghost walks: map<(int, int), seq<(int, int)>>, ghost unseen: set<(int, int)>)
    returns (q': seq<(int, int)>, ghost walks': map<(int, int), seq<(int, int)>>, ghost unseen': set<(int, int)>)
    modifies seen
    requires FillState(heightmap, sealevel, isOcean, seen, q, walks, unseen) && (cx, cy) in walks
    requires neighbors == CellNeighbors(cx, cy, seen.Length0, seen.Length1) && 0 <= k < |neighbors|
    requires forall i, j :: 0 <= i < seen.Length0 && 0 <= j < seen.Length1 && (i != cx || j != cy) ==>
               Waiting(heightmap, sealevel, isOcean, seen, q, i, j)
    requires Visited(heightmap, sealevel, neighbors, k, unseen)
    ensures FillState(heightmap, sealevel, isOcean, seen, q', walks', unseen') && (cx, cy) in walks'
    ensures forall i, j :: 0 <= i < seen.Length0 && 0 <= j < seen.Length1 && (i != cx || j != cy) ==>
              Waiting(heightmap, sealevel, isOcean, seen, q', i, j)
    ensures Visited(heightmap, sealevel, neighbors, k + 1, unseen')
    ensures unseen' <= unseen && |unseen'| <= |unseen| && |unseen'| + |q'| == |unseen| + |q|
  {
    var n := neighbors[k];
    assert OnGrid(n, seen.Length0, seen.Length1);
    NeighborAdjacent(cx, cy, seen.Length0, seen.Length1, n);
    if heightmap[n.x, n.y] as int <= sealevel && !seen[n.x, n.y] {
      q', walks', unseen' := SeeNeighbor(heightmap, sealevel, isOcean, seen, cx, cy, n.x, n.y, q, walks, unseen);
    } else {
      q', walks', unseen' := q, walks, unseen;
      assert FillCell(isOcean, seen, q, walks, unseen, n.x, n.y);
    }
  }

  /**
   * The inner loop of the fill for the taken cell (cx, cy): every neighbour
   * at or below sea level that has not been seen is marked seen and queued,
   * in the order of the neighbour table. Afterwards (cx, cy) is flooded.
   */
  method FloodAround(heightmap: array2<byte>, sealevel: int, isOcean: array2<bool>, seen: array2<bool>,
                     cellNeighbors: array2<seq<Neighbor>>, cx: int, cy: int,
                     q: seq<(int, int)>, ghost walks: map<(int, int), seq<(int, int)>>, ghost unseen: set<(int, int)>)
    returns (q': seq<(int, int)>, ghost walks': map<(int, int), seq<(int, int)>>, ghost unseen': set<(int, int)>)
    modifies seen
    requires FillState(heightmap, sealevel, isOcean, seen, q, walks, unseen)
    requires 0 <= cx < seen.Length0 && 0 <= cy < seen.Length1 && isOcean[cx, cy] && (cx, cy) in walks
    requires 0 <= cx < cellNeighbors.Length0 && 0 <= cy < cellNeighbors.Length1
    requires cellNeighbors[cx, cy] == CellNeighbors(cx, cy, seen.Length0, seen.Length1)
    requires forall i, j :: 0 <= i < seen.Length0 && 0 <= j < seen.Length1 && (i != cx || j != cy) ==>
               Waiting(heightmap, sealevel, isOcean, seen, q, i, j)
    ensures FillState(heightmap, sealevel, isOcean, seen, q', walks', unseen')
    ensures forall i, j :: 0 <= i < seen.Length0 && 0 <= j < seen.Length1 ==> Waiting(heightmap, sealevel, isOcean, seen, q', i, j)
    ensures |unseen'| <= |unseen| && |unseen'| + |q'| == |unseen| + |q|
  {
    var neighbors := cellNeighbors[cx, cy];
    q', walks', unseen' := q, walks, unseen;
    for k := 0 to |neighbors|
      invariant FillState(heightmap, sealevel, isOcean, seen, q', walks', unseen') && (cx, cy) in walks'
      invariant forall i, j :: 0 <= i < seen.Length0 && 0 <= j < seen.Length1 && (i != cx || j != cy) ==>
                  Waiting(heightmap, sealevel, isOcean, seen, q', i, j)
      invariant Visited(heightmap, sealevel, neighbors, k, unseen')
      invariant |unseen'| <= |unseen| && |unseen'| + |q'| == |unseen| + |q|
    {
      q', walks', unseen' := VisitNeighbor(heightmap, sealevel, isOcean, seen, neighbors, k, cx, cy, q', walks', unseen');
    }
    forall n | n in neighbors && Low(heightmap, sealevel, (n.x, n.y)) ensures seen[n.x, n.y] {
      var m :| 0 <= m < |neighbors| && neighbors[m] == n;
      assert FillCell(isOcean, seen, q', walks', unseen', n.x, n.y);
    }
  }

  /**
   * The ocean flood fill. The start cell (0, 0) is marked ocean and queued;
   * then, first in first out, each taken cell is marked ocean and every
   * neighbour at or below sea level that has not been seen is marked seen
   * and queued. The cells marked ocean are exactly those a low walk from
   * (0, 0) reaches.
   */
  method FillOcean(heightmap: array2<byte>, sealevel: int, cellNeighbors: array2<seq<Neighbor>>) returns (isOcean: array2<bool>)
    requires 0 < heightmap.Length0 && 0 < heightmap.Length1
    requires cellNeighbors.Length0 == heightmap.Length0 && cellNeighbors.Length1 == heightmap.Length1
    requires forall x, y :: 0 <= x < heightmap.Length0 && 0 <= y < heightmap.Length1 ==>
               cellNeighbors[x, y] == CellNeighbors(x, y, heightmap.Length0, heightmap.Length1)
    ensures fresh(isOcean)
    ensures isOcean.Length0 == heightmap.Length0 && isOcean.Length1 == heightmap.Length1
    ensures forall x, y :: 0 <= x < heightmap.Length0 && 0 <= y < heightmap.Length1 ==>
              (isOcean[x, y] <==> SeaConnected(heightmap, sealevel, (x, y)))
  {
    var width, height := heightmap.Length0, heightmap.Length1;
    var seen := new bool[width, height]((i, j) => false);
    isOcean := new bool[width, height]((i, j) => false);
    isOcean[0, 0] := true;
    var q := [(0, 0)];
    ghost var walks := map[(0, 0) := [(0, 0)]];
    ghost var unseen := GridCells(width, height);
    forall i, j | 0 <= i < width && 0 <= j < height
      ensures FillCell(isOcean, seen, q, walks, unseen, i, j) && Waiting(heightmap, sealevel, isOcean, seen, q, i, j)
    {
    }
    while q != []
      invariant FillState(heightmap, sealevel, isOcean, seen, q, walks, unseen)
      invariant forall i, j :: 0 <= i < width && 0 <= j < height ==> Waiting(heightmap, sealevel, isOcean, seen, q, i, j)
      decreases |unseen|, |q|
    {
      var c;
      c, q := TakeCell(heightmap, sealevel, isOcean, seen, q, walks, unseen);
      q, walks, unseen := FloodAround(heightmap, sealevel, isOcean, seen, cellNeighbors, c.0, c.1, q, walks, unseen);
    }
    FillComplete(heightmap, sealevel, isOcean, seen, walks, unseen);
  }

  /** Takes the first queued cell and marks it as ocean. */
  method TakeCell(heightmap: array2<byte>, sealevel: int, isOcean: array2<bool>, seen: array2<bool>,
                  q: seq<(int, int)>, ghost walks: map<(int, int), seq<(int, int)>>, ghost unseen: set<(int, int)>)
    returns (c: (int, int), q': seq<(int, int)>)
    modifies isOcean
    requires FillState(heightmap, sealevel, isOcean, seen, q, walks, unseen) && q != []
    requires forall i, j :: 0 <= i < seen.Length0 && 0 <= j < seen.Length1 ==> Waiting(heightmap, sealevel, isOcean, seen, q, i, j)
    ensures c == q[0] && q' == q[1..]
    ensures InGrid(c, seen.Length0, seen.Length1) && isOcean[c.0, c.1] && c in walks
    ensures forall i, j :: 0 <= i < isOcean.Length0 && 0 <= j < isOcean.Length1 && (i != c.0 || j != c.1) ==>
              isOcean[i, j] == old(isOcean[i, j])
    ensures FillState(heightmap, sealevel, isOcean, seen, q', walks, unseen)
    ensures forall i, j :: 0 <= i < seen.Length0 && 0 <= j < seen.Length1 && (i != c.0 || j != c.1) ==>
              Waiting(heightmap, sealevel, isOcean, seen, q', i, j)
  {
    c, q' := q[0], q[1..];
    isOcean[c.0, c.1] := true;
    forall i, j | 0 <= i < seen.Length0 && 0 <= j < seen.Length1
      ensures FillCell(isOcean, seen, q', walks, unseen, i, j)
      ensures (i != c.0 || j != c.1) ==> Waiting(heightmap, sealevel, isOcean, seen, q', i, j)
    {
      assert old(FillCell(isOcean, seen, q, walks, unseen, i, j));
      assert old(Waiting(heightmap, sealevel, isOcean, seen, q, i, j));
      assert forall e :: e in q && e != c ==> e in q';
    }
  }

  /**
   * When the queue is empty the marked cells are exactly the sea-connected
   * ones: each has a recorded low walk, and along any low walk every cell
   * is marked, since each marked cell has all its low neighbours seen.
   */
  lemma FillComplete(heightmap: array2<byte>, sealevel: int, isOcean: array2<bool>, seen: array2<bool>,
                     walks: map<(int, int), seq<(int, int)>>, unseen: set<(int, int)>)
    requires FillState(heightmap, sealevel, isOcean, seen, [], walks, unseen)
    requires forall i, j :: 0 <= i < seen.Length0 && 0 <= j < seen.Length1 ==> Waiting(heightmap, sealevel, isOcean, seen, [], i, j)
    ensures forall x, y :: 0 <= x < seen.Length0 && 0 <= y < seen.Length1 ==>
              (isOcean[x, y] <==> SeaConnected(heightmap, sealevel, (x, y)))
  {
    forall x, y | 0 <= x < seen.Length0 && 0 <= y < seen.Length1
      ensures isOcean[x, y] <==> SeaConnected(heightmap, sealevel, (x, y))
    {
      if isOcean[x, y] {
        assert FillCell(isOcean, seen, [], walks, unseen, x, y);
        assert LowWalk(heightmap, sealevel, walks[(x, y)]);
      }
      if SeaConnected(heightmap, sealevel, (x, y)) {
        var p :| LowWalk(heightmap, sealevel, p) && p[|p| - 1] == (x, y);
        WalkMarked(heightmap, sealevel, isOcean, seen, walks, unseen, p, |p| - 1);
      }
    }
  }

  /** Every cell of a low walk is marked ocean once the queue is empty. */
  lemma {:induction false} WalkMarked(heightmap: array2<byte>, sealevel: int, isOcean: array2<bool>, seen: array2<bool>,
                                      walks: map<(int, int), seq<(int, int)>>, unseen: set<(int, int)>,
                                      p: seq<(int, int)>, i: int)
    requires FillState(heightmap, sealevel, isOcean, seen, [], walks, unseen)
    requires forall x, y :: 0 <= x < seen.Length0 && 0 <= y < seen.Length1 ==> Waiting(heightmap, sealevel, isOcean, seen, [], x, y)
    requires LowWalk(heightmap, sealevel, p) && 0 <= i < |p|
    ensures InGrid(p[i], seen.Length0, seen.Length1) && isOcean[p[i].0, p[i].1]
  {
    if i > 0 {
      WalkMarked(heightmap, sealevel, isOcean, seen, walks, unseen, p, i - 1);
      var a, b := p[i - 1], p[i];
      assert Waiting(heightmap, sealevel, isOcean, seen, [], a.0, a.1);
      AdjacentInList(a.0, a.1, seen.Length0, seen.Length1, b);
      assert FillCell(isOcean, seen, [], walks, unseen, b.0, b.1);
    }
  }
}
