/**
 * Depression removal (removeDepressions): the two-queue priority-flood of
 * Barnes, Lehman and Mulla (arXiv 1511.04463). Water heights start as a
 * copy of the heightmap and are only ever raised, to the water height of
 * the cell that reached them, so that afterwards water can run from every
 * cell to the edge of the map without climbing.
 */
module DepressionRemoval {

  import opened WorldTables
  import opened GridGeometry
  import opened FloodQueues

  /** The neighbour `n` lies on the grid and is closed. */
  ghost predicate IsClosed(closed: array2<bool>, n: Neighbor)
    reads closed
  {
    0 <= n.x < closed.Length0 && 0 <= n.y < closed.Length1 && closed[n.x, n.y]
  }

  /** The queue entry `e` names a closed cell of the grid. */
  ghost predicate ClosedEntry(closed: array2<bool>, e: Entry)
    reads closed
  {
    0 <= e.x < closed.Length0 && 0 <= e.y < closed.Length1 && closed[e.x, e.y]
  }

  /** Every neighbour of (x, y) on the grid is closed. */
  ghost predicate Settled(closed: array2<bool>, x: int, y: int)
    reads closed
  {
    forall n :: n in CellNeighbors(x, y, closed.Length0, closed.Length1) ==> IsClosed(closed, n)
  }

  /** A closed cell is still waiting in one of the queues, or all its neighbours are closed. */
  ghost predicate Pending(closed: array2<bool>, open: seq<Entry>, pit: seq<Entry>, x: int, y: int)
    reads closed
    requires 0 <= x < closed.Length0 && 0 <= y < closed.Length1
  {
    closed[x, y] ==> Queued(open, x, y) || Queued(pit, x, y) || Settled(closed, x, y)
  }

  /**
   * Water runs from (x, y) to an edge cell in at most `fuel` steps, each to
   * a neighbour whose water height is no higher.
   */
  ghost predicate Drains(wh: array2<byte>, x: int, y: int, fuel: nat)
    reads wh
    decreases fuel, 1
  {
    0 <= x < wh.Length0 && 0 <= y < wh.Length1 &&
    (IsEdge(x, y, wh.Length0, wh.Length1) ||
     (fuel > 0 && (DrainsToward(wh, x, y, Left, fuel) || DrainsToward(wh, x, y, Right, fuel) ||
                   DrainsToward(wh, x, y, Up, fuel) || DrainsToward(wh, x, y, Down, fuel))))
  }

  /** Water runs from (x, y) to its neighbour in direction d, no higher, and drains from there in fuel - 1 steps. */
  ghost predicate DrainsToward(wh: array2<byte>, x: int, y: int, d: Direction, fuel: nat)
    reads wh
    requires fuel > 0
    decreases fuel, 0
  {
    var n := Step(x, y, d);
    0 <= x < wh.Length0 && 0 <= y < wh.Length1 && 0 <= n.0 < wh.Length0 && 0 <= n.1 < wh.Length1 &&
    wh[n.0, n.1] <= wh[x, y] && Drains(wh, n.0, n.1, fuel - 1)
  }

  /** More steps never hurt. */
  lemma {:induction false} DrainsMonotone(wh: array2<byte>, x: int, y: int, fuel: nat, more: nat)
    requires Drains(wh, x, y, fuel) && fuel <= more
    ensures Drains(wh, x, y, more)
    decreases fuel
  {
    if !IsEdge(x, y, wh.Length0, wh.Length1) {
      var d :=
        if DrainsToward(wh, x, y, Left, fuel) then Left
        else if DrainsToward(wh, x, y, Right, fuel) then Right
        else if DrainsToward(wh, x, y, Up, fuel) then Up
        else Down;
      assert DrainsToward(wh, x, y, d, fuel);
      var n := Step(x, y, d);
      DrainsMonotone(wh, n.0, n.1, fuel - 1, more - 1);
      assert DrainsToward(wh, x, y, d, more);
    }
  }

  /**
   * The record the traversal keeps of how an inner cell was reached:
   * `toward` is the direction from the cell back to the closed cell that
   * reached it, closed strictly earlier (a lower `rank`), no higher, and
   * exactly as high when the cell was raised.
   */
  ghost predicate ReachedFromBelow(heightmap: array2<byte>, wh: array2<byte>, closed: array2<bool>,
                                   toward: map<(int, int), Direction>, rank: map<(int, int), nat>, x: int, y: int)
    reads heightmap, wh, closed
    requires wh.Length0 == heightmap.Length0 == closed.Length0 && wh.Length1 == heightmap.Length1 == closed.Length1
    requires 0 <= x < wh.Length0 && 0 <= y < wh.Length1
  {
    (x, y) in toward && (x, y) in rank && toward[(x, y)] != NoDirection &&
    var p := Step(x, y, toward[(x, y)]);
    0 <= p.0 < wh.Length0 && 0 <= p.1 < wh.Length1 && closed[p.0, p.1] && p in rank && rank[p] < rank[(x, y)] &&
    wh[p.0, p.1] <= wh[x, y] && (wh[x, y] > heightmap[x, y] ==> wh[p.0, p.1] == wh[x, y])
  }


  /** The heightmap, the water heights and the closed flags cover the same grid. */
  predicate SameShape(heightmap: array2<byte>, waterheight: array2<byte>, closed: array2<bool>) {
    waterheight.Length0 == heightmap.Length0 == closed.Length0 && waterheight.Length1 == heightmap.Length1 == closed.Length1
  }

  /**
   * What the flood keeps true of the cell (x, y) between two steps: its
   * water is never below the ground and is untouched until it is closed;
   * an edge cell is closed at its own height; it is unclosed exactly when
   * it is not closed; and once closed it has a rank and, when inner, a
   * record of the cell that reached it.
   */
  ghost predicate CellState(heightmap: array2<byte>, waterheight: array2<byte>, closed: array2<bool>,
                            toward: map<(int, int), Direction>, rank: map<(int, int), nat>, unclosed: set<(int, int)>,
                            x: int, y: int)
    reads heightmap, waterheight, closed
    requires SameShape(heightmap, waterheight, closed)
    requires 0 <= x < closed.Length0 && 0 <= y < closed.Length1
  {
    var width, height := closed.Length0, closed.Length1;
    waterheight[x, y] >= heightmap[x, y] &&
    (!closed[x, y] ==> waterheight[x, y] == heightmap[x, y]) &&
    (IsEdge(x, y, width, height) ==> closed[x, y] && waterheight[x, y] == heightmap[x, y]) &&
    ((x, y) in unclosed <==> !closed[x, y]) &&
    (closed[x, y] ==> (x, y) in rank) &&
    (closed[x, y] && !IsEdge(x, y, width, height) ==> ReachedFromBelow(heightmap, waterheight, closed, toward, rank, x, y))
  }

  /** Following the traversal's record, every cell drains within as many steps as its rank. */
  lemma {:induction false} DrainsByRank(heightmap: array2<byte>, wh: array2<byte>, closed: array2<bool>,
                                        toward: map<(int, int), Direction>, rank: map<(int, int), nat>,
                                        unclosed: set<(int, int)>, x: int, y: int)
    requires SameShape(heightmap, wh, closed)
    requires forall i, j :: 0 <= i < closed.Length0 && 0 <= j < closed.Length1 ==>
               closed[i, j] && CellState(heightmap, wh, closed, toward, rank, unclosed, i, j)
    requires 0 <= x < closed.Length0 && 0 <= y < closed.Length1 && (x, y) in rank
    ensures Drains(wh, x, y, rank[(x, y)])
    decreases rank[(x, y)]
  {
    if !IsEdge(x, y, wh.Length0, wh.Length1) {
      assert CellState(heightmap, wh, closed, toward, rank, unclosed, x, y);
      var d := toward[(x, y)];
      var p := Step(x, y, d);
      DrainsByRank(heightmap, wh, closed, toward, rank, unclosed, p.0, p.1);
      DrainsMonotone(wh, p.0, p.1, rank[p], rank[(x, y)] - 1);
      assert DrainsToward(wh, x, y, d, rank[(x, y)]);
    }
  }

  /**
   * A closed set that every closed cell has settled, and that holds every
   * edge cell, is the whole grid: the flood reaches every cell.
   */
  lemma {:induction false} AllClosed(closed: array2<bool>, x: int, y: int)
    requires forall i, j :: 0 <= i < closed.Length0 && 0 <= j < closed.Length1 && IsEdge(i, j, closed.Length0, closed.Length1) ==>
               closed[i, j]
    requires forall i, j :: 0 <= i < closed.Length0 && 0 <= j < closed.Length1 && closed[i, j] ==> Settled(closed, i, j)
    requires 0 <= x < closed.Length0 && 0 <= y < closed.Length1
    ensures closed[x, y]
    decreases y
  {
    if y > 0 {
      AllClosed(closed, x, y - 1);
      NeighborInList(x, y - 1, closed.Length0, closed.Length1, Down);
    }
  }

  /** Some neighbour of (x, y) holds water at the same height as (x, y). */
  predicate LevelWithNeighbor(wh: array2<byte>, x: int, y: int)
    reads wh
  {
    exists n :: n in CellNeighbors(x, y, wh.Length0, wh.Length1) && IsLevel(wh, x, y, n)
  }

  /** The neighbour `n` of (x, y) lies on the grid and holds water at the height of (x, y). */
  predicate IsLevel(wh: array2<byte>, x: int, y: int, n: Neighbor)
    reads wh
  {
    0 <= x < wh.Length0 && 0 <= y < wh.Length1 && 0 <= n.x < wh.Length0 && 0 <= n.y < wh.Length1 &&
    wh[n.x, n.y] == wh[x, y]
  }

  /**
   * The neighbour table of removeDepressions: for every cell, its on-grid
   * neighbours, each labelled with the direction towards it.
   */
  method NeighborTable(width: nat, height: nat) returns (cellNeighbors: array2<seq<Neighbor>>)
    ensures fresh(cellNeighbors)
    ensures cellNeighbors.Length0 == width && cellNeighbors.Length1 == height
    ensures forall x, y :: 0 <= x < width && 0 <= y < height ==> cellNeighbors[x, y] == CellNeighbors(x, y, width, height)
  {
    cellNeighbors := new seq<Neighbor>[width, height]((i, j) => []);
    for x := 0 to width
      invariant forall i, j {:trigger cellNeighbors[i, j]} :: 0 <= i < x && 0 <= j < height ==>
                  cellNeighbors[i, j] == CellNeighbors(i, j, width, height)
    {
      for y := 0 to height
        invariant forall i, j {:trigger cellNeighbors[i, j]} :: 0 <= i < width && 0 <= j < height && (i < x || (i == x && j < y)) ==>
                    cellNeighbors[i, j] == CellNeighbors(i, j, width, height)
      {
        cellNeighbors[x, y] := CellNeighbors(x, y, width, height);
      }
    }
  }

  /**
   * The bookkeeping of the closing order: `order` lists the closed cells,
   * `rank` gives each its position, and `unclosed` holds the cells of the
   * grid not yet closed.
   */
  ghost predicate Ranked(order: seq<(int, int)>, rank: map<(int, int), nat>, unclosed: set<(int, int)>, width: nat, height: nat) {
    (forall k :: 0 <= k < |order| ==> InGrid(order[k], width, height) && order[k] in rank && rank[order[k]] == k) &&
    (forall c :: c in rank ==> rank[c] < |order| && order[rank[c]] == c && c !in unclosed) &&
    (forall c :: c in unclosed ==> InGrid(c, width, height)) &&
    |order| + |unclosed| == |GridCells(width, height)|
  }

  /** Closing the unclosed cell c appends it to the closing order and keeps the bookkeeping. */
  lemma RankedAfterClose(order: seq<(int, int)>, rank: map<(int, int), nat>, unclosed: set<(int, int)>,
                         width: nat, height: nat, c: (int, int))
    requires Ranked(order, rank, unclosed, width, height) && c in unclosed
    ensures Ranked(order + [c], rank[c := |order|], unclosed - {c}, width, height)
    ensures |unclosed - {c}| + 1 == |unclosed|
  {
    var order', rank' := order + [c], rank[c := |order|];
    forall k | 0 <= k < |order'| ensures InGrid(order'[k], width, height) && order'[k] in rank' && rank'[order'[k]] == k {
      if k < |order| {
        assert order'[k] == order[k] != c;
      }
    }
  }

  /**
   * What holds of the flood between two steps: every cell in its state,
   * both queues holding closed cells only, and the closing order kept.
   */
  ghost predicate FloodState(heightmap: array2<byte>, waterheight: array2<byte>, closed: array2<bool>,
                             open: seq<Entry>, pit: seq<Entry>, toward: map<(int, int), Direction>,
                             rank: map<(int, int), nat>, order: seq<(int, int)>, unclosed: set<(int, int)>)
    reads heightmap, waterheight, closed
  {
    SameShape(heightmap, waterheight, closed) &&
    (forall i, j :: 0 <= i < closed.Length0 && 0 <= j < closed.Length1 ==>
       CellState(heightmap, waterheight, closed, toward, rank, unclosed, i, j)) &&
    (forall k :: 0 <= k < |open| ==> ClosedEntry(closed, open[k])) &&
    (forall k :: 0 <= k < |pit| ==> ClosedEntry(closed, pit[k])) &&
    Ranked(order, rank, unclosed, closed.Length0, closed.Length1)
  }

  /**
   * One application of the flood's inner step, as the proofs about it see
   * it: the three grids, the taken cell (cx, cy), its neighbour n being
   * closed, the queues and the bookkeeping before the step, and the queues
   * after it.
   */
  datatype CloseStep = CloseStep(heightmap: array2<byte>, waterheight: array2<byte>, closed: array2<bool>,
                                 cx: int, cy: int, n: Neighbor,
                                 open: seq<Entry>, pit: seq<Entry>, toward: map<(int, int), Direction>,
                                 rank: map<(int, int), nat>, order: seq<(int, int)>, unclosed: set<(int, int)>,
                                 open': seq<Entry>, pit': seq<Entry>)
  {
    /** The cell n as a coordinate pair. */
    function Cell(): (int, int) {
      (n.x, n.y)
    }

    /** The record after the step: n was reached from (cx, cy), the opposite way to its label. */
    function Toward'(): map<(int, int), Direction> {
      toward[Cell() := Opposite(n.dir)]
    }

    /** The ranks after the step: n comes last. */
    function Rank'(): map<(int, int), nat> {
      rank[Cell() := |order|]
    }

    /** The closing order after the step. */
    function Order'(): seq<(int, int)> {
      order + [Cell()]
    }

    /** The cells still unclosed after the step. */
    function Unclosed'(): set<(int, int)> {
      unclosed - {Cell()}
    }

    /** The entry n is queued with: its water height after the step. */
    ghost function Queued'(): Entry
      reads waterheight
      requires 0 <= n.x < waterheight.Length0 && 0 <= n.y < waterheight.Length1
    {
      Entry(n.x, n.y, waterheight[n.x, n.y] as int)
    }

    /**
     * What the step did to the grids and queues, between the state before
     * it and the state after it: n alone was closed, raised to the water of
     * (cx, cy) when no higher, and queued in `pit` when raised, in `open`
     * otherwise.
     */
    twostate predicate Done()
      reads heightmap, waterheight, closed
    {
      old(FloodState(heightmap, waterheight, closed, open, pit, toward, rank, order, unclosed)) &&
      SameShape(heightmap, waterheight, closed) && unchanged(heightmap) &&
      0 <= cx < closed.Length0 && 0 <= cy < closed.Length1 && old(closed[cx, cy]) &&
      OnGrid(n, closed.Length0, closed.Length1) && LabelledFrom(cx, cy, n) &&
      old(!closed[n.x, n.y]) && closed[n.x, n.y] &&
      (forall a, b :: 0 <= a < closed.Length0 && 0 <= b < closed.Length1 && (a != n.x || b != n.y) ==>
         closed[a, b] == old(closed[a, b]) && waterheight[a, b] == old(waterheight[a, b])) &&
      waterheight[n.x, n.y] == (if old(waterheight[n.x, n.y]) <= waterheight[cx, cy] then waterheight[cx, cy]
                                else old(waterheight[n.x, n.y])) &&
      ((open' == open && pit' == pit + [Queued'()]) || (open' == open + [Queued'()] && pit' == pit))
    }
  }

  /** The step keeps the state of every cell other than n. */
  twostate lemma CellStatesAfterClose(s: CloseStep)
    requires s.Done()
    ensures forall i, j :: 0 <= i < s.closed.Length0 && 0 <= j < s.closed.Length1 && (i, j) != s.Cell() ==>
              CellState(s.heightmap, s.waterheight, s.closed, s.Toward'(), s.Rank'(), s.Unclosed'(), i, j)
  {
    assert old(CellState(s.heightmap, s.waterheight, s.closed, s.toward, s.rank, s.unclosed, s.n.x, s.n.y));
    forall i, j | 0 <= i < s.closed.Length0 && 0 <= j < s.closed.Length1 && (i, j) != s.Cell()
      ensures CellState(s.heightmap, s.waterheight, s.closed, s.Toward'(), s.Rank'(), s.Unclosed'(), i, j)
    {
      assert old(CellState(s.heightmap, s.waterheight, s.closed, s.toward, s.rank, s.unclosed, i, j));
    }
  }

  /** The step keeps the flood's state, with n appended to the closing order. */
  twostate lemma FloodStateAfterClose(s: CloseStep)
    requires s.Done()
    requires forall i, j :: 0 <= i < s.closed.Length0 && 0 <= j < s.closed.Length1 && (i, j) != s.Cell() ==>
               CellState(s.heightmap, s.waterheight, s.closed, s.Toward'(), s.Rank'(), s.Unclosed'(), i, j)
    ensures FloodState(s.heightmap, s.waterheight, s.closed, s.open', s.pit', s.Toward'(), s.Rank'(), s.Order'(), s.Unclosed'())
  {
    assert old(CellState(s.heightmap, s.waterheight, s.closed, s.toward, s.rank, s.unclosed, s.cx, s.cy));
    assert old(CellState(s.heightmap, s.waterheight, s.closed, s.toward, s.rank, s.unclosed, s.n.x, s.n.y));
    RankedAfterClose(s.order, s.rank, s.unclosed, s.closed.Length0, s.closed.Length1, s.Cell());
    StepBack(s.cx, s.cy, s.n.dir);
    OppositeInvolution(s.n.dir);
    assert CellState(s.heightmap, s.waterheight, s.closed, s.Toward'(), s.Rank'(), s.Unclosed'(), s.n.x, s.n.y);
    forall k | 0 <= k < |s.open'| ensures ClosedEntry(s.closed, s.open'[k]) {
      if k < |s.open| {
        assert old(ClosedEntry(s.closed, s.open[k]));
      }
    }
    forall k | 0 <= k < |s.pit'| ensures ClosedEntry(s.closed, s.pit'[k]) {
      if k < |s.pit| {
        assert old(ClosedEntry(s.closed, s.pit[k]));
      }
    }
  }

  /** The step keeps every cell other than the taken one pending. */
  twostate lemma PendingAfterClose(s: CloseStep)
    requires s.Done()
    requires forall i, j :: 0 <= i < s.closed.Length0 && 0 <= j < s.closed.Length1 && (i != s.cx || j != s.cy) ==>
               old(Pending(s.closed, s.open, s.pit, i, j))
    ensures forall i, j :: 0 <= i < s.closed.Length0 && 0 <= j < s.closed.Length1 && (i != s.cx || j != s.cy) ==>
              Pending(s.closed, s.open', s.pit', i, j)
  {
    var closed, e := s.closed, s.Queued'();
    forall i, j | 0 <= i < closed.Length0 && 0 <= j < closed.Length1 && (i != s.cx || j != s.cy)
      ensures Pending(closed, s.open', s.pit', i, j)
    {
      if i == s.n.x && j == s.n.y {
        if s.open' == s.open + [e] {
          QueuedAfterAppend(s.open, e, i, j);
        } else {
          QueuedAfterAppend(s.pit, e, i, j);
        }
      } else {
        assert old(Pending(closed, s.open, s.pit, i, j));
        if Queued(s.open, i, j) {
          QueuedAfterAppend(s.open, e, i, j);
        }
        if Queued(s.pit, i, j) {
          QueuedAfterAppend(s.pit, e, i, j);
        }
        if old(Settled(closed, i, j)) {
          forall m | m in CellNeighbors(i, j, closed.Length0, closed.Length1) ensures IsClosed(closed, m) {
            assert old(IsClosed(closed, m));
          }
        }
      }
    }
  }

  /** The step keeps the flood's state and every cell other than the taken one pending. */
  twostate lemma FloodAfterClose(s: CloseStep)
    requires s.Done()
    requires forall i, j :: 0 <= i < s.closed.Length0 && 0 <= j < s.closed.Length1 && (i != s.cx || j != s.cy) ==>
               old(Pending(s.closed, s.open, s.pit, i, j))
    ensures FloodState(s.heightmap, s.waterheight, s.closed, s.open', s.pit', s.Toward'(), s.Rank'(), s.Order'(), s.Unclosed'())
    ensures forall i, j :: 0 <= i < s.closed.Length0 && 0 <= j < s.closed.Length1 && (i != s.cx || j != s.cy) ==>
              Pending(s.closed, s.open', s.pit', i, j)
    ensures |s.Unclosed'()| + 1 == |s.unclosed|
  {
    assert old(CellState(s.heightmap, s.waterheight, s.closed, s.toward, s.rank, s.unclosed, s.n.x, s.n.y));
    CellStatesAfterClose(s);
    FloodStateAfterClose(s);
    PendingAfterClose(s);
  }

  /**
   * Closes the cell (nx, ny) and, when its water is no higher than that of
   * (cx, cy), raises it to that level; reports whether it was raised.
   */
  method CloseAndRaise(waterheight: array2<byte>, closed: array2<bool>, cx: int, cy: int, nx: int, ny: int)
    returns (raised: bool)
    modifies closed, waterheight
    requires waterheight.Length0 == closed.Length0 && waterheight.Length1 == closed.Length1
    requires 0 <= cx < closed.Length0 && 0 <= cy < closed.Length1 && 0 <= nx < closed.Length0 && 0 <= ny < closed.Length1
    requires cx != nx || cy != ny
    ensures raised <==> old(waterheight[nx, ny]) <= old(waterheight[cx, cy])
    ensures closed[nx, ny]
    ensures waterheight[nx, ny] == if raised then old(waterheight[cx, cy]) else old(waterheight[nx, ny])
    ensures forall a, b :: 0 <= a < closed.Length0 && 0 <= b < closed.Length1 && (a != nx || b != ny) ==>
              closed[a, b] == old(closed[a, b]) && waterheight[a, b] == old(waterheight[a, b])
  {
    closed[nx, ny] := true;
    raised := waterheight[nx, ny] <= waterheight[cx, cy];
    if raised {
      waterheight[nx, ny] := waterheight[cx, cy];
    }
  }

  /**
   * One step of the flood's inner loop: the unclosed neighbour `n` of the
   * taken cell (cx, cy) is closed; when it is no higher than the taken
   * cell's water it is raised to that level and queued in `pit`, otherwise
   * it is queued in `open` at its own height.
   */
  method CloseNeighbor(heightmap: array2<byte>, waterheight: array2<byte>, closed: array2<bool>, cx: int, cy: int, n: Neighbor,
                       open: seq<Entry>, pit: seq<Entry>, ghost toward: map<(int, int), Direction>,
                       ghost rank: map<(int, int), nat>, ghost order: seq<(int, int)>, ghost unclosed: set<(int, int)>)
    returns (open': seq<Entry>, pit': seq<Entry>, ghost toward': map<(int, int), Direction>,
             ghost rank': map<(int, int), nat>, ghost order': seq<(int, int)>, ghost unclosed': set<(int, int)>)
    modifies closed, waterheight
    requires waterheight != heightmap
    requires FloodState(heightmap, waterheight, closed, open, pit, toward, rank, order, unclosed)
    requires 0 <= cx < closed.Length0 && 0 <= cy < closed.Length1 && closed[cx, cy]
    requires n in CellNeighbors(cx, cy, closed.Length0, closed.Length1) && !closed[n.x, n.y]
    requires forall i, j :: 0 <= i < closed.Length0 && 0 <= j < closed.Length1 && (i != cx || j != cy) ==>
               Pending(closed, open, pit, i, j)
    ensures closed[n.x, n.y]
    ensures forall i, j :: 0 <= i < closed.Length0 && 0 <= j < closed.Length1 && (i != n.x || j != n.y) ==>
              closed[i, j] == old(closed[i, j]) && waterheight[i, j] == old(waterheight[i, j])
    ensures old(waterheight[n.x, n.y]) <= waterheight[cx, cy] ==>
              waterheight[n.x, n.y] == waterheight[cx, cy] &&
              open' == open && pit' == pit + [Entry(n.x, n.y, waterheight[cx, cy] as int)]
    ensures old(waterheight[n.x, n.y]) > waterheight[cx, cy] ==>
              waterheight[n.x, n.y] == old(waterheight[n.x, n.y]) &&
              open' == open + [Entry(n.x, n.y, waterheight[n.x, n.y] as int)] && pit' == pit
    ensures FloodState(heightmap, waterheight, closed, open', pit', toward', rank', order', unclosed')
    ensures forall i, j :: 0 <= i < closed.Length0 && 0 <= j < closed.Length1 && (i != cx || j != cy) ==>
              Pending(closed, open', pit', i, j)
    ensures |unclosed'| + 1 == |unclosed| && |open'| + |pit'| == |open| + |pit| + 1
  {
    assert OnGrid(n, closed.Length0, closed.Length1) && LabelledFrom(cx, cy, n);
    var raised := CloseAndRaise(waterheight, closed, cx, cy, n.x, n.y);
    var e := Entry(n.x, n.y, waterheight[n.x, n.y] as int);
    if raised {
      open', pit' := open, pit + [e];
    } else {
      open', pit' := open + [e], pit;
    }
    ghost var step := CloseStep(heightmap, waterheight, closed, cx, cy, n, open, pit, toward, rank, order, unclosed, open', pit');
    FloodAfterClose(step);
    toward', rank', order', unclosed' := step.Toward'(), step.Rank'(), step.Order'(), step.Unclosed'();
  }

  /**
   * The body of the flood loop for the taken cell (cx, cy): every neighbour
   * in its row of the neighbour table that is not closed yet is closed, in
   * the table's order. Afterwards every neighbour of (cx, cy) is closed.
   */
  method ExpandCell(heightmap: array2<byte>, waterheight: array2<byte>, closed: array2<bool>,
                    cellNeighbors: array2<seq<Neighbor>>, cx: int, cy: int,
                    open: seq<Entry>, pit: seq<Entry>, ghost toward: map<(int, int), Direction>,
                    ghost rank: map<(int, int), nat>, ghost order: seq<(int, int)>, ghost unclosed: set<(int, int)>)
    returns (open': seq<Entry>, pit': seq<Entry>, ghost toward': map<(int, int), Direction>,
             ghost rank': map<(int, int), nat>, ghost order': seq<(int, int)>, ghost unclosed': set<(int, int)>)
    modifies closed, waterheight
    requires waterheight != heightmap
    requires FloodState(heightmap, waterheight, closed, open, pit, toward, rank, order, unclosed)
    requires 0 <= cx < closed.Length0 && 0 <= cy < closed.Length1 && closed[cx, cy]
    requires 0 <= cx < cellNeighbors.Length0 && 0 <= cy < cellNeighbors.Length1
    requires cellNeighbors[cx, cy] == CellNeighbors(cx, cy, closed.Length0, closed.Length1)
    requires forall i, j :: 0 <= i < closed.Length0 && 0 <= j < closed.Length1 && (i != cx || j != cy) ==>
               Pending(closed, open, pit, i, j)
    ensures FloodState(heightmap, waterheight, closed, open', pit', toward', rank', order', unclosed')
    ensures Settled(closed, cx, cy)
    ensures forall i, j :: 0 <= i < closed.Length0 && 0 <= j < closed.Length1 ==> Pending(closed, open', pit', i, j)
    ensures |unclosed'| <= |unclosed| && |unclosed'| + |open'| + |pit'| == |unclosed| + |open| + |pit|
  {
    var neighbors := cellNeighbors[cx, cy];
    open', pit', toward', rank', order', unclosed' := open, pit, toward, rank, order, unclosed;
    for k := 0 to |neighbors|
      modifies closed, waterheight
      invariant FloodState(heightmap, waterheight, closed, open', pit', toward', rank', order', unclosed')
      invariant closed[cx, cy]
      invariant forall i, j :: 0 <= i < closed.Length0 && 0 <= j < closed.Length1 && (i != cx || j != cy) ==>
                  Pending(closed, open', pit', i, j)
      invariant forall m :: 0 <= m < k ==> IsClosed(closed, neighbors[m])
      invariant |unclosed'| <= |unclosed| && |unclosed'| + |open'| + |pit'| == |unclosed| + |open| + |pit|
    {
      var n := neighbors[k];
      assert OnGrid(n, closed.Length0, closed.Length1);
      if closed[n.x, n.y] {
        continue;
      }
      label Before:
      open', pit', toward', rank', order', unclosed' :=
        CloseNeighbor(heightmap, waterheight, closed, cx, cy, n, open', pit', toward', rank', order', unclosed');
      forall m | 0 <= m < k ensures IsClosed(closed, neighbors[m]) {
        assert old@Before(IsClosed(closed, neighbors[m]));
      }
    }
    forall n | n in neighbors ensures IsClosed(closed, n) {
      var m :| 0 <= m < |neighbors| && neighbors[m] == n;
    }
  }

  /**
   * The seeding loops have visited every cell scanned before (x, y) in
   * column-major order: exactly the edge cells among them are closed, each
   * queued in `open` at its own height and appended to the closing order.
   */
  ghost predicate SeededBefore(heightmap: array2<byte>, closed: array2<bool>, open: seq<Entry>,
                               rank: map<(int, int), nat>, order: seq<(int, int)>, unclosed: set<(int, int)>, x: int, y: int)
    reads heightmap, closed
  {
    var width, height := closed.Length0, closed.Length1;
    heightmap.Length0 == width && heightmap.Length1 == height &&
    (forall i, j {:trigger closed[i, j]} :: 0 <= i < width && 0 <= j < height ==>
       (closed[i, j] <==> ScanBefore((i, j), (x, y)) && IsEdge(i, j, width, height))) &&
    (forall i, j {:trigger closed[i, j]} :: 0 <= i < width && 0 <= j < height && closed[i, j] ==> Queued(open, i, j)) &&
    (forall k :: 0 <= k < |open| ==> ClosedEntry(closed, open[k]) && open[k].z == heightmap[open[k].x, open[k].y] as int) &&
    Ranked(order, rank, unclosed, width, height) &&
    (forall i, j {:trigger closed[i, j]} :: 0 <= i < width && 0 <= j < height ==>
       ((i, j) in unclosed <==> !closed[i, j]) && (closed[i, j] ==> (i, j) in rank))
  }

  /** Having visited a whole column is having visited everything before the next one. */
  lemma SeededNextColumn(heightmap: array2<byte>, closed: array2<bool>, open: seq<Entry>,
                         rank: map<(int, int), nat>, order: seq<(int, int)>, unclosed: set<(int, int)>, x: int)
    requires SeededBefore(heightmap, closed, open, rank, order, unclosed, x, closed.Length1)
    ensures SeededBefore(heightmap, closed, open, rank, order, unclosed, x + 1, 0)
  {
  }

  /**
   * One pass of the seeding loops' body: the cell (x, y) is closed and
   * queued in `open` at its own height exactly when its row of the
   * neighbour table has fewer than four entries, that is, when it is an
   * edge cell.
   */
  method SeedCell(heightmap: array2<byte>, closed: array2<bool>, cellNeighbors: array2<seq<Neighbor>>, x: int, y: int,
                  open: seq<Entry>, ghost rank: map<(int, int), nat>, ghost order: seq<(int, int)>, ghost unclosed: set<(int, int)>)
    returns (open': seq<Entry>, ghost rank': map<(int, int), nat>, ghost order': seq<(int, int)>, ghost unclosed': set<(int, int)>)
    modifies closed
    requires 0 <= x < closed.Length0 && 0 <= y < closed.Length1
    requires 0 <= x < cellNeighbors.Length0 && 0 <= y < cellNeighbors.Length1
    requires cellNeighbors[x, y] == CellNeighbors(x, y, closed.Length0, closed.Length1)
    requires SeededBefore(heightmap, closed, open, rank, order, unclosed, x, y)
    ensures SeededBefore(heightmap, closed, open', rank', order', unclosed', x, y + 1)
    ensures IsEdge(x, y, closed.Length0, closed.Length1) ==> closed[x, y] && open' == open + [Entry(x, y, heightmap[x, y] as int)]
    ensures !IsEdge(x, y, closed.Length0, closed.Length1) ==> !closed[x, y] && open' == open
    ensures forall i, j :: 0 <= i < closed.Length0 && 0 <= j < closed.Length1 && (i != x || j != y) ==>
              closed[i, j] == old(closed[i, j])
  {
    var width, height := closed.Length0, closed.Length1;
    var neighbors := cellNeighbors[x, y];
    var isEdge := |neighbors| != 4;
    EdgeCharacterisation(x, y, width, height);
    open', rank', order', unclosed' := open, rank, order, unclosed;
    assert !closed[x, y];
    if isEdge {
      var e := Entry(x, y, heightmap[x, y] as int);
      forall i, j | 0 <= i < width && 0 <= j < height && (closed[i, j] || (i == x && j == y))
        ensures Queued(open + [e], i, j)
      {
        QueuedAfterAppend(open, e, i, j);
      }
      RankedAfterClose(order, rank, unclosed, width, height, (x, y));
      open' := open + [e];
      closed[x, y] := true;
      rank' := rank[(x, y) := |order|];
      order' := order + [(x, y)];
      unclosed' := unclosed - {(x, y)};
    }
  }

  /**
   * The seeding loops of removeDepressions: every edge cell is closed and
   * queued in `open` at its own height, in column-major order.
   */
  method SeedEdges(heightmap: array2<byte>, waterheight: array2<byte>, closed: array2<bool>,
                   cellNeighbors: array2<seq<Neighbor>>)
    returns (open: seq<Entry>, ghost rank: map<(int, int), nat>, ghost order: seq<(int, int)>, ghost unclosed: set<(int, int)>)
    modifies closed
    requires SameShape(heightmap, waterheight, closed)
    requires cellNeighbors.Length0 == closed.Length0 && cellNeighbors.Length1 == closed.Length1
    requires forall x, y :: 0 <= x < closed.Length0 && 0 <= y < closed.Length1 ==>
               cellNeighbors[x, y] == CellNeighbors(x, y, closed.Length0, closed.Length1)
    requires forall x, y :: 0 <= x < closed.Length0 && 0 <= y < closed.Length1 ==>
               !closed[x, y] && waterheight[x, y] == heightmap[x, y]
    ensures FloodState(heightmap, waterheight, closed, open, [], map[], rank, order, unclosed)
    ensures forall x, y :: 0 <= x < closed.Length0 && 0 <= y < closed.Length1 ==>
              (closed[x, y] <==> IsEdge(x, y, closed.Length0, closed.Length1)) && Pending(closed, open, [], x, y)
    ensures forall k :: 0 <= k < |open| ==> ClosedEntry(closed, open[k]) && open[k].z == heightmap[open[k].x, open[k].y] as int
  {
    var width, height := closed.Length0, closed.Length1;
    open, rank, order, unclosed := [], map[], [], GridCells(width, height);
    for x := 0 to width
      modifies closed
      invariant SeededBefore(heightmap, closed, open, rank, order, unclosed, x, 0)
    {
      for y := 0 to height
        modifies closed
        invariant SeededBefore(heightmap, closed, open, rank, order, unclosed, x, y)
      {
        open, rank, order, unclosed := SeedCell(heightmap, closed, cellNeighbors, x, y, open, rank, order, unclosed);
      }
      SeededNextColumn(heightmap, closed, open, rank, order, unclosed, x);
    }
    forall i, j | 0 <= i < width && 0 <= j < height
      ensures (closed[i, j] <==> IsEdge(i, j, width, height))
      ensures CellState(heightmap, waterheight, closed, map[], rank, unclosed, i, j) && Pending(closed, open, [], i, j)
    {
    }
  }

  /**
   * The flood loop of removeDepressions: while either queue holds a cell,
   * the head of `pit` is taken when `pit` is non-empty and otherwise a
   * lowest entry of `open`, and its unclosed neighbours are closed. When
   * both queues are empty every closed cell has all its neighbours closed.
   */
  method Flood(heightmap: array2<byte>, waterheight: array2<byte>, closed: array2<bool>,
               cellNeighbors: array2<seq<Neighbor>>, open0: seq<Entry>, ghost toward0: map<(int, int), Direction>,
               ghost rank0: map<(int, int), nat>, ghost order0: seq<(int, int)>, ghost unclosed0: set<(int, int)>)
    returns (ghost toward: map<(int, int), Direction>, ghost rank: map<(int, int), nat>,
             ghost order: seq<(int, int)>, ghost unclosed: set<(int, int)>)
    modifies closed, waterheight
    requires waterheight != heightmap
    requires cellNeighbors.Length0 == closed.Length0 && cellNeighbors.Length1 == closed.Length1
    requires forall x, y :: 0 <= x < closed.Length0 && 0 <= y < closed.Length1 ==>
               cellNeighbors[x, y] == CellNeighbors(x, y, closed.Length0, closed.Length1)
    requires FloodState(heightmap, waterheight, closed, open0, [], toward0, rank0, order0, unclosed0)
    requires forall x, y :: 0 <= x < closed.Length0 && 0 <= y < closed.Length1 ==> Pending(closed, open0, [], x, y)
    ensures FloodState(heightmap, waterheight, closed, [], [], toward, rank, order, unclosed)
    ensures forall x, y :: 0 <= x < closed.Length0 && 0 <= y < closed.Length1 && closed[x, y] ==> Settled(closed, x, y)
  {
    var width, height := closed.Length0, closed.Length1;
    var open, pit: seq<Entry> := open0, [];
    toward, rank, order, unclosed := toward0, rank0, order0, unclosed0;
    while open != [] || pit != []
      modifies closed, waterheight
      invariant FloodState(heightmap, waterheight, closed, open, pit, toward, rank, order, unclosed)
      invariant forall i, j :: 0 <= i < width && 0 <= j < height ==> Pending(closed, open, pit, i, j)
      decreases |unclosed|, |open| + |pit|
    {
      var cell: Entry;
      if pit != [] {
        cell := pit[0];
        forall i, j | 0 <= i < width && 0 <= j < height && (i != cell.x || j != cell.y)
          ensures Pending(closed, open, pit[1..], i, j)
        {
          assert Pending(closed, open, pit, i, j);
          if Queued(pit, i, j) {
            QueuedAfterDequeue(pit, i, j);
          }
        }
        assert forall m :: 0 <= m < |pit[1..]| ==> pit[1..][m] == pit[m + 1];
        pit := pit[1..];
      } else {
        var k := LowestIndex(open);
        cell := open[k];
        forall i, j | 0 <= i < width && 0 <= j < height && (i != cell.x || j != cell.y)
          ensures Pending(closed, RemoveAt(open, k), pit, i, j)
        {
          assert Pending(closed, open, pit, i, j);
          if Queued(open, i, j) {
            QueuedAfterRemove(open, k, i, j);
          }
        }
        assert forall m :: 0 <= m < |RemoveAt(open, k)| ==> RemoveAt(open, k)[m] in open;
        open := RemoveAt(open, k);
      }
      assert ClosedEntry(closed, cell);
      open, pit, toward, rank, order, unclosed :=
        ExpandCell(heightmap, waterheight, closed, cellNeighbors, cell.x, cell.y, open, pit, toward, rank, order, unclosed);
    }
    forall i, j | 0 <= i < width && 0 <= j < height && closed[i, j]
      ensures Settled(closed, i, j)
    {
      assert Pending(closed, open, pit, i, j);
    }
  }

  /**
   * removeDepressions. Every edge cell is closed and queued in `open` at
   * its height; then, taking from `pit` while it is non-empty and otherwise
   * the lowest entry of `open`, each unclosed neighbour of the taken cell is
   * closed and either raised to the taken cell's water height and queued in
   * `pit` (when it is no higher) or queued in `open` at its own height.
   * Returns the water heights, the neighbour table, and (for the proof) the
   * order in which cells were closed.
   */
  method RemoveDepressions(heightmap: array2<byte>)
    returns (waterheight: array2<byte>, cellNeighbors: array2<seq<Neighbor>>, ghost closingOrder: seq<(int, int)>)
    ensures waterheight.Length0 == heightmap.Length0 && waterheight.Length1 == heightmap.Length1
    ensures cellNeighbors.Length0 == heightmap.Length0 && cellNeighbors.Length1 == heightmap.Length1
    ensures forall x, y :: 0 <= x < heightmap.Length0 && 0 <= y < heightmap.Length1 ==>
              cellNeighbors[x, y] == CellNeighbors(x, y, heightmap.Length0, heightmap.Length1)
    ensures forall x, y :: 0 <= x < heightmap.Length0 && 0 <= y < heightmap.Length1 ==>
              waterheight[x, y] >= heightmap[x, y]
    ensures forall x, y :: 0 <= x < heightmap.Length0 && 0 <= y < heightmap.Length1 && IsEdge(x, y, heightmap.Length0, heightmap.Length1) ==>
              waterheight[x, y] == heightmap[x, y]
    ensures forall x, y :: 0 <= x < heightmap.Length0 && 0 <= y < heightmap.Length1 && waterheight[x, y] > heightmap[x, y] ==>
              LevelWithNeighbor(waterheight, x, y)
    ensures forall x, y :: 0 <= x < heightmap.Length0 && 0 <= y < heightmap.Length1 ==>
              Drains(waterheight, x, y, |closingOrder|)
    ensures FilledInOrder(heightmap, waterheight, closingOrder)
    ensures forall c :: c in closingOrder <==> InGrid(c, heightmap.Length0, heightmap.Length1)
    ensures forall i, j :: 0 <= i < j < |closingOrder| ==> closingOrder[i] != closingOrder[j]
    ensures |closingOrder| == heightmap.Length0 * heightmap.Length1
  {
    var width, height := heightmap.Length0, heightmap.Length1;
    waterheight := new byte[width, height]((i, j) reads heightmap =>
      if 0 <= i < width && 0 <= j < height then heightmap[i, j] else 0);
    var closed := new bool[width, height]((i, j) => false);
    cellNeighbors := NeighborTable(width, height);
    var open;
    ghost var rank, order, unclosed;
    open, rank, order, unclosed := SeedEdges(heightmap, waterheight, closed, cellNeighbors);
    ghost var toward;
    toward, rank, order, unclosed := Flood(heightmap, waterheight, closed, cellNeighbors, open, map[], rank, order, unclosed);
    FloodClosesAll(heightmap, waterheight, closed, toward, rank, order, unclosed);
    ClosingOrderComplete(heightmap, waterheight, closed, toward, rank, order, unclosed);
    FloodDrains(heightmap, waterheight, closed, toward, rank, order, unclosed);
    FloodFills(heightmap, waterheight, closed, toward, rank, order, unclosed);
    closingOrder := order;
  }

  /** The higher of two levels. */
  function Max(a: byte, b: byte): (m: byte)
    ensures m >= a && m >= b && (m == a || m == b)
  {
    if a < b then b else a
  }

  /**
   * The cell c stands at its own height, raised to the water height of its
   * side-by-side neighbour p when that is higher: the level a closing step
   * from p leaves it at.
   */
  ghost predicate FedBy(heightmap: array2<byte>, wh: array2<byte>, c: (int, int), p: (int, int))
    reads heightmap, wh
  {
    wh.Length0 == heightmap.Length0 && wh.Length1 == heightmap.Length1 &&
    InGrid(c, wh.Length0, wh.Length1) && InGrid(p, wh.Length0, wh.Length1) && Adjacent(p, c) &&
    wh[c.0, c.1] == Max(heightmap[c.0, c.1], wh[p.0, p.1])
  }

  /**
   * Every inner cell of the closing order stands at the level a closing step
   * from some neighbour listed before it leaves it at.
   */
  ghost predicate FilledInOrder(heightmap: array2<byte>, wh: array2<byte>, order: seq<(int, int)>)
    reads heightmap, wh
  {
    forall j :: 0 <= j < |order| && InGrid(order[j], wh.Length0, wh.Length1) && !IsEdge(order[j].0, order[j].1, wh.Length0, wh.Length1) ==>
      exists i :: 0 <= i < j && FedBy(heightmap, wh, order[j], order[i])
  }

  /**
   * Once every cell is closed, each inner cell's water height is its own
   * height raised to the water height of the neighbour that closed it,
   * which was closed before it.
   */
  lemma FloodFills(heightmap: array2<byte>, waterheight: array2<byte>, closed: array2<bool>,
                   toward: map<(int, int), Direction>, rank: map<(int, int), nat>,
                   order: seq<(int, int)>, unclosed: set<(int, int)>)
    requires FloodState(heightmap, waterheight, closed, [], [], toward, rank, order, unclosed)
    requires forall x, y :: 0 <= x < closed.Length0 && 0 <= y < closed.Length1 ==> closed[x, y]
    ensures FilledInOrder(heightmap, waterheight, order)
  {
    var width, height := closed.Length0, closed.Length1;
    forall j | 0 <= j < |order| && InGrid(order[j], width, height) && !IsEdge(order[j].0, order[j].1, width, height)
      ensures exists i :: 0 <= i < j && FedBy(heightmap, waterheight, order[j], order[i])
    {
      var c := order[j];
      assert CellState(heightmap, waterheight, closed, toward, rank, unclosed, c.0, c.1);
      var p := Step(c.0, c.1, toward[c]);
      assert order[rank[p]] == p;
      assert FedBy(heightmap, waterheight, c, order[rank[p]]);
    }
  }

  /** On ground of one height, the cell at position j of a filled closing order holds water at that height. */
  lemma {:induction false} LevelAt(heightmap: array2<byte>, wh: array2<byte>, order: seq<(int, int)>, level: byte, j: int)
    requires wh.Length0 == heightmap.Length0 && wh.Length1 == heightmap.Length1
    requires forall x, y :: 0 <= x < heightmap.Length0 && 0 <= y < heightmap.Length1 ==> heightmap[x, y] == level
    requires forall x, y :: 0 <= x < heightmap.Length0 && 0 <= y < heightmap.Length1 && IsEdge(x, y, heightmap.Length0, heightmap.Length1) ==>
               wh[x, y] == heightmap[x, y]
    requires FilledInOrder(heightmap, wh, order)
    requires 0 <= j < |order| && InGrid(order[j], heightmap.Length0, heightmap.Length1)
    ensures wh[order[j].0, order[j].1] == level
    decreases j
  {
    var c := order[j];
    if !IsEdge(c.0, c.1, heightmap.Length0, heightmap.Length1) {
      var i :| 0 <= i < j && FedBy(heightmap, wh, c, order[i]);
      LevelAt(heightmap, wh, order, level, i);
    }
  }

  /**
   * A level plain has no depression: when the ground has one height
   * everywhere, edge cells keep their height and the closing order is
   * filled and lists every cell, the water height is the ground height
   * everywhere.
   */
  lemma LevelPlainUnchanged(heightmap: array2<byte>, wh: array2<byte>, order: seq<(int, int)>, level: byte)
    requires wh.Length0 == heightmap.Length0 && wh.Length1 == heightmap.Length1
    requires forall x, y :: 0 <= x < heightmap.Length0 && 0 <= y < heightmap.Length1 ==> heightmap[x, y] == level
    requires forall x, y :: 0 <= x < heightmap.Length0 && 0 <= y < heightmap.Length1 && IsEdge(x, y, heightmap.Length0, heightmap.Length1) ==>
               wh[x, y] == heightmap[x, y]
    requires FilledInOrder(heightmap, wh, order)
    requires forall c :: InGrid(c, heightmap.Length0, heightmap.Length1) ==> c in order
    ensures forall x, y :: 0 <= x < heightmap.Length0 && 0 <= y < heightmap.Length1 ==> wh[x, y] == heightmap[x, y]
  {
    forall x, y | 0 <= x < heightmap.Length0 && 0 <= y < heightmap.Length1
      ensures wh[x, y] == heightmap[x, y]
    {
      assert InGrid((x, y), heightmap.Length0, heightmap.Length1);
      var j :| 0 <= j < |order| && order[j] == (x, y);
      LevelAt(heightmap, wh, order, level, j);
    }
  }

  /**
   * When the flood stops with every closed cell settled, every cell of the
   * grid is closed.
   */
  lemma FloodClosesAll(heightmap: array2<byte>, waterheight: array2<byte>, closed: array2<bool>,
                       toward: map<(int, int), Direction>, rank: map<(int, int), nat>,
                       order: seq<(int, int)>, unclosed: set<(int, int)>)
    requires FloodState(heightmap, waterheight, closed, [], [], toward, rank, order, unclosed)
    requires forall x, y :: 0 <= x < closed.Length0 && 0 <= y < closed.Length1 && closed[x, y] ==> Settled(closed, x, y)
    ensures forall x, y :: 0 <= x < closed.Length0 && 0 <= y < closed.Length1 ==> closed[x, y]
  {
    forall x, y | 0 <= x < closed.Length0 && 0 <= y < closed.Length1 && IsEdge(x, y, closed.Length0, closed.Length1)
      ensures closed[x, y]
    {
      assert CellState(heightmap, waterheight, closed, toward, rank, unclosed, x, y);
    }
    forall x, y | 0 <= x < closed.Length0 && 0 <= y < closed.Length1 ensures closed[x, y] {
      AllClosed(closed, x, y);
    }
  }

  /**
   * When every cell of the grid has a rank, the closing order lists each
   * cell of the grid exactly once.
   */
  lemma OrderCoversGrid(order: seq<(int, int)>, rank: map<(int, int), nat>, unclosed: set<(int, int)>, width: nat, height: nat)
    requires Ranked(order, rank, unclosed, width, height)
    requires forall c :: InGrid(c, width, height) ==> c in rank
    ensures forall c :: c in order <==> InGrid(c, width, height)
    ensures forall i, j :: 0 <= i < j < |order| ==> order[i] != order[j]
    ensures |order| == width * height
  {
    GridSize(width, height);
    assert forall c :: c in unclosed ==> InGrid(c, width, height) && c in rank;
    assert unclosed == {};
    forall c: (int, int) | InGrid(c, width, height) ensures c in order {
      assert order[rank[c]] == c;
    }
  }

  /** Once every cell is closed, the closing order lists each cell of the grid exactly once. */
  lemma ClosingOrderComplete(heightmap: array2<byte>, waterheight: array2<byte>, closed: array2<bool>,
                             toward: map<(int, int), Direction>, rank: map<(int, int), nat>,
                             order: seq<(int, int)>, unclosed: set<(int, int)>)
    requires FloodState(heightmap, waterheight, closed, [], [], toward, rank, order, unclosed)
    requires forall x, y :: 0 <= x < closed.Length0 && 0 <= y < closed.Length1 ==> closed[x, y]
    ensures forall c :: c in order <==> InGrid(c, closed.Length0, closed.Length1)
    ensures forall i, j :: 0 <= i < j < |order| ==> order[i] != order[j]
    ensures |order| == closed.Length0 * closed.Length1
  {
    forall c: (int, int) | InGrid(c, closed.Length0, closed.Length1) ensures c in rank {
      assert CellState(heightmap, waterheight, closed, toward, rank, unclosed, c.0, c.1);
    }
    OrderCoversGrid(order, rank, unclosed, closed.Length0, closed.Length1);
  }

  /**
   * Once every cell is closed, every cell drains to the edge within as many
   * steps as there are cells in the closing order, and every raised cell is
   * level with a neighbour.
   */
  lemma FloodDrains(heightmap: array2<byte>, waterheight: array2<byte>, closed: array2<bool>,
                    toward: map<(int, int), Direction>, rank: map<(int, int), nat>,
                    order: seq<(int, int)>, unclosed: set<(int, int)>)
    requires FloodState(heightmap, waterheight, closed, [], [], toward, rank, order, unclosed)
    requires forall x, y :: 0 <= x < closed.Length0 && 0 <= y < closed.Length1 ==> closed[x, y]
    ensures forall x, y :: 0 <= x < closed.Length0 && 0 <= y < closed.Length1 ==>
              waterheight[x, y] >= heightmap[x, y] &&
              (IsEdge(x, y, closed.Length0, closed.Length1) ==> waterheight[x, y] == heightmap[x, y])
    ensures forall x, y :: 0 <= x < closed.Length0 && 0 <= y < closed.Length1 && waterheight[x, y] > heightmap[x, y] ==>
              LevelWithNeighbor(waterheight, x, y)
    ensures forall x, y :: 0 <= x < closed.Length0 && 0 <= y < closed.Length1 ==> Drains(waterheight, x, y, |order|)
  {
    var width, height := closed.Length0, closed.Length1;
    forall x, y | 0 <= x < width && 0 <= y < height
      ensures waterheight[x, y] >= heightmap[x, y] && (IsEdge(x, y, width, height) ==> waterheight[x, y] == heightmap[x, y])
      ensures Drains(waterheight, x, y, |order|)
    {
      assert CellState(heightmap, waterheight, closed, toward, rank, unclosed, x, y);
      DrainsByRank(heightmap, waterheight, closed, toward, rank, unclosed, x, y);
      DrainsMonotone(waterheight, x, y, rank[(x, y)], |order|);
    }
    forall x, y | 0 <= x < width && 0 <= y < height && waterheight[x, y] > heightmap[x, y]
      ensures LevelWithNeighbor(waterheight, x, y)
    {
      assert CellState(heightmap, waterheight, closed, toward, rank, unclosed, x, y);
      var d := toward[(x, y)];
      var p := Step(x, y, d);
      NeighborInList(x, y, width, height, d);
      assert IsLevel(waterheight, x, y, Neighbor(p.0, p.1, d));
    }
  }
}
