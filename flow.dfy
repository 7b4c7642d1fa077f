/**
 * Flow routing (determineFlowDirections): a priority-flood over the water
 * heights that records, for every cell, the direction water leaves it by.
 * Edge cells drain off the map through their first off-grid side; every
 * other cell drains towards the neighbour that reached it, which was
 * closed before it, so following the directions always leaves the map.
 */
module FlowRouting {

  import opened WorldTables
  import opened GridGeometry
  import opened FloodQueues
  import opened DepressionRemoval

  /** Following `flow` from (x, y), water leaves the grid after at most `fuel` further steps. */
  ghost predicate FlowsOff(flow: array2<Direction>, x: int, y: int, fuel: nat)
    reads flow
    decreases fuel
  {
    0 <= x < flow.Length0 && 0 <= y < flow.Length1 && flow[x, y] != NoDirection &&
    var n := Step(x, y, flow[x, y]);
    (!IsValidCell(n.0, n.1, flow.Length0, flow.Length1) || (fuel > 0 && FlowsOff(flow, n.0, n.1, fuel - 1)))
  }

  /** More steps never hurt. */
  lemma {:induction false} FlowsOffMonotone(flow: array2<Direction>, x: int, y: int, fuel: nat, more: nat)
    requires FlowsOff(flow, x, y, fuel) && fuel <= more
    ensures FlowsOff(flow, x, y, more)
    decreases fuel
  {
    var n := Step(x, y, flow[x, y]);
    if IsValidCell(n.0, n.1, flow.Length0, flow.Length1) {
      FlowsOffMonotone(flow, n.0, n.1, fuel - 1, more - 1);
    }
  }

  /** The water heights, the closed flags and the flow directions cover the same grid. */
  predicate RouteShape(waterheight: array2<byte>, closed: array2<bool>, flow: array2<Direction>) {
    waterheight.Length0 == closed.Length0 == flow.Length0 && waterheight.Length1 == closed.Length1 == flow.Length1
  }

  /**
   * The closed cell (x, y) flows to a closed neighbour on the grid that
   * was closed strictly before it.
   */
  ghost predicate PointsBack(closed: array2<bool>, flow: array2<Direction>, rank: map<(int, int), nat>, x: int, y: int)
    reads closed, flow
    requires flow.Length0 == closed.Length0 && flow.Length1 == closed.Length1
    requires 0 <= x < closed.Length0 && 0 <= y < closed.Length1
  {
    (x, y) in rank && flow[x, y] != NoDirection &&
    var p := Step(x, y, flow[x, y]);
    0 <= p.0 < closed.Length0 && 0 <= p.1 < closed.Length1 && closed[p.0, p.1] && p in rank && rank[p] < rank[(x, y)]
  }

  /**
   * What the routing keeps true of the cell (x, y) between two steps: an
   * edge cell is closed and flows through its first off-grid side; the
   * cell is unclosed exactly when it is not closed; and once closed it has
   * a rank and, when inner, flows back to an earlier closed cell.
   */
  ghost predicate RouteState(closed: array2<bool>, flow: array2<Direction>, rank: map<(int, int), nat>,
                             unclosed: set<(int, int)>, x: int, y: int)
    reads closed, flow
    requires flow.Length0 == closed.Length0 && flow.Length1 == closed.Length1
    requires 0 <= x < closed.Length0 && 0 <= y < closed.Length1
  {
    var width, height := closed.Length0, closed.Length1;
    (IsEdge(x, y, width, height) ==> closed[x, y] && flow[x, y] == FirstOffGridDirection(x, y, width, height)) &&
    ((x, y) in unclosed <==> !closed[x, y]) &&
    (closed[x, y] ==> (x, y) in rank) &&
    (closed[x, y] && !IsEdge(x, y, width, height) ==> PointsBack(closed, flow, rank, x, y))
  }

  /** When every cell is closed and in its state, water leaves the grid from every cell within its rank in steps. */
  lemma {:induction false} FlowsOffByRank(closed: array2<bool>, flow: array2<Direction>, rank: map<(int, int), nat>,
                                          unclosed: set<(int, int)>, x: int, y: int)
    requires flow.Length0 == closed.Length0 && flow.Length1 == closed.Length1
    requires forall i, j :: 0 <= i < closed.Length0 && 0 <= j < closed.Length1 ==>
               closed[i, j] && RouteState(closed, flow, rank, unclosed, i, j)
    requires 0 <= x < closed.Length0 && 0 <= y < closed.Length1 && (x, y) in rank
    ensures FlowsOff(flow, x, y, rank[(x, y)])
    decreases rank[(x, y)]
  {
    assert RouteState(closed, flow, rank, unclosed, x, y);
    if !IsEdge(x, y, closed.Length0, closed.Length1) {
      var p := Step(x, y, flow[x, y]);
      FlowsOffByRank(closed, flow, rank, unclosed, p.0, p.1);
      FlowsOffMonotone(flow, p.0, p.1, rank[p], rank[(x, y)] - 1);
    }
  }

  /**
   * What holds of the routing between two steps: every cell in its state,
   * the queue holding closed cells only, and the closing order kept.
   */
  ghost predicate RoutingState(waterheight: array2<byte>, closed: array2<bool>, flow: array2<Direction>, open: seq<Entry>,
                               rank: map<(int, int), nat>, order: seq<(int, int)>, unclosed: set<(int, int)>)
    reads closed, flow
  {
    RouteShape(waterheight, closed, flow) &&
    (forall i, j :: 0 <= i < closed.Length0 && 0 <= j < closed.Length1 ==> RouteState(closed, flow, rank, unclosed, i, j)) &&
    (forall k :: 0 <= k < |open| ==> ClosedEntry(closed, open[k])) &&
    Ranked(order, rank, unclosed, closed.Length0, closed.Length1)
  }

  /**
   * One application of the routing loop's inner step, as the proofs about
   * it see it: the grids, the taken cell (cx, cy), its neighbour n being
   * closed, and the queue and bookkeeping before the step.
   */
  datatype RouteStep = RouteStep(waterheight: array2<byte>, closed: array2<bool>, flow: array2<Direction>,
                                 cx: int, cy: int, n: Neighbor, open: seq<Entry>,
                                 rank: map<(int, int), nat>, order: seq<(int, int)>, unclosed: set<(int, int)>)
  {
    /** The cell n as a coordinate pair. */
    function Cell(): (int, int) {
      (n.x, n.y)
    }

    /** The ranks after the step: n comes last. */
    function Rank'(): map<(int, int), nat> {
      rank[Cell() := |order|]
    }

    /** The closing order after the step. */
    function Order'(): seq<(int, int)> {
      order + [Cell()]
    }

    /** The cells still unclosed after the step. */
    function Unclosed'(): set<(int, int)> {
      unclosed - {Cell()}
    }

    /** The queue after the step: n appended at its water height. */
    ghost function Open'(): seq<Entry>
      reads waterheight
      requires 0 <= n.x < waterheight.Length0 && 0 <= n.y < waterheight.Length1
    {
      open + [Entry(n.x, n.y, waterheight[n.x, n.y] as int)]
    }

    /**
     * What the step did to the grids, between the state before it and the
     * state after it: n alone was closed and given the direction opposite
     * to its label, which leads back to (cx, cy).
     */
    twostate predicate Done()
      reads closed, flow
    {
      old(RoutingState(waterheight, closed, flow, open, rank, order, unclosed)) &&
      RouteShape(waterheight, closed, flow) &&
      0 <= cx < closed.Length0 && 0 <= cy < closed.Length1 && old(closed[cx, cy]) &&
      OnGrid(n, closed.Length0, closed.Length1) && LabelledFrom(cx, cy, n) &&
      old(!closed[n.x, n.y]) && closed[n.x, n.y] && flow[n.x, n.y] == Opposite(n.dir) &&
      (forall a, b :: 0 <= a < closed.Length0 && 0 <= b < closed.Length1 && (a != n.x || b != n.y) ==>
         closed[a, b] == old(closed[a, b]) && flow[a, b] == old(flow[a, b]))
    }
  }

  /** The step keeps the state of every cell other than n. */
  twostate lemma RouteStatesAfterClose(s: RouteStep)
    requires s.Done()
    ensures forall i, j :: 0 <= i < s.closed.Length0 && 0 <= j < s.closed.Length1 && (i, j) != s.Cell() ==>
              RouteState(s.closed, s.flow, s.Rank'(), s.Unclosed'(), i, j)
  {
    assert old(RouteState(s.closed, s.flow, s.rank, s.unclosed, s.n.x, s.n.y));
    forall i, j | 0 <= i < s.closed.Length0 && 0 <= j < s.closed.Length1 && (i, j) != s.Cell()
      ensures RouteState(s.closed, s.flow, s.Rank'(), s.Unclosed'(), i, j)
    {
      assert old(RouteState(s.closed, s.flow, s.rank, s.unclosed, i, j));
    }
  }

  /** The step keeps the routing state, with n appended to the closing order and the queue. */
  twostate lemma RoutingStateAfterClose(s: RouteStep)
    requires s.Done()
    requires forall i, j :: 0 <= i < s.closed.Length0 && 0 <= j < s.closed.Length1 && (i, j) != s.Cell() ==>
               RouteState(s.closed, s.flow, s.Rank'(), s.Unclosed'(), i, j)
    ensures RoutingState(s.waterheight, s.closed, s.flow, s.Open'(), s.Rank'(), s.Order'(), s.Unclosed'())
  {
    assert old(RouteState(s.closed, s.flow, s.rank, s.unclosed, s.cx, s.cy));
    assert old(RouteState(s.closed, s.flow, s.rank, s.unclosed, s.n.x, s.n.y));
    RankedAfterClose(s.order, s.rank, s.unclosed, s.closed.Length0, s.closed.Length1, s.Cell());
    StepBack(s.cx, s.cy, s.n.dir);
    OppositeInvolution(s.n.dir);
    assert RouteState(s.closed, s.flow, s.Rank'(), s.Unclosed'(), s.n.x, s.n.y);
    forall k | 0 <= k < |s.Open'()| ensures ClosedEntry(s.closed, s.Open'()[k]) {
      if k < |s.open| {
        assert old(ClosedEntry(s.closed, s.open[k]));
      }
    }
  }

  /** The step keeps every cell other than the taken one pending. */
  twostate lemma RoutePendingAfterClose(s: RouteStep)
    requires s.Done()
    requires forall i, j :: 0 <= i < s.closed.Length0 && 0 <= j < s.closed.Length1 && (i != s.cx || j != s.cy) ==>
               old(Pending(s.closed, s.open, [], i, j))
    ensures forall i, j :: 0 <= i < s.closed.Length0 && 0 <= j < s.closed.Length1 && (i != s.cx || j != s.cy) ==>
              Pending(s.closed, s.Open'(), [], i, j)
  {
    var closed, e := s.closed, Entry(s.n.x, s.n.y, s.waterheight[s.n.x, s.n.y] as int);
    forall i, j | 0 <= i < closed.Length0 && 0 <= j < closed.Length1 && (i != s.cx || j != s.cy)
      ensures Pending(closed, s.Open'(), [], i, j)
    {
      if i == s.n.x && j == s.n.y {
        QueuedAfterAppend(s.open, e, i, j);
      } else {
        assert old(Pending(closed, s.open, [], i, j));
        if Queued(s.open, i, j) {
          QueuedAfterAppend(s.open, e, i, j);
        }
        if old(Settled(closed, i, j)) {
          forall m | m in CellNeighbors(i, j, closed.Length0, closed.Length1) ensures IsClosed(closed, m) {
            assert old(IsClosed(closed, m));
          }
        }
      }
    }
  }

  /** The step keeps the routing state and every cell other than the taken one pending. */
  twostate lemma RouteAfterClose(s: RouteStep)
    requires s.Done()
    requires forall i, j :: 0 <= i < s.closed.Length0 && 0 <= j < s.closed.Length1 && (i != s.cx || j != s.cy) ==>
               old(Pending(s.closed, s.open, [], i, j))
    ensures RoutingState(s.waterheight, s.closed, s.flow, s.Open'(), s.Rank'(), s.Order'(), s.Unclosed'())
    ensures forall i, j :: 0 <= i < s.closed.Length0 && 0 <= j < s.closed.Length1 && (i != s.cx || j != s.cy) ==>
              Pending(s.closed, s.Open'(), [], i, j)
    ensures |s.Unclosed'()| + 1 == |s.unclosed|
  {
    assert old(RouteState(s.closed, s.flow, s.rank, s.unclosed, s.n.x, s.n.y));
    RouteStatesAfterClose(s);
    RoutingStateAfterClose(s);
    RoutePendingAfterClose(s);
  }

  /**
   * One step of the routing loop: the unclosed neighbour `n` of the taken
   * cell (cx, cy) is given the direction opposite to its label, which
   * leads back to (cx, cy), is closed, and is queued at its water height.
   */
  method RouteNeighbor(waterheight: array2<byte>, closed: array2<bool>, flow: array2<Direction>, cx: int, cy: int, n: Neighbor,
                       open: seq<Entry>, ghost rank: map<(int, int), nat>, ghost order: seq<(int, int)>, ghost unclosed: set<(int, int)>)
    returns (open': seq<Entry>, ghost rank': map<(int, int), nat>, ghost order': seq<(int, int)>, ghost unclosed': set<(int, int)>)
    modifies closed, flow
    requires RoutingState(waterheight, closed, flow, open, rank, order, unclosed)
    requires 0 <= cx < closed.Length0 && 0 <= cy < closed.Length1 && closed[cx, cy]
    requires n in CellNeighbors(cx, cy, closed.Length0, closed.Length1) && !closed[n.x, n.y]
    requires forall i, j :: 0 <= i < closed.Length0 && 0 <= j < closed.Length1 && (i != cx || j != cy) ==>
               Pending(closed, open, [], i, j)
    ensures closed[n.x, n.y] && flow[n.x, n.y] == Opposite(n.dir)
    ensures Step(n.x, n.y, flow[n.x, n.y]) == (cx, cy)
    ensures open' == open + [Entry(n.x, n.y, waterheight[n.x, n.y] as int)]
    ensures forall i, j :: 0 <= i < closed.Length0 && 0 <= j < closed.Length1 && (i != n.x || j != n.y) ==>
              closed[i, j] == old(closed[i, j]) && flow[i, j] == old(flow[i, j])
    ensures RoutingState(waterheight, closed, flow, open', rank', order', unclosed')
    ensures forall i, j :: 0 <= i < closed.Length0 && 0 <= j < closed.Length1 && (i != cx || j != cy) ==>
              Pending(closed, open', [], i, j)
    ensures |unclosed'| + 1 == |unclosed|
  {
    assert OnGrid(n, closed.Length0, closed.Length1) && LabelledFrom(cx, cy, n);
    flow[n.x, n.y] := Opposite(n.dir);
    closed[n.x, n.y] := true;
    open' := open + [Entry(n.x, n.y, waterheight[n.x, n.y] as int)];
    StepBack(cx, cy, n.dir);
    ghost var step := RouteStep(waterheight, closed, flow, cx, cy, n, open, rank, order, unclosed);
    RouteAfterClose(step);
    rank', order', unclosed' := step.Rank'(), step.Order'(), step.Unclosed'();
  }

  /**
   * The body of the routing loop for the taken cell (cx, cy): every
   * neighbour in its row of the neighbour table that is not closed yet is
   * routed back to it, in the table's order. Afterwards every neighbour of
   * (cx, cy) is closed.
   */
  method RouteCell(waterheight: array2<byte>, closed: array2<bool>, flow: array2<Direction>,
                   cellNeighbors: array2<seq<Neighbor>>, cx: int, cy: int,
                   open: seq<Entry>, ghost rank: map<(int, int), nat>, ghost order: seq<(int, int)>, ghost unclosed: set<(int, int)>)
    returns (open': seq<Entry>, ghost rank': map<(int, int), nat>, ghost order': seq<(int, int)>, ghost unclosed': set<(int, int)>)
    modifies closed, flow
    requires RoutingState(waterheight, closed, flow, open, rank, order, unclosed)
    requires 0 <= cx < closed.Length0 && 0 <= cy < closed.Length1 && closed[cx, cy]
    requires 0 <= cx < cellNeighbors.Length0 && 0 <= cy < cellNeighbors.Length1
    requires cellNeighbors[cx, cy] == CellNeighbors(cx, cy, closed.Length0, closed.Length1)
    requires forall i, j :: 0 <= i < closed.Length0 && 0 <= j < closed.Length1 && (i != cx || j != cy) ==>
               Pending(closed, open, [], i, j)
    ensures RoutingState(waterheight, closed, flow, open', rank', order', unclosed')
    ensures Settled(closed, cx, cy)
    ensures forall i, j :: 0 <= i < closed.Length0 && 0 <= j < closed.Length1 ==> Pending(closed, open', [], i, j)
    ensures |unclosed'| <= |unclosed| && |unclosed'| + |open'| == |unclosed| + |open|
  {
    var neighbors := cellNeighbors[cx, cy];
    open', rank', order', unclosed' := open, rank, order, unclosed;
    for k := 0 to |neighbors|
      modifies closed, flow
      invariant RoutingState(waterheight, closed, flow, open', rank', order', unclosed')
      invariant closed[cx, cy]
      invariant forall i, j :: 0 <= i < closed.Length0 && 0 <= j < closed.Length1 && (i != cx || j != cy) ==>
                  Pending(closed, open', [], i, j)
      invariant forall m :: 0 <= m < k ==> IsClosed(closed, neighbors[m])
      invariant |unclosed'| <= |unclosed| && |unclosed'| + |open'| == |unclosed| + |open|
    {
      var n := neighbors[k];
      assert OnGrid(n, closed.Length0, closed.Length1);
      if closed[n.x, n.y] {
        continue;
      }
      label Before:
      open', rank', order', unclosed' := RouteNeighbor(waterheight, closed, flow, cx, cy, n, open', rank', order', unclosed');
      forall m | 0 <= m < k ensures IsClosed(closed, neighbors[m]) {
        assert old@Before(IsClosed(closed, neighbors[m]));
      }
    }
    forall n | n in neighbors ensures IsClosed(closed, n) {
      var m :| 0 <= m < |neighbors| && neighbors[m] == n;
    }
  }

  /** The neighbour table is filled for every cell scanned before (x, y). */
  ghost predicate TableBefore(cellNeighbors: array2<seq<Neighbor>>, width: nat, height: nat, x: int, y: int)
    reads cellNeighbors
  {
    cellNeighbors.Length0 == width && cellNeighbors.Length1 == height &&
    forall i, j {:trigger cellNeighbors[i, j]} :: 0 <= i < width && 0 <= j < height && ScanBefore((i, j), (x, y)) ==>
      cellNeighbors[i, j] == CellNeighbors(i, j, width, height)
  }

  /**
   * The seeding loops of determineFlowDirections have visited every cell
   * scanned before (x, y) in column-major order: exactly the edge cells
   * among them are closed, queued, ranked in order and given their first
   * off-grid direction.
   */
  ghost predicate EdgesBefore(waterheight: array2<byte>, closed: array2<bool>, flow: array2<Direction>, open: seq<Entry>,
                              rank: map<(int, int), nat>, order: seq<(int, int)>, unclosed: set<(int, int)>, x: int, y: int)
    reads closed, flow
  {
    var width, height := closed.Length0, closed.Length1;
    RouteShape(waterheight, closed, flow) &&
    (forall i, j {:trigger closed[i, j]} :: 0 <= i < width && 0 <= j < height ==>
       (closed[i, j] <==> ScanBefore((i, j), (x, y)) && IsEdge(i, j, width, height))) &&
    (forall i, j {:trigger closed[i, j]} :: 0 <= i < width && 0 <= j < height && closed[i, j] ==> Queued(open, i, j)) &&
    (forall k :: 0 <= k < |open| ==> ClosedEntry(closed, open[k])) &&
    Ranked(order, rank, unclosed, width, height) &&
    (forall i, j {:trigger closed[i, j]} :: 0 <= i < width && 0 <= j < height ==>
       ((i, j) in unclosed <==> !closed[i, j]) && (closed[i, j] ==> (i, j) in rank) &&
       (closed[i, j] && IsEdge(i, j, width, height) ==> flow[i, j] == FirstOffGridDirection(i, j, width, height)))
  }

  /** Having visited a whole column is having visited everything before the next one. */
  lemma RouteNextColumn(waterheight: array2<byte>, closed: array2<bool>, flow: array2<Direction>,
                        cellNeighbors: array2<seq<Neighbor>>, open: seq<Entry>,
                        rank: map<(int, int), nat>, order: seq<(int, int)>, unclosed: set<(int, int)>, x: int)
    requires EdgesBefore(waterheight, closed, flow, open, rank, order, unclosed, x, closed.Length1)
    requires TableBefore(cellNeighbors, closed.Length0, closed.Length1, x, closed.Length1)
    ensures EdgesBefore(waterheight, closed, flow, open, rank, order, unclosed, x + 1, 0)
    ensures TableBefore(cellNeighbors, closed.Length0, closed.Length1, x + 1, 0)
  {
  }

  /**
   * The seeding of the edge cell (x, y), as the proofs about it see it:
   * the grids, and the queue and bookkeeping before it.
   */
  datatype SeedStep = SeedStep(waterheight: array2<byte>, closed: array2<bool>, flow: array2<Direction>, x: int, y: int,
                               open: seq<Entry>, rank: map<(int, int), nat>, order: seq<(int, int)>, unclosed: set<(int, int)>)
  {
    /** The queue after the step: (x, y) appended at its water height. */
    ghost function Open'(): seq<Entry>
      reads waterheight
      requires 0 <= x < waterheight.Length0 && 0 <= y < waterheight.Length1
    {
      open + [Entry(x, y, waterheight[x, y] as int)]
    }

    /** What the step did: the edge cell (x, y) alone was closed and given its first off-grid direction. */
    twostate predicate Done()
      reads closed, flow
    {
      old(EdgesBefore(waterheight, closed, flow, open, rank, order, unclosed, x, y)) &&
      0 <= x < closed.Length0 && 0 <= y < closed.Length1 && IsEdge(x, y, closed.Length0, closed.Length1) &&
      closed[x, y] && flow[x, y] == FirstOffGridDirection(x, y, closed.Length0, closed.Length1) &&
      (forall a, b :: 0 <= a < closed.Length0 && 0 <= b < closed.Length1 && (a != x || b != y) ==>
         closed[a, b] == old(closed[a, b]) && flow[a, b] == old(flow[a, b]))
    }
  }

  /** Seeding an edge cell extends the seeded prefix by that cell. */
  twostate lemma EdgesAfterSeed(s: SeedStep)
    requires s.Done()
    ensures EdgesBefore(s.waterheight, s.closed, s.flow, s.Open'(), s.rank[(s.x, s.y) := |s.order|], s.order + [(s.x, s.y)],
                        s.unclosed - {(s.x, s.y)}, s.x, s.y + 1)
  {
    var closed, x, y, e := s.closed, s.x, s.y, Entry(s.x, s.y, s.waterheight[s.x, s.y] as int);
    var width, height := closed.Length0, closed.Length1;
    assert !old(closed[x, y]);
    forall i, j | 0 <= i < width && 0 <= j < height && (old(closed[i, j]) || (i == x && j == y))
      ensures Queued(s.open + [e], i, j)
    {
      if i != x || j != y {
        assert Queued(s.open, i, j);
      }
      QueuedAfterAppend(s.open, e, i, j);
    }
    RankedAfterClose(s.order, s.rank, s.unclosed, width, height, (x, y));
    forall k | 0 <= k < |s.open| + 1 ensures ClosedEntry(closed, (s.open + [e])[k]) {
      if k < |s.open| {
        assert old(ClosedEntry(closed, s.open[k]));
      }
    }
  }

  /**
   * The edge part of the seeding loops' body: when the list of off-grid
   * neighbours of (x, y) is not empty, the cell is queued at its water
   * height, closed, and given the direction of the first of them.
   */
  method SeedEdgeCell(waterheight: array2<byte>, closed: array2<bool>, flow: array2<Direction>, x: int, y: int,
                      invalidNeighbors: seq<Neighbor>, open: seq<Entry>,
                      ghost rank: map<(int, int), nat>, ghost order: seq<(int, int)>, ghost unclosed: set<(int, int)>)
    returns (open': seq<Entry>, ghost rank': map<(int, int), nat>, ghost order': seq<(int, int)>, ghost unclosed': set<(int, int)>)
    modifies closed, flow
    requires 0 <= x < closed.Length0 && 0 <= y < closed.Length1
    requires invalidNeighbors == OffGridNeighbors(x, y, closed.Length0, closed.Length1)
    requires EdgesBefore(waterheight, closed, flow, open, rank, order, unclosed, x, y)
    ensures EdgesBefore(waterheight, closed, flow, open', rank', order', unclosed', x, y + 1)
    ensures IsEdge(x, y, closed.Length0, closed.Length1) ==>
              closed[x, y] && flow[x, y] == FirstOffGridDirection(x, y, closed.Length0, closed.Length1) &&
              open' == open + [Entry(x, y, waterheight[x, y] as int)]
    ensures !IsEdge(x, y, closed.Length0, closed.Length1) ==> !closed[x, y] && open' == open
    ensures forall i, j :: 0 <= i < closed.Length0 && 0 <= j < closed.Length1 && (i != x || j != y) ==>
              closed[i, j] == old(closed[i, j]) && flow[i, j] == old(flow[i, j])
  {
    var width, height := closed.Length0, closed.Length1;
    EdgeCharacterisation(x, y, width, height);
    open', rank', order', unclosed' := open, rank, order, unclosed;
    if |invalidNeighbors| > 0 {
      open' := open + [Entry(x, y, waterheight[x, y] as int)];
      closed[x, y] := true;
      flow[x, y] := invalidNeighbors[0].dir;
      ghost var step := SeedStep(waterheight, closed, flow, x, y, open, rank, order, unclosed);
      EdgesAfterSeed(step);
      rank', order', unclosed' := rank[(x, y) := |order|], order + [(x, y)], unclosed - {(x, y)};
    }
  }

  /**
   * One pass of the seeding loops' body: the on-grid neighbours of (x, y)
   * go into the neighbour table, and when some neighbour lies off the grid
   * the cell is queued at its water height, closed, and given the direction
   * of its first off-grid neighbour.
   */
  method RouteSeedCell(waterheight: array2<byte>, closed: array2<bool>, flow: array2<Direction>,
                       cellNeighbors: array2<seq<Neighbor>>, x: int, y: int, open: seq<Entry>,
                       ghost rank: map<(int, int), nat>, ghost order: seq<(int, int)>, ghost unclosed: set<(int, int)>)
    returns (open': seq<Entry>, ghost rank': map<(int, int), nat>, ghost order': seq<(int, int)>, ghost unclosed': set<(int, int)>)
    modifies closed, flow, cellNeighbors
    requires 0 <= x < closed.Length0 && 0 <= y < closed.Length1
    requires EdgesBefore(waterheight, closed, flow, open, rank, order, unclosed, x, y)
    requires TableBefore(cellNeighbors, closed.Length0, closed.Length1, x, y)
    ensures EdgesBefore(waterheight, closed, flow, open', rank', order', unclosed', x, y + 1)
    ensures TableBefore(cellNeighbors, closed.Length0, closed.Length1, x, y + 1)
    ensures cellNeighbors[x, y] == CellNeighbors(x, y, closed.Length0, closed.Length1)
    ensures IsEdge(x, y, closed.Length0, closed.Length1) ==>
              closed[x, y] && flow[x, y] == FirstOffGridDirection(x, y, closed.Length0, closed.Length1) &&
              open' == open + [Entry(x, y, waterheight[x, y] as int)]
    ensures !IsEdge(x, y, closed.Length0, closed.Length1) ==> !closed[x, y] && open' == open
  {
    var width, height := closed.Length0, closed.Length1;
    var allNeighbors := NeighborsLabelled(x, y);
    var validNeighbors := KeepValid(allNeighbors, width, height);
    var invalidNeighbors := KeepInvalid(allNeighbors, width, height);
    cellNeighbors[x, y] := validNeighbors;
    forall i, j | 0 <= i < width && 0 <= j < height && ScanBefore((i, j), (x, y + 1))
      ensures cellNeighbors[i, j] == CellNeighbors(i, j, width, height)
    {
      if i != x || j != y {
        assert old(TableBefore(cellNeighbors, width, height, x, y)) && old(cellNeighbors[i, j]) == cellNeighbors[i, j];
      }
    }
    assert TableBefore(cellNeighbors, width, height, x, y + 1);
    open', rank', order', unclosed' :=
      SeedEdgeCell(waterheight, closed, flow, x, y, invalidNeighbors, open, rank, order, unclosed);
  }

  /**
   * The seeding loops of determineFlowDirections: the neighbour table is
   * built, and every edge cell is closed, queued at its water height and
   * given its first off-grid direction, in column-major order.
   */
  method RouteSeeding(waterheight: array2<byte>, closed: array2<bool>, flow: array2<Direction>)
    returns (cellNeighbors: array2<seq<Neighbor>>, open: seq<Entry>,
             ghost rank: map<(int, int), nat>, ghost order: seq<(int, int)>, ghost unclosed: set<(int, int)>)
    modifies closed, flow
    requires RouteShape(waterheight, closed, flow)
    requires forall x, y :: 0 <= x < closed.Length0 && 0 <= y < closed.Length1 ==> !closed[x, y]
    ensures fresh(cellNeighbors)
    ensures cellNeighbors.Length0 == closed.Length0 && cellNeighbors.Length1 == closed.Length1
    ensures forall x, y :: 0 <= x < closed.Length0 && 0 <= y < closed.Length1 ==>
              cellNeighbors[x, y] == CellNeighbors(x, y, closed.Length0, closed.Length1)
    ensures RoutingState(waterheight, closed, flow, open, rank, order, unclosed)
    ensures forall x, y :: 0 <= x < closed.Length0 && 0 <= y < closed.Length1 ==>
              (closed[x, y] <==> IsEdge(x, y, closed.Length0, closed.Length1)) && Pending(closed, open, [], x, y)
  {
    var width, height := closed.Length0, closed.Length1;
    cellNeighbors := new seq<Neighbor>[width, height]((i, j) => []);
    open, rank, order, unclosed := [], map[], [], GridCells(width, height);
    for x := 0 to width
      modifies closed, flow, cellNeighbors
      invariant EdgesBefore(waterheight, closed, flow, open, rank, order, unclosed, x, 0)
      invariant TableBefore(cellNeighbors, width, height, x, 0)
    {
      for y := 0 to height
        modifies closed, flow, cellNeighbors
        invariant EdgesBefore(waterheight, closed, flow, open, rank, order, unclosed, x, y)
        invariant TableBefore(cellNeighbors, width, height, x, y)
      {
        open, rank, order, unclosed := RouteSeedCell(waterheight, closed, flow, cellNeighbors, x, y, open, rank, order, unclosed);
      }
      RouteNextColumn(waterheight, closed, flow, cellNeighbors, open, rank, order, unclosed, x);
    }
    forall i, j | 0 <= i < width && 0 <= j < height
      ensures (closed[i, j] <==> IsEdge(i, j, width, height))
      ensures RouteState(closed, flow, rank, unclosed, i, j) && Pending(closed, open, [], i, j)
    {
    }
  }

  /**
   * The routing loop of determineFlowDirections: while the queue holds a
   * cell, a lowest entry is taken and its unclosed neighbours are routed
   * back to it. When the queue is empty every closed cell has all its
   * neighbours closed.
   */
  method RouteFlood(waterheight: array2<byte>, closed: array2<bool>, flow: array2<Direction>,
                    cellNeighbors: array2<seq<Neighbor>>, open0: seq<Entry>,
                    ghost rank0: map<(int, int), nat>, ghost order0: seq<(int, int)>, ghost unclosed0: set<(int, int)>)
    returns (ghost rank: map<(int, int), nat>, ghost order: seq<(int, int)>, ghost unclosed: set<(int, int)>)
    modifies closed, flow
    requires cellNeighbors.Length0 == closed.Length0 && cellNeighbors.Length1 == closed.Length1
    requires forall x, y :: 0 <= x < closed.Length0 && 0 <= y < closed.Length1 ==>
               cellNeighbors[x, y] == CellNeighbors(x, y, closed.Length0, closed.Length1)
    requires RoutingState(waterheight, closed, flow, open0, rank0, order0, unclosed0)
    requires forall x, y :: 0 <= x < closed.Length0 && 0 <= y < closed.Length1 ==> Pending(closed, open0, [], x, y)
    ensures RoutingState(waterheight, closed, flow, [], rank, order, unclosed)
    ensures forall x, y :: 0 <= x < closed.Length0 && 0 <= y < closed.Length1 && closed[x, y] ==> Settled(closed, x, y)
  {
    var width, height := closed.Length0, closed.Length1;
    var open := open0;
    rank, order, unclosed := rank0, order0, unclosed0;
    while open != []
      modifies closed, flow
      invariant RoutingState(waterheight, closed, flow, open, rank, order, unclosed)
      invariant forall i, j :: 0 <= i < width && 0 <= j < height ==> Pending(closed, open, [], i, j)
      decreases |unclosed|, |open|
    {
      var k := LowestIndex(open);
      var cell := open[k];
      forall i, j | 0 <= i < width && 0 <= j < height && (i != cell.x || j != cell.y)
        ensures Pending(closed, RemoveAt(open, k), [], i, j)
      {
        assert Pending(closed, open, [], i, j);
        if Queued(open, i, j) {
          QueuedAfterRemove(open, k, i, j);
        }
      }
      assert forall m :: 0 <= m < |RemoveAt(open, k)| ==> RemoveAt(open, k)[m] in open;
      open := RemoveAt(open, k);
      assert ClosedEntry(closed, cell);
      open, rank, order, unclosed := RouteCell(waterheight, closed, flow, cellNeighbors, cell.x, cell.y, open, rank, order, unclosed);
    }
    forall i, j | 0 <= i < width && 0 <= j < height && closed[i, j]
      ensures Settled(closed, i, j)
    {
      assert Pending(closed, open, [], i, j);
    }
  }

  /**
   * determineFlowDirections. Every edge cell is closed, queued at its water
   * height and given the direction of its first off-grid neighbour (left,
   * right, up, down); then, taking a lowest entry of the queue each time,
   * every unclosed neighbour of the taken cell is given the direction back
   * to it, closed and queued. Returns the flow directions and (for the
   * proof) the order in which cells were closed.
   */
  method DetermineFlowDirections(waterheight: array2<byte>) returns (flow: array2<Direction>, ghost closingOrder: seq<(int, int)>)
    ensures fresh(flow)
    ensures flow.Length0 == waterheight.Length0 && flow.Length1 == waterheight.Length1
    ensures forall x, y :: 0 <= x < flow.Length0 && 0 <= y < flow.Length1 && IsEdge(x, y, flow.Length0, flow.Length1) ==>
              flow[x, y] == FirstOffGridDirection(x, y, flow.Length0, flow.Length1)
    ensures forall x, y :: 0 <= x < flow.Length0 && 0 <= y < flow.Length1 && !IsEdge(x, y, flow.Length0, flow.Length1) ==>
              flow[x, y] != NoDirection &&
              Neighbor(Step(x, y, flow[x, y]).0, Step(x, y, flow[x, y]).1, flow[x, y]) in CellNeighbors(x, y, flow.Length0, flow.Length1)
    ensures forall x, y :: 0 <= x < flow.Length0 && 0 <= y < flow.Length1 ==> FlowsOff(flow, x, y, |closingOrder|)
    ensures forall c :: c in closingOrder <==> InGrid(c, flow.Length0, flow.Length1)
    ensures forall i, j :: 0 <= i < j < |closingOrder| ==> closingOrder[i] != closingOrder[j]
    ensures |closingOrder| == flow.Length0 * flow.Length1
  {
    var width, height := waterheight.Length0, waterheight.Length1;
    flow := new Direction[width, height]((i, j) => NoDirection);
    var closed := new bool[width, height]((i, j) => false);
    var cellNeighbors, open;
    ghost var rank, order, unclosed;
    cellNeighbors, open, rank, order, unclosed := RouteSeeding(waterheight, closed, flow);
    rank, order, unclosed := RouteFlood(waterheight, closed, flow, cellNeighbors, open, rank, order, unclosed);
    RouteClosesAll(waterheight, closed, flow, rank, order, unclosed);
    RouteDirections(waterheight, closed, flow, rank, order, unclosed);
    closingOrder := order;
  }

  /** When the routing stops with every closed cell settled, every cell of the grid is closed. */
  lemma RouteClosesAll(waterheight: array2<byte>, closed: array2<bool>, flow: array2<Direction>,
                       rank: map<(int, int), nat>, order: seq<(int, int)>, unclosed: set<(int, int)>)
    requires RoutingState(waterheight, closed, flow, [], rank, order, unclosed)
    requires forall x, y :: 0 <= x < closed.Length0 && 0 <= y < closed.Length1 && closed[x, y] ==> Settled(closed, x, y)
    ensures forall x, y :: 0 <= x < closed.Length0 && 0 <= y < closed.Length1 ==> closed[x, y]
  {
    forall x, y | 0 <= x < closed.Length0 && 0 <= y < closed.Length1 && IsEdge(x, y, closed.Length0, closed.Length1)
      ensures closed[x, y]
    {
      assert RouteState(closed, flow, rank, unclosed, x, y);
    }
    forall x, y | 0 <= x < closed.Length0 && 0 <= y < closed.Length1 ensures closed[x, y] {
      AllClosed(closed, x, y);
    }
  }

  /**
   * Once every cell is closed: edge cells flow through their first off-grid
   * side, inner cells flow to an on-grid neighbour, water leaves the grid
   * from every cell within as many steps as there are cells, and the
   * closing order lists each cell once.
   */
  lemma RouteDirections(waterheight: array2<byte>, closed: array2<bool>, flow: array2<Direction>,
                        rank: map<(int, int), nat>, order: seq<(int, int)>, unclosed: set<(int, int)>)
    requires RoutingState(waterheight, closed, flow, [], rank, order, unclosed)
    requires forall x, y :: 0 <= x < closed.Length0 && 0 <= y < closed.Length1 ==> closed[x, y]
    ensures forall x, y :: 0 <= x < closed.Length0 && 0 <= y < closed.Length1 && IsEdge(x, y, closed.Length0, closed.Length1) ==>
              flow[x, y] == FirstOffGridDirection(x, y, closed.Length0, closed.Length1)
    ensures forall x, y :: 0 <= x < closed.Length0 && 0 <= y < closed.Length1 && !IsEdge(x, y, closed.Length0, closed.Length1) ==>
              flow[x, y] != NoDirection &&
              Neighbor(Step(x, y, flow[x, y]).0, Step(x, y, flow[x, y]).1, flow[x, y]) in CellNeighbors(x, y, closed.Length0, closed.Length1)
    ensures forall x, y :: 0 <= x < closed.Length0 && 0 <= y < closed.Length1 ==> FlowsOff(flow, x, y, |order|)
    ensures forall c :: c in order <==> InGrid(c, closed.Length0, closed.Length1)
    ensures forall i, j :: 0 <= i < j < |order| ==> order[i] != order[j]
    ensures |order| == closed.Length0 * closed.Length1
  {
    var width, height := closed.Length0, closed.Length1;
    forall x, y | 0 <= x < width && 0 <= y < height
      ensures IsEdge(x, y, width, height) ==> flow[x, y] == FirstOffGridDirection(x, y, width, height)
      ensures !IsEdge(x, y, width, height) ==>
                flow[x, y] != NoDirection &&
                Neighbor(Step(x, y, flow[x, y]).0, Step(x, y, flow[x, y]).1, flow[x, y]) in CellNeighbors(x, y, width, height)
      ensures FlowsOff(flow, x, y, |order|)
    {
      assert RouteState(closed, flow, rank, unclosed, x, y);
      if !IsEdge(x, y, width, height) {
        NeighborInList(x, y, width, height, flow[x, y]);
      }
      FlowsOffByRank(closed, flow, rank, unclosed, x, y);
      FlowsOffMonotone(flow, x, y, rank[(x, y)], |order|);
    }
    forall c: (int, int) | InGrid(c, width, height) ensures c in rank {
      assert RouteState(closed, flow, rank, unclosed, c.0, c.1);
    }
    OrderCoversGrid(order, rank, unclosed, width, height);
  }
}
