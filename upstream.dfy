/**
 * Upstream cell counts of decideTerrainTypes. Following the flow
 * directions from any cell leads off the grid, so the flow forms a forest
 * whose roots point off the map. The cells upstream of c are those whose
 * flow path passes through c; findUpstreamCount returns how many there
 * are, and on the way adds to each visited cell the number of cells
 * upstream of it, in a 16-bit signed store.
 */
module UpstreamCount {

  import opened WorldTables
  import opened GridGeometry
  import opened FlowRouting

  /**
   * A store into a 16-bit signed integer array: the value is brought into
   * -32768..32767 by adding or removing multiples of 2^16.
   */
  function Wrap16(v: int): int
    decreases if v < 0 then -v else v + 1
  {
    if v < -0x8000 then Wrap16(v + 0x1_0000)
    else if v >= 0x8000 then Wrap16(v - 0x1_0000)
    else v
  }

  /** A stored value lies in -32768..32767. */
  lemma {:induction false} Wrap16Range(v: int)
    ensures -0x8000 <= Wrap16(v) < 0x8000
    decreases if v < 0 then -v else v + 1
  {
    if v < -0x8000 {
      Wrap16Range(v + 0x1_0000);
    } else if v >= 0x8000 {
      Wrap16Range(v - 0x1_0000);
    }
  }

  /** The store is the familiar two's-complement conversion: the value modulo 2^16, shifted. */
  lemma {:induction false} Wrap16Mod(v: int)
    ensures Wrap16(v) == (v + 0x8000) % 0x1_0000 - 0x8000
    decreases if v < 0 then -v else v + 1
  {
    if v < -0x8000 {
      Wrap16Mod(v + 0x1_0000);
      assert (v + 0x1_0000 + 0x8000) % 0x1_0000 == (v + 0x8000) % 0x1_0000;
    } else if v >= 0x8000 {
      Wrap16Mod(v - 0x1_0000);
      assert (v - 0x1_0000 + 0x8000) % 0x1_0000 == (v + 0x8000) % 0x1_0000;
    }
  }

  /** Values in the 16-bit range are stored unchanged. */
  lemma Wrap16InRange(v: int)
    requires -0x8000 <= v < 0x8000
    ensures Wrap16(v) == v
  {
  }

  /** Storing, reading back and adding loses nothing modulo 2^16. */
  lemma Wrap16Add(a: int, b: int)
    ensures Wrap16(Wrap16(a) + b) == Wrap16(a + b)
  {
    Wrap16Mod(a);
    Wrap16Mod(Wrap16(a) + b);
    Wrap16Mod(a + b);
    var k := (a + 0x8000) / 0x1_0000;
    assert Wrap16(a) == a - k * 0x1_0000;
    assert Wrap16(a) + b + 0x8000 == (a + b + 0x8000) - k * 0x1_0000;
  }

  /**
   * The flow directions of a grid as a value: the direction of every cell
   * of the width by height grid, by cell.
   */
  datatype FlowGrid = FlowGrid(width: int, height: int, dirs: map<(int, int), Direction>)

  /** The flow direction of c (none off the map). */
  function At(g: FlowGrid, c: (int, int)): Direction {
    if c in g.dirs then g.dirs[c] else NoDirection
  }

  /** The grid holds the directions of the array. */
  ghost predicate Mirrors(flow: array2<Direction>, g: FlowGrid)
    reads flow
  {
    g.width == flow.Length0 && g.height == flow.Length1 &&
    forall x, y :: 0 <= x < flow.Length0 && 0 <= y < flow.Length1 ==> At(g, (x, y)) == flow[x, y]
  }

  /** The directions of an array as a value. */
  ghost function Grid(flow: array2<Direction>): (g: FlowGrid)
    reads flow
    ensures Mirrors(flow, g)
  {
    FlowGrid(flow.Length0, flow.Length1, map x, y | 0 <= x < flow.Length0 && 0 <= y < flow.Length1 :: (x, y) := flow[x, y])
  }

  /** Following g from (x, y), water leaves the grid after at most `fuel` further steps. */
  ghost predicate Leaves(g: FlowGrid, x: int, y: int, fuel: nat)
    decreases fuel
  {
    0 <= x < g.width && 0 <= y < g.height && At(g, (x, y)) != NoDirection &&
    var n := Step(x, y, At(g, (x, y)));
    (!IsValidCell(n.0, n.1, g.width, g.height) || (fuel > 0 && Leaves(g, n.0, n.1, fuel - 1)))
  }

  /** More steps never hurt. */
  lemma {:induction false} LeavesMonotone(g: FlowGrid, x: int, y: int, fuel: nat, more: nat)
    requires Leaves(g, x, y, fuel) && fuel <= more
    ensures Leaves(g, x, y, more)
    decreases fuel
  {
    var n := Step(x, y, At(g, (x, y)));
    if IsValidCell(n.0, n.1, g.width, g.height) {
      LeavesMonotone(g, n.0, n.1, fuel - 1, more - 1);
    }
  }

  /** Water that flows off the array flows off its grid value. */
  lemma {:induction false} LeavesOfFlowsOff(flow: array2<Direction>, g: FlowGrid, x: int, y: int, fuel: nat)
    requires Mirrors(flow, g) && FlowsOff(flow, x, y, fuel)
    ensures Leaves(g, x, y, fuel)
    decreases fuel
  {
    var n := Step(x, y, flow[x, y]);
    if IsValidCell(n.0, n.1, g.width, g.height) {
      LeavesOfFlowsOff(flow, g, n.0, n.1, fuel - 1);
    }
  }

  /** Flow directions that lead every cell off the array drain its grid value. */
  lemma DrainsOf(flow: array2<Direction>, g: FlowGrid)
    requires Mirrors(flow, g)
    requires forall x, y :: 0 <= x < flow.Length0 && 0 <= y < flow.Length1 ==> FlowsOff(flow, x, y, flow.Length0 * flow.Length1)
    ensures Drains(g)
  {
    forall x, y | 0 <= x < g.width && 0 <= y < g.height
      ensures Leaves(g, x, y, g.width * g.height)
    {
      LeavesOfFlowsOff(flow, g, x, y, g.width * g.height);
    }
  }

  /** Water from every cell leaves the grid within width * height steps. */
  ghost predicate Drains(g: FlowGrid)
  {
    forall x, y :: 0 <= x < g.width && 0 <= y < g.height ==> Leaves(g, x, y, g.width * g.height)
  }

  /** The cell the flow direction of c points at. */
  function Next(g: FlowGrid, c: (int, int)): (int, int)
    requires InGrid(c, g.width, g.height)
  {
    Step(c.0, c.1, At(g, (c.0, c.1)))
  }

  /** The number of on-grid cells after (x, y) on its flow path, within the given number of steps. */
  ghost function Descent(g: FlowGrid, x: int, y: int, fuel: nat): (r: nat)
    requires Leaves(g, x, y, fuel)
    ensures r <= fuel
    decreases fuel
  {
    var n := Step(x, y, At(g, (x, y)));
    if IsValidCell(n.0, n.1, g.width, g.height) then 1 + Descent(g, n.0, n.1, fuel - 1) else 0
  }

  /** The length of the path does not depend on how many steps were allowed. */
  lemma {:induction false} DescentFuel(g: FlowGrid, x: int, y: int, fuel: nat, more: nat)
    requires Leaves(g, x, y, fuel) && fuel <= more
    ensures Leaves(g, x, y, more) && Descent(g, x, y, fuel) == Descent(g, x, y, more)
    decreases fuel
  {
    LeavesMonotone(g, x, y, fuel, more);
    var n := Step(x, y, At(g, (x, y)));
    if IsValidCell(n.0, n.1, g.width, g.height) {
      DescentFuel(g, n.0, n.1, fuel - 1, more - 1);
    }
  }

  /** How many steps the water of c takes on the grid before it leaves. */
  ghost function Depth(g: FlowGrid, c: (int, int)): (r: nat)
    requires Drains(g) && InGrid(c, g.width, g.height)
    ensures r <= g.width * g.height
  {
    Descent(g, c.0, c.1, g.width * g.height)
  }

  /** One step down the path lowers the depth by one; a cell that drains off the grid has depth 0. */
  lemma DepthNext(g: FlowGrid, c: (int, int))
    requires Drains(g) && InGrid(c, g.width, g.height)
    ensures At(g, (c.0, c.1)) != NoDirection
    ensures InGrid(Next(g, c), g.width, g.height) ==> Depth(g, c) == Depth(g, Next(g, c)) + 1
    ensures !InGrid(Next(g, c), g.width, g.height) ==> Depth(g, c) == 0
  {
    var fuel := g.width * g.height;
    assert Leaves(g, c.0, c.1, fuel);
    var n := Next(g, c);
    if InGrid(n, g.width, g.height) {
      DescentFuel(g, n.0, n.1, fuel - 1, fuel);
    }
  }

  /** The cell k steps down the flow path of c (it stops once off the grid). */
  ghost function Walk(g: FlowGrid, c: (int, int), k: nat): (int, int)
    decreases k
  {
    if k == 0 || !InGrid(c, g.width, g.height) then c else Walk(g, Next(g, c), k - 1)
  }

  /** Walking k <= depth steps stays on the grid and lowers the depth by k. */
  lemma {:induction false} WalkDepth(g: FlowGrid, c: (int, int), k: nat)
    requires Drains(g) && InGrid(c, g.width, g.height) && k <= Depth(g, c)
    ensures InGrid(Walk(g, c, k), g.width, g.height)
    ensures Depth(g, Walk(g, c, k)) == Depth(g, c) - k
    decreases k
  {
    if k > 0 {
      DepthNext(g, c);
      WalkDepth(g, Next(g, c), k - 1);
    }
  }

  /** The k-th cell of a path is the cell the (k-1)-th points at. */
  lemma {:induction false} WalkStep(g: FlowGrid, c: (int, int), k: nat)
    requires Drains(g) && InGrid(c, g.width, g.height) && 1 <= k <= Depth(g, c)
    ensures InGrid(Walk(g, c, k - 1), g.width, g.height)
    ensures Walk(g, c, k) == Next(g, Walk(g, c, k - 1))
    decreases k
  {
    DepthNext(g, c);
    WalkDepth(g, c, k - 1);
    if k > 1 {
      WalkStep(g, Next(g, c), k - 1);
    }
  }

  /** The flow path of u passes through c after at least one step. */
  ghost predicate Upstream(g: FlowGrid, u: (int, int), c: (int, int))
    requires Drains(g) && InGrid(u, g.width, g.height) && InGrid(c, g.width, g.height)
  {
    Depth(g, u) > Depth(g, c) && Walk(g, u, Depth(g, u) - Depth(g, c)) == c
  }

  /** The cells upstream of c: all cells whose water flows through c. */
  ghost function UpstreamSet(g: FlowGrid, c: (int, int)): (r: set<(int, int)>)
    requires Drains(g) && InGrid(c, g.width, g.height)
    ensures forall u :: u in r <==> InGrid(u, g.width, g.height) && Upstream(g, u, c)
    ensures c !in r
  {
    set x, y | 0 <= x < g.width && 0 <= y < g.height && Upstream(g, (x, y), c) :: (x, y)
  }

  /** The catchment of c: c and every cell upstream of it. */
  ghost function Catchment(g: FlowGrid, c: (int, int)): (r: set<(int, int)>)
    requires Drains(g) && InGrid(c, g.width, g.height)
  {
    {c} + UpstreamSet(g, c)
  }

  /** Water of n flows directly into c. */
  ghost predicate Child(g: FlowGrid, n: (int, int), c: (int, int))
  {
    InGrid(n, g.width, g.height) && At(g, (n.0, n.1)) != NoDirection && Next(g, n) == c
  }

  /** The cell just before c on the path of an upstream cell u. */
  ghost function Below(g: FlowGrid, u: (int, int), c: (int, int)): (int, int)
    requires Drains(g) && InGrid(u, g.width, g.height) && InGrid(c, g.width, g.height)
    requires Upstream(g, u, c)
  {
    Walk(g, u, Depth(g, u) - Depth(g, c) - 1)
  }

  /** Every cell upstream of c lies in the catchment of the child of c its path passes. */
  lemma UpstreamThroughChild(g: FlowGrid, u: (int, int), c: (int, int))
    requires Drains(g) && InGrid(u, g.width, g.height) && InGrid(c, g.width, g.height)
    requires Upstream(g, u, c)
    ensures Child(g, Below(g, u, c), c)
    ensures u in Catchment(g, Below(g, u, c))
  {
    var d := Depth(g, u) - Depth(g, c);
    WalkStep(g, u, d);
    WalkDepth(g, u, d - 1);
    var n := Walk(g, u, d - 1);
    DepthNext(g, n);
    if d > 1 {
      assert Upstream(g, u, n);
    }
  }

  /** The catchment of a child of c lies upstream of c, each cell passing c through that child. */
  lemma ChildCatchment(g: FlowGrid, n: (int, int), c: (int, int), u: (int, int))
    requires Drains(g) && InGrid(c, g.width, g.height) && Child(g, n, c)
    requires u in Catchment(g, n)
    ensures InGrid(u, g.width, g.height) && Upstream(g, u, c) && Below(g, u, c) == n
  {
    DepthNext(g, n);
    if u != n {
      var e := Depth(g, u) - Depth(g, n);
      WalkStep(g, u, e + 1);
    }
  }

  /** The catchments of two different children of c share no cell. */
  lemma ChildrenApart(g: FlowGrid, n: (int, int), m: (int, int), c: (int, int), u: (int, int))
    requires Drains(g) && InGrid(c, g.width, g.height) && Child(g, n, c) && Child(g, m, c)
    requires u in Catchment(g, n) && u in Catchment(g, m)
    ensures n == m
  {
    ChildCatchment(g, n, c, u);
    ChildCatchment(g, m, c, u);
  }

  /**
   * The neighbour test of findUpstreamCount: a neighbour of c, reached in
   * direction d, flows into c exactly when the opposite of its flow
   * direction is d.
   */
  lemma ChildTest(g: FlowGrid, c: (int, int), nb: Neighbor)
    requires nb in CellNeighbors(c.0, c.1, g.width, g.height)
    ensures Opposite(At(g, (nb.x, nb.y))) == nb.dir <==> Child(g, (nb.x, nb.y), c)
  {
    var e := At(g, (nb.x, nb.y));
    StepBack(c.0, c.1, nb.dir);
    StepBack(nb.x, nb.y, e);
    OppositeInvolution(nb.dir);
    OppositeInvolution(e);
  }

  /** Every child of c is in the neighbour list of c. */
  lemma ChildListed(g: FlowGrid, n: (int, int), c: (int, int))
    requires Child(g, n, c)
    ensures exists nb :: nb in CellNeighbors(c.0, c.1, g.width, g.height) && (nb.x, nb.y) == n
  {
    var e := At(g, (n.0, n.1));
    StepBack(n.0, n.1, e);
    OppositeInvolution(e);
    NeighborInList(c.0, c.1, g.width, g.height, Opposite(e));
  }

  /** The cells of the first k neighbours of a list. */
  function NeighborCells(neighbors: seq<Neighbor>, k: nat): (r: set<(int, int)>)
    requires k <= |neighbors|
    ensures forall m :: 0 <= m < k ==> (neighbors[m].x, neighbors[m].y) in r
    ensures forall c :: c in r ==> exists m :: 0 <= m < k && (neighbors[m].x, neighbors[m].y) == c
  {
    if k == 0 then {} else NeighborCells(neighbors, k - 1) + {(neighbors[k - 1].x, neighbors[k - 1].y)}
  }

  /**
   * What findUpstreamCount has covered of the cells upstream of c after the
   * first k neighbours: those whose path passes a handled neighbour.
   */
  ghost predicate CoveredSoFar(g: FlowGrid, c: (int, int), neighbors: seq<Neighbor>, k: nat,
                               covered: set<(int, int)>)
    requires Drains(g) && InGrid(c, g.width, g.height) && k <= |neighbors|
  {
    forall u :: u in covered <==>
      InGrid(u, g.width, g.height) && Upstream(g, u, c) && Below(g, u, c) in NeighborCells(neighbors, k)
  }

  /**
   * Handling the k-th neighbour: if it flows into c, its catchment joins
   * the covered cells, apart from them; otherwise nothing changes.
   */
  lemma CoverNeighbor(g: FlowGrid, c: (int, int), neighbors: seq<Neighbor>, k: nat, covered: set<(int, int)>)
    requires Drains(g) && InGrid(c, g.width, g.height)
    requires neighbors == CellNeighbors(c.0, c.1, g.width, g.height) && k < |neighbors|
    requires CoveredSoFar(g, c, neighbors, k, covered)
    ensures var n := (neighbors[k].x, neighbors[k].y);
      if Child(g, n, c) then
        covered !! Catchment(g, n) && CoveredSoFar(g, c, neighbors, k + 1, covered + Catchment(g, n))
      else
        CoveredSoFar(g, c, neighbors, k + 1, covered)
  {
    var n := (neighbors[k].x, neighbors[k].y);
    NeighborsDistinct(c.0, c.1, g.width, g.height);
    assert n !in NeighborCells(neighbors, k);
    if Child(g, n, c) {
      forall u | u in Catchment(g, n)
        ensures u !in covered && InGrid(u, g.width, g.height) && Upstream(g, u, c) && Below(g, u, c) == n
      {
        ChildCatchment(g, n, c, u);
      }
      forall u | InGrid(u, g.width, g.height) && Upstream(g, u, c) && Below(g, u, c) == n
        ensures u in Catchment(g, n)
      {
        UpstreamThroughChild(g, u, c);
      }
    } else {
      forall u | InGrid(u, g.width, g.height) && Upstream(g, u, c) ensures Below(g, u, c) != n {
        UpstreamThroughChild(g, u, c);
      }
    }
  }

  /** Once every neighbour is handled, the covered cells are all the cells upstream of c. */
  lemma CoveredAll(g: FlowGrid, c: (int, int), neighbors: seq<Neighbor>, covered: set<(int, int)>)
    requires Drains(g) && InGrid(c, g.width, g.height)
    requires neighbors == CellNeighbors(c.0, c.1, g.width, g.height)
    requires CoveredSoFar(g, c, neighbors, |neighbors|, covered)
    ensures covered == UpstreamSet(g, c)
  {
    forall u | InGrid(u, g.width, g.height) && Upstream(g, u, c)
      ensures Below(g, u, c) in NeighborCells(neighbors, |neighbors|)
    {
      UpstreamThroughChild(g, u, c);
      ChildListed(g, Below(g, u, c), c);
      var nb :| nb in neighbors && (nb.x, nb.y) == Below(g, u, c);
      var m :| 0 <= m < |neighbors| && neighbors[m] == nb;
    }
  }

  /** The arrays of the count cover the same grid, with the neighbour table of that grid. */
  ghost predicate CountShape(g: FlowGrid, cellNeighbors: array2<seq<Neighbor>>, upstream: array2<int>)
    reads cellNeighbors
  {
    cellNeighbors.Length0 == upstream.Length0 == g.width && cellNeighbors.Length1 == upstream.Length1 == g.height &&
    forall x, y :: 0 <= x < g.width && 0 <= y < g.height ==>
      cellNeighbors[x, y] == CellNeighbors(x, y, g.width, g.height)
  }

  /** The values of an array, by cell. */
  ghost function Snapshot(a: array2<int>): (m: map<(int, int), int>)
    reads a
    ensures forall i, j :: 0 <= i < a.Length0 && 0 <= j < a.Length1 ==> (i, j) in m && m[(i, j)] == a[i, j]
  {
    map i, j | 0 <= i < a.Length0 && 0 <= j < a.Length1 :: (i, j) := a[i, j]
  }

  /**
   * The count of the cell (i, j) so far: when covered, its starting value
   * plus the number of cells upstream of it, stored in 16 bits; otherwise
   * its starting value.
   */
  ghost predicate TalliedCell(g: FlowGrid, upstream: array2<int>, start: map<(int, int), int>,
                              covered: set<(int, int)>, i: int, j: int)
    reads upstream
    requires Drains(g) && upstream.Length0 == g.width && upstream.Length1 == g.height
    requires 0 <= i < upstream.Length0 && 0 <= j < upstream.Length1
  {
    (i, j) in start &&
    upstream[i, j] == if (i, j) in covered then Wrap16(start[(i, j)] + |UpstreamSet(g, (i, j))|) else start[(i, j)]
  }

  /** Every cell's count so far, as TalliedCell states it. */
  ghost predicate Tallied(g: FlowGrid, upstream: array2<int>, start: map<(int, int), int>, covered: set<(int, int)>)
    reads upstream
    requires Drains(g) && upstream.Length0 == g.width && upstream.Length1 == g.height
  {
    forall i, j :: 0 <= i < upstream.Length0 && 0 <= j < upstream.Length1 ==> TalliedCell(g, upstream, start, covered, i, j)
  }

  /** The counts recorded in `values`, by cell, as TalliedCell states them. */
  ghost predicate TalliedValues(g: FlowGrid, values: map<(int, int), int>, start: map<(int, int), int>,
                                covered: set<(int, int)>)
    requires Drains(g)
  {
    forall i, j :: 0 <= i < g.width && 0 <= j < g.height ==>
      (i, j) in values && (i, j) in start &&
      values[(i, j)] == if (i, j) in covered then Wrap16(start[(i, j)] + |UpstreamSet(g, (i, j))|) else start[(i, j)]
  }

  /** A snapshot of tallied counts records them. */
  lemma SnapshotTallied(g: FlowGrid, upstream: array2<int>, start: map<(int, int), int>, covered: set<(int, int)>)
    requires Drains(g) && upstream.Length0 == g.width && upstream.Length1 == g.height
    requires Tallied(g, upstream, start, covered)
    ensures TalliedValues(g, Snapshot(upstream), start, covered)
  {
    var values := Snapshot(upstream);
    forall i, j | 0 <= i < g.width && 0 <= j < g.height
      ensures (i, j) in values && (i, j) in start &&
              values[(i, j)] == if (i, j) in covered then Wrap16(start[(i, j)] + |UpstreamSet(g, (i, j))|) else start[(i, j)]
    {
      assert TalliedCell(g, upstream, start, covered, i, j);
    }
  }

  /**
   * Counts tallied over `covered` from `start`, then over a disjoint
   * `catchment` from the values reached, are tallied over both from `start`.
   */
  lemma TallyCompose(g: FlowGrid, upstream: array2<int>, start: map<(int, int), int>, before: map<(int, int), int>,
                     covered: set<(int, int)>, catchment: set<(int, int)>)
    requires Drains(g) && upstream.Length0 == g.width && upstream.Length1 == g.height
    requires TalliedValues(g, before, start, covered)
    requires Tallied(g, upstream, before, catchment)
    requires covered !! catchment
    ensures Tallied(g, upstream, start, covered + catchment)
  {
    forall i, j | 0 <= i < upstream.Length0 && 0 <= j < upstream.Length1
      ensures TalliedCell(g, upstream, start, covered + catchment, i, j)
    {
      assert TalliedCell(g, upstream, before, catchment, i, j);
      if (i, j) in catchment {
        assert (i, j) !in covered;
        assert before[(i, j)] == start[(i, j)];
      }
    }
  }

  /**
   * What the loop of findUpstreamCount over the neighbours of (x, y) keeps
   * after k of them: the covered cells are those upstream through a handled
   * neighbour, the count is their number, and their counts are tallied.
   */
  ghost predicate CountProgress(g: FlowGrid, upstream: array2<int>, x: int, y: int, neighbors: seq<Neighbor>,
                                k: nat, count: int, start: map<(int, int), int>, covered: set<(int, int)>)
    reads upstream
  {
    Drains(g) && upstream.Length0 == g.width && upstream.Length1 == g.height &&
    0 <= x < g.width && 0 <= y < g.height && k <= |neighbors| &&
    CoveredSoFar(g, (x, y), neighbors, k, covered) && count == |covered| && Tallied(g, upstream, start, covered)
  }

  /**
   * findUpstreamCount: the number of cells upstream of (x, y), found by
   * recursion into every neighbour that flows into it. Every cell of the
   * catchment of (x, y) is visited once and has the number of cells
   * upstream of it added to its 16-bit count; no other count changes.
   */
  method FindUpstreamCount(flow: array2<Direction>, cellNeighbors: array2<seq<Neighbor>>, upstream: array2<int>,
                           x: int, y: int, ghost g: FlowGrid) returns (count: int)
    modifies upstream
    requires Mirrors(flow, g) && CountShape(g, cellNeighbors, upstream) && Drains(g)
    requires 0 <= x < g.width && 0 <= y < g.height
    ensures count == |UpstreamSet(g, (x, y))|
    ensures Tallied(g, upstream, old(Snapshot(upstream)), Catchment(g, (x, y)))
    decreases g.width * g.height - Depth(g, (x, y)), 2
  {
    ghost var start := Snapshot(upstream);
    var neighbors := cellNeighbors[x, y];
    count := 0;
    ghost var covered: set<(int, int)> := {};
    forall i, j | 0 <= i < upstream.Length0 && 0 <= j < upstream.Length1
      ensures TalliedCell(g, upstream, start, covered, i, j)
    {
    }
    for k := 0 to |neighbors|
      invariant neighbors == CellNeighbors(x, y, g.width, g.height)
      invariant CountProgress(g, upstream, x, y, neighbors, k, count, start, covered)
    {
      count, covered := CountNeighbor(flow, cellNeighbors, upstream, x, y, neighbors, k, count, g, start, covered);
    }
    CoveredAll(g, (x, y), neighbors, covered);
    StoreCount(upstream, x, y, count, g, start);
  }

  /** Two disjoint sets have as many cells together as apart. */
  lemma DisjointCount(a: set<(int, int)>, b: set<(int, int)>)
    requires a !! b
    ensures |a + b| == |a| + |b|
  {
    assert a * b == {};
  }

  /**
   * The neighbour step of findUpstreamCount on covered cells: a neighbour
   * passing the test adds its catchment, one more cell than lie upstream of
   * it, to the covered cells; any other neighbour adds nothing.
   */
  lemma CoverStep(g: FlowGrid, c: (int, int), neighbors: seq<Neighbor>, k: nat, covered: set<(int, int)>)
    requires Drains(g) && InGrid(c, g.width, g.height)
    requires neighbors == CellNeighbors(c.0, c.1, g.width, g.height) && k < |neighbors|
    requires CoveredSoFar(g, c, neighbors, k, covered)
    ensures var nb := neighbors[k];
      0 <= nb.x < g.width && 0 <= nb.y < g.height &&
      if Opposite(At(g, (nb.x, nb.y))) == nb.dir then
        Child(g, (nb.x, nb.y), c) && covered !! Catchment(g, (nb.x, nb.y)) &&
        CoveredSoFar(g, c, neighbors, k + 1, covered + Catchment(g, (nb.x, nb.y))) &&
        |covered + Catchment(g, (nb.x, nb.y))| == |covered| + 1 + |UpstreamSet(g, (nb.x, nb.y))|
      else
        CoveredSoFar(g, c, neighbors, k + 1, covered)
  {
    var nb := neighbors[k];
    var n := (nb.x, nb.y);
    CoverNeighbor(g, c, neighbors, k, covered);
    ChildTest(g, c, nb);
    if Child(g, n, c) {
      DisjointCount(covered, Catchment(g, n));
      DisjointCount({n}, UpstreamSet(g, n));
    }
  }

  /**
   * One turn of the loop of findUpstreamCount over the neighbours of (x, y):
   * when the k-th neighbour flows into (x, y), its own upstream count plus
   * one is added to the count, and its catchment becomes covered.
   */
  method CountNeighbor(flow: array2<Direction>, cellNeighbors: array2<seq<Neighbor>>, upstream: array2<int>,
                       x: int, y: int, neighbors: seq<Neighbor>, k: nat, count: int,
                       ghost g: FlowGrid, ghost start: map<(int, int), int>, ghost covered: set<(int, int)>)
    returns (count': int, ghost covered': set<(int, int)>)
    modifies upstream
    requires Mirrors(flow, g) && CountShape(g, cellNeighbors, upstream) && neighbors == CellNeighbors(x, y, g.width, g.height)
    requires CountProgress(g, upstream, x, y, neighbors, k, count, start, covered) && k < |neighbors|
    ensures CountProgress(g, upstream, x, y, neighbors, k + 1, count', start, covered')
    decreases g.width * g.height - Depth(g, (x, y)), 1
  {
    var n := neighbors[k];
    CoverStep(g, (x, y), neighbors, k, covered);
    if Opposite(flow[n.x, n.y]) == n.dir {
      count', covered' := CountChild(flow, cellNeighbors, upstream, x, y, neighbors, k, count, g, start, covered);
    } else {
      count', covered' := count, covered;
    }
  }

  /**
   * The recursion of findUpstreamCount into the k-th neighbour of (x, y)
   * when it flows into (x, y): the catchment of the neighbour is tallied on
   * top of the cells already covered, and as many cells are counted.
   */
  method CountChild(flow: array2<Direction>, cellNeighbors: array2<seq<Neighbor>>, upstream: array2<int>,
                    x: int, y: int, neighbors: seq<Neighbor>, k: nat, count: int,
                    ghost g: FlowGrid, ghost start: map<(int, int), int>, ghost covered: set<(int, int)>)
    returns (count': int, ghost covered': set<(int, int)>)
    modifies upstream
    requires Mirrors(flow, g) && CountShape(g, cellNeighbors, upstream)
    requires CountProgress(g, upstream, x, y, neighbors, k, count, start, covered) && k < |neighbors|
    requires var nb := neighbors[k];
      Child(g, (nb.x, nb.y), (x, y)) && covered !! Catchment(g, (nb.x, nb.y)) &&
      CoveredSoFar(g, (x, y), neighbors, k + 1, covered + Catchment(g, (nb.x, nb.y))) &&
      |covered + Catchment(g, (nb.x, nb.y))| == |covered| + 1 + |UpstreamSet(g, (nb.x, nb.y))|
    ensures CountProgress(g, upstream, x, y, neighbors, k + 1, count', start, covered')
    decreases g.width * g.height - Depth(g, (x, y)), 0
  {
    var n := (neighbors[k].x, neighbors[k].y);
    DepthNext(g, n);
    ghost var catchment := Catchment(g, n);
    ghost var before := Snapshot(upstream);
    SnapshotTallied(g, upstream, start, covered);
    var c := FindUpstreamCount(flow, cellNeighbors, upstream, n.0, n.1, g);
    TallyCompose(g, upstream, start, before, covered, catchment);
    count', covered' := count + 1 + c, covered + catchment;
  }

  /**
   * The last step of findUpstreamCount: with every cell upstream of (x, y)
   * counted, (x, y) itself gets their number added to its 16-bit count.
   */
  method StoreCount(upstream: array2<int>, x: int, y: int, count: int, ghost g: FlowGrid, ghost start: map<(int, int), int>)
    modifies upstream
    requires Drains(g) && upstream.Length0 == g.width && upstream.Length1 == g.height
    requires 0 <= x < g.width && 0 <= y < g.height
    requires Tallied(g, upstream, start, UpstreamSet(g, (x, y))) && count == |UpstreamSet(g, (x, y))|
    ensures Tallied(g, upstream, start, Catchment(g, (x, y)))
  {
    ghost var up := UpstreamSet(g, (x, y));
    assert TalliedCell(g, upstream, start, up, x, y);
    upstream[x, y] := Wrap16(upstream[x, y] + count);
    forall i, j | 0 <= i < upstream.Length0 && 0 <= j < upstream.Length1
      ensures TalliedCell(g, upstream, start, {(x, y)} + up, i, j)
    {
      assert old(TalliedCell(g, upstream, start, up, i, j));
      if i != x || j != y {
        assert upstream[i, j] == old(upstream[i, j]);
      } else {
        assert UpstreamSet(g, (i, j)) == up;
      }
    }
  }

  /** Every cell of the list lies on the grid. */
  predicate AllInGrid(g: FlowGrid, cells: seq<(int, int)>) {
    forall m :: 0 <= m < |cells| ==> InGrid(cells[m], g.width, g.height)
  }

  /** How many of the first k listed cells have u in their catchment, duplicates counted. */
  ghost function Hits(g: FlowGrid, cells: seq<(int, int)>, k: nat, u: (int, int)): (r: nat)
    requires Drains(g) && AllInGrid(g, cells) && k <= |cells|
    ensures r <= k
  {
    if k == 0 then 0 else Hits(g, cells, k - 1, u) + if u in Catchment(g, cells[k - 1]) then 1 else 0
  }

  /** A cell u hit by none of the first k listed cells lies in none of their catchments, and conversely. */
  lemma {:induction false} HitsZero(g: FlowGrid, cells: seq<(int, int)>, k: nat, u: (int, int))
    requires Drains(g) && AllInGrid(g, cells) && k <= |cells|
    ensures Hits(g, cells, k, u) == 0 <==> forall m :: 0 <= m < k ==> u !in Catchment(g, cells[m])
  {
    if k > 0 {
      HitsZero(g, cells, k - 1, u);
    }
  }

  /**
   * The amount findUpstreamCount from the first k listed cells adds to u:
   * the number of cells upstream of u for each of those cells whose
   * catchment holds u.
   */
  ghost function Load(g: FlowGrid, cells: seq<(int, int)>, k: nat, u: (int, int)): int
    requires Drains(g) && AllInGrid(g, cells) && k <= |cells| && InGrid(u, g.width, g.height)
  {
    if k == 0 then 0 else Load(g, cells, k - 1, u) + if u in Catchment(g, cells[k - 1]) then |UpstreamSet(g, u)| else 0
  }

  /** The load of u is its upstream count times the number of hits. */
  lemma {:induction false} LoadHits(g: FlowGrid, cells: seq<(int, int)>, k: nat, u: (int, int))
    requires Drains(g) && AllInGrid(g, cells) && k <= |cells| && InGrid(u, g.width, g.height)
    ensures Load(g, cells, k, u) == Hits(g, cells, k, u) * |UpstreamSet(g, u)|
  {
    if k > 0 {
      LoadHits(g, cells, k - 1, u);
      MulSucc(Hits(g, cells, k - 1, u), |UpstreamSet(g, u)|);
    }
  }

  /** One more copy of n on top of h copies. */
  lemma MulSucc(h: int, n: int)
    ensures h * n + n == (h + 1) * n
  {
  }

  /** No copies of n make 0, one copy makes n. */
  lemma MulSmall(h: int, n: int)
    ensures h == 0 ==> h * n == 0
    ensures h == 1 ==> h * n == n
  {
  }

  /**
   * The counts after findUpstreamCount has run from each of the first k
   * listed cells: every cell holds its load, in 16 bits.
   */
  ghost predicate Accumulated(g: FlowGrid, values: map<(int, int), int>, cells: seq<(int, int)>, k: nat)
    requires Drains(g) && AllInGrid(g, cells) && k <= |cells|
  {
    forall i, j :: 0 <= i < g.width && 0 <= j < g.height ==>
      (i, j) in values && values[(i, j)] == Wrap16(Load(g, cells, k, (i, j)))
  }

  /** The counts of the array, as Accumulated states them. */
  ghost predicate AccumulatedIn(g: FlowGrid, upstream: array2<int>, cells: seq<(int, int)>, k: nat)
    reads upstream
    requires Drains(g) && AllInGrid(g, cells) && k <= |cells|
  {
    upstream.Length0 == g.width && upstream.Length1 == g.height &&
    forall i, j :: 0 <= i < g.width && 0 <= j < g.height ==> upstream[i, j] == Wrap16(Load(g, cells, k, (i, j)))
  }

  /** A snapshot of accumulated counts records them. */
  lemma SnapshotAccumulated(g: FlowGrid, upstream: array2<int>, cells: seq<(int, int)>, k: nat)
    requires Drains(g) && AllInGrid(g, cells) && k <= |cells|
    requires AccumulatedIn(g, upstream, cells, k)
    ensures Accumulated(g, Snapshot(upstream), cells, k)
  {
  }

  /** One more findUpstreamCount from the k-th cell adds the count of its catchment once more. */
  lemma AccumulateStep(g: FlowGrid, upstream: array2<int>, before: map<(int, int), int>, cells: seq<(int, int)>, k: nat)
    requires Drains(g) && upstream.Length0 == g.width && upstream.Length1 == g.height
    requires AllInGrid(g, cells) && k < |cells|
    requires Accumulated(g, before, cells, k) && Tallied(g, upstream, before, Catchment(g, cells[k]))
    ensures AccumulatedIn(g, upstream, cells, k + 1)
  {
    forall i, j | 0 <= i < g.width && 0 <= j < g.height
      ensures upstream[i, j] == Wrap16(Load(g, cells, k + 1, (i, j)))
    {
      assert TalliedCell(g, upstream, before, Catchment(g, cells[k]), i, j);
      AccumulateCell(g, cells, k, (i, j), before[(i, j)], upstream[i, j]);
    }
  }

  /** The step of AccumulateStep at one cell u, from its count b before to its count v after. */
  lemma AccumulateCell(g: FlowGrid, cells: seq<(int, int)>, k: nat, u: (int, int), b: int, v: int)
    requires Drains(g) && AllInGrid(g, cells) && k < |cells| && InGrid(u, g.width, g.height)
    requires b == Wrap16(Load(g, cells, k, u))
    requires v == if u in Catchment(g, cells[k]) then Wrap16(b + |UpstreamSet(g, u)|) else b
    ensures v == Wrap16(Load(g, cells, k + 1, u))
  {
    if u in Catchment(g, cells[k]) {
      Wrap16Add(Load(g, cells, k, u), |UpstreamSet(g, u)|);
    }
  }

  /**
   * The upstream counts of decideTerrainTypes: a fresh 16-bit array of
   * zeros, then findUpstreamCount from each coastal cell in turn.
   */
  method AccumulateUpstream(flow: array2<Direction>, cellNeighbors: array2<seq<Neighbor>>, coastal: seq<(int, int)>,
                            ghost g: FlowGrid)
    returns (upstream: array2<int>)
    requires Mirrors(flow, g) && Drains(g) && AllInGrid(g, coastal)
    requires cellNeighbors.Length0 == flow.Length0 && cellNeighbors.Length1 == flow.Length1
    requires forall x, y :: 0 <= x < flow.Length0 && 0 <= y < flow.Length1 ==>
      cellNeighbors[x, y] == CellNeighbors(x, y, flow.Length0, flow.Length1)
    ensures fresh(upstream)
    ensures AccumulatedIn(g, upstream, coastal, |coastal|)
  {
    upstream := new int[flow.Length0, flow.Length1]((i, j) => 0);
    forall i, j | 0 <= i < g.width && 0 <= j < g.height
      ensures upstream[i, j] == Wrap16(Load(g, coastal, 0, (i, j)))
    {
    }
    for k := 0 to |coastal|
      invariant AccumulatedIn(g, upstream, coastal, k)
    {
      AccumulateFrom(flow, cellNeighbors, upstream, coastal, k, g);
    }
  }

  /** One turn of the loop of AccumulateUpstream: findUpstreamCount from the k-th coastal cell. */
  method AccumulateFrom(flow: array2<Direction>, cellNeighbors: array2<seq<Neighbor>>, upstream: array2<int>,
                        coastal: seq<(int, int)>, k: nat, ghost g: FlowGrid)
    modifies upstream
    requires Mirrors(flow, g) && CountShape(g, cellNeighbors, upstream) && Drains(g)
    requires AllInGrid(g, coastal) && k < |coastal| && AccumulatedIn(g, upstream, coastal, k)
    ensures AccumulatedIn(g, upstream, coastal, k + 1)
  {
    ghost var before := Snapshot(upstream);
    SnapshotAccumulated(g, upstream, coastal, k);
    var c := coastal[k];
    var _ := FindUpstreamCount(flow, cellNeighbors, upstream, c.0, c.1, g);
    AccumulateStep(g, upstream, before, coastal, k);
  }

  /**
   * What the accumulated count of a cell u is: its number of upstream cells
   * times the number of listed cells whose catchment holds it, in 16 bits.
   * So it is 0 when no listed catchment holds u, and exactly the number of
   * cells upstream of u when one does and that number fits 16 bits.
   */
  lemma AccumulatedCount(g: FlowGrid, upstream: array2<int>, cells: seq<(int, int)>, u: (int, int))
    requires Drains(g) && AllInGrid(g, cells) && AccumulatedIn(g, upstream, cells, |cells|)
    requires InGrid(u, g.width, g.height)
    ensures upstream[u.0, u.1] == Wrap16(Hits(g, cells, |cells|, u) * |UpstreamSet(g, u)|)
    ensures (forall m :: 0 <= m < |cells| ==> u !in Catchment(g, cells[m])) ==> upstream[u.0, u.1] == 0
    ensures Hits(g, cells, |cells|, u) == 1 && |UpstreamSet(g, u)| < 0x8000 ==> upstream[u.0, u.1] == |UpstreamSet(g, u)|
  {
    LoadHits(g, cells, |cells|, u);
    HitsZero(g, cells, |cells|, u);
    var h := Hits(g, cells, |cells|, u);
    var n := |UpstreamSet(g, u)|;
    MulSmall(h, n);
    if h == 0 {
      Wrap16InRange(0);
    } else if h == 1 && n < 0x8000 {
      Wrap16InRange(n);
    }
  }
}
