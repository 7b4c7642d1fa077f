/**
 * decideDrainageBasins: a label-propagating priority-flood. Every edge
 * cell is queued in `open` at its water height and marked as queued; the
 * first time a queued cell is taken it is given the next basin number,
 * counting from 1; every other cell takes the number of the cell whose
 * expansion reached it. The non-oceanic cells are then grouped by basin
 * number, each basin with a colour packed from three random components.
 */
module DrainageBasins {

  import opened WorldTables
  import opened GridGeometry
  import opened FloodQueues

  /**
   * An entry of the labels grid: a candidate not reached yet (undefined),
   * an edge cell queued but not taken yet (null), or a basin number.
   */
  datatype Label = Candidate | Enqueued | Basin(id: nat)

  /** A basin of the result: its packed colour and its cells, in scan order. */
  datatype BasinRecord = BasinRecord(color: int, cells: seq<(int, int)>)

  /** `some` over a neighbour list: some listed neighbour lies off the grid. */
  function SomeOffGrid(ns: seq<Neighbor>, width: int, height: int): (r: bool)
    ensures r <==> |KeepInvalid(ns, width, height)| > 0
  {
    if ns == [] then false
    else !IsValidCell(ns[0].x, ns[0].y, width, height) || SomeOffGrid(ns[1..], width, height)
  }

  /** A busy marker that lies off every grid: no cell is being expanded. */
  const Idle: (int, int) := (-1, -1)

  /**
   * The label of cell c as the ghost bookkeeping records it: a candidate
   * while it is unlabelled, its basin number once it has one, and queued
   * otherwise.
   */
  function LabelOf(basin: map<(int, int), nat>, unlabelled: set<(int, int)>, c: (int, int)): Label {
    if c in unlabelled then Candidate
    else if c in basin then Basin(basin[c])
    else Enqueued
  }

  /** The labels grid agrees with the bookkeeping on every cell. */
  ghost predicate Mirrors(labels: array2<Label>, basin: map<(int, int), nat>, unlabelled: set<(int, int)>)
    reads labels
  {
    forall x, y :: 0 <= x < labels.Length0 && 0 <= y < labels.Length1 ==>
      labels[x, y] == LabelOf(basin, unlabelled, (x, y))
  }

  /**
   * The basin numbers handed out so far: every numbered cell lies on the
   * grid and holds a number from 1 to |roots|; roots[i] is the edge cell
   * that was given number i + 1 when it was first taken; every other
   * numbered cell is an inner cell reached from a neighbour, `from`, with
   * the same number and a smaller `depth`, so following `from` leads back
   * to the root.
   */
  ghost predicate Labelling(width: int, height: int, basin: map<(int, int), nat>, roots: seq<(int, int)>,
                            from: map<(int, int), (int, int)>, depth: map<(int, int), nat>)
  {
    (forall c :: c in basin ==> InGrid(c, width, height) && 1 <= basin[c] <= |roots| && c in depth) &&
    (forall i :: 0 <= i < |roots| ==> roots[i] in basin && basin[roots[i]] == i + 1 && IsEdge(roots[i].0, roots[i].1, width, height)) &&
    (forall c {:trigger Linked(width, height, basin, roots, from, depth, c)} :: c in basin ==>
       Linked(width, height, basin, roots, from, depth, c))
  }

  /**
   * The numbered cell c is the root of its basin, or an inner cell reached
   * from a side-by-side neighbour with the same number and a smaller depth.
   */
  ghost predicate Linked(width: int, height: int, basin: map<(int, int), nat>, roots: seq<(int, int)>,
                         from: map<(int, int), (int, int)>, depth: map<(int, int), nat>, c: (int, int))
  {
    c in basin && 1 <= basin[c] <= |roots| &&
    (c == roots[basin[c] - 1] ||
     (!IsEdge(c.0, c.1, width, height) && c in from && from[c] in basin && basin[from[c]] == basin[c] && Adjacent(from[c], c) &&
      c in depth && from[c] in depth && depth[from[c]] < depth[c]))
  }

  /**
   * The numbered cell c is reached from the root of its basin through a
   * chain of at most `steps` side-by-side cells with c's number, each
   * reached from the one before it.
   */
  ghost predicate GrowsFrom(basin: map<(int, int), nat>, roots: seq<(int, int)>, from: map<(int, int), (int, int)>,
                            c: (int, int), steps: nat)
    decreases steps
  {
    c in basin && 1 <= basin[c] <= |roots| &&
    (c == roots[basin[c] - 1] ||
     (steps > 0 && c in from && from[c] in basin && basin[from[c]] == basin[c] && Adjacent(from[c], c) &&
      GrowsFrom(basin, roots, from, from[c], steps - 1)))
  }

  /** A chain that fits in some number of steps fits in more. */
  lemma {:induction false} GrowsFromMonotone(basin: map<(int, int), nat>, roots: seq<(int, int)>, from: map<(int, int), (int, int)>,
                                             c: (int, int), steps: nat, more: nat)
    requires GrowsFrom(basin, roots, from, c, steps) && steps <= more
    ensures GrowsFrom(basin, roots, from, c, more)
    decreases steps
  {
    if c != roots[basin[c] - 1] {
      GrowsFromMonotone(basin, roots, from, from[c], steps - 1, more - 1);
    }
  }

  /** Every numbered cell grows from the root of its basin, within its depth. */
  lemma {:induction false} GrownFromRoot(width: int, height: int, basin: map<(int, int), nat>, roots: seq<(int, int)>,
                                         from: map<(int, int), (int, int)>, depth: map<(int, int), nat>, c: (int, int))
    requires Labelling(width, height, basin, roots, from, depth) && c in basin
    ensures GrowsFrom(basin, roots, from, c, depth[c])
    decreases depth[c]
  {
    assert Linked(width, height, basin, roots, from, depth, c);
    if c != roots[basin[c] - 1] {
      GrownFromRoot(width, height, basin, roots, from, depth, from[c]);
      GrowsFromMonotone(basin, roots, from, from[c], depth[from[c]], depth[c] - 1);
    }
  }

  /**
   * The labelling decideDrainageBasins ends with: the basin numbers as
   * above, every edge cell the root of its basin, and every numbered cell
   * grown from the root of its basin.
   */
  ghost predicate Grown(width: int, height: int, basin: map<(int, int), nat>, roots: seq<(int, int)>,
                        from: map<(int, int), (int, int)>, depth: map<(int, int), nat>)
  {
    Labelling(width, height, basin, roots, from, depth) &&
    (forall c :: InGrid(c, width, height) && IsEdge(c.0, c.1, width, height) ==> c in roots) &&
    (forall c {:trigger GrowsFrom(basin, roots, from, c, depth[c])} :: c in basin ==>
       c in depth && GrowsFrom(basin, roots, from, c, depth[c]))
  }

  /**
   * Once every cell of the grid is numbered, every edge cell is the root
   * of its basin and every cell grows from the root of its basin.
   */
  lemma RootsAndChains(width: int, height: int, basin: map<(int, int), nat>, roots: seq<(int, int)>,
                       from: map<(int, int), (int, int)>, depth: map<(int, int), nat>)
    requires Labelling(width, height, basin, roots, from, depth)
    requires forall c :: InGrid(c, width, height) ==> c in basin
    ensures Grown(width, height, basin, roots, from, depth)
  {
    forall c | InGrid(c, width, height) && IsEdge(c.0, c.1, width, height) ensures c in roots {
      assert Linked(width, height, basin, roots, from, depth, c);
    }
    forall c | c in basin ensures c in depth && GrowsFrom(basin, roots, from, c, depth[c]) {
      GrownFromRoot(width, height, basin, roots, from, depth, c);
    }
  }

  /** No neighbour of (x, y) is still a candidate. */
  ghost predicate Settled(unlabelled: set<(int, int)>, x: int, y: int, width: int, height: int) {
    forall n :: n in CellNeighbors(x, y, width, height) ==> (n.x, n.y) !in unlabelled
  }

  /** The queue entry e names a cell of the grid that is no longer a candidate. */
  ghost predicate Reached(e: Entry, unlabelled: set<(int, int)>, width: int, height: int) {
    InGrid((e.x, e.y), width, height) && (e.x, e.y) !in unlabelled
  }

  /**
   * What holds of the flood between two steps, except for the cell `busy`
   * being expanded: candidates are interior cells without a number; both
   * queues hold reached cells only; a reached cell without a number is a
   * queued edge cell waiting in `open`; a numbered cell is waiting in a
   * queue or has no candidate neighbour left.
   */
  ghost predicate Waiting(width: int, height: int, basin: map<(int, int), nat>, unlabelled: set<(int, int)>,
                          open: seq<Entry>, pit: seq<Entry>, busy: (int, int))
  {
    (forall c :: c in unlabelled ==> InGrid(c, width, height) && c !in basin && !IsEdge(c.0, c.1, width, height)) &&
    (forall k :: 0 <= k < |open| ==> Reached(open[k], unlabelled, width, height)) &&
    (forall k :: 0 <= k < |pit| ==> Reached(pit[k], unlabelled, width, height)) &&
    (forall c :: InGrid(c, width, height) && c !in unlabelled && c !in basin ==> IsEdge(c.0, c.1, width, height)) &&
    (forall c :: InGrid(c, width, height) && c !in unlabelled && c != busy ==>
       if c in basin then Queued(open, c.0, c.1) || Queued(pit, c.0, c.1) || Settled(unlabelled, c.0, c.1, width, height)
       else Queued(open, c.0, c.1))
  }

  /** The interior cells of the grid: those that are not edge cells. */
  ghost function Interior(width: nat, height: nat): (r: set<(int, int)>)
    ensures forall c :: c in r <==> InGrid(c, width, height) && !IsEdge(c.0, c.1, width, height)
  {
    set x, y | 0 <= x < width && 0 <= y < height && !IsEdge(x, y, width, height) :: (x, y)
  }

  /**
   * The seeding loops have visited every cell before (x, y) in scan order:
   * exactly the edge cells among them are marked queued, each waiting in
   * `open` at its water height; all other cells are candidates.
   */
  ghost predicate SeededBefore(waterheight: array2<byte>, labels: array2<Label>, open: seq<Entry>, x: int, y: int)
    reads waterheight, labels
  {
    var width, height := labels.Length0, labels.Length1;
    waterheight.Length0 == width && waterheight.Length1 == height &&
    (forall i, j {:trigger labels[i, j]} :: 0 <= i < width && 0 <= j < height ==>
       labels[i, j] == if ScanBefore((i, j), (x, y)) && IsEdge(i, j, width, height) then Enqueued else Candidate) &&
    (forall i, j {:trigger labels[i, j]} :: 0 <= i < width && 0 <= j < height && labels[i, j] == Enqueued ==> Queued(open, i, j)) &&
    (forall k :: 0 <= k < |open| ==>
       InGrid((open[k].x, open[k].y), width, height) && IsEdge(open[k].x, open[k].y, width, height) &&
       open[k].z == waterheight[open[k].x, open[k].y] as int)
  }

  /**
   * One pass of the seeding loops' body: the cell (x, y) is marked queued
   * and queued in `open` at its water height exactly when some neighbour of
   * it lies off the grid.
   */
  method SeedBasinCell(waterheight: array2<byte>, labels: array2<Label>, x: int, y: int, open: seq<Entry>)
    returns (open': seq<Entry>)
    modifies labels
    requires 0 <= x < labels.Length0 && 0 <= y < labels.Length1
    requires SeededBefore(waterheight, labels, open, x, y)
    ensures SeededBefore(waterheight, labels, open', x, y + 1)
  {
    var width, height := labels.Length0, labels.Length1;
    var isEdge := SomeOffGrid(NeighborsLabelled(x, y), width, height);
    EdgeCharacterisation(x, y, width, height);
    open' := open;
    if isEdge {
      var e := Entry(x, y, waterheight[x, y] as int);
      forall i, j | 0 <= i < width && 0 <= j < height && (labels[i, j] == Enqueued || (i == x && j == y))
        ensures Queued(open + [e], i, j)
      {
        QueuedAfterAppend(open, e, i, j);
      }
      open' := open + [e];
      labels[x, y] := Enqueued;
    }
  }

  /**
   * The seeding loops of decideDrainageBasins: a fresh labels grid in which
   * the edge cells are marked queued, each waiting in `open` at its water
   * height, and every other cell is a candidate.
   */
  method SeedBasins(waterheight: array2<byte>) returns (labels: array2<Label>, open: seq<Entry>)
    ensures fresh(labels) && labels.Length0 == waterheight.Length0 && labels.Length1 == waterheight.Length1
    ensures Mirrors(labels, map[], Interior(labels.Length0, labels.Length1))
    ensures forall k :: 0 <= k < |open| ==>
      InGrid((open[k].x, open[k].y), labels.Length0, labels.Length1) && IsEdge(open[k].x, open[k].y, labels.Length0, labels.Length1) &&
      open[k].z == waterheight[open[k].x, open[k].y] as int
    ensures forall c :: InGrid(c, labels.Length0, labels.Length1) && IsEdge(c.0, c.1, labels.Length0, labels.Length1) ==>
      Queued(open, c.0, c.1)
  {
    var width, height := waterheight.Length0, waterheight.Length1;
    labels := new Label[width, height]((i, j) => Candidate);
    open := [];
    for x := 0 to width
      invariant SeededBefore(waterheight, labels, open, x, 0)
    {
      for y := 0 to height
        invariant SeededBefore(waterheight, labels, open, x, y)
      {
        open := SeedBasinCell(waterheight, labels, x, y, open);
      }
    }
    ghost var inner := Interior(width, height);
    forall c | InGrid(c, width, height) && IsEdge(c.0, c.1, width, height) ensures Queued(open, c.0, c.1) {
      assert labels[c.0, c.1] == Enqueued;
    }
  }

  /**
   * Takes the cell (cx, cy) off a queue: when it is still marked queued it
   * is given the next basin number and becomes the root of that basin;
   * otherwise its number stays.
   */
  method TakeCell(labels: array2<Label>, cx: int, cy: int, currentLabel: nat,
                  ghost basin: map<(int, int), nat>, ghost roots: seq<(int, int)>, ghost from: map<(int, int), (int, int)>,
                  ghost depth: map<(int, int), nat>, ghost unlabelled: set<(int, int)>, ghost open: seq<Entry>, ghost pit: seq<Entry>)
    returns (currentLabel': nat, ghost basin': map<(int, int), nat>, ghost roots': seq<(int, int)>, ghost depth': map<(int, int), nat>)
    modifies labels
    requires Mirrors(labels, basin, unlabelled)
    requires Labelling(labels.Length0, labels.Length1, basin, roots, from, depth) && currentLabel == |roots| + 1
    requires Waiting(labels.Length0, labels.Length1, basin, unlabelled, open, pit, (cx, cy))
    requires InGrid((cx, cy), labels.Length0, labels.Length1) && (cx, cy) !in unlabelled
    ensures Mirrors(labels, basin', unlabelled)
    ensures Labelling(labels.Length0, labels.Length1, basin', roots', from, depth') && currentLabel' == |roots'| + 1
    ensures Waiting(labels.Length0, labels.Length1, basin', unlabelled, open, pit, (cx, cy))
    ensures (cx, cy) in basin' && labels[cx, cy] == Basin(basin'[(cx, cy)])
    ensures old(labels[cx, cy]) == Enqueued ==>
      basin' == basin[(cx, cy) := currentLabel] && roots' == roots + [(cx, cy)] && currentLabel' == currentLabel + 1
    ensures old(labels[cx, cy]) != Enqueued ==> basin' == basin && roots' == roots && currentLabel' == currentLabel && depth' == depth
  {
    currentLabel', basin', roots', depth' := currentLabel, basin, roots, depth;
    if labels[cx, cy] == Enqueued {
      labels[cx, cy] := Basin(currentLabel);
      basin' := basin[(cx, cy) := currentLabel];
      roots' := roots + [(cx, cy)];
      depth' := depth[(cx, cy) := 0];
      currentLabel' := currentLabel + 1;
      RootAfterTake(labels.Length0, labels.Length1, basin, roots, from, depth, unlabelled, open, pit, (cx, cy));
    }
  }

  /**
   * Numbering the taken cell c, a queued edge cell, with the next basin
   * number makes it the root of a new basin and keeps the bookkeeping.
   */
  lemma RootAfterTake(width: int, height: int, basin: map<(int, int), nat>, roots: seq<(int, int)>,
                      from: map<(int, int), (int, int)>, depth: map<(int, int), nat>, unlabelled: set<(int, int)>,
                      open: seq<Entry>, pit: seq<Entry>, c: (int, int))
    requires Labelling(width, height, basin, roots, from, depth)
    requires Waiting(width, height, basin, unlabelled, open, pit, c)
    requires InGrid(c, width, height) && c !in unlabelled && c !in basin
    ensures Labelling(width, height, basin[c := |roots| + 1], roots + [c], from, depth[c := 0])
    ensures Waiting(width, height, basin[c := |roots| + 1], unlabelled, open, pit, c)
  {
    var basin', roots', depth' := basin[c := |roots| + 1], roots + [c], depth[c := 0];
    forall i | 0 <= i < |roots'|
      ensures roots'[i] in basin' && basin'[roots'[i]] == i + 1 && IsEdge(roots'[i].0, roots'[i].1, width, height)
    {
      if i < |roots| {
        assert roots'[i] == roots[i] != c;
      }
    }
    forall d | d in basin' ensures Linked(width, height, basin', roots', from, depth', d) {
      if d != c {
        assert Linked(width, height, basin, roots, from, depth, d);
        assert roots'[basin[d] - 1] == roots[basin[d] - 1];
      }
    }
  }

  /**
   * One step of the expansion of (cx, cy): its candidate neighbour n takes
   * the basin number of (cx, cy) and is queued in `pit` at the taken
   * entry's priority z when its water is no higher than z, and in `open`
   * at its own water height otherwise.
   */
  method LabelNeighbor(waterheight: array2<byte>, labels: array2<Label>, cx: int, cy: int, z: int, n: Neighbor,
                       open: seq<Entry>, pit: seq<Entry>, ghost basin: map<(int, int), nat>, ghost roots: seq<(int, int)>,
                       ghost from: map<(int, int), (int, int)>, ghost depth: map<(int, int), nat>, ghost unlabelled: set<(int, int)>)
    returns (open': seq<Entry>, pit': seq<Entry>, ghost basin': map<(int, int), nat>,
             ghost from': map<(int, int), (int, int)>, ghost depth': map<(int, int), nat>, ghost unlabelled': set<(int, int)>)
    modifies labels
    requires waterheight.Length0 == labels.Length0 && waterheight.Length1 == labels.Length1
    requires Mirrors(labels, basin, unlabelled)
    requires Labelling(labels.Length0, labels.Length1, basin, roots, from, depth)
    requires Waiting(labels.Length0, labels.Length1, basin, unlabelled, open, pit, (cx, cy))
    requires (cx, cy) in basin && OnGrid(n, labels.Length0, labels.Length1) && LabelledFrom(cx, cy, n) && (n.x, n.y) in unlabelled
    ensures labels[n.x, n.y] == labels[cx, cy]
    ensures waterheight[n.x, n.y] as int <= z ==> open' == open && pit' == pit + [Entry(n.x, n.y, z)]
    ensures waterheight[n.x, n.y] as int > z ==> open' == open + [Entry(n.x, n.y, waterheight[n.x, n.y] as int)] && pit' == pit
    ensures Mirrors(labels, basin', unlabelled')
    ensures Labelling(labels.Length0, labels.Length1, basin', roots, from', depth')
    ensures Waiting(labels.Length0, labels.Length1, basin', unlabelled', open', pit', (cx, cy))
    ensures unlabelled' == unlabelled - {(n.x, n.y)} && |unlabelled'| + 1 == |unlabelled|
    ensures |open'| + |pit'| == |open| + |pit| + 1 && (cx, cy) in basin'
  {
    var width, height := labels.Length0, labels.Length1;
    var c, m := (cx, cy), (n.x, n.y);
    assert labels[cx, cy] == Basin(basin[c]);
    labels[n.x, n.y] := labels[cx, cy];
    assert Adjacent(c, m);
    var raised := waterheight[n.x, n.y] as int <= z;
    var e := if raised then Entry(n.x, n.y, z) else Entry(n.x, n.y, waterheight[n.x, n.y] as int);
    if raised {
      open', pit' := open, pit + [e];
    } else {
      open', pit' := open + [e], pit;
    }
    basin', from', depth', unlabelled' := basin[m := basin[c]], from[m := c], depth[m := depth[c] + 1], unlabelled - {m};
    LabellingAfterReach(width, height, basin, roots, from, depth, c, m);
    WaitingAfterReach(width, height, basin, unlabelled, open, pit, c, m, e, raised);
  }

  /** Giving the candidate m the number of its numbered neighbour c keeps the numbering. */
  lemma LabellingAfterReach(width: int, height: int, basin: map<(int, int), nat>, roots: seq<(int, int)>,
                            from: map<(int, int), (int, int)>, depth: map<(int, int), nat>, c: (int, int), m: (int, int))
    requires Labelling(width, height, basin, roots, from, depth)
    requires c in basin && m !in basin && InGrid(m, width, height) && !IsEdge(m.0, m.1, width, height) && Adjacent(c, m)
    ensures Labelling(width, height, basin[m := basin[c]], roots, from[m := c], depth[m := depth[c] + 1])
  {
    var basin', from', depth' := basin[m := basin[c]], from[m := c], depth[m := depth[c] + 1];
    forall i | 0 <= i < |roots| ensures roots[i] in basin' && basin'[roots[i]] == i + 1 {
      assert roots[i] != m;
    }
    forall d | d in basin' ensures Linked(width, height, basin', roots, from', depth', d) {
      if d != m {
        assert Linked(width, height, basin, roots, from, depth, d);
      }
    }
  }

  /**
   * Reaching the candidate m from the cell c being expanded, and queueing
   * it in `pit` (when raised) or in `open`, keeps the flood's bookkeeping.
   */
  lemma WaitingAfterReach(width: int, height: int, basin: map<(int, int), nat>, unlabelled: set<(int, int)>,
                          open: seq<Entry>, pit: seq<Entry>, c: (int, int), m: (int, int), e: Entry, raised: bool)
    requires Waiting(width, height, basin, unlabelled, open, pit, c)
    requires c in basin && m in unlabelled && (e.x, e.y) == m
    ensures Waiting(width, height, basin[m := basin[c]], unlabelled - {m},
                    if raised then open else open + [e], if raised then pit + [e] else pit, c)
  {
    var basin', unlabelled' := basin[m := basin[c]], unlabelled - {m};
    var open', pit' := if raised then open else open + [e], if raised then pit + [e] else pit;
    forall d | InGrid(d, width, height) && d !in unlabelled' && d != c
      ensures Queued(open', d.0, d.1) || Queued(pit', d.0, d.1) || Settled(unlabelled', d.0, d.1, width, height)
      ensures d !in basin' ==> Queued(open', d.0, d.1)
    {
      if d == m {
        if raised {
          QueuedAfterAppend(pit, e, d.0, d.1);
        } else {
          QueuedAfterAppend(open, e, d.0, d.1);
        }
      } else {
        if Queued(open, d.0, d.1) && !raised {
          QueuedAfterAppend(open, e, d.0, d.1);
        }
        if Queued(pit, d.0, d.1) && raised {
          QueuedAfterAppend(pit, e, d.0, d.1);
        }
      }
    }
  }

  /** Once every neighbour of the busy cell c is reached, the bookkeeping holds with no cell busy. */
  lemma WaitingRelease(width: int, height: int, basin: map<(int, int), nat>, unlabelled: set<(int, int)>,
                       open: seq<Entry>, pit: seq<Entry>, c: (int, int))
    requires Waiting(width, height, basin, unlabelled, open, pit, c)
    requires c in basin && Settled(unlabelled, c.0, c.1, width, height)
    ensures Waiting(width, height, basin, unlabelled, open, pit, Idle)
  {
  }

  /** None of the first k neighbours in `ns` is a candidate. */
  ghost predicate ReachedPrefix(ns: seq<Neighbor>, k: int, unlabelled: set<(int, int)>)
    requires 0 <= k <= |ns|
  {
    forall m :: 0 <= m < k ==> (ns[m].x, ns[m].y) !in unlabelled
  }

  /** Reaching one more candidate keeps the prefix reached. */
  lemma ReachedPrefixShrinks(ns: seq<Neighbor>, k: int, unlabelled: set<(int, int)>, c: (int, int))
    requires 0 <= k <= |ns| && ReachedPrefix(ns, k, unlabelled)
    ensures ReachedPrefix(ns, k, unlabelled - {c})
  {
  }

  /** A reached k-th neighbour extends the reached prefix. */
  lemma ReachedPrefixGrows(ns: seq<Neighbor>, k: int, unlabelled: set<(int, int)>)
    requires 0 <= k < |ns| && ReachedPrefix(ns, k, unlabelled) && (ns[k].x, ns[k].y) !in unlabelled
    ensures ReachedPrefix(ns, k + 1, unlabelled)
  {
  }

  /** A wholly reached list reaches each of its entries. */
  lemma ReachedAll(ns: seq<Neighbor>, unlabelled: set<(int, int)>)
    requires ReachedPrefix(ns, |ns|, unlabelled)
    ensures forall n :: n in ns ==> (n.x, n.y) !in unlabelled
  {
  }

  /**
   * The expansion of the taken cell (cx, cy), whose basin number is set:
   * every neighbour in its row of the neighbour table that is still a
   * candidate takes that number and is queued, in the table's order.
   * Afterwards no neighbour of (cx, cy) is a candidate.
   */
  method ExpandBasinCell(waterheight: array2<byte>, labels: array2<Label>, cellNeighbors: array2<seq<Neighbor>>,
                         cx: int, cy: int, z: int, open: seq<Entry>, pit: seq<Entry>,
                         ghost basin: map<(int, int), nat>, ghost roots: seq<(int, int)>,
                         ghost from: map<(int, int), (int, int)>, ghost depth: map<(int, int), nat>, ghost unlabelled: set<(int, int)>)
    returns (open': seq<Entry>, pit': seq<Entry>, ghost basin': map<(int, int), nat>,
             ghost from': map<(int, int), (int, int)>, ghost depth': map<(int, int), nat>, ghost unlabelled': set<(int, int)>)
    modifies labels
    requires waterheight.Length0 == labels.Length0 && waterheight.Length1 == labels.Length1
    requires 0 <= cx < cellNeighbors.Length0 && 0 <= cy < cellNeighbors.Length1
    requires cellNeighbors[cx, cy] == CellNeighbors(cx, cy, labels.Length0, labels.Length1)
    requires Mirrors(labels, basin, unlabelled)
    requires Labelling(labels.Length0, labels.Length1, basin, roots, from, depth)
    requires Waiting(labels.Length0, labels.Length1, basin, unlabelled, open, pit, (cx, cy))
    requires (cx, cy) in basin
    ensures Mirrors(labels, basin', unlabelled')
    ensures Labelling(labels.Length0, labels.Length1, basin', roots, from', depth')
    ensures Waiting(labels.Length0, labels.Length1, basin', unlabelled', open', pit', Idle)
    ensures |unlabelled'| <= |unlabelled| && |unlabelled'| + |open'| + |pit'| == |unlabelled| + |open| + |pit|
  {
    var width, height := labels.Length0, labels.Length1;
    var neighbors := cellNeighbors[cx, cy];
    open', pit', basin', from', depth', unlabelled' := open, pit, basin, from, depth, unlabelled;
    for k := 0 to |neighbors|
      modifies labels
      invariant Mirrors(labels, basin', unlabelled')
      invariant Labelling(width, height, basin', roots, from', depth')
      invariant Waiting(width, height, basin', unlabelled', open', pit', (cx, cy))
      invariant (cx, cy) in basin' && |unlabelled'| <= |unlabelled|
      invariant ReachedPrefix(neighbors, k, unlabelled')
      invariant |unlabelled'| + |open'| + |pit'| == |unlabelled| + |open| + |pit|
    {
      var n := neighbors[k];
      assert OnGrid(n, width, height) && LabelledFrom(cx, cy, n);
      if labels[n.x, n.y] == Candidate {
        ghost var before := unlabelled';
        open', pit', basin', from', depth', unlabelled' :=
          LabelNeighbor(waterheight, labels, cx, cy, z, n, open', pit', basin', roots, from', depth', unlabelled');
        ReachedPrefixShrinks(neighbors, k, before, (n.x, n.y));
      } else {
        assert labels[n.x, n.y] == LabelOf(basin', unlabelled', (n.x, n.y));
      }
      ReachedPrefixGrows(neighbors, k, unlabelled');
    }
    ReachedAll(neighbors, unlabelled');
    assert Settled(unlabelled', cx, cy, width, height);
    WaitingRelease(width, height, basin', unlabelled', open', pit', (cx, cy));
  }

  /** Taking the head of `pit` makes it the busy cell. */
  lemma WaitingAfterTakePit(width: int, height: int, basin: map<(int, int), nat>, unlabelled: set<(int, int)>,
                            open: seq<Entry>, pit: seq<Entry>)
    requires Waiting(width, height, basin, unlabelled, open, pit, Idle) && |pit| > 0
    ensures Reached(pit[0], unlabelled, width, height)
    ensures Waiting(width, height, basin, unlabelled, open, pit[1..], (pit[0].x, pit[0].y))
  {
    forall c | InGrid(c, width, height) && c !in unlabelled && c != (pit[0].x, pit[0].y) && Queued(pit, c.0, c.1)
      ensures Queued(pit[1..], c.0, c.1)
    {
      QueuedAfterDequeue(pit, c.0, c.1);
    }
    assert forall k :: 0 <= k < |pit[1..]| ==> pit[1..][k] == pit[k + 1];
  }

  /** Taking the entry at position i of `open` makes its cell the busy cell. */
  lemma WaitingAfterTakeOpen(width: int, height: int, basin: map<(int, int), nat>, unlabelled: set<(int, int)>,
                             open: seq<Entry>, pit: seq<Entry>, i: nat)
    requires Waiting(width, height, basin, unlabelled, open, pit, Idle) && i < |open|
    ensures Reached(open[i], unlabelled, width, height)
    ensures Waiting(width, height, basin, unlabelled, RemoveAt(open, i), pit, (open[i].x, open[i].y))
  {
    forall c | InGrid(c, width, height) && c !in unlabelled && c != (open[i].x, open[i].y) && Queued(open, c.0, c.1)
      ensures Queued(RemoveAt(open, i), c.0, c.1)
    {
      QueuedAfterRemove(open, i, c.0, c.1);
    }
    assert forall k :: 0 <= k < |RemoveAt(open, i)| ==> RemoveAt(open, i)[k] in open;
  }

  /**
   * The flood loop of decideDrainageBasins: while either queue holds a
   * cell, the head of `pit` is taken when `pit` is non-empty and otherwise
   * a lowest entry of `open`; a taken cell still marked queued gets the
   * next basin number, and then its candidate neighbours are reached.
   */
  method FloodBasins(waterheight: array2<byte>, labels: array2<Label>, cellNeighbors: array2<seq<Neighbor>>,
                     open0: seq<Entry>, ghost unlabelled0: set<(int, int)>)
    returns (ghost basin: map<(int, int), nat>, ghost roots: seq<(int, int)>,
             ghost from: map<(int, int), (int, int)>, ghost depth: map<(int, int), nat>, ghost unlabelled: set<(int, int)>)
    modifies labels
    requires waterheight.Length0 == labels.Length0 && waterheight.Length1 == labels.Length1
    requires cellNeighbors.Length0 == labels.Length0 && cellNeighbors.Length1 == labels.Length1
    requires forall x, y :: 0 <= x < labels.Length0 && 0 <= y < labels.Length1 ==>
      cellNeighbors[x, y] == CellNeighbors(x, y, labels.Length0, labels.Length1)
    requires Mirrors(labels, map[], unlabelled0)
    requires Waiting(labels.Length0, labels.Length1, map[], unlabelled0, open0, [], Idle)
    ensures Mirrors(labels, basin, unlabelled)
    ensures Labelling(labels.Length0, labels.Length1, basin, roots, from, depth)
    ensures Waiting(labels.Length0, labels.Length1, basin, unlabelled, [], [], Idle)
  {
    var width, height := labels.Length0, labels.Length1;
    var open, pit: seq<Entry> := open0, [];
    var currentLabel: nat := 1;
    basin, roots, from, depth, unlabelled := map[], [], map[], map[], unlabelled0;
    while open != [] || pit != []
      modifies labels
      invariant Mirrors(labels, basin, unlabelled)
      invariant Labelling(width, height, basin, roots, from, depth) && currentLabel == |roots| + 1
      invariant Waiting(width, height, basin, unlabelled, open, pit, Idle)
      decreases |unlabelled|, |open| + |pit|
    {
      var cell: Entry;
      if pit != [] {
        cell := pit[0];
        WaitingAfterTakePit(width, height, basin, unlabelled, open, pit);
        pit := pit[1..];
      } else {
        var k := LowestIndex(open);
        cell := open[k];
        WaitingAfterTakeOpen(width, height, basin, unlabelled, open, pit, k);
        open := RemoveAt(open, k);
      }
      currentLabel, basin, roots, depth := TakeCell(labels, cell.x, cell.y, currentLabel, basin, roots, from, depth, unlabelled, open, pit);
      open, pit, basin, from, depth, unlabelled :=
        ExpandBasinCell(waterheight, labels, cellNeighbors, cell.x, cell.y, cell.z, open, pit, basin, roots, from, depth, unlabelled);
    }
  }

  /**
   * A set of candidates that holds no edge cell, and holds the cell below
   * a reached cell only when that lies off the grid, holds no cell of the
   * grid: the flood reaches every cell.
   */
  lemma {:induction false} NoCandidateLeft(width: int, height: int, unlabelled: set<(int, int)>, x: int, y: int)
    requires forall c :: InGrid(c, width, height) && IsEdge(c.0, c.1, width, height) ==> c !in unlabelled
    requires forall c :: InGrid(c, width, height) && c !in unlabelled && c.1 + 1 < height ==> (c.0, c.1 + 1) !in unlabelled
    requires InGrid((x, y), width, height)
    ensures (x, y) !in unlabelled
    decreases y
  {
    if y > 0 && !IsEdge(x, y, width, height) {
      NoCandidateLeft(width, height, unlabelled, x, y - 1);
    }
  }

  /** When both queues are empty, every cell of the grid has a basin number. */
  lemma FloodNumbersAll(width: int, height: int, basin: map<(int, int), nat>, unlabelled: set<(int, int)>)
    requires Waiting(width, height, basin, unlabelled, [], [], Idle)
    ensures unlabelled == {}
    ensures forall c :: InGrid(c, width, height) ==> c in basin
  {
    forall c | InGrid(c, width, height) && c !in unlabelled && c.1 + 1 < height ensures (c.0, c.1 + 1) !in unlabelled {
      assert Settled(unlabelled, c.0, c.1, width, height);
      NeighborInList(c.0, c.1, width, height, Down);
    }
    forall c | InGrid(c, width, height) ensures c !in unlabelled {
      NoCandidateLeft(width, height, unlabelled, c.0, c.1);
    }
  }

  /**
   * The colour of a new basin, (red << 16) + (green << 8) + blue. With
   * components in 0..255 the shifts stay within 32 bits, so the packed
   * value is the plain sum.
   */
  function PackColor(red: byte, green: byte, blue: byte): (color: int)
    ensures 0 <= color < 0x100_0000
  {
    red as int * 0x1_0000 + green as int * 0x100 + blue as int
  }

  /** The red, green and blue components of a packed colour. */
  function UnpackColor(color: int): (int, int, int) {
    (color / 0x100 / 0x100, color / 0x100 % 0x100, color % 0x100)
  }

  /** Splitting a + b by 256, for 0 <= b < 256, gives a back and leaves b. */
  lemma DivMod256(a: int, b: int)
    requires 0 <= b < 0x100
    ensures (a * 0x100 + b) / 0x100 == a && (a * 0x100 + b) % 0x100 == b
  {
    var n := a * 0x100 + b;
    var q, r := n / 0x100, n % 0x100;
    assert n == q * 0x100 + r && 0 <= r < 0x100;
    assert (a - q) * 0x100 == r - b;
  }

  /** Unpacking a packed colour gives its three components back. */
  lemma UnpackPack(red: byte, green: byte, blue: byte)
    ensures UnpackColor(PackColor(red, green, blue)) == (red as int, green as int, blue as int)
  {
    var g := red as int * 0x100 + green as int;
    assert PackColor(red, green, blue) == g * 0x100 + blue as int;
    DivMod256(g, blue as int);
    DivMod256(red as int, green as int);
  }

  /**
   * The non-oceanic cells of the grid, each with its basin number: the
   * cells the grouping loops file into basins.
   */
  ghost function Members(labels: array2<Label>, terrainTypes: array2<Terrain>): (r: map<(int, int), nat>)
    reads labels, terrainTypes
    requires terrainTypes.Length0 == labels.Length0 && terrainTypes.Length1 == labels.Length1
    requires forall i, j :: 0 <= i < labels.Length0 && 0 <= j < labels.Length1 ==> labels[i, j].Basin?
    ensures forall c :: c in r ==> InGrid(c, labels.Length0, labels.Length1)
  {
    map c | c in GridCells(labels.Length0, labels.Length1) && !IsOceanic(terrainTypes[c.0, c.1]) :: labels[c.0, c.1].id
  }

  /** The cell (x, y) of the grid is a member exactly when it is not oceanic, with its label's number. */
  lemma MemberAt(labels: array2<Label>, terrainTypes: array2<Terrain>, x: int, y: int)
    requires terrainTypes.Length0 == labels.Length0 && terrainTypes.Length1 == labels.Length1
    requires forall i, j :: 0 <= i < labels.Length0 && 0 <= j < labels.Length1 ==> labels[i, j].Basin?
    requires 0 <= x < labels.Length0 && 0 <= y < labels.Length1
    ensures (x, y) in Members(labels, terrainTypes) <==> !IsOceanic(terrainTypes[x, y])
    ensures (x, y) in Members(labels, terrainTypes) ==> Members(labels, terrainTypes)[(x, y)] == labels[x, y].id
  {
    assert (x, y) in GridCells(labels.Length0, labels.Length1);
  }

  /**
   * The grouping loops have visited every member cell before `next` in
   * scan order: each basin holds, in scan order, exactly the visited
   * members with its number, and every visited member is in the basin of
   * its number.
   */
  ghost predicate Filed(members: map<(int, int), nat>, basins: map<nat, BasinRecord>, next: (int, int)) {
    (forall id, c :: id in basins && c in basins[id].cells ==> c in members && members[c] == id && ScanBefore(c, next)) &&
    (forall c :: c in members && ScanBefore(c, next) ==> members[c] in basins && c in basins[members[c]].cells)
  }

  /** Every basin has a cell, and lists its cells in scan order. */
  ghost predicate Ordered(basins: map<nat, BasinRecord>) {
    forall id :: id in basins ==> |basins[id].cells| > 0 && InScanOrder(basins[id].cells)
  }

  /** The colour packed from the three draws numbered n, n + 1 and n + 2 of the random stream. */
  ghost function Drawn(rng: nat -> byte, n: nat): int {
    PackColor(rng(n), rng(n + 1), rng(n + 2))
  }

  /**
   * Every basin was coloured with three consecutive draws of the random
   * stream of its own, starting at draw first[id], all taken before draw
   * number `draws`.
   */
  ghost predicate Coloured(rng: nat -> byte, basins: map<nat, BasinRecord>, first: map<nat, nat>, draws: nat) {
    (forall id :: id in basins <==> id in first) && Painted(rng, basins, first) && Apart(first, draws)
  }

  /** Every basin with a first draw has the colour of the three draws starting there. */
  ghost predicate Painted(rng: nat -> byte, basins: map<nat, BasinRecord>, first: map<nat, nat>) {
    forall id :: id in first ==> id in basins && basins[id].color == Drawn(rng, first[id])
  }

  /** The triples of draws starting at the first draws are all taken before `draws`, and no two overlap. */
  ghost predicate Apart(first: map<nat, nat>, draws: nat) {
    (forall id :: id in first ==> first[id] + 3 <= draws) &&
    (forall a, b :: a in first && b in first && a != b ==> first[a] + 3 <= first[b] || first[b] + 3 <= first[a])
  }

  /** The cells d before `next` in scan order are those before c, and c itself. */
  ghost predicate Follows(c: (int, int), next: (int, int)) {
    forall d :: ScanBefore(d, next) <==> ScanBefore(d, c) || d == c
  }

  /** Filing the member c, the next in scan order, into the existing basin of its number. */
  lemma FiledAfterAppend(members: map<(int, int), nat>, basins: map<nat, BasinRecord>, c: (int, int), next: (int, int))
    requires Filed(members, basins, c) && Ordered(basins) && Follows(c, next)
    requires c in members && members[c] in basins
    ensures Filed(members, Push(basins, members[c], c), next) && Ordered(Push(basins, members[c], c))
  {
  }

  /** Opening the basin of the member c, whose number has none yet, with c as its only cell. */
  lemma FiledAfterCreate(members: map<(int, int), nat>, basins: map<nat, BasinRecord>, c: (int, int), next: (int, int), color: int)
    requires Filed(members, basins, c) && Ordered(basins) && Follows(c, next)
    requires c in members && members[c] !in basins
    ensures var started := basins[members[c] := BasinRecord(color, [])];
      Filed(members, Push(started, members[c], c), next) && Ordered(Push(started, members[c], c))
  {
    assert [] + [c] == [c];
  }

  /** Appending a cell to a basin keeps every colour. */
  lemma ColouredAfterAppend(rng: nat -> byte, basins: map<nat, BasinRecord>, first: map<nat, nat>, draws: nat,
                            id: nat, c: (int, int))
    requires Coloured(rng, basins, first, draws) && id in basins
    ensures Coloured(rng, Push(basins, id, c), first, draws)
  {
  }

  /** Opening a basin with a new number takes the next three draws for its colour. */
  lemma ColouredAfterCreate(rng: nat -> byte, basins: map<nat, BasinRecord>, first: map<nat, nat>, draws: nat,
                            id: nat, c: (int, int))
    requires Coloured(rng, basins, first, draws) && id !in basins
    ensures Coloured(rng, Push(basins[id := BasinRecord(Drawn(rng, draws), [])], id, c), first[id := draws], draws + 3)
  {
    PaintedAfterCreate(rng, basins, first, id, draws, c);
    ApartAfterCreate(first, draws, id);
  }

  /** A new basin coloured from the draws starting at n, with n as its first draw, keeps every basin painted. */
  lemma PaintedAfterCreate(rng: nat -> byte, basins: map<nat, BasinRecord>, first: map<nat, nat>, id: nat, n: nat,
                           c: (int, int))
    requires Painted(rng, basins, first) && id !in basins
    ensures Painted(rng, Push(basins[id := BasinRecord(Drawn(rng, n), [])], id, c), first[id := n])
  {
  }

  /** The next three draws, taken for a new basin, overlap no earlier triple. */
  lemma ApartAfterCreate(first: map<nat, nat>, draws: nat, id: nat)
    requires Apart(first, draws) && id !in first
    ensures Apart(first[id := draws], draws + 3)
  {
  }

  /** `drainageBasins[id].cells.push(c)`: the cell c appended to the basin numbered id. */
  function Push(basins: map<nat, BasinRecord>, id: nat, c: (int, int)): (r: map<nat, BasinRecord>)
    requires id in basins
    ensures r.Keys == basins.Keys
    ensures r[id].color == basins[id].color && |r[id].cells| == |basins[id].cells| + 1 && r[id].cells[|basins[id].cells|] == c
    ensures forall k :: k in basins && k != id ==> r[k] == basins[k]
  {
    basins[id := basins[id].(cells := basins[id].cells + [c])]
  }

  /** What the grouping loops keep: members filed, basins ordered and coloured, three draws per basin. */
  ghost predicate Grouped(members: map<(int, int), nat>, rng: nat -> byte, basins: map<nat, BasinRecord>,
                          first: map<nat, nat>, draws: nat, next: (int, int))
  {
    Filed(members, basins, next) && Ordered(basins) && Coloured(rng, basins, first, draws)
  }

  /** Filing the member c, the next in scan order, into the existing basin of its number. */
  lemma GroupedAfterPush(members: map<(int, int), nat>, rng: nat -> byte, basins: map<nat, BasinRecord>,
                         first: map<nat, nat>, draws: nat, c: (int, int), next: (int, int))
    requires Grouped(members, rng, basins, first, draws, c) && Follows(c, next)
    requires c in members && members[c] in basins
    ensures Grouped(members, rng, Push(basins, members[c], c), first, draws, next)
  {
    FiledAfterAppend(members, basins, c, next);
    ColouredAfterAppend(rng, basins, first, draws, members[c], c);
  }

  /**
   * Opening the basin of the member c, whose number has none yet, coloured
   * with the next three draws, and filing c into it.
   */
  lemma GroupedAfterOpen(members: map<(int, int), nat>, rng: nat -> byte, basins: map<nat, BasinRecord>,
                         first: map<nat, nat>, draws: nat, c: (int, int), next: (int, int))
    requires Grouped(members, rng, basins, first, draws, c) && Follows(c, next)
    requires c in members && members[c] !in basins
    ensures var id, color := members[c], Drawn(rng, draws);
      Grouped(members, rng, Push(basins[id := BasinRecord(color, [])], id, c), first[id := draws], draws + 3, next)
  {
    var id, color := members[c], Drawn(rng, draws);
    FiledAfterCreate(members, basins, c, next, color);
    ColouredAfterCreate(rng, basins, first, draws, id, c);
  }

  /** Passing over the oceanic cell c, which belongs to no basin. */
  lemma GroupedAfterSkip(members: map<(int, int), nat>, rng: nat -> byte, basins: map<nat, BasinRecord>,
                         first: map<nat, nat>, draws: nat, c: (int, int), next: (int, int))
    requires Grouped(members, rng, basins, first, draws, c) && Follows(c, next) && c !in members
    ensures Grouped(members, rng, basins, first, draws, next)
  {
  }

  /**
   * Filing the member c into the basin numbered id: the basin is created
   * first, with a colour from the next three random draws, when it does
   * not exist yet.
   */
  method FileCell(rng: nat -> byte, c: (int, int), id: nat, next: (int, int),
                  basins: map<nat, BasinRecord>, draws: nat, ghost members: map<(int, int), nat>, ghost first: map<nat, nat>)
    returns (basins': map<nat, BasinRecord>, draws': nat, ghost first': map<nat, nat>)
    requires c in members && members[c] == id && Follows(c, next)
    requires Grouped(members, rng, basins, first, draws, c)
    ensures Grouped(members, rng, basins', first', draws', next)
  {
    basins', draws', first' := basins, draws, first;
    if id !in basins {
      GroupedAfterOpen(members, rng, basins, first, draws, c, next);
      var red := rng(draws);
      var green := rng(draws + 1);
      var blue := rng(draws + 2);
      draws' := draws + 3;
      basins' := basins[id := BasinRecord(PackColor(red, green, blue), [])];
      first' := first[id := draws];
    } else {
      GroupedAfterPush(members, rng, basins, first, draws, c, next);
    }
    basins' := Push(basins', id, c);
  }

  /**
   * One pass of the grouping loops' body: a non-oceanic cell (x, y) is
   * filed into the basin of its number; an oceanic one is passed over.
   */
  method GroupCell(labels: array2<Label>, terrainTypes: array2<Terrain>, rng: nat -> byte, x: int, y: int,
                   basins: map<nat, BasinRecord>, draws: nat, ghost members: map<(int, int), nat>, ghost first: map<nat, nat>)
    returns (basins': map<nat, BasinRecord>, draws': nat, ghost first': map<nat, nat>)
    requires 0 <= x < labels.Length0 && 0 <= y < labels.Length1
    requires 0 <= x < terrainTypes.Length0 && 0 <= y < terrainTypes.Length1
    requires (x, y) in members <==> !IsOceanic(terrainTypes[x, y])
    requires (x, y) in members ==> labels[x, y].Basin? && members[(x, y)] == labels[x, y].id
    requires Grouped(members, rng, basins, first, draws, (x, y))
    ensures Grouped(members, rng, basins', first', draws', (x, y + 1))
  {
    assert Follows((x, y), (x, y + 1));
    if IsOceanic(terrainTypes[x, y]) {
      GroupedAfterSkip(members, rng, basins, first, draws, (x, y), (x, y + 1));
      basins', draws', first' := basins, draws, first;
    } else {
      basins', draws', first' := FileCell(rng, (x, y), labels[x, y].id, (x, y + 1), basins, draws, members, first);
    }
  }

  /**
   * The grouping loops of decideDrainageBasins: column by column, every
   * non-oceanic cell is appended to the basin of its number.
   */
  method GroupBasins(labels: array2<Label>, terrainTypes: array2<Terrain>, rng: nat -> byte)
    returns (basins: map<nat, BasinRecord>, draws: nat, ghost first: map<nat, nat>)
    requires terrainTypes.Length0 == labels.Length0 && terrainTypes.Length1 == labels.Length1
    requires forall i, j :: 0 <= i < labels.Length0 && 0 <= j < labels.Length1 ==> labels[i, j].Basin?
    ensures Filed(Members(labels, terrainTypes), basins, (labels.Length0, 0)) && Ordered(basins) &&
      Coloured(rng, basins, first, draws)
  {
    var width, height := labels.Length0, labels.Length1;
    ghost var members := Members(labels, terrainTypes);
    draws := 0;
    basins, first := map[], map[];
    for x := 0 to width
      invariant Grouped(members, rng, basins, first, draws, (x, 0))
    {
      basins, draws, first := GroupColumn(labels, terrainTypes, rng, x, basins, draws, members, first);
    }
  }

  /** The inner grouping loop: the cells of column x, from top to bottom. */
  method GroupColumn(labels: array2<Label>, terrainTypes: array2<Terrain>, rng: nat -> byte, x: int,
                     basins: map<nat, BasinRecord>, draws: nat, ghost members: map<(int, int), nat>, ghost first: map<nat, nat>)
    returns (basins': map<nat, BasinRecord>, draws': nat, ghost first': map<nat, nat>)
    requires 0 <= x < labels.Length0
    requires terrainTypes.Length0 == labels.Length0 && terrainTypes.Length1 == labels.Length1
    requires forall i, j :: 0 <= i < labels.Length0 && 0 <= j < labels.Length1 ==> labels[i, j].Basin?
    requires members == Members(labels, terrainTypes)
    requires Grouped(members, rng, basins, first, draws, (x, 0))
    ensures Grouped(members, rng, basins', first', draws', (x + 1, 0))
  {
    basins', draws', first' := basins, draws, first;
    for y := 0 to labels.Length1
      invariant Grouped(members, rng, basins', first', draws', (x, y))
    {
      MemberAt(labels, terrainTypes, x, y);
      basins', draws', first' := GroupCell(labels, terrainTypes, rng, x, y, basins', draws', members, first');
    }
    FiledNextColumn(members, basins', x, labels.Length1);
  }

  /** Having visited a whole column is having visited everything before the next one. */
  lemma FiledNextColumn(members: map<(int, int), nat>, basins: map<nat, BasinRecord>, x: int, height: int)
    requires forall c :: c in members ==> 0 <= c.1 < height
    requires Filed(members, basins, (x, height))
    ensures Filed(members, basins, (x + 1, 0))
  {
    forall c | c in members && ScanBefore(c, (x + 1, 0))
      ensures members[c] in basins && c in basins[members[c]].cells
    {
      assert ScanBefore(c, (x, height));
    }
    forall id, c | id in basins && c in basins[id].cells ensures ScanBefore(c, (x + 1, 0)) {
      assert ScanBefore(c, (x, height));
    }
  }

  /** The seeded queues: every edge cell waits in `open`, every interior cell is a candidate. */
  lemma SeededWaiting(width: int, height: int, open: seq<Entry>)
    requires width >= 0 && height >= 0
    requires forall k :: 0 <= k < |open| ==> InGrid((open[k].x, open[k].y), width, height) && IsEdge(open[k].x, open[k].y, width, height)
    requires forall c :: InGrid(c, width, height) && IsEdge(c.0, c.1, width, height) ==> Queued(open, c.0, c.1)
    ensures Waiting(width, height, map[], Interior(width, height), open, [], Idle)
  {
  }

  /**
   * Having filed every member of the grid: the basins hold exactly the
   * members, each in the basin of its number.
   */
  lemma FiledAll(members: map<(int, int), nat>, basin: map<(int, int), nat>, basins: map<nat, BasinRecord>, width: int, height: int)
    requires Filed(members, basins, (width, 0))
    requires forall c :: c in members ==> InGrid(c, width, height) && c in basin && basin[c] == members[c]
    ensures forall id, c :: id in basins && c in basins[id].cells ==> c in members && basin[c] == id
    ensures forall c :: c in members ==> basin[c] in basins && c in basins[basin[c]].cells
  {
    forall c | c in members ensures basin[c] in basins && c in basins[basin[c]].cells {
      assert ScanBefore(c, (width, 0));
    }
  }

  /**
   * decideDrainageBasins: every cell of the grid gets a basin number, each
   * basin grown from one edge cell through 4-neighbours; every non-oceanic
   * cell is filed, in scan order, into the basin of its number, and each
   * basin is coloured from three draws of the random stream of its own.
   */
  method DecideDrainageBasins(waterheight: array2<byte>, terrainTypes: array2<Terrain>, cellNeighbors: array2<seq<Neighbor>>,
                              rng: nat -> byte)
    returns (basins: map<nat, BasinRecord>, draws: nat, ghost basin: map<(int, int), nat>,
             ghost roots: seq<(int, int)>, ghost from: map<(int, int), (int, int)>, ghost depth: map<(int, int), nat>,
             ghost first: map<nat, nat>)
    requires terrainTypes.Length0 == waterheight.Length0 && terrainTypes.Length1 == waterheight.Length1
    requires cellNeighbors.Length0 == waterheight.Length0 && cellNeighbors.Length1 == waterheight.Length1
    requires forall x, y :: 0 <= x < waterheight.Length0 && 0 <= y < waterheight.Length1 ==>
      cellNeighbors[x, y] == CellNeighbors(x, y, waterheight.Length0, waterheight.Length1)
    ensures forall c :: InGrid(c, waterheight.Length0, waterheight.Length1) ==> c in basin
    ensures Grown(waterheight.Length0, waterheight.Length1, basin, roots, from, depth)
    ensures forall id, c :: id in basins && c in basins[id].cells ==>
      InGrid(c, waterheight.Length0, waterheight.Length1) && !IsOceanic(terrainTypes[c.0, c.1]) && basin[c] == id
    ensures forall x, y :: 0 <= x < waterheight.Length0 && 0 <= y < waterheight.Length1 && !IsOceanic(terrainTypes[x, y]) ==>
      (x, y) in basin && basin[(x, y)] in basins && (x, y) in basins[basin[(x, y)]].cells
    ensures Ordered(basins) && Coloured(rng, basins, first, draws)
  {
    var labels;
    labels, basin, roots, from, depth := LabelBasins(waterheight, cellNeighbors);
    basins, draws, first := GroupBasins(labels, terrainTypes, rng);
    ghost var members := Members(labels, terrainTypes);
    MembersNumbered(labels, terrainTypes, basin);
    FiledAll(members, basin, basins, labels.Length0, labels.Length1);
  }

  /** The members are the non-oceanic cells of the grid, each with the number the labelling gave it. */
  lemma MembersNumbered(labels: array2<Label>, terrainTypes: array2<Terrain>, basin: map<(int, int), nat>)
    requires terrainTypes.Length0 == labels.Length0 && terrainTypes.Length1 == labels.Length1
    requires forall i, j :: 0 <= i < labels.Length0 && 0 <= j < labels.Length1 ==> (i, j) in basin && labels[i, j] == Basin(basin[(i, j)])
    ensures forall x, y :: 0 <= x < labels.Length0 && 0 <= y < labels.Length1 ==>
      ((x, y) in Members(labels, terrainTypes) <==> !IsOceanic(terrainTypes[x, y]))
    ensures forall c :: c in Members(labels, terrainTypes) ==> c in basin && basin[c] == Members(labels, terrainTypes)[c]
  {
    forall x, y | 0 <= x < labels.Length0 && 0 <= y < labels.Length1
      ensures (x, y) in Members(labels, terrainTypes) <==> !IsOceanic(terrainTypes[x, y])
    {
      MemberAt(labels, terrainTypes, x, y);
    }
    forall c | c in Members(labels, terrainTypes) ensures c in basin && basin[c] == Members(labels, terrainTypes)[c] {
      MemberAt(labels, terrainTypes, c.0, c.1);
    }
  }

  /**
   * The labelling half of decideDrainageBasins, seeding and flood: every
   * cell of the grid ends with the basin number the bookkeeping gives it.
   */
  method LabelBasins(waterheight: array2<byte>, cellNeighbors: array2<seq<Neighbor>>)
    returns (labels: array2<Label>, ghost basin: map<(int, int), nat>,
             ghost roots: seq<(int, int)>, ghost from: map<(int, int), (int, int)>, ghost depth: map<(int, int), nat>)
    requires cellNeighbors.Length0 == waterheight.Length0 && cellNeighbors.Length1 == waterheight.Length1
    requires forall x, y :: 0 <= x < waterheight.Length0 && 0 <= y < waterheight.Length1 ==>
      cellNeighbors[x, y] == CellNeighbors(x, y, waterheight.Length0, waterheight.Length1)
    ensures fresh(labels) && labels.Length0 == waterheight.Length0 && labels.Length1 == waterheight.Length1
    ensures forall c :: InGrid(c, labels.Length0, labels.Length1) ==> c in basin
    ensures forall i, j :: 0 <= i < labels.Length0 && 0 <= j < labels.Length1 ==> (i, j) in basin && labels[i, j] == Basin(basin[(i, j)])
    ensures Grown(labels.Length0, labels.Length1, basin, roots, from, depth)
  {
    var width, height := waterheight.Length0, waterheight.Length1;
    var open;
    labels, open := SeedBasins(waterheight);
    SeededWaiting(width, height, open);
    ghost var unlabelled;
    basin, roots, from, depth, unlabelled := FloodBasins(waterheight, labels, cellNeighbors, open, Interior(width, height));
    FloodNumbersAll(width, height, basin, unlabelled);
    RootsAndChains(width, height, basin, roots, from, depth);
  }
}
