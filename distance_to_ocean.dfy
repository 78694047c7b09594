/** The multi-source breadth-first search that fills `DistanceToOcean`
    (Private/DistanceToOcean.cpp). Every cell whose `OceanDepth` is positive is a
    source at distance 0; the search walks the four axis neighbours of each dequeued
    cell and lowers a neighbour's distance to the current one plus 1. With no
    obstacles on the grid the result is the city-block distance to the nearest
    ocean cell, or `FLT_MAX` when the map has no ocean. */
module DistanceToOcean {
  import opened Common
  import opened HeightmapCell
  import opened Grid

  /** The neighbour offsets in the order the search visits them:
      (0,1), (0,-1), (1,0), (-1,0). */
  const OffX: seq<int> := [0, 0, 1, -1]
  const OffY: seq<int> := [1, -1, 0, 0]

  /** The offset that undoes offset `k`. */
  function Opposite(k: int): (o: int)
    requires 0 <= k < 4
    ensures 0 <= o < 4 && OffX[o] == -OffX[k] && OffY[o] == -OffY[k]
  {
    if k == 0 then 1 else if k == 1 then 0 else if k == 2 then 3 else 2
  }

  predicate HasOcean(data: seq<Cell>)
  {
    exists i :: 0 <= i < |data| && data[i].oceanDepth > 0.0
  }

  /** The smallest city-block distance from `c` to an ocean cell among the first `n`
      cells, or -1 when there is none. */
  function NearestBelow(data: seq<Cell>, w: int, c: int, n: nat): (r: int)
    requires w != 0 && n <= |data|
    ensures r >= -1
  {
    if n == 0 then -1
    else
      var rest := NearestBelow(data, w, c, n - 1);
      if data[n - 1].oceanDepth > 0.0 && (rest < 0 || Manhattan(c, n - 1, w) < rest) then Manhattan(c, n - 1, w)
      else rest
  }

  /** No ocean cell below `n` is closer than `NearestBelow`, and finding one makes it non-negative. */
  lemma {:induction false} NearestBelowLower(data: seq<Cell>, w: int, c: int, n: nat, s: int)
    requires w != 0 && n <= |data| && 0 <= s < n && data[s].oceanDepth > 0.0
    ensures 0 <= NearestBelow(data, w, c, n) <= Manhattan(c, s, w)
  {
    if s < n - 1 {
      NearestBelowLower(data, w, c, n - 1, s);
    }
  }

  /** A non-negative `NearestBelow` is the distance to some ocean cell below `n`. */
  lemma {:induction false} NearestBelowAttained(data: seq<Cell>, w: int, c: int, n: nat) returns (s: int)
    requires w != 0 && n <= |data| && NearestBelow(data, w, c, n) >= 0
    ensures 0 <= s < n && data[s].oceanDepth > 0.0 && NearestBelow(data, w, c, n) == Manhattan(c, s, w)
  {
    var rest := NearestBelow(data, w, c, n - 1);
    if data[n - 1].oceanDepth > 0.0 && (rest < 0 || Manhattan(c, n - 1, w) < rest) {
      s := n - 1;
    } else {
      s := NearestBelowAttained(data, w, c, n - 1);
    }
  }

  /** The city-block distance from `c` to the nearest ocean cell, or -1 without ocean. */
  function NearestOcean(data: seq<Cell>, w: int, c: int): int
    requires w != 0
  {
    NearestBelow(data, w, c, |data|)
  }

  lemma NearestOceanLower(data: seq<Cell>, w: int, c: int, s: int)
    requires w != 0 && 0 <= s < |data| && data[s].oceanDepth > 0.0
    ensures 0 <= NearestOcean(data, w, c) <= Manhattan(c, s, w)
  {
    NearestBelowLower(data, w, c, |data|, s);
  }

  /** With some ocean, the nearest-ocean distance is attained by an ocean cell. */
  lemma NearestOceanWitness(data: seq<Cell>, w: int, c: int) returns (s: int)
    requires w != 0 && HasOcean(data)
    ensures 0 <= s < |data| && data[s].oceanDepth > 0.0
    ensures 0 <= NearestOcean(data, w, c) == Manhattan(c, s, w)
  {
    var s0 :| 0 <= s0 < |data| && data[s0].oceanDepth > 0.0;
    NearestOceanLower(data, w, c, s0);
    s := NearestBelowAttained(data, w, c, |data|);
  }

  /** The distance the search leaves in cell `i`. On a grid of positive width with
      some ocean it is the nearest-ocean distance. Otherwise no cell is ever reached
      from another (with a negative width and height the bounds test never passes),
      so ocean cells keep 0 and the rest keep `FLT_MAX`. */
  function ExpectedDistance(data: seq<Cell>, w: int, i: int): real
    requires 0 <= i < |data|
  {
    if w > 0 && HasOcean(data) then NearestOcean(data, w, i) as real
    else if data[i].oceanDepth > 0.0 then 0.0
    else FLT_MAX
  }

  lemma NearestOceanIsZeroAtOcean(data: seq<Cell>, w: int, c: int)
    requires w != 0 && 0 <= c < |data| && data[c].oceanDepth > 0.0
    ensures NearestOcean(data, w, c) == 0
  {
    NearestOceanLower(data, w, c, c);
    assert Manhattan(c, c, w) == 0;
  }

  /** A nearest-ocean distance of 0 only happens on an ocean cell. */
  lemma ZeroNearestIsOcean(data: seq<Cell>, w: int, h: int, c: int)
    requires w > 0 && |data| == w * h && 0 <= c < |data|
    requires NearestOcean(data, w, c) == 0
    ensures data[c].oceanDepth > 0.0
  {
    var s := NearestBelowAttained(data, w, c, |data|);
    CoordsInGrid(c, w, h);
    CoordsInGrid(s, w, h);
    assert Col(c, w) == Col(s, w) && Row(c, w) == Row(s, w);
  }

  /** With some ocean, every nearest-ocean distance is below the cell count. */
  lemma NearestOceanBounded(data: seq<Cell>, w: int, h: int, c: int)
    requires w > 0 && |data| == w * h && 0 <= c < |data| && HasOcean(data)
    ensures 0 <= NearestOcean(data, w, c) < |data|
  {
    var s := NearestOceanWitness(data, w, c);
    CoordsInGrid(c, w, h);
    CoordsInGrid(s, w, h);
    assert Manhattan(c, s, w) <= (w - 1) + (h - 1);
    SumBelowProduct(w, h);
  }

  /** The cell reached from `u` through offset `k`. */
  function Neighbour(u: int, k: int, w: int): int
    requires w != 0 && 0 <= k < 4
  {
    Index(Col(u, w) + OffX[k], Row(u, w) + OffY[k], w)
  }

  predicate NeighbourInGrid(u: int, k: int, w: int, h: int)
    requires w != 0 && 0 <= k < 4
  {
    InGrid(Col(u, w) + OffX[k], Row(u, w) + OffY[k], w, h)
  }

  lemma NeighbourFacts(u: int, k: int, w: int, h: int)
    requires w != 0 && 0 <= k < 4 && NeighbourInGrid(u, k, w, h) && 0 <= u < w * h
    ensures w > 0 && h > 0
    ensures 0 <= Neighbour(u, k, w) < w * h && Neighbour(u, k, w) != u
    ensures Col(Neighbour(u, k, w), w) == Col(u, w) + OffX[k]
    ensures Row(Neighbour(u, k, w), w) == Row(u, w) + OffY[k]
    ensures NeighbourInGrid(Neighbour(u, k, w), Opposite(k), w, h)
    ensures Neighbour(Neighbour(u, k, w), Opposite(k), w) == u
  {
    var x, y := Col(u, w) + OffX[k], Row(u, w) + OffY[k];
    IndexCoords(x, y, w);
    IndexInRange(x, y, w, h);
    CoordsInGrid(u, w, h);
  }

  /** Nearest-ocean distances of two axis neighbours differ by at most 1. */
  lemma NearestOceanNeighbours(data: seq<Cell>, w: int, h: int, u: int, k: int)
    requires w > 0 && |data| == w * h && 0 <= u < |data| && 0 <= k < 4
    requires NeighbourInGrid(u, k, w, h) && HasOcean(data)
    ensures NearestOcean(data, w, Neighbour(u, k, w)) <= NearestOcean(data, w, u) + 1
    ensures NearestOcean(data, w, u) <= NearestOcean(data, w, Neighbour(u, k, w)) + 1
  {
    var v := Neighbour(u, k, w);
    NeighbourFacts(u, k, w, h);
    CoordsInGrid(u, w, h);
    var s := NearestOceanWitness(data, w, u);
    NearestOceanLower(data, w, v, s);
    var t := NearestOceanWitness(data, w, v);
    NearestOceanLower(data, w, u, t);
  }

  /** A cell away from the ocean has a neighbour one step closer to it. */
  lemma NearestOceanStep(data: seq<Cell>, w: int, h: int, c: int) returns (k: int)
    requires w > 0 && |data| == w * h && 0 <= c < |data| && HasOcean(data)
    requires NearestOcean(data, w, c) > 0
    ensures 0 <= k < 4 && NeighbourInGrid(c, k, w, h)
    ensures NearestOcean(data, w, Neighbour(c, k, w)) == NearestOcean(data, w, c) - 1
  {
    var s := NearestOceanWitness(data, w, c);
    CoordsInGrid(c, w, h);
    CoordsInGrid(s, w, h);
    var cx, cy, sx, sy := Col(c, w), Row(c, w), Col(s, w), Row(s, w);
    if cx < sx {
      k := 2;
    } else if cx > sx {
      k := 3;
    } else if cy < sy {
      k := 0;
    } else {
      k := 1;
    }
    var p := Neighbour(c, k, w);
    NeighbourFacts(c, k, w, h);
    assert Manhattan(p, s, w) == Manhattan(c, s, w) - 1;
    NearestOceanLower(data, w, p, s);
    NearestOceanNeighbours(data, w, h, c, k);
  }

  // ----- the search state -----

  /** The distance of `c` bounds that of its neighbour through offset `k`. */
  ghost predicate NeighbourOk(d: seq<real>, w: int, h: int, c: int, k: int)
    requires w != 0 && 0 <= c < |d| && 0 <= k < 4
  {
    NeighbourInGrid(c, k, w, h) ==>
      0 <= Neighbour(c, k, w) < |d| && d[Neighbour(c, k, w)] <= d[c] + 1.0
  }

  /** Cell `c` has been expanded: no neighbour is more than one step further. */
  ghost predicate Relaxed(d: seq<real>, w: int, h: int, c: int)
    requires w != 0 && 0 <= c < |d|
  {
    forall k :: 0 <= k < 4 ==> NeighbourOk(d, w, h, c, k)
  }

  /** Facts that hold throughout the search: the unreached set names the `FLT_MAX`
      cells, ocean cells stay at 0, and every reached cell already holds its final value. */
  ghost predicate Settled(data: seq<Cell>, w: int, h: int, d: seq<real>, unreached: set<int>)
  {
    |data| == w * h && |d| == |data| && |data| <= Int32Max &&
    (|data| > 0 ==> w != 0) &&
    (forall i :: i in unreached ==> 0 <= i < |d|) &&
    (forall i :: 0 <= i < |d| ==> (i in unreached <==> d[i] == FLT_MAX)) &&
    (forall i :: 0 <= i < |d| && data[i].oceanDepth > 0.0 ==> d[i] == 0.0) &&
    (forall i :: 0 <= i < |d| && d[i] != FLT_MAX ==> d[i] == ExpectedDistance(data, w, i))
  }

  ghost predicate QueueValid(d: seq<real>, queue: seq<int>)
  {
    (forall j :: 0 <= j < |queue| ==> 0 <= queue[j] < |d| && d[queue[j]] != FLT_MAX) &&
    (forall i, j :: 0 <= i <= j < |queue| ==> d[queue[i]] <= d[queue[j]])
  }

  /** The state at the head of the outer loop. */
  ghost predicate Outer(data: seq<Cell>, w: int, h: int, d: seq<real>, queue: seq<int>, unreached: set<int>)
  {
    Settled(data, w, h, d, unreached) && QueueValid(d, queue) &&
    (forall j :: 0 <= j < |queue| ==> d[queue[j]] <= d[queue[0]] + 1.0) &&
    (forall i :: 0 <= i < |d| && d[i] != FLT_MAX && i !in queue ==> Relaxed(d, w, h, i))
  }

  /** The state while the neighbours of the dequeued cell `u` are visited; the first
      `k` offsets are done. */
  ghost predicate Inner(data: seq<Cell>, w: int, h: int, d: seq<real>, queue: seq<int>, unreached: set<int>, u: int, k: int)
  {
    Settled(data, w, h, d, unreached) && QueueValid(d, queue) &&
    0 <= u < |d| && d[u] != FLT_MAX && w != 0 && 0 <= k <= 4 &&
    (forall j :: 0 <= j < |queue| ==> d[u] <= d[queue[j]] <= d[u] + 1.0) &&
    (forall i :: 0 <= i < |d| && d[i] != FLT_MAX && i !in queue && i != u ==> Relaxed(d, w, h, i)) &&
    (forall k' :: 0 <= k' < k ==> NeighbourOk(d, w, h, u, k'))
  }

  /** Every cell at nearest-ocean distance at most `bound` has been reached, once
      every reached cell below `bound` has been expanded. */
  lemma Discovered(data: seq<Cell>, w: int, h: int, d: seq<real>, unreached: set<int>, bound: real, c: int)
    requires Settled(data, w, h, d, unreached) && w > 0 && HasOcean(data)
    requires forall i :: 0 <= i < |d| && d[i] != FLT_MAX && d[i] < bound ==> Relaxed(d, w, h, i)
    requires 0 <= c < |d| && NearestOcean(data, w, c) as real <= bound
    ensures d[c] == NearestOcean(data, w, c) as real
    decreases NearestOcean(data, w, c)
  {
    var n := NearestOcean(data, w, c);
    NearestOceanBounded(data, w, h, c);
    if n == 0 {
      ZeroNearestIsOcean(data, w, h, c);
    } else {
      var k := NearestOceanStep(data, w, h, c);
      var p := Neighbour(c, k, w);
      NeighbourFacts(c, k, w, h);
      Discovered(data, w, h, d, unreached, bound, p);
      NearestOceanBounded(data, w, h, p);
      assert d[p] != FLT_MAX && d[p] < bound;
      assert NeighbourOk(d, w, h, p, Opposite(k));
    }
  }

  lemma InitialOuter(data: seq<Cell>, w: int, h: int, d: seq<real>, queue: seq<int>, unreached: set<int>)
    requires |data| == w * h && |d| == |data| && |data| <= Int32Max
    requires forall i :: 0 <= i < |d| ==> d[i] == (if data[i].oceanDepth > 0.0 then 0.0 else FLT_MAX)
    requires forall j :: 0 <= j < |queue| ==> 0 <= queue[j] < |d| && data[queue[j]].oceanDepth > 0.0
    requires forall i :: 0 <= i < |d| && data[i].oceanDepth > 0.0 ==> i in queue
    requires unreached == set i | 0 <= i < |d| && d[i] == FLT_MAX
    ensures Outer(data, w, h, d, queue, unreached)
  {
    forall i | 0 <= i < |d| && d[i] != FLT_MAX
      ensures d[i] == ExpectedDistance(data, w, i)
    {
      if w > 0 && HasOcean(data) {
        NearestOceanIsZeroAtOcean(data, w, i);
      }
    }
  }

  lemma OuterToInner(data: seq<Cell>, w: int, h: int, d: seq<real>, queue: seq<int>, unreached: set<int>)
    requires Outer(data, w, h, d, queue, unreached) && queue != []
    ensures Inner(data, w, h, d, queue[1..], unreached, queue[0], 0)
  {
    var u := queue[0];
    forall i | 0 <= i < |d| && d[i] != FLT_MAX && i !in queue[1..] && i != u
      ensures Relaxed(d, w, h, i)
    {
      assert i !in queue;
    }
    forall j | 0 <= j < |queue[1..]|
      ensures d[u] <= d[queue[1..][j]] <= d[u] + 1.0
    {
      assert queue[1..][j] == queue[j + 1];
    }
  }

  lemma InnerToOuter(data: seq<Cell>, w: int, h: int, d: seq<real>, queue: seq<int>, unreached: set<int>, u: int)
    requires Inner(data, w, h, d, queue, unreached, u, 4)
    ensures Outer(data, w, h, d, queue, unreached)
  {
  }

  /** Visiting a neighbour that is out of the grid or already close enough. */
  lemma KeepStep(data: seq<Cell>, w: int, h: int, d: seq<real>, queue: seq<int>, unreached: set<int>, u: int, k: int)
    requires Inner(data, w, h, d, queue, unreached, u, k) && k < 4
    requires NeighbourOk(d, w, h, u, k)
    ensures Inner(data, w, h, d, queue, unreached, u, k + 1)
  {
  }

  /** Lowering a neighbour: it was unreached, and its new value is its exact distance. */
  lemma UpdateStep(data: seq<Cell>, w: int, h: int, d: seq<real>, queue: seq<int>, unreached: set<int>, u: int, k: int)
    requires Inner(data, w, h, d, queue, unreached, u, k) && k < 4
    requires NeighbourInGrid(u, k, w, h)
    requires 0 <= Neighbour(u, k, w) < |d| && d[Neighbour(u, k, w)] > d[u] + 1.0
    ensures Neighbour(u, k, w) != u && Neighbour(u, k, w) in unreached
    ensures Inner(data, w, h, d[Neighbour(u, k, w) := d[u] + 1.0], queue + [Neighbour(u, k, w)],
                  unreached - {Neighbour(u, k, w)}, u, k + 1)
  {
    var v := Neighbour(u, k, w);
    UpdateTarget(data, w, h, d, queue, unreached, u, k);
    SettledAfterUpdate(data, w, h, d, unreached, v, d[u] + 1.0);
    forall j | 0 <= j < |queue|
      ensures queue[j] != v
    {
      assert d[queue[j]] != FLT_MAX;
    }
    QueueAfterUpdate(d, queue, u, v, d[u] + 1.0);
    RelaxedAfterUpdate(d, d[v := d[u] + 1.0], w, h, queue, u, k, v);
  }

  /** The neighbour being lowered is unreached and one step further from the ocean than
      the dequeued cell, so its new value is its expected distance. */
  lemma UpdateTarget(data: seq<Cell>, w: int, h: int, d: seq<real>, queue: seq<int>, unreached: set<int>, u: int, k: int)
    requires Inner(data, w, h, d, queue, unreached, u, k) && k < 4
    requires NeighbourInGrid(u, k, w, h)
    requires 0 <= Neighbour(u, k, w) < |d| && d[Neighbour(u, k, w)] > d[u] + 1.0
    ensures var v := Neighbour(u, k, w);
      v != u && v in unreached && d[v] == FLT_MAX &&
      d[u] + 1.0 != FLT_MAX && d[u] + 1.0 == ExpectedDistance(data, w, v)
    ensures forall i :: 0 <= i < |d| && d[i] != FLT_MAX ==> d[i] + 1.0 < FLT_MAX
  {
    var v := Neighbour(u, k, w);
    NeighbourFacts(u, k, w, h);
    assert HasOcean(data) by {
      if !HasOcean(data) {
        assert data[u].oceanDepth > 0.0;
      }
    }
    var D := d[u];
    assert D == NearestOcean(data, w, u) as real;
    NearestOceanNeighbours(data, w, h, u, k);
    assert d[v] == FLT_MAX;
    assert NearestOcean(data, w, v) == NearestOcean(data, w, u) + 1 by {
      if NearestOcean(data, w, v) as real <= D {
        assert forall i :: 0 <= i < |d| && d[i] != FLT_MAX && d[i] < D ==> Relaxed(d, w, h, i);
        Discovered(data, w, h, d, unreached, D, v);
      }
    }
    NearestOceanBounded(data, w, h, v);
    ReachedBelowMax(data, w, h, d, unreached);
  }

  /** With some ocean, a reached cell is far below `FLT_MAX`. */
  lemma ReachedBelowMax(data: seq<Cell>, w: int, h: int, d: seq<real>, unreached: set<int>)
    requires Settled(data, w, h, d, unreached) && w > 0 && HasOcean(data)
    ensures forall i :: 0 <= i < |d| && d[i] != FLT_MAX ==> d[i] + 1.0 < FLT_MAX
  {
    forall i | 0 <= i < |d| && d[i] != FLT_MAX
      ensures d[i] + 1.0 < FLT_MAX
    {
      NearestOceanBounded(data, w, h, i);
    }
  }

  /** Lowering the unreached neighbour `v` of `u` to one more than `u` keeps every
      expanded cell relaxed, and relaxes `u` towards `v`. */
  lemma RelaxedAfterUpdate(d: seq<real>, d': seq<real>, w: int, h: int, queue: seq<int>, u: int, k: int, v: int)
    requires w != 0 && 0 <= u < |d| && 0 <= k < 4 && NeighbourInGrid(u, k, w, h)
    requires v == Neighbour(u, k, w) && 0 <= v < |d| && v != u && d[v] == FLT_MAX
    requires forall i :: 0 <= i < |d| && d[i] != FLT_MAX ==> d[i] + 1.0 < FLT_MAX
    requires forall i :: 0 <= i < |d| && d[i] != FLT_MAX && i !in queue && i != u ==> Relaxed(d, w, h, i)
    requires forall k' :: 0 <= k' < k ==> NeighbourOk(d, w, h, u, k')
    requires d' == d[v := d[u] + 1.0]
    ensures forall i :: 0 <= i < |d'| && d'[i] != FLT_MAX && i !in queue + [v] && i != u ==> Relaxed(d', w, h, i)
    ensures forall k' :: 0 <= k' < k + 1 ==> NeighbourOk(d', w, h, u, k')
  {
    forall i | 0 <= i < |d'| && d'[i] != FLT_MAX && i !in queue + [v] && i != u
      ensures Relaxed(d', w, h, i)
    {
      assert Relaxed(d, w, h, i);
      forall k' | 0 <= k' < 4 ensures NeighbourOk(d', w, h, i, k') {
        assert NeighbourOk(d, w, h, i, k');
      }
    }
    forall k' | 0 <= k' < k + 1
      ensures NeighbourOk(d', w, h, u, k')
    {
      if k' < k {
        assert NeighbourOk(d, w, h, u, k');
      }
    }
  }

  /** Reaching an unreached cell with its expected distance keeps the settled facts. */
  lemma SettledAfterUpdate(data: seq<Cell>, w: int, h: int, d: seq<real>, unreached: set<int>, v: int, value: real)
    requires Settled(data, w, h, d, unreached) && 0 <= v < |d| && v in unreached
    requires value != FLT_MAX && value == ExpectedDistance(data, w, v)
    ensures Settled(data, w, h, d[v := value], unreached - {v})
  {
    assert d[v] == FLT_MAX;
  }

  /** Queueing a cell one step beyond the dequeued one keeps the queue ordered and
      within one step of it. */
  lemma QueueAfterUpdate(d: seq<real>, queue: seq<int>, u: int, v: int, value: real)
    requires QueueValid(d, queue) && 0 <= u < |d| && 0 <= v < |d| && v != u
    requires forall j :: 0 <= j < |queue| ==> d[u] <= d[queue[j]] <= d[u] + 1.0
    requires forall j :: 0 <= j < |queue| ==> queue[j] != v
    requires value == d[u] + 1.0 && value != FLT_MAX
    ensures QueueValid(d[v := value], queue + [v])
    ensures forall j :: 0 <= j < |queue + [v]| ==>
      d[v := value][u] <= d[v := value][(queue + [v])[j]] <= d[v := value][u] + 1.0
  {
    var d' := d[v := value];
    var q' := queue + [v];
    forall j | 0 <= j < |q'| ensures d'[q'[j]] == if j < |queue| then d[queue[j]] else value {
      if j < |queue| {
        assert q'[j] == queue[j];
      }
    }
  }

  /** When the queue is empty every cell holds its expected distance. */
  lemma OuterDone(data: seq<Cell>, w: int, h: int, d: seq<real>, unreached: set<int>)
    requires Outer(data, w, h, d, [], unreached)
    ensures forall i :: 0 <= i < |d| ==> d[i] == ExpectedDistance(data, w, i)
  {
    forall i | 0 <= i < |d|
      ensures d[i] == ExpectedDistance(data, w, i)
    {
      if w > 0 && HasOcean(data) {
        NearestOceanBounded(data, w, h, i);
        Discovered(data, w, h, d, unreached, |d| as real, i);
      }
    }
  }

  /** The first pass of the search: ocean cells start at 0 and are queued in index order. */
  method SeedOceanCells(data: seq<Cell>) returns (dist: array<real>, queue: seq<int>)
    ensures fresh(dist) && dist.Length == |data|
    ensures forall i :: 0 <= i < |data| ==> dist[i] == (if data[i].oceanDepth > 0.0 then 0.0 else FLT_MAX)
    ensures forall j :: 0 <= j < |queue| ==> 0 <= queue[j] < |data| && data[queue[j]].oceanDepth > 0.0
    ensures forall i :: 0 <= i < |data| && data[i].oceanDepth > 0.0 ==> i in queue
  {
    var n := |data|;
    dist := new real[n](_ => FLT_MAX);
    queue := [];
    for index := 0 to n
      invariant forall i :: 0 <= i < n ==>
        dist[i] == (if i < index && data[i].oceanDepth > 0.0 then 0.0 else FLT_MAX)
      invariant forall j :: 0 <= j < |queue| ==> 0 <= queue[j] < index && data[queue[j]].oceanDepth > 0.0
      invariant forall i :: 0 <= i < index && data[i].oceanDepth > 0.0 ==> i in queue
    {
      if data[index].oceanDepth > 0.0 {
        dist[index] := 0.0;
        queue := queue + [index];
      }
    }
  }

  /** Visits the four neighbours of the dequeued cell `current`, lowering and queueing
      each in-grid neighbour whose distance exceeds the current one plus 1. */
  method ExpandCell(data: seq<Cell>, width: int, height: int, dist: array<real>, queue: seq<int>,
                    ghost unreached: set<int>, current: int)
      returns (queue': seq<int>, ghost unreached': set<int>)
    requires Inner(data, width, height, dist[..], queue, unreached, current, 0)
    modifies dist
    ensures Inner(data, width, height, dist[..], queue', unreached', current, 4)
    ensures |unreached'| <= |unreached| && |unreached| - |unreached'| == |queue'| - |queue|
  {
    queue', unreached' := queue, unreached;
    var currentX := current % width;
    var currentY := current / width;
    var currentDistance := dist[current];
    for k := 0 to 4
      invariant Inner(data, width, height, dist[..], queue', unreached', current, k)
      invariant dist[current] == currentDistance
      invariant |unreached'| <= |unreached| && |unreached| - |unreached'| == |queue'| - |queue|
    {
      queue', unreached' := VisitNeighbour(data, width, height, dist, queue', unreached', current,
                                           currentX, currentY, currentDistance, k);
    }
  }

  /** One pass of the neighbour loop: offset `k` of the dequeued cell `current`. */
  method VisitNeighbour(data: seq<Cell>, width: int, height: int, dist: array<real>, queue: seq<int>,
                        ghost unreached: set<int>, current: int, currentX: int, currentY: int,
                        currentDistance: real, k: int)
      returns (queue': seq<int>, ghost unreached': set<int>)
    requires Inner(data, width, height, dist[..], queue, unreached, current, k) && k < 4
    requires currentX == Col(current, width) && currentY == Row(current, width)
    requires currentDistance == dist[current]
    modifies dist
    ensures Inner(data, width, height, dist[..], queue', unreached', current, k + 1)
    ensures dist[current] == currentDistance
    ensures |unreached'| <= |unreached| && |unreached| - |unreached'| == |queue'| - |queue|
  {
    queue', unreached' := queue, unreached;
    var neighborX := currentX + OffX[k];
    var neighborY := currentY + OffY[k];
    if neighborX >= 0 && neighborX < width && neighborY >= 0 && neighborY < height {
      assert NeighbourInGrid(current, k, width, height);
      var neighborIndex := neighborY * width + neighborX;
      assert neighborIndex == Neighbour(current, k, width);
      NeighbourFacts(current, k, width, height);
      if dist[neighborIndex] > currentDistance + 1.0 {
        ghost var before := dist[..];
        UpdateStep(data, width, height, before, queue, unreached, current, k);
        dist[neighborIndex] := currentDistance + 1.0;
        assert dist[..] == before[neighborIndex := before[current] + 1.0];
        queue' := queue + [neighborIndex];
        unreached' := unreached - {neighborIndex};
      } else {
        KeepStep(data, width, height, dist[..], queue, unreached, current, k);
      }
    } else {
      assert !NeighbourInGrid(current, k, width, height);
      KeepStep(data, width, height, dist[..], queue, unreached, current, k);
    }
  }

  /** The search of Private/DistanceToOcean.cpp:13-57 produces `DistanceMap`. */
  method DistanceMap(data: seq<Cell>, width: int, height: int) returns (distances: seq<real>)
    requires |data| == width * height && |data| <= Int32Max
    ensures |distances| == |data|
    ensures forall i :: 0 <= i < |data| ==> distances[i] == ExpectedDistance(data, width, i)
  {
    var dist, queue := SeedOceanCells(data);
    ghost var unreached := set i | 0 <= i < dist.Length && dist[i] == FLT_MAX;
    InitialOuter(data, width, height, dist[..], queue, unreached);
    while queue != []
      invariant Outer(data, width, height, dist[..], queue, unreached)
      decreases |unreached|, |queue|
    {
      OuterToInner(data, width, height, dist[..], queue, unreached);
      var current := queue[0];
      queue, unreached := ExpandCell(data, width, height, dist, queue[1..], unreached, current);
      InnerToOuter(data, width, height, dist[..], queue, unreached, current);
    }
    OuterDone(data, width, height, dist[..], unreached);
    distances := dist[..];
  }

  /** `CalculateDistanceToOcean`: rejects data whose size is not Width*Height and
      otherwise overwrites only the `DistanceToOcean` field of each cell. */
  method CalculateDistanceToOcean(data: array<Cell>, width: int, height: int) returns (ok: bool)
    requires data.Length <= Int32Max
    modifies data
    ensures ok <==> data.Length == width * height
    ensures !ok ==> data[..] == old(data[..])
    ensures ok ==> forall i :: 0 <= i < data.Length ==>
      data[i] == old(data[i]).(distanceToOcean := ExpectedDistance(old(data[..]), width, i))
  {
    if data.Length != width * height {
      return false;
    }
    var distanceMap := DistanceMap(data[..], width, height);
    ghost var before := data[..];
    for index := 0 to data.Length
      invariant forall i :: 0 <= i < index ==> data[i] == before[i].(distanceToOcean := distanceMap[i])
      invariant forall i :: index <= i < data.Length ==> data[i] == before[i]
    {
      data[index] := data[index].(distanceToOcean := distanceMap[index]);
    }
    return true;
  }

  // ----- properties of the result -----

  /** Ocean cells end at distance 0. */
  lemma OceanCellsAtZero(data: seq<Cell>, w: int, i: int)
    requires 0 <= i < |data| && data[i].oceanDepth > 0.0
    ensures ExpectedDistance(data, w, i) == 0.0
  {
    if w > 0 && HasOcean(data) {
      NearestOceanIsZeroAtOcean(data, w, i);
    }
  }

  /** With positive width and some ocean, each distance is the minimum city-block
      distance to an ocean cell: no ocean cell is closer and one is exactly that far. */
  lemma DistanceIsNearestManhattan(data: seq<Cell>, w: int, h: int, i: int)
    requires w > 0 && |data| == w * h && |data| <= Int32Max && 0 <= i < |data| && HasOcean(data)
    ensures forall s :: 0 <= s < |data| && data[s].oceanDepth > 0.0 ==>
      ExpectedDistance(data, w, i) <= Manhattan(i, s, w) as real
    ensures exists s :: (0 <= s < |data| && data[s].oceanDepth > 0.0 &&
      ExpectedDistance(data, w, i) == Manhattan(i, s, w) as real)
    ensures ExpectedDistance(data, w, i) < FLT_MAX
  {
    NearestOceanBounded(data, w, h, i);
    var n := NearestOcean(data, w, i);
    assert ExpectedDistance(data, w, i) == n as real;
    forall s | 0 <= s < |data| && data[s].oceanDepth > 0.0
      ensures ExpectedDistance(data, w, i) <= Manhattan(i, s, w) as real
    {
      NearestOceanLower(data, w, i, s);
    }
    var s := NearestOceanWitness(data, w, i);
    assert ExpectedDistance(data, w, i) == Manhattan(i, s, w) as real;
  }

  /** Without any ocean cell every distance stays at the unreached marker. */
  lemma NoOceanStaysUnreached(data: seq<Cell>, w: int, i: int)
    requires 0 <= i < |data| && !HasOcean(data)
    ensures ExpectedDistance(data, w, i) == FLT_MAX
  {
  }

  /** Reached axis neighbours differ in distance by at most 1. */
  lemma NeighbourDistancesDifferByAtMostOne(data: seq<Cell>, w: int, h: int, u: int, k: int)
    requires w > 0 && |data| == w * h && 0 <= u < |data| && 0 <= k < 4
    requires NeighbourInGrid(u, k, w, h)
    ensures 0 <= Neighbour(u, k, w) < |data|
    ensures ExpectedDistance(data, w, u) < FLT_MAX && ExpectedDistance(data, w, Neighbour(u, k, w)) < FLT_MAX ==>
      -1.0 <= ExpectedDistance(data, w, u) - ExpectedDistance(data, w, Neighbour(u, k, w)) <= 1.0
  {
    NeighbourFacts(u, k, w, h);
    if HasOcean(data) {
      NearestOceanNeighbours(data, w, h, u, k);
    }
  }
}
