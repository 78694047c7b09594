/** Flow routing shared by Private/DInfinity.cpp and Addon/DInfinity.cpp. The two
    copies of `CalculateFlowDirection` differ only in the order in which they visit
    the eight neighbours, so the scan here takes that order as a list of offsets;
    `CalculateFlowAccumulation` and `CalculateFlowDepth` are textually identical in
    both files and are modelled once. */
module FlowRouting {
  import opened Common
  import opened HeightmapCell
  import opened Grid

  /** A neighbour offset (dx, dy). */
  datatype Offset = Offset(dx: int, dy: int)

  /** Each offset is one of the eight neighbour steps. */
  predicate ValidOffsets(offsets: seq<Offset>)
  {
    forall k :: 0 <= k < |offsets| ==>
      -1 <= offsets[k].dx <= 1 && -1 <= offsets[k].dy <= 1 && offsets[k] != Offset(0, 0)
  }

  /** The length of a neighbour step: 1 along an axis and the single-precision
      square root of 2 on a diagonal. */
  function OffsetLength(o: Offset): (d: real)
    ensures d >= 1.0
  {
    if o.dx != 0 && o.dy != 0 then Sqrt2 else 1.0
  }

  predicate NeighbourIn(w: int, h: int, i: int, o: Offset)
    requires w != 0
  {
    InGrid(Col(i, w) + o.dx, Row(i, w) + o.dy, w, h)
  }

  function NeighbourAt(w: int, i: int, o: Offset): int
    requires w != 0
  {
    Index(Col(i, w) + o.dx, Row(i, w) + o.dy, w)
  }

  lemma NeighbourInRange(w: int, h: int, i: int, o: Offset)
    requires w != 0 && NeighbourIn(w, h, i, o)
    ensures 0 <= NeighbourAt(w, i, o) < w * h
  {
    IndexInRange(Col(i, w) + o.dx, Row(i, w) + o.dy, w, h);
  }

  /** The drop per unit length from cell `i` to its in-grid neighbour at `o`. */
  function SlopeTo(data: seq<Cell>, w: int, h: int, i: int, o: Offset): real
    requires |data| == w * h && w != 0 && 0 <= i < |data| && NeighbourIn(w, h, i, o)
  {
    NeighbourInRange(w, h, i, o);
    (data[i].altitude - data[NeighbourAt(w, i, o)].altitude) / OffsetLength(o)
  }

  /** The scan state after the first `k` offsets: the index of the chosen offset
      (-1 for none yet) and the steepest slope so far. */
  datatype Scan = Scan(best: int, maxSlope: real)

  /** The first `k` steps of the neighbour scan of cell `i`. A neighbour replaces the
      current choice only when its slope is strictly greater, starting from 0; so the
      choice is the first offset of greatest positive slope. */
  function ScanPrefix(data: seq<Cell>, w: int, h: int, i: int, offsets: seq<Offset>, k: int): (r: Scan)
    requires |data| == w * h && w != 0 && 0 <= i < |data| && 0 <= k <= |offsets|
    ensures -1 <= r.best < k && r.maxSlope >= 0.0
    ensures r.best == -1 ==> r.maxSlope == 0.0
    ensures r.best >= 0 ==>
      NeighbourIn(w, h, i, offsets[r.best]) && SlopeTo(data, w, h, i, offsets[r.best]) == r.maxSlope > 0.0
    ensures forall j :: 0 <= j < k && NeighbourIn(w, h, i, offsets[j]) ==>
      SlopeTo(data, w, h, i, offsets[j]) <= r.maxSlope
    ensures r.best >= 0 ==> forall j :: 0 <= j < r.best && NeighbourIn(w, h, i, offsets[j]) ==>
      SlopeTo(data, w, h, i, offsets[j]) < r.maxSlope
  {
    if k == 0 then Scan(-1, 0.0)
    else
      var prev := ScanPrefix(data, w, h, i, offsets, k - 1);
      var o := offsets[k - 1];
      if NeighbourIn(w, h, i, o) && SlopeTo(data, w, h, i, o) > prev.maxSlope then
        Scan(k - 1, SlopeTo(data, w, h, i, o))
      else prev
  }

  /** The direction stored for a choice: the unit step toward the chosen neighbour, or zero. */
  function Direction(offsets: seq<Offset>, best: int): Vec2
    requires best < |offsets|
  {
    if best < 0 then ZeroVec2
    else
      var o := offsets[best];
      Vec2(o.dx as real / OffsetLength(o), o.dy as real / OffsetLength(o))
  }

  /** The direction of cell `i` after the whole scan. */
  function SteepestDirection(data: seq<Cell>, w: int, h: int, i: int, offsets: seq<Offset>): Vec2
    requires |data| == w * h && w != 0 && 0 <= i < |data|
  {
    Direction(offsets, ScanPrefix(data, w, h, i, offsets, |offsets|).best)
  }

  /** The neighbour scan of one cell (the body of the `ParallelFor` in `CalculateFlowDirection`). */
  method ScanCell(data: seq<Cell>, width: int, height: int, index: int, offsets: seq<Offset>)
      returns (bestDirection: Vec2)
    requires |data| == width * height && width != 0 && 0 <= index < |data|
    ensures bestDirection == SteepestDirection(data, width, height, index, offsets)
  {
    var x := index % width;
    var y := index / width;
    var currentElevation := data[index].altitude;
    bestDirection := ZeroVec2;
    var maxSlope := 0.0;
    ghost var best := -1;
    for k := 0 to |offsets|
      invariant ScanPrefix(data, width, height, index, offsets, k) == Scan(best, maxSlope)
      invariant bestDirection == Direction(offsets, best)
    {
      var o := offsets[k];
      var neighborX := x + o.dx;
      var neighborY := y + o.dy;
      if neighborX >= 0 && neighborX < width && neighborY >= 0 && neighborY < height {
        var neighborIndex := neighborY * width + neighborX;
        NeighbourInRange(width, height, index, o);
        var distance := OffsetLength(o);
        var slope := (currentElevation - data[neighborIndex].altitude) / distance;
        assert slope == SlopeTo(data, width, height, index, o);
        if slope > maxSlope {
          maxSlope := slope;
          bestDirection := Vec2(o.dx as real / distance, o.dy as real / distance);
          best := k;
        }
      }
    }
  }

  /** `CalculateFlowDirection` over all cells, the `ParallelFor` run one cell after another. */
  method FlowDirections(data: seq<Cell>, width: int, height: int, offsets: seq<Offset>)
      returns (directions: seq<Vec2>)
    requires |data| == width * height
    ensures |directions| == |data|
    ensures forall i :: 0 <= i < |data| ==>
      width != 0 && directions[i] == SteepestDirection(data, width, height, i, offsets)
  {
    var n := |data|;
    var out := new Vec2[n](_ => ZeroVec2);
    for index := 0 to n
      invariant forall i :: 0 <= i < index ==>
        width != 0 && out[i] == SteepestDirection(data, width, height, i, offsets)
    {
      assert width != 0;
      out[index] := ScanCell(data, width, height, index, offsets);
    }
    directions := out[..];
  }

  /** A cell's direction is zero exactly when no in-grid neighbour is strictly lower. */
  lemma DirectionZeroIff(data: seq<Cell>, w: int, h: int, i: int, offsets: seq<Offset>)
    requires |data| == w * h && w != 0 && 0 <= i < |data| && ValidOffsets(offsets)
    ensures SteepestDirection(data, w, h, i, offsets) == ZeroVec2 <==>
      forall k :: 0 <= k < |offsets| && NeighbourIn(w, h, i, offsets[k]) ==> NotLower(data, w, i, offsets[k])
  {
    var r := ScanPrefix(data, w, h, i, offsets, |offsets|);
    if r.best >= 0 {
      var o := offsets[r.best];
      NeighbourInRange(w, h, i, o);
      PositiveQuotient(data[i].altitude - data[NeighbourAt(w, i, o)].altitude, OffsetLength(o));
      assert !NotLower(data, w, i, o);
      NonzeroQuotient(o.dx as real, OffsetLength(o));
      NonzeroQuotient(o.dy as real, OffsetLength(o));
      assert SteepestDirection(data, w, h, i, offsets) != ZeroVec2;
    } else {
      forall k | 0 <= k < |offsets| && NeighbourIn(w, h, i, offsets[k])
        ensures NotLower(data, w, i, offsets[k])
      {
        NeighbourInRange(w, h, i, offsets[k]);
        PositiveQuotient(data[i].altitude - data[NeighbourAt(w, i, offsets[k])].altitude, OffsetLength(offsets[k]));
      }
    }
  }

  /** The neighbour at `o` is not strictly lower than cell `i` (or lies outside the data). */
  predicate NotLower(data: seq<Cell>, w: int, i: int, o: Offset)
    requires w != 0 && 0 <= i < |data|
  {
    var j := NeighbourAt(w, i, o);
    0 <= j < |data| ==> data[j].altitude >= data[i].altitude
  }

  lemma PositiveQuotient(a: real, d: real)
    requires d > 0.0
    ensures a / d > 0.0 <==> a > 0.0
  {
  }

  lemma NonzeroQuotient(a: real, d: real)
    requires d > 0.0
    ensures a / d == 0.0 <==> a == 0.0
  {
  }

  /** A nonzero direction points at an in-grid, strictly lower neighbour of greatest
      slope, and no earlier offset in the scan order has that slope. */
  lemma SteepestChoice(data: seq<Cell>, w: int, h: int, i: int, offsets: seq<Offset>) returns (k: int)
    requires |data| == w * h && w != 0 && 0 <= i < |data| && ValidOffsets(offsets)
    requires SteepestDirection(data, w, h, i, offsets) != ZeroVec2
    ensures 0 <= k < |offsets| && SteepestDirection(data, w, h, i, offsets) == Direction(offsets, k)
    ensures NeighbourIn(w, h, i, offsets[k])
    ensures 0 <= NeighbourAt(w, i, offsets[k]) < |data|
    ensures data[NeighbourAt(w, i, offsets[k])].altitude < data[i].altitude
    ensures forall j :: 0 <= j < |offsets| && NeighbourIn(w, h, i, offsets[j]) ==>
      SlopeTo(data, w, h, i, offsets[j]) <= SlopeTo(data, w, h, i, offsets[k])
    ensures forall j :: 0 <= j < k && NeighbourIn(w, h, i, offsets[j]) ==>
      SlopeTo(data, w, h, i, offsets[j]) < SlopeTo(data, w, h, i, offsets[k])
  {
    k := ScanPrefix(data, w, h, i, offsets, |offsets|).best;
    NeighbourInRange(w, h, i, offsets[k]);
    PositiveQuotient(data[i].altitude - data[NeighbourAt(w, i, offsets[k])].altitude, OffsetLength(offsets[k]));
  }

  // ----- downstream targets -----

  /** The cell a direction pushes into during the sweep: the rounded position of the
      cell plus its direction, or -1 for a zero direction or a target off the grid. */
  function Downstream(dirs: seq<Vec2>, w: int, h: int, i: int): int
    requires w != 0 && 0 <= i < |dirs|
  {
    var d := dirs[i];
    if d == ZeroVec2 then -1
    else
      var flowX := RoundToInt(Col(i, w) as real + d.x);
      var flowY := RoundToInt(Row(i, w) as real + d.y);
      if InGrid(flowX, flowY, w, h) then Index(flowX, flowY, w) else -1
  }

  lemma DownstreamInRange(dirs: seq<Vec2>, w: int, h: int, i: int)
    requires w != 0 && 0 <= i < |dirs|
    ensures Downstream(dirs, w, h, i) >= -1
    ensures Downstream(dirs, w, h, i) >= 0 ==> Downstream(dirs, w, h, i) < w * h
  {
    var d := dirs[i];
    if d != ZeroVec2 {
      var flowX := RoundToInt(Col(i, w) as real + d.x);
      var flowY := RoundToInt(Row(i, w) as real + d.y);
      if InGrid(flowX, flowY, w, h) {
        IndexInRange(flowX, flowY, w, h);
        assert Downstream(dirs, w, h, i) == Index(flowX, flowY, w);
      }
    }
  }

  /** Rounding a coordinate plus one component of a unit step lands on the neighbour:
      on a diagonal the component is about +-0.707, which rounds to +-1. */
  lemma RoundStep(x: int, c: int, o: Offset)
    requires -1 <= c <= 1 && (c == o.dx || c == o.dy) && -1 <= o.dx <= 1 && -1 <= o.dy <= 1
    ensures RoundToInt(x as real + c as real / OffsetLength(o)) == x + c
  {
    var d := OffsetLength(o);
    if d == Sqrt2 {
      var q := 1.0 / Sqrt2;
      assert q * Sqrt2 == 1.0;
      assert 0.5 < q < 1.0;
      assert c as real / d == c as real * q;
    }
  }

  /** The sweep pushes a cell with a nonzero direction into the neighbour its scan chose. */
  lemma DownstreamIsChosenNeighbour(data: seq<Cell>, w: int, h: int, offsets: seq<Offset>, dirs: seq<Vec2>, i: int)
    requires |data| == w * h && w != 0 && 0 <= i < |data| && ValidOffsets(offsets) && |dirs| == |data|
    requires dirs[i] == SteepestDirection(data, w, h, i, offsets)
    ensures dirs[i] == ZeroVec2 ==> Downstream(dirs, w, h, i) == -1
    ensures dirs[i] != ZeroVec2 ==>
      0 <= Downstream(dirs, w, h, i) < |data| && data[Downstream(dirs, w, h, i)].altitude < data[i].altitude
  {
    if dirs[i] != ZeroVec2 {
      var k := SteepestChoice(data, w, h, i, offsets);
      var o := offsets[k];
      RoundStep(Col(i, w), o.dx, o);
      RoundStep(Row(i, w), o.dy, o);
      assert Downstream(dirs, w, h, i) == NeighbourAt(w, i, o);
    }
  }

  /** Every push goes to a strictly lower cell. */
  ghost predicate Downhill(data: seq<Cell>, dirs: seq<Vec2>, w: int, h: int)
  {
    |dirs| == |data| && (|data| > 0 ==> w != 0) &&
    forall j :: 0 <= j < |data| && Downstream(dirs, w, h, j) >= 0 ==>
      Downstream(dirs, w, h, j) < |data| && data[Downstream(dirs, w, h, j)].altitude < data[j].altitude
  }

  /** The directions computed by the scan, in either neighbour order, form a downhill field. */
  lemma SteepestDirectionsAreDownhill(data: seq<Cell>, w: int, h: int, offsets: seq<Offset>, dirs: seq<Vec2>)
    requires |data| == w * h && ValidOffsets(offsets) && |dirs| == |data|
    requires forall i :: 0 <= i < |data| ==> w != 0 && dirs[i] == SteepestDirection(data, w, h, i, offsets)
    ensures Downhill(data, dirs, w, h)
  {
    forall j | 0 <= j < |data| && Downstream(dirs, w, h, j) >= 0
      ensures Downstream(dirs, w, h, j) < |data| && data[Downstream(dirs, w, h, j)].altitude < data[j].altitude
    {
      DownstreamIsChosenNeighbour(data, w, h, offsets, dirs, j);
    }
  }

  // ----- the descending sort of the cell indices -----

  function Range(n: nat): (r: seq<int>)
    ensures |r| == n && forall p :: 0 <= p < n ==> r[p] == p
  {
    if n == 0 then [] else Range(n - 1) + [n - 1]
  }

  predicate IndicesIn(s: seq<int>, n: int)
  {
    forall p :: 0 <= p < |s| ==> 0 <= s[p] < n
  }

  /** Highest altitude first: the order `CellOrder.Sort` establishes with the
      comparison `Data[A].Altitude > Data[B].Altitude`. */
  ghost predicate Descending(data: seq<Cell>, s: seq<int>)
    requires IndicesIn(s, |data|)
  {
    forall p, q :: 0 <= p < q < |s| ==> data[s[p]].altitude >= data[s[q]].altitude
  }

  /** Inserts `x` before the first strictly lower index. */
  function InsertDescending(data: seq<Cell>, x: int, s: seq<int>): (r: seq<int>)
    requires 0 <= x < |data| && IndicesIn(s, |data|)
    ensures multiset(r) == multiset(s) + multiset{x} && |r| == |s| + 1 && IndicesIn(r, |data|)
  {
    if s == [] then [x]
    else if data[x].altitude > data[s[0]].altitude then [x] + s
    else
      assert s == [s[0]] + s[1..];
      var r := [s[0]] + InsertDescending(data, x, s[1..]);
      assert forall p :: 0 <= p < |r| ==> r[p] in multiset(r);
      r
  }

  /** Cell `v` is at least as high as every cell of `s`. */
  ghost predicate AtLeastAll(data: seq<Cell>, v: int, s: seq<int>)
    requires 0 <= v < |data| && IndicesIn(s, |data|)
  {
    forall p :: 0 <= p < |s| ==> data[v].altitude >= data[s[p]].altitude
  }

  lemma AtLeastAllPermuted(data: seq<Cell>, v: int, s: seq<int>, x: int, r: seq<int>)
    requires 0 <= v < |data| && 0 <= x < |data| && IndicesIn(s, |data|) && IndicesIn(r, |data|)
    requires multiset(r) == multiset(s) + multiset{x}
    requires AtLeastAll(data, v, s) && data[v].altitude >= data[x].altitude
    ensures AtLeastAll(data, v, r)
  {
    forall p | 0 <= p < |r|
      ensures data[v].altitude >= data[r[p]].altitude
    {
      assert r[p] in multiset(r);
      if r[p] != x {
        assert r[p] in multiset(s);
        var i :| 0 <= i < |s| && s[i] == r[p];
      }
    }
  }

  lemma {:induction false} InsertKeepsDescending(data: seq<Cell>, x: int, s: seq<int>)
    requires 0 <= x < |data| && IndicesIn(s, |data|) && Descending(data, s)
    ensures Descending(data, InsertDescending(data, x, s))
  {
    if s != [] && data[x].altitude <= data[s[0]].altitude {
      var rest := InsertDescending(data, x, s[1..]);
      InsertKeepsDescending(data, x, s[1..]);
      assert AtLeastAll(data, s[0], s[1..]);
      AtLeastAllPermuted(data, s[0], s[1..], x, rest);
      var r := [s[0]] + rest;
      forall p, q | 0 <= p < q < |r|
        ensures data[r[p]].altitude >= data[r[q]].altitude
      {
        if p > 0 {
          assert r[p] == rest[p - 1] && r[q] == rest[q - 1];
        }
      }
    }
  }

  /** A sort by descending altitude. The engine's `Sort` is not stable; any
      tie order is covered by the order-independence theorem below. */
  function SortByAltitude(data: seq<Cell>, s: seq<int>): (r: seq<int>)
    requires IndicesIn(s, |data|)
    ensures multiset(r) == multiset(s) && |r| == |s| && IndicesIn(r, |data|) && Descending(data, r)
  {
    if s == [] then []
    else
      assert s == [s[0]] + s[1..];
      var sorted := SortByAltitude(data, s[1..]);
      InsertKeepsDescending(data, s[0], sorted);
      InsertDescending(data, s[0], sorted)
  }

  /** Each index below `n` appears exactly once, and nothing else appears. */
  ghost predicate IsPermutation(s: seq<int>, n: int)
  {
    |s| == n && IndicesIn(s, n) &&
    (forall p, q :: 0 <= p < q < |s| ==> s[p] != s[q]) &&
    (forall x :: 0 <= x < n ==> x in s)
  }

  lemma {:induction false} RangeCounts(n: nat, v: int)
    ensures multiset(Range(n))[v] == if 0 <= v < n then 1 else 0
  {
    if n > 0 {
      RangeCounts(n - 1, v);
    }
  }

  /** Anything with the multiset of `Range(n)` is a permutation of it. */
  lemma PermutationOfRange(s: seq<int>, n: nat)
    requires multiset(s) == multiset(Range(n))
    ensures IsPermutation(s, n)
  {
    assert |s| == |multiset(s)| == n;
    forall p | 0 <= p < |s|
      ensures 0 <= s[p] < n
    {
      assert s[p] in multiset(s);
      RangeCounts(n, s[p]);
    }
    forall p, q | 0 <= p < q < |s|
      ensures s[p] != s[q]
    {
      if s[p] == s[q] {
        var v := s[p];
        assert s == s[..q] + s[q..];
        assert v in s[..q] && v in s[q..];
        assert multiset(s) == multiset(s[..q]) + multiset(s[q..]);
        RangeCounts(n, v);
        assert false;
      }
    }
    forall x | 0 <= x < n
      ensures x in s
    {
      RangeCounts(n, x);
      assert x in multiset(s);
    }
  }

  // ----- the accumulation sweep -----

  /** One step of the sweep: cell `j` adds its accumulation plus one to its target. */
  function Push(acc: seq<real>, dirs: seq<Vec2>, w: int, h: int, j: int): (r: seq<real>)
    requires w != 0 && |acc| == |dirs| == w * h && 0 <= j < |acc|
    ensures |r| == |acc|
  {
    DownstreamInRange(dirs, w, h, j);
    var t := Downstream(dirs, w, h, j);
    if t >= 0 then acc[t := acc[t] + acc[j] + 1.0] else acc
  }

  /** The accumulation after the first `k` cells of `order` have been swept. */
  function SweepPrefix(dirs: seq<Vec2>, w: int, h: int, order: seq<int>, k: int): (r: seq<real>)
    requires w != 0 && |dirs| == w * h && 0 <= k <= |order| && IndicesIn(order, |dirs|)
    ensures |r| == |dirs|
  {
    if k == 0 then seq(|dirs|, _ => 0.0)
    else Push(SweepPrefix(dirs, w, h, order, k - 1), dirs, w, h, order[k - 1])
  }

  /** What the cells among the first `m` that are listed in `members` push into `t`. */
  function InflowFrom(acc: seq<real>, dirs: seq<Vec2>, w: int, h: int, members: seq<int>, t: int, m: int): real
    requires w != 0 && |acc| == |dirs| && 0 <= m <= |dirs|
  {
    if m == 0 then 0.0
    else
      InflowFrom(acc, dirs, w, h, members, t, m - 1) +
      (if m - 1 in members && Downstream(dirs, w, h, m - 1) == t then acc[m - 1] + 1.0 else 0.0)
  }

  /** What all cells among the first `m` push into `t`. */
  function Inflow(acc: seq<real>, dirs: seq<Vec2>, w: int, h: int, t: int, m: int): real
    requires w != 0 && |acc| == |dirs| && 0 <= m <= |dirs|
  {
    if m == 0 then 0.0
    else
      Inflow(acc, dirs, w, h, t, m - 1) +
      (if Downstream(dirs, w, h, m - 1) == t then acc[m - 1] + 1.0 else 0.0)
  }

  /** Each cell holds the sum, over the cells that drain directly into it, of their
      accumulation plus one: the number of cells upstream of it. */
  ghost predicate Balanced(dirs: seq<Vec2>, w: int, h: int, acc: seq<real>)
  {
    |acc| == |dirs| && (|acc| > 0 ==> w != 0) &&
    forall t :: 0 <= t < |acc| ==> acc[t] == Inflow(acc, dirs, w, h, t, |acc|)
  }

  lemma {:induction false} InflowFrame(a: seq<real>, b: seq<real>, dirs: seq<Vec2>, w: int, h: int, members: seq<int>, t: int, m: int)
    requires w != 0 && |a| == |b| == |dirs| && 0 <= m <= |dirs|
    requires forall j :: 0 <= j < m && j in members ==> a[j] == b[j]
    ensures InflowFrom(a, dirs, w, h, members, t, m) == InflowFrom(b, dirs, w, h, members, t, m)
  {
    if m > 0 {
      InflowFrame(a, b, dirs, w, h, members, t, m - 1);
    }
  }

  lemma {:induction false} InflowAdd(acc: seq<real>, dirs: seq<Vec2>, w: int, h: int, members: seq<int>, j: int, t: int, m: int)
    requires w != 0 && |acc| == |dirs| && 0 <= m <= |dirs| && 0 <= j < |dirs| && j !in members
    ensures InflowFrom(acc, dirs, w, h, members + [j], t, m) ==
      InflowFrom(acc, dirs, w, h, members, t, m) +
      (if j < m && Downstream(dirs, w, h, j) == t then acc[j] + 1.0 else 0.0)
  {
    if m > 0 {
      InflowAdd(acc, dirs, w, h, members, j, t, m - 1);
      assert (m - 1 in members + [j]) <==> (m - 1 in members || m - 1 == j);
    }
  }

  lemma {:induction false} InflowAll(acc: seq<real>, dirs: seq<Vec2>, w: int, h: int, members: seq<int>, t: int, m: int)
    requires w != 0 && |acc| == |dirs| && 0 <= m <= |dirs|
    requires forall j :: 0 <= j < m ==> j in members
    ensures InflowFrom(acc, dirs, w, h, members, t, m) == Inflow(acc, dirs, w, h, t, m)
  {
    if m > 0 {
      InflowAll(acc, dirs, w, h, members, t, m - 1);
    }
  }

  lemma {:induction false} InflowNonNegative(acc: seq<real>, dirs: seq<Vec2>, w: int, h: int, t: int, m: int)
    requires w != 0 && |acc| == |dirs| && 0 <= m <= |dirs|
    requires forall j :: 0 <= j < |acc| ==> acc[j] >= 0.0
    ensures Inflow(acc, dirs, w, h, t, m) >= 0.0
  {
    if m > 0 {
      InflowNonNegative(acc, dirs, w, h, t, m - 1);
    }
  }

  /** After the first `k` cells of a descending order: every value is non-negative, and
      every cell holds exactly what the swept cells pushed into it. */
  lemma {:induction false} SweepInvariant(data: seq<Cell>, dirs: seq<Vec2>, w: int, h: int, order: seq<int>, k: int)
    requires |data| == w * h && w != 0 && Downhill(data, dirs, w, h)
    requires IsPermutation(order, |data|) && Descending(data, order) && 0 <= k <= |order|
    ensures forall t :: 0 <= t < |data| ==> SweepPrefix(dirs, w, h, order, k)[t] >= 0.0
    ensures forall t :: 0 <= t < |data| ==>
      SweepPrefix(dirs, w, h, order, k)[t] ==
        InflowFrom(SweepPrefix(dirs, w, h, order, k), dirs, w, h, order[..k], t, |data|)
  {
    var n := |data|;
    if k == 0 {
      forall t | 0 <= t < n
        ensures InflowFrom(SweepPrefix(dirs, w, h, order, 0), dirs, w, h, order[..0], t, n) == 0.0
      {
        InflowZero(SweepPrefix(dirs, w, h, order, 0), dirs, w, h, t, n);
      }
    } else {
      SweepInvariant(data, dirs, w, h, order, k - 1);
      var a := SweepPrefix(dirs, w, h, order, k - 1);
      var j := order[k - 1];
      var a' := SweepPrefix(dirs, w, h, order, k);
      var t0 := Downstream(dirs, w, h, j);
      assert order[..k] == order[..k - 1] + [j];
      forall p | 0 <= p < k - 1
        ensures order[p] != j
      {
      }
      assert j !in order[..k - 1];
      if t0 >= 0 {
        forall p | 0 <= p < k
          ensures order[p] != t0
        {
          assert data[order[p]].altitude >= data[j].altitude;
        }
        assert t0 !in order[..k];
      }
      forall t | 0 <= t < n
        ensures a'[t] == InflowFrom(a', dirs, w, h, order[..k], t, n)
        ensures a'[t] >= 0.0
      {
        InflowFrame(a', a, dirs, w, h, order[..k], t, n);
        InflowAdd(a, dirs, w, h, order[..k - 1], j, t, n);
      }
    }
  }

  lemma {:induction false} InflowZero(acc: seq<real>, dirs: seq<Vec2>, w: int, h: int, t: int, m: int)
    requires w != 0 && |acc| == |dirs| && 0 <= m <= |dirs|
    ensures InflowFrom(acc, dirs, w, h, [], t, m) == 0.0
  {
    if m > 0 {
      InflowZero(acc, dirs, w, h, t, m - 1);
    }
  }

  /** A full sweep in descending order of a downhill field satisfies the balance equation. */
  lemma SweepBalanced(data: seq<Cell>, dirs: seq<Vec2>, w: int, h: int, order: seq<int>)
    requires |data| == w * h && w != 0 && Downhill(data, dirs, w, h)
    requires IsPermutation(order, |data|) && Descending(data, order)
    ensures Balanced(dirs, w, h, SweepPrefix(dirs, w, h, order, |order|))
    ensures forall t :: 0 <= t < |data| ==> SweepPrefix(dirs, w, h, order, |order|)[t] >= 0.0
  {
    var n := |data|;
    var a := SweepPrefix(dirs, w, h, order, n);
    SweepInvariant(data, dirs, w, h, order, n);
    assert order[..n] == order;
    forall t | 0 <= t < n
      ensures a[t] == Inflow(a, dirs, w, h, t, n)
    {
      InflowAll(a, dirs, w, h, order, t, n);
    }
  }

  // ----- uniqueness of the balanced accumulation -----

  /** The number of cells among the first `m` that are strictly higher than `t`. */
  function HigherCount(data: seq<Cell>, t: int, m: int): nat
    requires 0 <= t < |data| && 0 <= m <= |data|
  {
    if m == 0 then 0
    else HigherCount(data, t, m - 1) + (if data[m - 1].altitude > data[t].altitude then 1 else 0)
  }

  lemma {:induction false} HigherCountDrops(data: seq<Cell>, j: int, t: int, m: int)
    requires 0 <= j < |data| && 0 <= t < |data| && 0 <= m <= |data|
    requires data[j].altitude > data[t].altitude
    ensures HigherCount(data, j, m) + (if j < m then 1 else 0) <= HigherCount(data, t, m)
  {
    if m > 0 {
      HigherCountDrops(data, j, t, m - 1);
    }
  }

  lemma {:induction false} InflowAgree(a: seq<real>, b: seq<real>, dirs: seq<Vec2>, w: int, h: int, t: int, m: int)
    requires w != 0 && |a| == |b| == |dirs| && 0 <= m <= |dirs|
    requires forall j :: 0 <= j < m && Downstream(dirs, w, h, j) == t ==> a[j] == b[j]
    ensures Inflow(a, dirs, w, h, t, m) == Inflow(b, dirs, w, h, t, m)
  {
    if m > 0 {
      InflowAgree(a, b, dirs, w, h, t, m - 1);
    }
  }

  /** A downhill field has only one balanced accumulation. */
  lemma {:induction false} BalancedUnique(data: seq<Cell>, dirs: seq<Vec2>, w: int, h: int, a: seq<real>, b: seq<real>, t: int)
    requires |data| == w * h && Downhill(data, dirs, w, h)
    requires Balanced(dirs, w, h, a) && Balanced(dirs, w, h, b) && 0 <= t < |data|
    ensures a[t] == b[t]
    decreases HigherCount(data, t, |data|)
  {
    var n := |data|;
    forall j | 0 <= j < n && Downstream(dirs, w, h, j) == t
      ensures a[j] == b[j]
    {
      HigherCountDrops(data, j, t, n);
      BalancedUnique(data, dirs, w, h, a, b, j);
    }
    InflowAgree(a, b, dirs, w, h, t, n);
  }

  /** The accumulation does not depend on how the sort orders cells of equal altitude. */
  lemma SweepOrderIndependent(data: seq<Cell>, dirs: seq<Vec2>, w: int, h: int, o1: seq<int>, o2: seq<int>)
    requires |data| == w * h && w != 0 && Downhill(data, dirs, w, h)
    requires IsPermutation(o1, |data|) && Descending(data, o1)
    requires IsPermutation(o2, |data|) && Descending(data, o2)
    ensures SweepPrefix(dirs, w, h, o1, |o1|) == SweepPrefix(dirs, w, h, o2, |o2|)
  {
    SweepBalanced(data, dirs, w, h, o1);
    SweepBalanced(data, dirs, w, h, o2);
    forall t | 0 <= t < |data|
      ensures SweepPrefix(dirs, w, h, o1, |o1|)[t] == SweepPrefix(dirs, w, h, o2, |o2|)[t]
    {
      BalancedUnique(data, dirs, w, h, SweepPrefix(dirs, w, h, o1, |o1|), SweepPrefix(dirs, w, h, o2, |o2|), t);
    }
  }

  /** `CalculateFlowAccumulation`: zeroes the output, sorts the cell indices by
      descending altitude and sweeps them, each cell with a nonzero direction adding
      its accumulation plus one to the cell its rounded direction lands on. */
  method CalculateFlowAccumulation(data: seq<Cell>, flowDirections: seq<Vec2>, width: int, height: int)
      returns (outAccumulation: seq<real>)
    requires |data| == width * height && |flowDirections| == |data|
    ensures |outAccumulation| == |data|
    ensures width != 0 ==>
      outAccumulation == SweepPrefix(flowDirections, width, height, SortByAltitude(data, Range(|data|)), |data|)
    ensures Downhill(data, flowDirections, width, height) ==>
      Balanced(flowDirections, width, height, outAccumulation) &&
      forall i :: 0 <= i < |data| ==> outAccumulation[i] >= 0.0
  {
    var n := |data|;
    if n == 0 {
      return [];
    }
    assert width != 0;
    var cellOrder := CellIndices(n);
    cellOrder := SortByAltitude(data, cellOrder);
    outAccumulation := SweepCells(flowDirections, width, height, cellOrder);
    if Downhill(data, flowDirections, width, height) {
      PermutationOfRange(cellOrder, n);
      SweepBalanced(data, flowDirections, width, height, cellOrder);
    }
  }

  /** The loop that fills `CellOrder` with 0 .. n-1. */
  method CellIndices(n: nat) returns (cellOrder: seq<int>)
    ensures cellOrder == Range(n)
  {
    cellOrder := [];
    for i := 0 to n
      invariant cellOrder == Range(i)
    {
      cellOrder := cellOrder + [i];
    }
  }

  /** The sweep loop of `CalculateFlowAccumulation` over a given cell order. */
  method SweepCells(flowDirections: seq<Vec2>, width: int, height: int, cellOrder: seq<int>)
      returns (outAccumulation: seq<real>)
    requires width != 0 && |flowDirections| == width * height && IndicesIn(cellOrder, |flowDirections|)
    ensures outAccumulation == SweepPrefix(flowDirections, width, height, cellOrder, |cellOrder|)
  {
    var acc := new real[|flowDirections|](_ => 0.0);
    assert acc[..] == SweepPrefix(flowDirections, width, height, cellOrder, 0);
    for k := 0 to |cellOrder|
      invariant acc[..] == SweepPrefix(flowDirections, width, height, cellOrder, k)
    {
      var index := cellOrder[k];
      var flowDir := flowDirections[index];
      if flowDir == ZeroVec2 {
        continue;
      }
      var flowX := RoundToInt((index % width) as real + flowDir.x);
      var flowY := RoundToInt((index / width) as real + flowDir.y);
      if flowX >= 0 && flowX < width && flowY >= 0 && flowY < height {
        var neighborIndex := flowY * width + flowX;
        IndexInRange(flowX, flowY, width, height);
        assert neighborIndex == Downstream(flowDirections, width, height, index);
        acc[neighborIndex] := acc[neighborIndex] + acc[index] + 1.0;
      }
    }
    outAccumulation := acc[..];
  }

  /** `CalculateFlowDepth`: accumulation times precipitation factor over river width
      where the width is positive, and 0 elsewhere. */
  method CalculateFlowDepth(data: seq<Cell>, flowAccumulation: seq<real>, effectiveRiverWidths: seq<real>,
                            width: int, height: int, precipitationFactors: seq<real>)
      returns (outFlowDepth: seq<real>)
    requires |flowAccumulation| >= |data| && |effectiveRiverWidths| >= |data| && |precipitationFactors| >= |data|
    ensures |outFlowDepth| == |data|
    ensures forall i :: 0 <= i < |data| ==>
      outFlowDepth[i] == FlowDepthAt(flowAccumulation[i], effectiveRiverWidths[i], precipitationFactors[i])
  {
    var depth := new real[|data|](_ => 0.0);
    for index := 0 to |data|
      invariant forall i :: 0 <= i < index ==>
        depth[i] == FlowDepthAt(flowAccumulation[i], effectiveRiverWidths[i], precipitationFactors[i])
      invariant forall i :: index <= i < |data| ==> depth[i] == 0.0
    {
      var accumulation := flowAccumulation[index];
      var effectiveRiverWidth := effectiveRiverWidths[index];
      var precipitationFactor := precipitationFactors[index];
      if effectiveRiverWidth > 0.0 {
        depth[index] := accumulation * precipitationFactor / effectiveRiverWidth;
      }
    }
    outFlowDepth := depth[..];
  }

  /** The depth of one cell: 0 unless the river width is positive. */
  function FlowDepthAt(accumulation: real, riverWidth: real, precipitationFactor: real): (d: real)
    ensures riverWidth <= 0.0 ==> d == 0.0
    ensures riverWidth > 0.0 ==> d * riverWidth == accumulation * precipitationFactor
    ensures accumulation >= 0.0 && precipitationFactor >= 0.0 ==> d >= 0.0
  {
    if riverWidth > 0.0 then
      assert accumulation * precipitationFactor >= 0.0 ==> accumulation * precipitationFactor / riverWidth >= 0.0;
      accumulation * precipitationFactor / riverWidth
    else 0.0
  }
}
