/** `CalculateFlowDirection` of Addon/DInfinity.cpp, which visits the fixed
    `NeighborOffsets` list row by row. */
module AddonDInfinity {
  import opened Common
  import opened HeightmapCell
  import opened Grid
  import opened FlowRouting
  import PrivateDInfinity

  /** `NeighborOffsets`, row by row from (-1, -1) to (1, 1). */
  const NeighborOffsets: seq<Offset> := [
    Offset(-1, -1), Offset(0, -1), Offset(1, -1),
    Offset(-1, 0), Offset(1, 0),
    Offset(-1, 1), Offset(0, 1), Offset(1, 1)]

  /** `CalculateFlowDirection`: one entry per cell, each the steepest-descent step in
      this scan order; the result is a downhill field for the accumulation sweep. */
  method CalculateFlowDirection(data: seq<Cell>, width: int, height: int)
      returns (outFlowDirections: seq<Vec2>)
    requires |data| == width * height
    ensures |outFlowDirections| == |data|
    ensures forall i :: 0 <= i < |data| ==>
      width != 0 && outFlowDirections[i] == SteepestDirection(data, width, height, i, NeighborOffsets)
    ensures Downhill(data, outFlowDirections, width, height)
  {
    outFlowDirections := FlowDirections(data, width, height, NeighborOffsets);
    assert ValidOffsets(NeighborOffsets);
    SteepestDirectionsAreDownhill(data, width, height, NeighborOffsets, outFlowDirections);
  }

  /** `NeighborOffsets` lists the eight neighbours row by row: dy outer, dx inner, the
      centre skipped. */
  lemma NeighborOffsetsRowMajor()
    ensures |NeighborOffsets| == 8 && ValidOffsets(NeighborOffsets)
    ensures forall k :: 0 <= k < 4 ==> NeighborOffsets[k] == Offset(k % 3 - 1, k / 3 - 1)
    ensures forall k :: 4 <= k < 8 ==> NeighborOffsets[k] == Offset((k + 1) % 3 - 1, (k + 1) / 3 - 1)
  {
  }

  /** Every offset of one order occurs in the other. */
  lemma SameOffsets()
    ensures forall k :: 0 <= k < 8 ==> PrivateDInfinity.Offsets[k] in NeighborOffsets
    ensures forall k :: 0 <= k < 8 ==> NeighborOffsets[k] in PrivateDInfinity.Offsets
    ensures |NeighborOffsets| == |PrivateDInfinity.Offsets| == 8
  {
  }

  /** The greatest slope found by a scan is at least that of any offset of another list
      that also occurs in it. */
  lemma MaxSlopeCovers(data: seq<Cell>, w: int, h: int, i: int, a: seq<Offset>, b: seq<Offset>)
    requires |data| == w * h && w != 0 && 0 <= i < |data|
    requires forall k :: 0 <= k < |a| ==> a[k] in b
    ensures ScanPrefix(data, w, h, i, a, |a|).maxSlope <= ScanPrefix(data, w, h, i, b, |b|).maxSlope
  {
    var ra := ScanPrefix(data, w, h, i, a, |a|);
    if ra.best >= 0 {
      var o := a[ra.best];
      assert o in b;
      var j :| 0 <= j < |b| && b[j] == o;
    }
  }

  /** Both copies find the same steepest slope, so one gives a zero direction exactly
      when the other does; they can differ only in which of several equally steep
      neighbours they choose. */
  lemma SameSteepestSlope(data: seq<Cell>, w: int, h: int, i: int)
    requires |data| == w * h && w != 0 && 0 <= i < |data|
    ensures ScanPrefix(data, w, h, i, NeighborOffsets, 8).maxSlope ==
            ScanPrefix(data, w, h, i, PrivateDInfinity.Offsets, 8).maxSlope
    ensures SteepestDirection(data, w, h, i, NeighborOffsets) == ZeroVec2 <==>
            SteepestDirection(data, w, h, i, PrivateDInfinity.Offsets) == ZeroVec2
  {
    SameOffsets();
    PrivateDInfinity.OffsetsFollowNestedLoops();
    MaxSlopeCovers(data, w, h, i, NeighborOffsets, PrivateDInfinity.Offsets);
    MaxSlopeCovers(data, w, h, i, PrivateDInfinity.Offsets, NeighborOffsets);
    DirectionZeroIff(data, w, h, i, NeighborOffsets);
    DirectionZeroIff(data, w, h, i, PrivateDInfinity.Offsets);
    var ra := ScanPrefix(data, w, h, i, NeighborOffsets, 8);
    var rb := ScanPrefix(data, w, h, i, PrivateDInfinity.Offsets, 8);
    assert (ra.best == -1) == (ra.maxSlope == 0.0);
    assert (rb.best == -1) == (rb.maxSlope == 0.0);
    NonzeroDirection(NeighborOffsets, ra.best);
    NonzeroDirection(PrivateDInfinity.Offsets, rb.best);
  }

  lemma NonzeroDirection(offsets: seq<Offset>, best: int)
    requires ValidOffsets(offsets) && best < |offsets|
    ensures Direction(offsets, best) == ZeroVec2 <==> best < 0
  {
    if best >= 0 {
      var o := offsets[best];
      NonzeroQuotient(o.dx as real, OffsetLength(o));
      NonzeroQuotient(o.dy as real, OffsetLength(o));
    }
  }

  /** A 3 by 3 map whose centre is 10 high with its top (index 1) and left (index 3)
      neighbours at 0 and everything else at 10. */
  function TieMap(): (r: seq<Cell>)
    ensures |r| == 9
    ensures forall j :: 0 <= j < 9 ==> r[j].altitude == if j == 1 || j == 3 then 0.0 else 10.0
  {
    var high := DefaultCell().(altitude := 10.0);
    var low := DefaultCell().(altitude := 0.0);
    [high, low, high, low, high, high, high, high, high]
  }

  /** Every offset of the ring around the centre of a 3 by 3 grid stays inside it. */
  lemma CentreNeighbour(o: Offset)
    requires -1 <= o.dx <= 1 && -1 <= o.dy <= 1
    ensures NeighbourIn(3, 3, 4, o) && NeighbourAt(3, 4, o) == 4 + 3 * o.dy + o.dx
  {
    assert Col(4, 3) == 1 && Row(4, 3) == 1;
  }

  lemma RingOffset(o: Offset)
    requires o in NeighborOffsets
    ensures -1 <= o.dx <= 1 && -1 <= o.dy <= 1
  {
  }

  lemma CentreSlope(o: Offset)
    requires -1 <= o.dx <= 1 && -1 <= o.dy <= 1
    ensures NeighbourIn(3, 3, 4, o)
    ensures SlopeTo(TieMap(), 3, 3, 4, o) ==
      (TieMap()[4].altitude - TieMap()[4 + 3 * o.dy + o.dx].altitude) / OffsetLength(o)
  {
    CentreNeighbour(o);
  }

  /** The centre of `TieMap` drops by 10 toward its top and left neighbours and by
      nothing toward the others. */
  lemma TieMapSlope(o: Offset)
    requires o in NeighborOffsets
    ensures NeighbourIn(3, 3, 4, o)
    ensures SlopeTo(TieMap(), 3, 3, 4, o) == if o == Offset(0, -1) || o == Offset(-1, 0) then 10.0 else 0.0
  {
    RingOffset(o);
    CentreSlope(o);
    var j := 4 + 3 * o.dy + o.dx;
    if o == Offset(0, -1) || o == Offset(-1, 0) {
      assert j == 1 || j == 3;
      assert TieMap()[j].altitude == 0.0;
    } else {
      assert j != 1 && j != 3;
      assert TieMap()[j].altitude == 10.0;
    }
  }

  /** On the centre of `TieMap` an order that starts with (-1, -1) and then one of the
      two low neighbours chooses that second offset: the other low neighbour, however
      late, is only as steep and so does not replace it. */
  lemma TieBest(offsets: seq<Offset>)
    requires |offsets| == 8 && forall k :: 0 <= k < 8 ==> offsets[k] in NeighborOffsets
    requires offsets[0] == Offset(-1, -1) && (offsets[1] == Offset(0, -1) || offsets[1] == Offset(-1, 0))
    ensures ScanPrefix(TieMap(), 3, 3, 4, offsets, 8) == Scan(1, 10.0)
  {
    var r := ScanPrefix(TieMap(), 3, 3, 4, offsets, 8);
    TieMapSlope(offsets[0]);
    TieMapSlope(offsets[1]);
    assert r.maxSlope >= 10.0;
    assert r.best >= 0;
    TieMapSlope(offsets[r.best]);
    assert r.maxSlope == 10.0;
    assert r.best <= 1;
  }

  /** On `TieMap` the two copies break the tie between the left and the top neighbour
      differently: the Private order reaches (-1, 0) first, this one (0, -1). */
  lemma TieBreakDiffers()
    ensures SteepestDirection(TieMap(), 3, 3, 4, PrivateDInfinity.Offsets) == Vec2(-1.0, 0.0)
    ensures SteepestDirection(TieMap(), 3, 3, 4, NeighborOffsets) == Vec2(0.0, -1.0)
  {
    PrivateTieDirection();
    AddonTieDirection();
  }

  lemma PrivateTieDirection()
    ensures SteepestDirection(TieMap(), 3, 3, 4, PrivateDInfinity.Offsets) == Vec2(-1.0, 0.0)
  {
    SameOffsets();
    TieBest(PrivateDInfinity.Offsets);
    StraightDirection(PrivateDInfinity.Offsets, 1);
  }

  lemma AddonTieDirection()
    ensures SteepestDirection(TieMap(), 3, 3, 4, NeighborOffsets) == Vec2(0.0, -1.0)
  {
    TieBest(NeighborOffsets);
    StraightDirection(NeighborOffsets, 1);
  }

  /** A straight (non-diagonal) offset gives its own components as the direction. */
  lemma StraightDirection(offsets: seq<Offset>, k: int)
    requires 0 <= k < |offsets| && (offsets[k].dx == 0 || offsets[k].dy == 0)
    ensures Direction(offsets, k) == Vec2(offsets[k].dx as real, offsets[k].dy as real)
  {
    var o := offsets[k];
    assert OffsetLength(o) == 1.0;
    DivideByOne(o.dx as real);
    DivideByOne(o.dy as real);
  }

  lemma DivideByOne(x: real)
    ensures x / 1.0 == x
  {
  }
}
