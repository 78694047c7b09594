/** `CalculateFlowDirection` of Private/DInfinity.cpp, whose nested loops visit the
    neighbours with dx outer and dy inner. */
module PrivateDInfinity {
  import opened Common
  import opened HeightmapCell
  import opened FlowRouting

  /** The offsets in the order of the nested `dx`/`dy` loops, the centre skipped. */
  const Offsets: seq<Offset> := [
    Offset(-1, -1), Offset(-1, 0), Offset(-1, 1),
    Offset(0, -1), Offset(0, 1),
    Offset(1, -1), Offset(1, 0), Offset(1, 1)]

  /** The nine (dx, dy) pairs of the nested loops with dx outer, without (0, 0). */
  function NestedLoopOrder(): (r: seq<Offset>)
    ensures |r| == 8
  {
    var all := seq(9, k requires 0 <= k < 9 => Offset(k / 3 - 1, k % 3 - 1));
    all[..4] + all[5..]
  }

  lemma OffsetsFollowNestedLoops()
    ensures Offsets == NestedLoopOrder() && ValidOffsets(Offsets)
  {
    var all := seq(9, k requires 0 <= k < 9 => Offset(k / 3 - 1, k % 3 - 1));
    assert all == [Offset(-1, -1), Offset(-1, 0), Offset(-1, 1), Offset(0, -1), Offset(0, 0),
                   Offset(0, 1), Offset(1, -1), Offset(1, 0), Offset(1, 1)];
  }

  /** `CalculateFlowDirection`: one entry per cell, each the steepest-descent step in
      this scan order; the result is a downhill field for the accumulation sweep. */
  method CalculateFlowDirection(data: seq<Cell>, width: int, height: int)
      returns (outFlowDirections: seq<Vec2>)
    requires |data| == width * height
    ensures |outFlowDirections| == |data|
    ensures forall i :: 0 <= i < |data| ==>
      width != 0 && outFlowDirections[i] == SteepestDirection(data, width, height, i, Offsets)
    ensures Downhill(data, outFlowDirections, width, height)
  {
    outFlowDirections := FlowDirections(data, width, height, Offsets);
    OffsetsFollowNestedLoops();
    SteepestDirectionsAreDownhill(data, width, height, Offsets, outFlowDirections);
  }
}
