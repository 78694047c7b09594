/** The hydrology helpers of the add-on (`HydrologyCalculator`): the seasonal
    adjustment of a flow value, the effective river width, the stream threshold and
    the visualisation texture. */
module Hydrology {
  import opened Common
  import opened HeightmapCell
  import opened Grid

  /** Above this altitude a warm cell receives snowmelt. */
  const FreezingAltitude: real := 2000.0

  /** The share of the flow that survives freezing: 1 at 0 degrees, 0 from -10 down. */
  function FreezeFactor(t: real): (f: real)
    ensures 0.0 <= f <= 1.0
    ensures t <= -10.0 ==> f == 0.0
  {
    Clamp(1.0 + t / 10.0, 0.0, 1.0)
  }

  /** The share of the annual precipitation that melts: 0 at 0 degrees, 1 from 10 up. */
  function MeltFactor(t: real): (f: real)
    ensures 0.0 <= f <= 1.0
    ensures t >= 10.0 ==> f == 1.0
  {
    Clamp(t / 10.0, 0.0, 1.0)
  }

  /** `AdjustFlowForEnvironment`: the new value of the flow passed by reference.
      Freezing scales the flow down below 0 degrees; snowmelt adds precipitation on a
      warm cell above the freezing altitude; evaporation then scales by the humidity
      factor. The day of the year and the planet time are not read. */
  function AdjustFlowForEnvironment(cell: Cell, flow: real, humidityFactor: real): (r: real)
    ensures cell.temperature < 0.0 ==> r == flow * FreezeFactor(cell.temperature) * humidityFactor
    ensures cell.temperature > 0.0 && cell.altitude > FreezingAltitude ==>
      r == (flow + cell.annualPrecipitation * MeltFactor(cell.temperature)) * humidityFactor
    ensures cell.temperature == 0.0 || (cell.temperature > 0.0 && cell.altitude <= FreezingAltitude) ==>
      r == flow * humidityFactor
  {
    var adjusted :=
      if cell.temperature < 0.0 then flow * FreezeFactor(cell.temperature)
      else if cell.temperature > 0.0 && cell.altitude > FreezingAltitude then
        flow + cell.annualPrecipitation * MeltFactor(cell.temperature)
      else flow;
    adjusted * humidityFactor
  }

  /** From -10 degrees down the flow is frozen solid, whatever the humidity. */
  lemma FrozenFlowIsZero(cell: Cell, flow: real, humidityFactor: real)
    requires cell.temperature <= -10.0
    ensures AdjustFlowForEnvironment(cell, flow, humidityFactor) == 0.0
  {
  }

  /** Freezing never increases a non-negative flow when the humidity factor is a
      fraction, and never makes it negative. */
  lemma FreezingShrinksFlow(cell: Cell, flow: real, humidityFactor: real)
    requires cell.temperature < 0.0 && flow >= 0.0 && 0.0 <= humidityFactor <= 1.0
    ensures 0.0 <= AdjustFlowForEnvironment(cell, flow, humidityFactor) <= flow
  {
    var f := FreezeFactor(cell.temperature);
    assert 0.0 <= flow * f <= flow by {
      MulFraction(flow, f);
    }
    MulFraction(flow * f, humidityFactor);
  }

  /** Snowmelt adds between nothing and the whole annual precipitation before evaporation. */
  lemma MeltAddsAtMostPrecipitation(cell: Cell, flow: real)
    requires cell.temperature > 0.0 && cell.altitude > FreezingAltitude
    requires cell.annualPrecipitation >= 0.0
    ensures flow <= AdjustFlowForEnvironment(cell, flow, 1.0) <= flow + cell.annualPrecipitation
  {
    var m := MeltFactor(cell.temperature);
    MulFraction(cell.annualPrecipitation, m);
    assert AdjustFlowForEnvironment(cell, flow, 1.0) == (flow + cell.annualPrecipitation * m) * 1.0;
  }

  lemma MulFraction(x: real, f: real)
    requires x >= 0.0 && 0.0 <= f <= 1.0
    ensures 0.0 <= x * f <= x
  {
  }

  /** `1 / (slope + 0.1)` in single precision clamped into [0.5, 2]. At slope -0.1 the
      divisor is +0, the quotient +infinity and the clamp yields its upper bound. */
  function SlopeEffect(slope: real): (e: real)
    ensures 0.5 <= e <= 2.0
  {
    if slope + 0.1 == 0.0 then 2.0 else Clamp(1.0 / (slope + 0.1), 0.5, 2.0)
  }

  /** Closer to the ocean rivers are wider: the factor falls from 2 to 0.5 with distance. */
  function RiverOceanEffect(distanceToOcean: real): (e: real)
    ensures 0.5 <= e <= 2.0
  {
    Clamp(1.0 - distanceToOcean / 500.0, 0.5, 2.0)
  }

  /** `CalculateEffectiveRiverWidth`: a base of 10 metres, 15 for a River cell, scaled
      by the ocean and slope effects. */
  function EffectiveRiverWidth(cell: Cell, slope: real): (r: real)
    ensures 2.5 <= r <= 60.0
    ensures cell.cellType != River ==> 2.5 <= r <= 40.0
  {
    var baseWidth := BaseWidth(cell.cellType);
    var o, s := RiverOceanEffect(cell.distanceToOcean), SlopeEffect(slope);
    ProductBounds(o, s);
    baseWidth * o * s
  }

  lemma ProductBounds(a: real, b: real)
    requires 0.5 <= a <= 2.0 && 0.5 <= b <= 2.0
    ensures 10.0 * a * b >= 2.5 && 10.0 * a * b <= 40.0
    ensures 10.0 * 1.5 * a * b >= 3.75 && 10.0 * 1.5 * a * b <= 60.0
  {
    assert 0.25 <= a * b <= 4.0 by {
      assert a * b >= 0.5 * b >= 0.25;
      assert a * b <= 2.0 * b <= 4.0;
    }
  }

  /** A River cell is exactly one and a half times as wide as the same cell of any
      other type. */
  lemma RiverIsWider(cell: Cell, slope: real, other: CellType)
    requires other != River
    ensures EffectiveRiverWidth(cell.(cellType := River), slope) ==
            1.5 * EffectiveRiverWidth(cell.(cellType := other), slope)
  {
  }

  lemma OceanEffectMono(near: real, far: real)
    requires near <= far
    ensures RiverOceanEffect(far) <= RiverOceanEffect(near)
  {
    assert 1.0 - far / 500.0 <= 1.0 - near / 500.0;
  }

  function BaseWidth(t: CellType): real
  {
    if t == River then 10.0 * 1.5 else 10.0
  }

  lemma WidthFactors(cell: Cell, slope: real)
    ensures EffectiveRiverWidth(cell, slope) ==
      BaseWidth(cell.cellType) * RiverOceanEffect(cell.distanceToOcean) * SlopeEffect(slope)
  {
  }

  /** Moving away from the ocean never widens a river. */
  lemma WidthShrinksInland(cell: Cell, slope: real, farther: real)
    requires cell.distanceToOcean <= farther
    ensures EffectiveRiverWidth(cell.(distanceToOcean := farther), slope) <= EffectiveRiverWidth(cell, slope)
  {
    var inland := cell.(distanceToOcean := farther);
    var k, a, b, c := BaseWidth(cell.cellType), RiverOceanEffect(farther), RiverOceanEffect(cell.distanceToOcean), SlopeEffect(slope);
    WidthFactors(cell, slope);
    WidthFactors(inland, slope);
    OceanEffectMono(cell.distanceToOcean, farther);
    ProductOrder(EffectiveRiverWidth(inland, slope), EffectiveRiverWidth(cell, slope), k, a, b, c);
  }

  /** Moves an order between two products onto the values they name. */
  lemma ProductOrder(w1: real, w2: real, k: real, a: real, b: real, c: real)
    requires k >= 0.0 && a <= b && c >= 0.0
    requires w1 == k * a * c && w2 == k * b * c
    ensures w1 <= w2
  {
    TripleMono(k, a, b, c);
  }

  lemma TripleMono(k: real, a: real, b: real, c: real)
    requires k >= 0.0 && a <= b && c >= 0.0
    ensures k * a * c <= k * b * c
  {
    MulMonoReal(k, a, b);
    MulMonoReal(c, k * a, k * b);
    assert k * a * c == c * (k * a) && k * b * c == c * (k * b);
  }

  lemma MulMonoReal(k: real, a: real, b: real)
    requires k >= 0.0 && a <= b
    ensures k * a <= k * b
  {
  }

  /** `CalculateStreamThreshold`: a base of 100 per unit of resolution scaled by the
      precipitation, ocean-proximity and humidity effects. The cell type of the source
      has no relative humidity, so it is a parameter here. */
  function StreamThreshold(cell: Cell, resolution: Vec2, relativeHumidity: real): real
    requires resolution.x + resolution.y != 0.0
  {
    BaseThreshold(resolution) * PrecipitationEffect(cell.annualPrecipitation) *
    OceanProximityEffect(cell.distanceToOcean) * HumidityEffect(relativeHumidity)
  }

  /** The effects are positive, so the threshold has the sign of the resolution. */
  lemma StreamThresholdSign(cell: Cell, resolution: Vec2, relativeHumidity: real)
    requires resolution.x + resolution.y != 0.0
    ensures StreamThreshold(cell, resolution, relativeHumidity) > 0.0 <==> resolution.x + resolution.y > 0.0
  {
    var b, p, o, hu := BaseThreshold(resolution), PrecipitationEffect(cell.annualPrecipitation),
                       OceanProximityEffect(cell.distanceToOcean), HumidityEffect(relativeHumidity);
    PositiveFactorsKeepSign(StreamThreshold(cell, resolution, relativeHumidity), b, p, o, hu);
  }

  /** Multiplying by positive factors keeps the sign of the first one. */
  lemma PositiveFactorsKeepSign(w: real, b: real, p: real, o: real, hu: real)
    requires p > 0.0 && o > 0.0 && hu > 0.0
    requires w == b * p * o * hu
    ensures w > 0.0 <==> b > 0.0
  {
    var k := p * o * hu;
    assert k > 0.0;
    assert b * p * o * hu == b * k;
    if b <= 0.0 {
      assert b * k <= 0.0;
    }
  }

  /** At a positive resolution the threshold lies between a thousandth and twice the base. */
  lemma StreamThresholdBounds(cell: Cell, resolution: Vec2, relativeHumidity: real)
    requires resolution.x + resolution.y > 0.0
    ensures 0.001 * BaseThreshold(resolution) <= StreamThreshold(cell, resolution, relativeHumidity)
    ensures StreamThreshold(cell, resolution, relativeHumidity) <= 2.0 * BaseThreshold(resolution)
  {
    var b, p, o, hu := BaseThreshold(resolution), PrecipitationEffect(cell.annualPrecipitation),
                       OceanProximityEffect(cell.distanceToOcean), HumidityEffect(relativeHumidity);
    ThresholdBounds(StreamThreshold(cell, resolution, relativeHumidity), b, p, o, hu);
  }

  /** 100 per unit of resolution: positive exactly when the resolution is. */
  function BaseThreshold(resolution: Vec2): (r: real)
    requires resolution.x + resolution.y != 0.0
    ensures r > 0.0 <==> resolution.x + resolution.y > 0.0
  {
    100.0 / (resolution.x + resolution.y)
  }

  function PrecipitationEffect(annualPrecipitation: real): (r: real)
    ensures 0.1 <= r <= 2.0
  {
    Clamp(annualPrecipitation / 1000.0, 0.1, 2.0)
  }

  function OceanProximityEffect(distanceToOcean: real): (r: real)
    ensures 0.1 <= r <= 1.0
  {
    Clamp(1.0 - distanceToOcean / 1000.0, 0.1, 1.0)
  }

  function HumidityEffect(relativeHumidity: real): (r: real)
    ensures 0.1 <= r <= 1.0
  {
    Clamp(1.0 - relativeHumidity, 0.1, 1.0)
  }

  lemma ThresholdBounds(w: real, b: real, p: real, o: real, hu: real)
    requires 0.1 <= p <= 2.0 && 0.1 <= o <= 1.0 && 0.1 <= hu <= 1.0
    requires w == b * p * o * hu
    ensures b > 0.0 ==> 0.001 * b <= w <= 2.0 * b
  {
    if b > 0.0 {
      var q := o * hu;
      FactorBounds(o, hu, 0.1, 1.0, 0.1, 1.0);
      var m := p * q;
      FactorBounds(p, q, 0.1, 2.0, 0.01, 1.0);
      Regroup(w, b, p, o, hu);
      MulMonoReal(b, 0.001, m);
      MulMonoReal(b, m, 2.0);
    }
  }

  /** Bounds on two non-negative factors bound their product. */
  lemma FactorBounds(x: real, y: real, xl: real, xh: real, yl: real, yh: real)
    requires 0.0 <= xl <= x <= xh && 0.0 <= yl <= y <= yh
    ensures xl * yl <= x * y <= xh * yh
  {
    MulMonoReal(y, xl, x);
    MulMonoReal(xl, yl, y);
    MulMonoReal(y, x, xh);
    MulMonoReal(xh, y, yh);
    assert y * xl == xl * y && y * x == x * y && y * xh == xh * y;
  }

  /** `b * p * o * hu` multiplies left to right; grouping the effects first gives the same product. */
  lemma Regroup(w: real, b: real, p: real, o: real, hu: real)
    requires w == b * p * o * hu
    ensures w == b * (p * (o * hu))
  {
    calc {
      b * p * o * hu;
      (b * (p * o)) * hu;
      b * ((p * o) * hu);
      b * (p * (o * hu));
    }
  }

  /** Four positive-or-zero factors multiplied in order; raising one factor never
      lowers the product. */
  lemma ProductMono(w1: real, w2: real, b: real, p1: real, p2: real, o: real, h1: real, h2: real)
    requires b >= 0.0 && 0.0 <= p1 <= p2 && o >= 0.0 && 0.0 <= h1 <= h2
    requires w1 == b * p1 * o * h1 && w2 == b * p2 * o * h2
    ensures w1 <= w2
  {
    TripleMono(b, p1, p2, o);
    assert b * p1 * o >= 0.0 && b * p2 * o >= 0.0;
    MulMonoReal(h1, b * p1 * o, b * p2 * o);
    MulMonoReal(b * p2 * o, h1, h2);
    assert b * p1 * o * h1 == h1 * (b * p1 * o);
    assert b * p2 * o * h1 == h1 * (b * p2 * o);
  }

  /** The threshold grows with each of its effects. */
  lemma ThresholdOrder(c1: Cell, rh1: real, c2: Cell, rh2: real, resolution: Vec2)
    requires resolution.x + resolution.y > 0.0
    requires PrecipitationEffect(c1.annualPrecipitation) <= PrecipitationEffect(c2.annualPrecipitation)
    requires OceanProximityEffect(c1.distanceToOcean) == OceanProximityEffect(c2.distanceToOcean)
    requires HumidityEffect(rh1) <= HumidityEffect(rh2)
    ensures StreamThreshold(c1, resolution, rh1) <= StreamThreshold(c2, resolution, rh2)
  {
    var b, o := BaseThreshold(resolution), OceanProximityEffect(c1.distanceToOcean);
    var p1, p2 := PrecipitationEffect(c1.annualPrecipitation), PrecipitationEffect(c2.annualPrecipitation);
    var h1, h2 := HumidityEffect(rh1), HumidityEffect(rh2);
    ProductMono(StreamThreshold(c1, resolution, rh1), StreamThreshold(c2, resolution, rh2), b, p1, p2, o, h1, h2);
  }

  lemma PositiveQuotient(a: real, d: real)
    requires a > 0.0 && d > 0.0
    ensures a / d > 0.0
  {
  }

  lemma ClampMono(x: real, y: real, lo: real, hi: real)
    requires x <= y && lo <= hi
    ensures Clamp(x, lo, hi) <= Clamp(y, lo, hi)
  {
  }


  /** More humidity never raises the threshold at a positive resolution. */
  lemma HumidityLowersThreshold(cell: Cell, resolution: Vec2, rh1: real, rh2: real)
    requires resolution.x + resolution.y > 0.0 && rh1 <= rh2
    ensures StreamThreshold(cell, resolution, rh2) <= StreamThreshold(cell, resolution, rh1)
  {
    ClampMono(1.0 - rh2, 1.0 - rh1, 0.1, 1.0);
    ThresholdOrder(cell, rh2, cell, rh1, resolution);
  }

  /** More precipitation never lowers the threshold at a positive resolution. */
  lemma PrecipitationRaisesThreshold(dry: Cell, wet: Cell, resolution: Vec2, relativeHumidity: real)
    requires resolution.x + resolution.y > 0.0
    requires dry.annualPrecipitation <= wet.annualPrecipitation && dry.distanceToOcean == wet.distanceToOcean
    ensures StreamThreshold(dry, resolution, relativeHumidity) <= StreamThreshold(wet, resolution, relativeHumidity)
  {
    ClampMono(dry.annualPrecipitation / 1000.0, wet.annualPrecipitation / 1000.0, 0.1, 2.0);
    ThresholdOrder(dry, relativeHumidity, wet, relativeHumidity, resolution);
  }

  // ---------------------------------------------------------------------------
  // The visualisation texture
  // ---------------------------------------------------------------------------

  /** `static_cast<uint8>(FMath::Clamp(num / den * 255, 0, 255))` in single precision.
      A zero divisor gives +infinity, -infinity or NaN; the clamp sends +infinity and
      NaN (whose comparisons are all false) to 255 and -infinity to 0. */
  function ScaledByte(num: real, den: real): (r: byte)
    ensures den != 0.0 && num / den <= 0.0 ==> r == 0
    ensures den != 0.0 && num / den >= 1.0 ==> r == 255
    ensures den != 0.0 && 0.0 <= num / den <= 1.0 ==> r == (num / den * 255.0).Floor
    ensures den == 0.0 ==> r == if num < 0.0 then 0 else 255
  {
    if den == 0.0 then (if num < 0.0 then 0 else 255)
    else ToByte(Clamp(num / den * 255.0, 0.0, 255.0))
  }

  /** A wider ratio never gives a darker byte. */
  lemma ScaledByteMonotone(a: real, b: real, den: real)
    requires den > 0.0 && a <= b
    ensures ScaledByte(a, den) <= ScaledByte(b, den)
  {
    assert a / den <= b / den by {
      assert b / den - a / den == (b - a) / den;
    }
  }

  const StreamBlue: Color := Color(0, 0, 255, 255)

  /** The pixel of a cell before the stream overlay: blue in proportion to a positive
      flow depth, otherwise gray in proportion to the altitude between the sliders. */
  function BasePixel(cell: Cell, flowDepth: real, maxFlowDepth: real, minAltitude: real, maxAltitude: real): (c: Color)
    ensures c.a == 255
    ensures flowDepth > 0.0 ==> c.r == 0 && c.g == 0 && c.b == ScaledByte(flowDepth, maxFlowDepth)
    ensures flowDepth <= 0.0 ==>
      var g := ScaledByte(cell.altitude - minAltitude, maxAltitude - minAltitude);
      c.r == g && c.g == g && c.b == g
  {
    if flowDepth > 0.0 then Color(0, 0, ScaledByte(flowDepth, maxFlowDepth), 255)
    else
      var g := ScaledByte(cell.altitude - minAltitude, maxAltitude - minAltitude);
      Color(g, g, g, 255)
  }

  /** With the sliders in order, a higher dry cell is never darker. */
  lemma GrayMonotone(low: Cell, high: Cell, minAltitude: real, maxAltitude: real)
    requires minAltitude < maxAltitude && low.altitude <= high.altitude
    ensures BasePixel(low, 0.0, 0.0, minAltitude, maxAltitude).r <= BasePixel(high, 0.0, 0.0, minAltitude, maxAltitude).r
  {
    ScaledByteMonotone(low.altitude - minAltitude, high.altitude - minAltitude, maxAltitude - minAltitude);
  }

  /** The vector of a pixel not hit by a stream point. */
  function CellVector(cell: Cell): Vec3
  {
    Vec3(cell.longitude, cell.latitude, cell.altitude)
  }

  /** The pixel a stream point lands on: both coordinates truncated and clamped into the grid. */
  function StreamIndex(p: Vec3, w: int, h: int): (i: int)
    requires w > 0 && h > 0
    ensures 0 <= i < w * h
  {
    var x := ClampInt(TruncToInt(p.x), 0, w - 1);
    var y := ClampInt(TruncToInt(p.y), 0, h - 1);
    IndexInRange(x, y, w, h);
    Index(x, y, w)
  }

  /** The stream points in the order the overlay visits them: each season's list in the
      map's iteration order, and each list front to back. */
  function Flatten(streams: seq<seq<Vec3>>): seq<Vec3>
  {
    if |streams| == 0 then [] else Flatten(streams[..|streams| - 1]) + streams[|streams| - 1]
  }

  /** The last point of `pts` that lands on pixel `i`, if any. */
  function LastHit(pts: seq<Vec3>, w: int, h: int, i: int): (r: Option<Vec3>)
    requires w > 0 && h > 0
    ensures r.Some? ==> r.value in pts && StreamIndex(r.value, w, h) == i
  {
    if |pts| == 0 then None
    else if StreamIndex(pts[|pts| - 1], w, h) == i then Some(pts[|pts| - 1])
    else LastHit(pts[..|pts| - 1], w, h, i)
  }

  /** No point lands on pixel `i` exactly when there is no last point landing on it. */
  lemma {:induction false} LastHitNone(pts: seq<Vec3>, w: int, h: int, i: int)
    requires w > 0 && h > 0
    ensures LastHit(pts, w, h, i).None? <==> forall p :: p in pts ==> StreamIndex(p, w, h) != i
  {
    if |pts| > 0 {
      var init := pts[..|pts| - 1];
      LastHitNone(init, w, h, i);
      assert pts == init + [pts[|pts| - 1]];
    }
  }

  /** A point with no later point on the same pixel is the one `LastHit` finds, so a
      pixel ends with the last stream point that lands on it. */
  lemma {:induction false} LastHitIsLast(pts: seq<Vec3>, w: int, h: int, i: int, k: int)
    requires w > 0 && h > 0 && 0 <= k < |pts| && StreamIndex(pts[k], w, h) == i
    requires forall j :: k < j < |pts| ==> StreamIndex(pts[j], w, h) != i
    ensures LastHit(pts, w, h, i) == Some(pts[k])
  {
    if k < |pts| - 1 {
      LastHitIsLast(pts[..|pts| - 1], w, h, i, k);
    }
  }

  /** The colour of pixel `i` after the whole pass. */
  function FinalColor(data: seq<Cell>, flowDepth: seq<real>, maxFlowDepth: real, w: int, h: int,
                      minAltitude: real, maxAltitude: real, pts: seq<Vec3>, i: int): Color
    requires 0 <= i < |data| && i < |flowDepth|
  {
    if w > 0 && h > 0 && LastHit(pts, w, h, i).Some? then StreamBlue
    else BasePixel(data[i], flowDepth[i], maxFlowDepth, minAltitude, maxAltitude)
  }

  /** The vector of pixel `i` after the whole pass. */
  function FinalVector(data: seq<Cell>, w: int, h: int, pts: seq<Vec3>, i: int): Vec3
    requires 0 <= i < |data|
  {
    if w > 0 && h > 0 && LastHit(pts, w, h, i).Some? then LastHit(pts, w, h, i).value
    else CellVector(data[i])
  }

  predicate NoPoints(streams: seq<seq<Vec3>>)
  {
    forall s :: s in streams ==> |s| == 0
  }

  lemma {:induction false} NoPointsFlatten(streams: seq<seq<Vec3>>)
    requires NoPoints(streams)
    ensures Flatten(streams) == []
  {
    if |streams| > 0 {
      NoPointsFlatten(streams[..|streams| - 1]);
    }
  }

  /** `GenerateVisualizationTexture`. The output arrays are created afresh (the source
      re-initialises both), the colours are also returned. A stream point can only be
      placed on a grid with cells; the source indexes out of bounds otherwise. */
  method GenerateVisualizationTexture(streams: seq<seq<Vec3>>, data: seq<Cell>, flowDepth: seq<real>,
                                      maxFlowDepth: real, width: int, height: int,
                                      minAltitude: real, maxAltitude: real)
    returns (result: seq<Color>, colors: array<Color>, vectors: array<Vec3>)
    requires width >= 0 && height >= 0
    requires |data| >= width * height && |flowDepth| >= width * height
    requires (width > 0 && height > 0) || NoPoints(streams)
    ensures colors.Length == vectors.Length == width * height
    ensures result == colors[..]
    ensures forall i :: 0 <= i < width * height ==>
      colors[i] == FinalColor(data, flowDepth, maxFlowDepth, width, height, minAltitude, maxAltitude, Flatten(streams), i)
    ensures forall i :: 0 <= i < width * height ==>
      vectors[i] == FinalVector(data, width, height, Flatten(streams), i)
  {
    colors, vectors := BaseTexture(data, flowDepth, maxFlowDepth, width, height, minAltitude, maxAltitude);
    if !(width > 0 && height > 0) {
      NoPointsFlatten(streams);
      result := colors[..];
      return;
    }
    assert streams[..0] == [];
    var s := 0;
    while s < |streams|
      invariant 0 <= s <= |streams|
      invariant forall i :: 0 <= i < width * height ==>
        colors[i] == FinalColor(data, flowDepth, maxFlowDepth, width, height, minAltitude, maxAltitude, Flatten(streams[..s]), i)
      invariant forall i :: 0 <= i < width * height ==>
        vectors[i] == FinalVector(data, width, height, Flatten(streams[..s]), i)
    {
      OverlaySeason(streams[s], Flatten(streams[..s]), data, flowDepth, maxFlowDepth, width, height,
                    minAltitude, maxAltitude, colors, vectors);
      assert streams[..s + 1][..s] == streams[..s];
      s := s + 1;
    }
    assert streams[..s] == streams;
    result := colors[..];
  }

  /** The nested loops that give every pixel its base colour and vector. */
  method BaseTexture(data: seq<Cell>, flowDepth: seq<real>, maxFlowDepth: real, width: int, height: int,
                     minAltitude: real, maxAltitude: real)
    returns (colors: array<Color>, vectors: array<Vec3>)
    requires width >= 0 && height >= 0
    requires |data| >= width * height && |flowDepth| >= width * height
    ensures fresh(colors) && fresh(vectors)
    ensures colors.Length == vectors.Length == width * height
    ensures forall i :: 0 <= i < width * height ==>
      colors[i] == BasePixel(data[i], flowDepth[i], maxFlowDepth, minAltitude, maxAltitude)
    ensures forall i :: 0 <= i < width * height ==> vectors[i] == CellVector(data[i])
  {
    colors := new Color[width * height](_ => Black);
    vectors := new Vec3[width * height](_ => ZeroVec3);
    var y := 0;
    while y < height
      invariant 0 <= y <= height
      invariant Index(0, y, width) <= width * height
      invariant forall i :: 0 <= i < Index(0, y, width) ==>
        colors[i] == BasePixel(data[i], flowDepth[i], maxFlowDepth, minAltitude, maxAltitude)
      invariant forall i :: 0 <= i < Index(0, y, width) ==> vectors[i] == CellVector(data[i])
    {
      MulMono(width, y + 1, height);
      assert Index(width, y, width) == width * (y + 1);
      BaseRow(data, flowDepth, maxFlowDepth, width, height, minAltitude, maxAltitude, y, colors, vectors);
      assert Index(width, y, width) == Index(0, y + 1, width);
      y := y + 1;
    }
    assert Index(0, height, width) == width * height;
  }

  /** The inner loop of `BaseTexture`: row `y`, left to right. */
  method BaseRow(data: seq<Cell>, flowDepth: seq<real>, maxFlowDepth: real, width: int, height: int,
                 minAltitude: real, maxAltitude: real, y: int, colors: array<Color>, vectors: array<Vec3>)
    requires 0 <= y < height && width >= 0
    requires |data| >= width * height && |flowDepth| >= width * height
    requires colors.Length == vectors.Length == width * height
    requires Index(width, y, width) <= width * height
    requires forall i :: 0 <= i < Index(0, y, width) ==>
      colors[i] == BasePixel(data[i], flowDepth[i], maxFlowDepth, minAltitude, maxAltitude)
    requires forall i :: 0 <= i < Index(0, y, width) ==> vectors[i] == CellVector(data[i])
    modifies colors, vectors
    ensures forall i :: 0 <= i < Index(width, y, width) ==>
      colors[i] == BasePixel(data[i], flowDepth[i], maxFlowDepth, minAltitude, maxAltitude)
    ensures forall i :: 0 <= i < Index(width, y, width) ==> vectors[i] == CellVector(data[i])
  {
    var x := 0;
    while x < width
      invariant 0 <= x <= width
      invariant forall i :: 0 <= i < Index(x, y, width) ==>
        colors[i] == BasePixel(data[i], flowDepth[i], maxFlowDepth, minAltitude, maxAltitude)
      invariant forall i :: 0 <= i < Index(x, y, width) ==> vectors[i] == CellVector(data[i])
    {
      IndexInRange(x, y, width, height);
      var index := Index(x, y, width);
      colors[index] := BasePixel(data[index], flowDepth[index], maxFlowDepth, minAltitude, maxAltitude);
      vectors[index] := CellVector(data[index]);
      x := x + 1;
    }
  }

  /** The overlay of one season's stream points, front to back. */
  method OverlaySeason(points: seq<Vec3>, ghost before: seq<Vec3>, data: seq<Cell>, flowDepth: seq<real>,
                       maxFlowDepth: real, width: int, height: int, minAltitude: real, maxAltitude: real,
                       colors: array<Color>, vectors: array<Vec3>)
    requires width > 0 && height > 0
    requires |data| >= width * height && |flowDepth| >= width * height
    requires colors.Length == vectors.Length == width * height
    requires forall i :: 0 <= i < width * height ==>
      colors[i] == FinalColor(data, flowDepth, maxFlowDepth, width, height, minAltitude, maxAltitude, before, i)
    requires forall i :: 0 <= i < width * height ==> vectors[i] == FinalVector(data, width, height, before, i)
    modifies colors, vectors
    ensures forall i :: 0 <= i < width * height ==>
      colors[i] == FinalColor(data, flowDepth, maxFlowDepth, width, height, minAltitude, maxAltitude, before + points, i)
    ensures forall i :: 0 <= i < width * height ==> vectors[i] == FinalVector(data, width, height, before + points, i)
  {
    var t := 0;
    assert before + points[..0] == before;
    while t < |points|
      invariant 0 <= t <= |points|
      invariant forall i :: 0 <= i < width * height ==>
        colors[i] == FinalColor(data, flowDepth, maxFlowDepth, width, height, minAltitude, maxAltitude, before + points[..t], i)
      invariant forall i :: 0 <= i < width * height ==>
        vectors[i] == FinalVector(data, width, height, before + points[..t], i)
    {
      var p := points[t];
      var index := StreamIndex(p, width, height);
      assert before + points[..t + 1] == (before + points[..t]) + [p];
      FinalAfterPoint(data, flowDepth, maxFlowDepth, width, height, minAltitude, maxAltitude, before + points[..t], p);
      colors[index] := StreamBlue;
      vectors[index] := p;
      t := t + 1;
    }
    assert points[..t] == points;
  }

  /** One more stream point changes its own pixel to blue and to the point, and no other. */
  lemma FinalAfterPoint(data: seq<Cell>, flowDepth: seq<real>, maxFlowDepth: real, w: int, h: int,
                        minAltitude: real, maxAltitude: real, pts: seq<Vec3>, p: Vec3)
    requires w > 0 && h > 0 && |data| >= w * h && |flowDepth| >= w * h
    ensures forall i :: 0 <= i < w * h ==>
      FinalColor(data, flowDepth, maxFlowDepth, w, h, minAltitude, maxAltitude, pts + [p], i) ==
      if i == StreamIndex(p, w, h) then StreamBlue
      else FinalColor(data, flowDepth, maxFlowDepth, w, h, minAltitude, maxAltitude, pts, i)
    ensures forall i :: 0 <= i < w * h ==>
      FinalVector(data, w, h, pts + [p], i) == if i == StreamIndex(p, w, h) then p else FinalVector(data, w, h, pts, i)
  {
    var all := pts + [p];
    assert all[..|all| - 1] == pts && all[|all| - 1] == p;
  }

  /** Every stream point turns its pixel blue. */
  lemma StreamPointsAreBlue(data: seq<Cell>, flowDepth: seq<real>, maxFlowDepth: real, w: int, h: int,
                            minAltitude: real, maxAltitude: real, pts: seq<Vec3>, k: int)
    requires w > 0 && h > 0 && |data| >= w * h && |flowDepth| >= w * h && 0 <= k < |pts|
    ensures FinalColor(data, flowDepth, maxFlowDepth, w, h, minAltitude, maxAltitude, pts, StreamIndex(pts[k], w, h)) == StreamBlue
  {
    LastHitNone(pts, w, h, StreamIndex(pts[k], w, h));
  }

  /** A pixel that no stream point lands on keeps its base colour and the cell's vector. */
  lemma UnhitPixelsKeepBase(data: seq<Cell>, flowDepth: seq<real>, maxFlowDepth: real, w: int, h: int,
                            minAltitude: real, maxAltitude: real, pts: seq<Vec3>, i: int)
    requires w > 0 && h > 0 && 0 <= i < |data| && i < |flowDepth|
    requires forall p :: p in pts ==> StreamIndex(p, w, h) != i
    ensures FinalColor(data, flowDepth, maxFlowDepth, w, h, minAltitude, maxAltitude, pts, i) ==
            BasePixel(data[i], flowDepth[i], maxFlowDepth, minAltitude, maxAltitude)
    ensures FinalVector(data, w, h, pts, i) == CellVector(data[i])
  {
    LastHitNone(pts, w, h, i);
  }

  /** A pixel hit by a stream point carries one of the points that land on it. */
  lemma HitPixelsCarryAPoint(data: seq<Cell>, w: int, h: int, pts: seq<Vec3>, i: int)
    requires w > 0 && h > 0 && 0 <= i < |data|
    requires exists p :: p in pts && StreamIndex(p, w, h) == i
    ensures FinalVector(data, w, h, pts, i) in pts
    ensures StreamIndex(FinalVector(data, w, h, pts, i), w, h) == i
  {
    LastHitNone(pts, w, h, i);
  }
}
