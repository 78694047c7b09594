/** The byte-to-altitude map and the ocean depth (Private/Altitude.cpp). */
module Altitude {
  import opened Common

  /** `CalculateAltitude`: a linear map of the pixel value 0..255 onto
      [MinAltitude, MaxAltitude]. */
  function CalculateAltitude(pixelValue: byte, minAltitude: real, maxAltitude: real): (r: real)
    ensures pixelValue == 0 ==> r == minAltitude
    ensures pixelValue == 255 ==> r == maxAltitude
    ensures minAltitude <= maxAltitude ==> minAltitude <= r <= maxAltitude
  {
    var t := pixelValue as real / 255.0;
    assert 0.0 <= t <= 1.0;
    ScaleWithin(t, maxAltitude - minAltitude);
    minAltitude + t * (maxAltitude - minAltitude)
  }

  lemma ScaleWithin(t: real, span: real)
    requires 0.0 <= t <= 1.0
    ensures span >= 0.0 ==> 0.0 <= t * span <= span
  {
    if span >= 0.0 {
      assert span - t * span == (1.0 - t) * span;
    }
  }

  /** With MinAltitude <= MaxAltitude a brighter pixel is never lower. */
  lemma AltitudeMonotone(p: byte, q: byte, minAltitude: real, maxAltitude: real)
    requires p <= q && minAltitude <= maxAltitude
    ensures CalculateAltitude(p, minAltitude, maxAltitude) <= CalculateAltitude(q, minAltitude, maxAltitude)
  {
    var span := maxAltitude - minAltitude;
    assert (q as real / 255.0) * span - (p as real / 255.0) * span == ((q - p) as real / 255.0) * span;
  }

  /** `CalculateOceanDepth`: sea level minus altitude. It is positive below sea level,
      although the declaration's comment (Public/Altitude.h:18) calls it negative there,
      and it is 0 exactly at sea level. */
  function CalculateOceanDepth(seaLevel: real, rawAltitude: real): (r: real)
    ensures r > 0.0 <==> rawAltitude < seaLevel
    ensures r == 0.0 <==> rawAltitude == seaLevel
    ensures r < 0.0 <==> rawAltitude > seaLevel
  {
    seaLevel - rawAltitude
  }
}
