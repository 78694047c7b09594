/** Annual precipitation (`Precipitation`): latitude, ocean proximity and altitude
    factors, scaled by relative humidity and floored at 0. The cosine is a parameter. */
module Precipitation {
  import opened Common

  /** 2000 times the cosine of the latitude, clamped to [0, 1]. */
  function LatitudeFactor(latitude: real, cos: Cosine): (r: real)
    ensures 0.0 <= r <= 2000.0
  {
    2000.0 * Clamp(cos(DegreesToRadians(latitude)), 0.0, 1.0)
  }

  /** Falls by 2 per kilometre from the ocean, never below -100. */
  function OceanFactor(distanceToOcean: real): (r: real)
    ensures r >= -100.0
    ensures r == -100.0 || r == 200.0 - distanceToOcean * 0.002
  {
    Max(200.0 - (distanceToOcean * 0.002), -100.0)
  }

  /** Rises by 0.2 per metre below 2000 m and falls by 5 per kilometre above. */
  function AltitudeFactor(altitude: real): (r: real)
    ensures r < 400.0
    ensures 0.0 <= altitude < 2000.0 ==> 0.0 <= r
    ensures altitude >= 2000.0 ==> r <= 0.0
  {
    if altitude < 2000.0 then 0.2 * altitude else -5.0 * (altitude - 2000.0) / 1000.0
  }

  /** The factor climbs towards 400 below 2000 m, drops to 0 at 2000 m, and falls from there. */
  lemma AltitudeFactorShape(a1: real, a2: real)
    requires a1 < a2
    ensures a2 < 2000.0 ==> AltitudeFactor(a1) < AltitudeFactor(a2) < 400.0
    ensures 2000.0 <= a1 ==> AltitudeFactor(a2) < AltitudeFactor(a1) <= 0.0
    ensures AltitudeFactor(2000.0) == 0.0
  {
  }

  /** Relative humidity over 100, clamped to [0, 2]. */
  function HumidityFactor(relativeHumidity: real): (r: real)
    ensures 0.0 <= r <= 2.0
    ensures relativeHumidity <= 0.0 ==> r == 0.0
    ensures 0.0 <= relativeHumidity <= 200.0 ==> r == relativeHumidity / 100.0
  {
    Clamp(relativeHumidity / 100.0, 0.0, 2.0)
  }

  /** `CalculatePrecipitation`: never negative, and at most twice the unscaled sum of
      the factors, since humidity at most doubles it. */
  function CalculatePrecipitation(latitude: real, altitude: real, distanceToOcean: real, relativeHumidity: real,
                                  cos: Cosine): (r: real)
    ensures r >= 0.0
    ensures r <= 2.0 * Max(LatitudeFactor(latitude, cos) + OceanFactor(distanceToOcean) + AltitudeFactor(altitude), 0.0)
  {
    var sum := LatitudeFactor(latitude, cos) + OceanFactor(distanceToOcean) + AltitudeFactor(altitude);
    var humidityFactor := HumidityFactor(relativeHumidity);
    ScaleAtMostDouble(sum, humidityFactor);
    Max(sum * humidityFactor, 0.0)
  }

  lemma ScaleAtMostDouble(x: real, k: real)
    requires 0.0 <= k <= 2.0
    ensures x * k <= 2.0 * Max(x, 0.0)
  {
    if x >= 0.0 {
      assert 2.0 * x - x * k == x * (2.0 - k);
    } else {
      assert x * k == -((-x) * k);
    }
  }

  /** Dry air gives no precipitation at all. */
  lemma DryAirGivesNothing(latitude: real, altitude: real, distanceToOcean: real, relativeHumidity: real, cos: Cosine)
    requires relativeHumidity <= 0.0
    ensures CalculatePrecipitation(latitude, altitude, distanceToOcean, relativeHumidity, cos) == 0.0
  {
  }
}
