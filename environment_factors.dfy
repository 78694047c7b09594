/** The simpler climate formulas of `EnvironmentFactors`: temperature from latitude and
    altitude, and precipitation from the same three factors as `Precipitation` without
    the humidity scaling. */
module EnvironmentFactors {
  import opened Common
  import Precipitation

  const TempBaseEquator: real := 30.0
  const TempDropPerMetre: real := 6.5 / 1000.0

  /** `CalculateTemperature`. */
  function CalculateTemperature(latitude: real, altitude: real, cos: Cosine): (r: real)
    ensures -30.0 - TempDropPerMetre * altitude <= r <= 30.0 - TempDropPerMetre * altitude
  {
    var angleRatio := cos(DegreesToRadians(latitude));
    var surfaceTemp := TempBaseEquator * angleRatio;
    surfaceTemp - (TempDropPerMetre * altitude)
  }

  /** At a fixed latitude every 1000 m costs 6.5 degrees. */
  lemma TemperatureDropsPerKilometre(latitude: real, altitude: real, cos: Cosine)
    ensures CalculateTemperature(latitude, altitude + 1000.0, cos) == CalculateTemperature(latitude, altitude, cos) - 6.5
  {
  }

  /** At the equator at sea level the temperature is 30 degrees, for a cosine with
      cos 0 = 1. */
  lemma EquatorAtSeaLevel(cos: Cosine)
    requires cos(0.0) == 1.0
    ensures CalculateTemperature(0.0, 0.0, cos) == 30.0
  {
    assert DegreesToRadians(0.0) == 0.0;
  }

  /** `CalculatePrecipitation`: never negative, and the sum of `Precipitation`'s latitude,
      ocean and altitude factors. */
  function CalculatePrecipitation(latitude: real, altitude: real, proximityToOcean: real, cos: Cosine): (r: real)
    ensures r >= 0.0
    ensures r == Max(Precipitation.LatitudeFactor(latitude, cos) + Precipitation.OceanFactor(proximityToOcean) +
                     Precipitation.AltitudeFactor(altitude), 0.0)
  {
    var latitudeFactor := 2000.0 * Clamp(cos(DegreesToRadians(latitude)), 0.0, 1.0);
    var oceanFactor := Max(200.0 - (proximityToOcean * 0.002), -100.0);
    var altitudeFactor := if altitude < 2000.0 then 0.2 * altitude else -5.0 * (altitude - 2000.0) / 1000.0;
    Max(latitudeFactor + oceanFactor + altitudeFactor, 0.0)
  }

  /** The two precipitation formulas agree at 100% relative humidity. */
  lemma AgreesAtFullHumidity(latitude: real, altitude: real, distanceToOcean: real, cos: Cosine)
    ensures CalculatePrecipitation(latitude, altitude, distanceToOcean, cos) ==
            Precipitation.CalculatePrecipitation(latitude, altitude, distanceToOcean, 100.0, cos)
  {
    assert Precipitation.HumidityFactor(100.0) == 1.0;
  }
}
