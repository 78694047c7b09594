/** Surface temperature (`Temperature`): solar insolation from latitude and season, an
    altitude lapse rate, slope, wind and night-time cooling. The cosine is a parameter
    known only to lie in [-1, 1]. */
module Temperature {
  import opened Common

  const TempBaseEquator: real := 27.0
  const TroposphereTop: real := 11000.0
  const StratosphereRate: real := 0.003
  const WindCoolingFactor: real := 0.1

  /** `CalculateSlopeEffect`: steep slopes are 2 degrees colder, south-facing ones 1 warmer. */
  function CalculateSlopeEffect(slope: real, aspect: real): (r: real)
    ensures r == (if slope > 15.0 then -2.0 else 0.0) + (if 135.0 <= aspect <= 225.0 then 1.0 else 0.0)
    ensures r in {-2.0, -1.0, 0.0, 1.0}
  {
    var effect := if slope > 15.0 then 0.0 - 2.0 else 0.0;
    if aspect >= 135.0 && aspect <= 225.0 then effect + 1.0 else effect
  }

  /** The solar declination for a day of a year of `yearLength` days. */
  function Declination(dayOfYear: int, yearLength: real, cos: Cosine): (r: real)
    requires yearLength != 0.0
    ensures -23.5 <= r <= 23.5
  {
    23.5 * cos(2.0 * Pi * ((dayOfYear as real) / yearLength))
  }

  /** `FMath::Max(0, cos(...))`: insolation is never negative. */
  function SolarInsolation(latitude: real, declination: real, cos: Cosine): (r: real)
    ensures 0.0 <= r <= 1.0
  {
    Max(0.0, cos(DegreesToRadians(latitude - declination)))
  }

  /** The lapse rate in degrees per metre: smaller in humid air. */
  function LapseRate(humidity: real): (r: real)
    ensures humidity > 50.0 ==> r == 0.004
    ensures humidity <= 50.0 ==> r == 0.0065
  {
    if humidity > 50.0 then 4.0 / 1000.0 else 6.5 / 1000.0
  }

  /** The cooling with altitude: the lapse rate up to 11000 m, then a further 0.003 per
      metre (the source calls it warming, but it is subtracted). */
  function AltitudeCooling(lapseRate: real, altitude: real): (r: real)
    ensures altitude <= TroposphereTop ==> r == lapseRate * altitude
    ensures altitude >= TroposphereTop ==> r == lapseRate * TroposphereTop + StratosphereRate * (altitude - TroposphereTop)
    ensures lapseRate >= 0.0 && altitude >= TroposphereTop ==> r >= lapseRate * TroposphereTop
  {
    if altitude < TroposphereTop then lapseRate * altitude
    else lapseRate * TroposphereTop + StratosphereRate * (altitude - TroposphereTop)
  }

  /** The cooling is continuous at 11000 m and grows with altitude on both sides of it. */
  lemma AltitudeCoolingMonotone(lapseRate: real, a1: real, a2: real)
    requires lapseRate > 0.0 && a1 <= a2
    ensures AltitudeCooling(lapseRate, a1) <= AltitudeCooling(lapseRate, a2)
    ensures AltitudeCooling(lapseRate, TroposphereTop) == lapseRate * TroposphereTop
  {
    if a1 < TroposphereTop && a2 < TroposphereTop {
      MulMonoLeft(lapseRate, a1, a2);
    } else if a1 < TroposphereTop {
      MulMonoLeft(lapseRate, a1, TroposphereTop);
    }
  }

  lemma MulMonoLeft(k: real, a: real, b: real)
    requires k >= 0.0 && a <= b
    ensures k * a <= k * b
  {
    assert k * b - k * a == k * (b - a);
  }

  /** Night-time cooling: none in saturated air. */
  function NighttimeCooling(humidity: real): (r: real)
    ensures humidity == 100.0 ==> r == 0.0
    ensures humidity <= 100.0 ==> r >= 0.0
  {
    (1.0 - humidity / 100.0) * 5.0
  }

  /** `CalculateSurfaceTemperature`, with the year length read from the planet time. */
  function CalculateSurfaceTemperature(latitude: real, altitude: real, dayOfYear: int, humidity: real,
                                       yearLength: real, slope: real, aspect: real, windSpeed: real,
                                       cos: Cosine): (r: real)
    requires yearLength != 0.0
    ensures var base := TempBaseEquator * SolarInsolation(latitude, Declination(dayOfYear, yearLength, cos), cos);
      0.0 <= base <= 27.0 &&
      r == base - AltitudeCooling(LapseRate(humidity), altitude) + CalculateSlopeEffect(slope, aspect)
           - WindCoolingFactor * windSpeed - NighttimeCooling(humidity)
  {
    var declinationAngle := Declination(dayOfYear, yearLength, cos);
    var surfaceTemp := TempBaseEquator * SolarInsolation(latitude, declinationAngle, cos);
    var afterAltitude := surfaceTemp - AltitudeCooling(LapseRate(humidity), altitude);
    var afterSlope := afterAltitude + CalculateSlopeEffect(slope, aspect);
    var afterWind := afterSlope - windSpeed * 0.1;
    afterWind - NighttimeCooling(humidity)
  }

  /** Higher ground is never warmer, all else equal. */
  lemma ColderHigherUp(latitude: real, a1: real, a2: real, dayOfYear: int, humidity: real, yearLength: real,
                       slope: real, aspect: real, windSpeed: real, cos: Cosine)
    requires yearLength != 0.0 && a1 <= a2
    ensures CalculateSurfaceTemperature(latitude, a2, dayOfYear, humidity, yearLength, slope, aspect, windSpeed, cos) <=
            CalculateSurfaceTemperature(latitude, a1, dayOfYear, humidity, yearLength, slope, aspect, windSpeed, cos)
  {
    AltitudeCoolingMonotone(LapseRate(humidity), a1, a2);
  }

  /** Each unit of wind costs exactly 0.1 degrees. */
  lemma WindCoolsLinearly(latitude: real, altitude: real, dayOfYear: int, humidity: real, yearLength: real,
                          slope: real, aspect: real, w1: real, w2: real, cos: Cosine)
    requires yearLength != 0.0
    ensures CalculateSurfaceTemperature(latitude, altitude, dayOfYear, humidity, yearLength, slope, aspect, w2, cos) ==
            CalculateSurfaceTemperature(latitude, altitude, dayOfYear, humidity, yearLength, slope, aspect, w1, cos)
            - 0.1 * (w2 - w1)
  {
  }
}
