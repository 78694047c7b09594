/** The coastal temperature adjustment (`OceanTemperature`), driven by the current type. */
module OceanTemperature {
  import opened OceanCurrents

  const OceanTempEffectWarm: real := 5.0
  const OceanTempEffectCold: real := -5.0

  /** The size of the coastal effect at a distance: 5 / (d/1000 + 1). */
  function CoastalEffect(distanceToOcean: real): (r: real)
    requires distanceToOcean != -1000.0
    ensures distanceToOcean == 0.0 ==> r == 5.0
  {
    OceanTempEffectWarm / (distanceToOcean / 1000.0 + 1.0)
  }

  /** The effect is positive exactly where its denominator d/1000 + 1 is, that is for d > -1000. */
  lemma CoastalEffectSign(d: real)
    requires d != -1000.0
    ensures CoastalEffect(d) > 0.0 <==> d > -1000.0
  {
    QuotientSign(CoastalEffect(d), OceanTempEffectWarm, d / 1000.0 + 1.0);
  }

  /** A positive number over a nonzero one has the divisor's sign. */
  lemma QuotientSign(q: real, a: real, x: real)
    requires a > 0.0 && x != 0.0 && q == a / x
    ensures q > 0.0 <==> x > 0.0
  {
    assert q * x == a;
    if x > 0.0 {
      assert q > 0.0;
    } else {
      assert q < 0.0;
    }
  }

  /** `CalculateOceanTemp`: a warm current adds the coastal effect and a cold one takes
      it away; the "no change" path of the source is never taken. */
  function CalculateOceanTemp(temperature: real, distanceToOcean: real, latitude: real, longitude: real,
                              flowDirection: string): (r: real)
    requires distanceToOcean != -1000.0
    ensures DetermineOceanCurrentType(latitude, longitude, flowDirection) == "warm" ==>
      r == temperature + CoastalEffect(distanceToOcean)
    ensures DetermineOceanCurrentType(latitude, longitude, flowDirection) == "cold" ==>
      r == temperature - CoastalEffect(distanceToOcean)
  {
    var currentType := DetermineOceanCurrentType(latitude, longitude, flowDirection);
    if currentType == "warm" then temperature + OceanTempEffectWarm / ((distanceToOcean / 1000.0) + 1.0)
    else if currentType == "cold" then temperature + OceanTempEffectCold / ((distanceToOcean / 1000.0) + 1.0)
    else temperature
  }

  /** On land (d >= 0) the effect lies in (0, 5], is exactly 5 at the coast, and fades
      strictly with distance. */
  lemma CoastalEffectBounds(d: real)
    requires d >= 0.0
    ensures 0.0 < CoastalEffect(d) <= 5.0
    ensures d == 0.0 ==> CoastalEffect(d) == 5.0
  {
    var q := d / 1000.0 + 1.0;
    assert q >= 1.0;
    assert CoastalEffect(d) * q == 5.0;
  }

  lemma CoastalEffectFades(d1: real, d2: real)
    requires 0.0 <= d1 < d2
    ensures CoastalEffect(d2) < CoastalEffect(d1)
  {
    var q1 := d1 / 1000.0 + 1.0;
    var q2 := d2 / 1000.0 + 1.0;
    assert 1.0 <= q1 < q2;
    var e1 := CoastalEffect(d1);
    var e2 := CoastalEffect(d2);
    assert e1 * q1 == 5.0 && e2 * q2 == 5.0;
    CoastalEffectBounds(d1);
    CoastalEffectBounds(d2);
    assert e2 * q1 < e2 * q2;
  }

  /** With a positive denominator the temperature rises exactly when the longitude is
      non-negative and the latitude within 40 degrees of the equator, and it never stays
      the same. */
  lemma OceanTempRisesIff(temperature: real, d: real, latitude: real, longitude: real, flowDirection: string)
    requires d > -1000.0
    ensures CalculateOceanTemp(temperature, d, latitude, longitude, flowDirection) > temperature <==>
            longitude >= 0.0 && -40.0 < latitude < 40.0
    ensures CalculateOceanTemp(temperature, d, latitude, longitude, flowDirection) != temperature
  {
    var q := d / 1000.0 + 1.0;
    assert q > 0.0;
    assert CoastalEffect(d) * q == 5.0;
    assert CoastalEffect(d) > 0.0;
  }
}
