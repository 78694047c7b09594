/** The onshore test and the wind-driven weather adjustment (`WindUtils`). */
module WindUtils {
  import opened Common

  /** `SMALL_NUMBER`, the tolerance of `GetSafeNormal`. */
  const SmallNumber: real := 0.00000001

  /** An inverse square root, known only to be positive on positive arguments. */
  type InvSqrt = f: real -> real | forall x :: x > 0.0 ==> f(x) > 0.0 witness (x: real) => 1.0

  function SquaredLength(v: Vec2): real
  {
    v.x * v.x + v.y * v.y
  }

  /** `FVector2D::GetSafeNormal`: the vector scaled by the inverse of its length, or the
      zero vector when its squared length is within the tolerance. */
  function GetSafeNormal(v: Vec2, invSqrt: InvSqrt): (r: Vec2)
    ensures SquaredLength(v) <= SmallNumber ==> r == ZeroVec2
    ensures SquaredLength(v) > SmallNumber ==> r.x * v.y == r.y * v.x && Dot(r, v) > 0.0
  {
    var squareSum := SquaredLength(v);
    if squareSum > SmallNumber then
      var s := invSqrt(squareSum);
      PositiveProduct(s, squareSum);
      assert Dot(Vec2(v.x * s, v.y * s), v) == s * squareSum;
      Vec2(v.x * s, v.y * s)
    else ZeroVec2
  }

  /** `IsOnshoreWind`: the normalised wind points towards land. A vector within the
      tolerance normalises to zero, so it is never onshore. */
  function IsOnshoreWind(windDirection: Vec2, oceanToLandVector: Vec2, invSqrt: InvSqrt): (r: bool)
    ensures SquaredLength(windDirection) <= SmallNumber || SquaredLength(oceanToLandVector) <= SmallNumber ==> !r
  {
    Dot(GetSafeNormal(windDirection, invSqrt), GetSafeNormal(oceanToLandVector, invSqrt)) > 0.0
  }

  lemma ScaledDot(a: Vec2, b: Vec2, s: real, t: real)
    ensures Dot(Vec2(a.x * s, a.y * s), Vec2(b.x * t, b.y * t)) == (s * t) * Dot(a, b)
  {
  }

  lemma PositiveFactor(k: real, d: real)
    requires k > 0.0
    ensures k * d > 0.0 <==> d > 0.0
  {
    if d <= 0.0 {
      assert k * d <= 0.0;
    }
  }

  /** Normalising only scales by positive factors, so the test is the sign of the raw dot
      product, whatever the square root gives, once both vectors are longer than the
      tolerance; a vector within the tolerance, the zero vector among them, is never
      onshore. */
  lemma OnshoreIff(windDirection: Vec2, oceanToLandVector: Vec2, invSqrt: InvSqrt)
    ensures IsOnshoreWind(windDirection, oceanToLandVector, invSqrt) <==>
      SquaredLength(windDirection) > SmallNumber && SquaredLength(oceanToLandVector) > SmallNumber &&
      Dot(windDirection, oceanToLandVector) > 0.0
  {
    var sw := SquaredLength(windDirection);
    var so := SquaredLength(oceanToLandVector);
    var nw := GetSafeNormal(windDirection, invSqrt);
    var no := GetSafeNormal(oceanToLandVector, invSqrt);
    if sw > SmallNumber && so > SmallNumber {
      LongVectorsOnshore(windDirection, oceanToLandVector, invSqrt);
    } else if sw <= SmallNumber {
      assert nw == ZeroVec2;
      assert Dot(nw, no) == 0.0;
    } else {
      assert no == ZeroVec2;
      assert Dot(nw, no) == 0.0;
    }
  }

  lemma PositiveProduct(s: real, t: real)
    requires s > 0.0 && t > 0.0
    ensures s * t > 0.0
  {
  }

  /** A vector beyond the tolerance is scaled by the inverse square root of its squared length. */
  lemma LongNormal(v: Vec2, invSqrt: InvSqrt, s: real)
    requires SquaredLength(v) > SmallNumber && s == invSqrt(SquaredLength(v))
    ensures s > 0.0 && GetSafeNormal(v, invSqrt) == Vec2(v.x * s, v.y * s)
  {
  }

  /** Both vectors beyond the tolerance: the normalised dot product has the sign of the raw one. */
  lemma LongVectorsOnshore(windDirection: Vec2, oceanToLandVector: Vec2, invSqrt: InvSqrt)
    requires SquaredLength(windDirection) > SmallNumber && SquaredLength(oceanToLandVector) > SmallNumber
    ensures IsOnshoreWind(windDirection, oceanToLandVector, invSqrt) <==> Dot(windDirection, oceanToLandVector) > 0.0
  {
    var s := invSqrt(SquaredLength(windDirection));
    var t := invSqrt(SquaredLength(oceanToLandVector));
    LongNormal(windDirection, invSqrt, s);
    LongNormal(oceanToLandVector, invSqrt, t);
    ScaledDotSign(windDirection, oceanToLandVector, s, t);
  }

  /** Scaling both vectors by positive factors keeps the sign of their dot product. */
  lemma ScaledDotSign(a: Vec2, b: Vec2, s: real, t: real)
    requires s > 0.0 && t > 0.0
    ensures Dot(Vec2(a.x * s, a.y * s), Vec2(b.x * t, b.y * t)) > 0.0 <==> Dot(a, b) > 0.0
  {
    ScaledDot(a, b, s, t);
    PositiveProduct(s, t);
    PositiveFactor(s * t, Dot(a, b));
  }

  lemma ZeroVectorIsNotOnshore(v: Vec2, invSqrt: InvSqrt)
    ensures !IsOnshoreWind(ZeroVec2, v, invSqrt) && !IsOnshoreWind(v, ZeroVec2, invSqrt)
  {
    OnshoreIff(ZeroVec2, v, invSqrt);
    OnshoreIff(v, ZeroVec2, invSqrt);
  }

  /** `AdjustWeatherFactors`, whose precipitation and temperature are passed by reference:
      onshore wind near the coast wets and warms, offshore wind far inland dries and
      cools, and everything else leaves both unchanged. */
  method AdjustWeatherFactors(isOnshore: bool, windStrength: real, precipitation: real, temperature: real,
                              distanceToOcean: real)
    returns (newPrecipitation: real, newTemperature: real)
    ensures isOnshore && distanceToOcean < 150000.0 ==>
      newPrecipitation == precipitation * (1.0 + 0.9 * windStrength) && newTemperature == temperature + windStrength
    ensures !isOnshore && distanceToOcean > 50000.0 ==>
      newPrecipitation == 0.7 * precipitation && newTemperature == temperature - 1.5 * windStrength
    ensures !(isOnshore && distanceToOcean < 150000.0) && !(!isOnshore && distanceToOcean > 50000.0) ==>
      newPrecipitation == precipitation && newTemperature == temperature
    ensures windStrength >= 0.0 && precipitation >= 0.0 ==>
      (isOnshore ==> newPrecipitation >= precipitation) && (!isOnshore ==> newPrecipitation <= precipitation)
  {
    newPrecipitation, newTemperature := precipitation, temperature;
    if isOnshore && distanceToOcean < 150000.0 {
      newPrecipitation := newPrecipitation * (1.0 + (0.9 * windStrength));
      newTemperature := newTemperature + 1.0 * windStrength;
      assert newPrecipitation == precipitation + precipitation * (0.9 * windStrength);
    } else if !isOnshore && distanceToOcean > 50000.0 {
      newPrecipitation := newPrecipitation * 0.7;
      newTemperature := newTemperature - 1.5 * windStrength;
    }
  }
}
