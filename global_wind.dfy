/** Prevailing wind by latitude band (`GlobalWind`). */
module GlobalWind {
  import opened Common

  const Westward: Vec2 := Vec2(-1.0, 0.0)
  const Eastward: Vec2 := Vec2(1.0, 0.0)

  /** `CalculateWindDirection`: trade winds up to 30 degrees, westerlies up to 60, polar
      easterlies up to 90, and no wind beyond. */
  function CalculateWindDirection(latitude: real): (r: Vec2)
    ensures Abs(latitude) <= 30.0 ==> r == Westward
    ensures 30.0 < Abs(latitude) <= 60.0 ==> r == Eastward
    ensures 60.0 < Abs(latitude) <= 90.0 ==> r == Westward
    ensures Abs(latitude) > 90.0 ==> r == ZeroVec2
  {
    if latitude >= -30.0 && latitude <= 30.0 then Vec2(-1.0, 0.0)
    else if (latitude > 30.0 && latitude <= 60.0) || (latitude < -30.0 && latitude >= -60.0) then Vec2(1.0, 0.0)
    else if (latitude > 60.0 && latitude <= 90.0) || (latitude < -60.0 && latitude >= -90.0) then Vec2(-1.0, 0.0)
    else Vec2(0.0, 0.0)
  }

  /** The two hemispheres mirror each other. */
  lemma WindIsSymmetric(latitude: real)
    ensures CalculateWindDirection(latitude) == CalculateWindDirection(-latitude)
  {
    assert Abs(latitude) == Abs(-latitude);
  }

  /** Every wind is east-west with unit or zero strength. */
  lemma WindIsZonal(latitude: real)
    ensures CalculateWindDirection(latitude).y == 0.0
    ensures CalculateWindDirection(latitude).x in {-1.0, 0.0, 1.0}
  {
  }
}
