/** Monsoon-like seasonal reversal in the tropics (`SeasonalWinds`). */
module SeasonalWinds {
  import opened Common
  import GlobalWind

  const PreMonsoon: Vec2 := Vec2(0.7, -0.7)
  const PostMonsoon: Vec2 := Vec2(-0.7, 0.7)

  predicate Tropical(latitude: real)
  {
    -30.0 <= latitude <= 30.0
  }

  /** `CalculateSeasonalWindDirection`: in the tropics the first half of the year blows one
      way and the second half the opposite way; elsewhere the global band wind applies. */
  function CalculateSeasonalWindDirection(latitude: real, timeOfYear: real): (r: Vec2)
    ensures Tropical(latitude) && timeOfYear < 0.5 ==> r == PreMonsoon
    ensures Tropical(latitude) && timeOfYear >= 0.5 ==> r == PostMonsoon
    ensures !Tropical(latitude) ==> r == GlobalWind.CalculateWindDirection(latitude)
  {
    if latitude >= -30.0 && latitude <= 30.0 then
      if timeOfYear < 0.5 then Vec2(0.7, -0.7) else Vec2(-0.7, 0.7)
    else GlobalWind.CalculateWindDirection(latitude)
  }

  /** The two tropical winds are opposite vectors. */
  lemma MonsoonReverses(latitude: real, early: real, late: real)
    requires Tropical(latitude) && early < 0.5 <= late
    ensures CalculateSeasonalWindDirection(latitude, late).x == -CalculateSeasonalWindDirection(latitude, early).x
    ensures CalculateSeasonalWindDirection(latitude, late).y == -CalculateSeasonalWindDirection(latitude, early).y
  {
  }

  /** Outside the tropics the time of year makes no difference. */
  lemma ExtratropicalIgnoresSeason(latitude: real, t1: real, t2: real)
    requires !Tropical(latitude)
    ensures CalculateSeasonalWindDirection(latitude, t1) == CalculateSeasonalWindDirection(latitude, t2)
  {
  }
}
