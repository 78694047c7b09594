/** Gyre direction and current type (`OceanCurrents`). */
module OceanCurrents {

  const Clockwise: string := "Clockwise"
  const Counterclockwise: string := "Counterclockwise"

  /** `ValidateFlowDirection`: the gyre direction from the hemisphere and the sign of the
      longitude. Latitude 0 counts as northern. The given direction is not consulted. */
  function ValidateFlowDirection(latitude: real, longitude: real, flowDirection: string): (r: string)
    ensures r == Clockwise || r == Counterclockwise
    ensures latitude >= 0.0 ==> (r == Clockwise <==> longitude >= 0.0)
    ensures latitude < 0.0 ==> (r == Counterclockwise <==> longitude >= 0.0)
  {
    if latitude >= 0.0 then (if longitude >= 0.0 then Clockwise else Counterclockwise)
    else (if longitude >= 0.0 then Counterclockwise else Clockwise)
  }

  /** The result does not depend on the direction passed in. */
  lemma FlowDirectionIgnored(latitude: real, longitude: real, a: string, b: string)
    ensures ValidateFlowDirection(latitude, longitude, a) == ValidateFlowDirection(latitude, longitude, b)
  {
  }

  /** `DetermineOceanCurrentType`: "warm" exactly when the corrected gyre runs the
      hemisphere's warm way and the latitude is within 40 degrees of the equator. */
  function DetermineOceanCurrentType(latitude: real, longitude: real, flowDirection: string): (r: string)
    ensures r == "warm" || r == "cold"
    ensures r == "warm" <==> longitude >= 0.0 && -40.0 < latitude < 40.0
  {
    var direction := ValidateFlowDirection(latitude, longitude, flowDirection);
    if latitude >= 0.0 then
      if direction == Clockwise then (if latitude < 40.0 then "warm" else "cold") else "cold"
    else
      if direction == Counterclockwise then (if latitude > -40.0 then "warm" else "cold") else "cold"
  }
}
