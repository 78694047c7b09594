/** Surface albedo (`Albedo`): a base value by latitude, a snow or vegetation
    adjustment, and a clamp, written into every cell in place. */
module Albedo {
  import opened Common
  import opened HeightmapCell

  const MinAlbedo: real := 0.05
  const MaxAlbedo: real := 0.80

  /** `CalculateAlbedo` on the signed latitude: every southern latitude is below 30. */
  function CalculateAlbedo(latitude: real): (r: real)
    ensures r == 0.15 || r == 0.25 || r == 0.60
    ensures latitude < 30.0 <==> r == 0.15
    ensures 30.0 <= latitude < 60.0 <==> r == 0.25
  {
    if latitude < 30.0 then 0.15 else if latitude < 60.0 then 0.25 else 0.60
  }

  /** The base albedo never falls as the latitude grows. */
  lemma AlbedoGrowsWithLatitude(a: real, b: real)
    requires a <= b
    ensures CalculateAlbedo(a) <= CalculateAlbedo(b)
  {
  }

  /** `AdjustAlbedoForSnow`: below freezing the surface is 0.2 brighter. */
  function AdjustAlbedoForSnow(albedo: real, temperature: real): (r: real)
    ensures temperature < 0.0 <==> r == albedo + 0.2
    ensures temperature >= 0.0 ==> r == albedo
  {
    if temperature < 0.0 then albedo + 0.2 else albedo
  }

  /** `AdjustAlbedoForPrecipitation`: dense vegetation darkens, sparse brightens. */
  function AdjustAlbedoForPrecipitation(albedo: real, precipitation: real): (r: real)
    ensures precipitation > 1000.0 ==> r == albedo - 0.1
    ensures precipitation < 250.0 ==> r == albedo + 0.1
    ensures 250.0 <= precipitation <= 1000.0 ==> r == albedo
  {
    if precipitation > 1000.0 then albedo - 0.1 else if precipitation < 250.0 then albedo + 0.1 else albedo
  }

  /** One cell after `CalculateDynamicAlbedo`: only its albedo changes, to a value within
      [0.05, 0.80]. */
  function DynamicAlbedo(cell: Cell): (c: Cell)
    ensures c == cell.(albedo := c.albedo)
    ensures MinAlbedo <= c.albedo <= MaxAlbedo
  {
    var albedo :=
      if cell.distanceToOcean > 0.0 then
        var base := CalculateAlbedo(cell.latitude);
        if cell.temperature < 0.0 then AdjustAlbedoForSnow(base, cell.temperature)
        else AdjustAlbedoForPrecipitation(base, cell.annualPrecipitation)
      else cell.albedo;
    cell.(albedo := Clamp(albedo, MinAlbedo, MaxAlbedo))
  }

  /** Cells at or below the coast only have their existing albedo clamped. */
  lemma CoastKeepsClampedAlbedo(cell: Cell)
    requires cell.distanceToOcean <= 0.0
    ensures DynamicAlbedo(cell).albedo == Clamp(cell.albedo, MinAlbedo, MaxAlbedo)
    ensures MinAlbedo <= cell.albedo <= MaxAlbedo ==> DynamicAlbedo(cell) == cell
  {
  }

  /** Inland, exactly one adjustment applies: snow when freezing, vegetation otherwise,
      and the result is recomputed from the latitude alone, not the old albedo. */
  lemma InlandTakesOneAdjustment(cell: Cell)
    requires cell.distanceToOcean > 0.0
    ensures cell.temperature < 0.0 ==>
      DynamicAlbedo(cell).albedo == Clamp(CalculateAlbedo(cell.latitude) + 0.2, MinAlbedo, MaxAlbedo)
    ensures cell.temperature >= 0.0 ==>
      DynamicAlbedo(cell).albedo ==
        Clamp(AdjustAlbedoForPrecipitation(CalculateAlbedo(cell.latitude), cell.annualPrecipitation), MinAlbedo, MaxAlbedo)
    ensures forall a :: DynamicAlbedo(cell.(albedo := a)) == DynamicAlbedo(cell).(albedo := DynamicAlbedo(cell.(albedo := a)).albedo)
    ensures forall a :: DynamicAlbedo(cell.(albedo := a)).albedo == DynamicAlbedo(cell).albedo
  {
  }

  /** `CalculateDynamicAlbedo` (its parallel loop run in order): every cell replaced by
      `DynamicAlbedo` of itself. */
  method CalculateDynamicAlbedo(heightmapData: array<Cell>)
    modifies heightmapData
    ensures forall i :: 0 <= i < heightmapData.Length ==> heightmapData[i] == DynamicAlbedo(old(heightmapData[i]))
  {
    var i := 0;
    while i < heightmapData.Length
      invariant 0 <= i <= heightmapData.Length
      invariant forall j :: 0 <= j < i ==> heightmapData[j] == DynamicAlbedo(old(heightmapData[j]))
      invariant forall j :: i <= j < heightmapData.Length ==> heightmapData[j] == old(heightmapData[j])
    {
      var cell := heightmapData[i];
      if cell.distanceToOcean > 0.0 {
        cell := cell.(albedo := CalculateAlbedo(cell.latitude));
        if cell.temperature < 0.0 {
          cell := cell.(albedo := AdjustAlbedoForSnow(cell.albedo, cell.temperature));
        } else {
          cell := cell.(albedo := AdjustAlbedoForPrecipitation(cell.albedo, cell.annualPrecipitation));
        }
      }
      cell := cell.(albedo := Clamp(cell.albedo, 0.05, 0.80));
      heightmapData[i] := cell;
      i := i + 1;
    }
  }
}
