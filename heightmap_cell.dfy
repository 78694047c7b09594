/** The per-pixel record of a heightmap (`FHeightmapCell`) and its cell kinds. */
module HeightmapCell {
  import opened Common

  /** `ECellType`. */
  datatype CellType = Land | Ocean | Lake | River

  /** `FHeightmapCell`. Field order follows the declaration. `closestOceanCurrentType`
      is declared `float` but initialised with the text "Warm"; it is kept as text. */
  datatype Cell = Cell(
    albedo: real,
    altitude: real,
    annualPrecipitation: real,
    aspect: real,
    biomeType: string,
    biomeColor: Color,
    cellType: CellType,
    closestOceanTemperature: real,
    closestOceanCurrentType: string,
    distanceToOcean: real,
    flowDirection: string,
    isWindOnshore: bool,
    latitude: real,
    longitude: real,
    oceanDepth: real,
    oceanToLandVector: Vec2,
    slope: real,
    temperature: real,
    windDirection: Vec2)

  /** The default constructor's field values. `FMath::Max(0, 0)` and
      `FMath::Max(0, FLT_MAX)` in the initialiser list are evaluated here. */
  function DefaultCell(): (c: Cell)
    ensures c.cellType == Land
    ensures c.biomeType == "Ocean" && c.biomeColor == Black
    ensures c.distanceToOcean == FLT_MAX
    ensures c.flowDirection == "Clockwise" && !c.isWindOnshore
    ensures c.closestOceanCurrentType == "Warm"
    ensures c.albedo == 0.0 && c.altitude == 0.0 && c.annualPrecipitation == 0.0
    ensures c.aspect == 0.0 && c.closestOceanTemperature == 0.0
    ensures c.latitude == 0.0 && c.longitude == 0.0 && c.oceanDepth == 0.0
    ensures c.slope == 0.0 && c.temperature == 0.0
    ensures c.oceanToLandVector == ZeroVec2 && c.windDirection == ZeroVec2
  {
    Cell(
      albedo := 0.0,
      altitude := 0.0,
      annualPrecipitation := Max(0.0, 0.0),
      aspect := 0.0,
      biomeType := "Ocean",
      biomeColor := Black,
      cellType := Land,
      closestOceanTemperature := 0.0,
      closestOceanCurrentType := "Warm",
      distanceToOcean := Max(0.0, FLT_MAX),
      flowDirection := "Clockwise",
      isWindOnshore := false,
      latitude := 0.0,
      longitude := 0.0,
      oceanDepth := Max(0.0, 0.0),
      oceanToLandVector := ZeroVec2,
      slope := 0.0,
      temperature := 0.0,
      windDirection := ZeroVec2)
  }

  /** `ECellType` has exactly four variants. */
  lemma CellTypeVariants(t: CellType)
    ensures t == Land || t == Ocean || t == Lake || t == River
  {
  }
}
