# BiomeMapper core, modelled in Dafny

BiomeMapper is an Unreal Engine editor plugin. It turns a greyscale heightmap into a
grid of `FHeightmapCell` records, then augments them:

- the distance of each cell to the ocean;
- D-infinity flow directions, flow accumulation and flow depth;
- climate values: ocean currents and temperature, winds, albedo, temperature and
  precipitation;
- a biome for each land cell, chosen from a temperature/precipitation rule table and a
  weighted score.

It also reports detected biomes, writes a CSV log, paints a hydrology texture, and offers
a planetary clock and a multi-handle slider widget.

This project models that core, one Dafny module per source file.

Modelling conventions:

- Floats are `real`.
- `FMath::Clamp`, `RoundToInt`, `FLT_MAX` and the single-precision square root of 2 are
  written out in `Common`.
- A cosine is a parameter: a function known only to lie in [-1, 1].
- Every `ParallelFor` body runs as a sequential loop. Each iteration writes only its own
  index.
- Objects the source updates in place are Dafny classes:
  - `FallbackCounter` is the file-level fallback `counter`, shared by every
    `BiomeCalculator`;
  - `PlanetTime` and `PlanetTimeSingleton`;
  - `MultiHandleSlider`.
- Arrays written in place stay arrays: the distance pass, the albedo pass, the per-cell
  classification and the visualisation texture.

## Model

| member | source | states |
|---|---|---|
| Altitude.CalculateAltitude | Private/Altitude.cpp:3-6 | byte 0 gives MinAltitude, 255 gives MaxAltitude, and with Min <= Max every byte lands in [Min, Max] |
| Altitude.AltitudeMonotone | Private/Altitude.cpp:5 | with Min <= Max a brighter pixel is never lower |
| Altitude.CalculateOceanDepth | Private/Altitude.cpp:8-11 | positive exactly below sea level, zero exactly at sea level, negative above it |
| HeightmapCell.DefaultCell | Public/HeightmapCell.h:27-48 | a default cell is Land, biome "Ocean" in black, distance FLT_MAX, flow "Clockwise", not onshore, current "Warm", every number 0 and every vector zero |
| HeightmapCell.CellTypeVariants | Public/HeightmapCell.h:10-16 | the cell type has exactly the variants Land, Ocean, Lake and River |
| HeightmapParser.FloorSqrt | Private/HeightmapParser.cpp:82-83 | the width is the integer square root of the sample count: its square is at most the count, and the next square exceeds it |
| HeightmapParser.FloorSqrtOfSquare | Private/HeightmapParser.cpp:82 | the square root of k*k is k |
| HeightmapParser.SquareTest | Private/HeightmapParser.cpp:85 | Width*Height equals the count exactly when the count is a perfect square |
| HeightmapParser.SquareCheck | Private/HeightmapParser.cpp:96-108 | Width = Height = integer square root; success iff the count is a perfect square, and then Width*Height is the count |
| HeightmapParser.ParseRawHeightmap | Private/HeightmapParser.cpp:94-109 | succeeds iff the byte count is a perfect square, with a square Width*Height equal to it |
| HeightmapParser.ParseR16Heightmap | Private/HeightmapParser.cpp:111-133 | an odd byte count fails with Width/Height untouched; success iff the count is even and half of it a perfect square |
| HeightmapParser.ParseR32Heightmap | Private/HeightmapParser.cpp:135-157 | a count not divisible by 4 fails with Width/Height untouched; success iff a quarter of it is a perfect square |
| HeightmapParser.LoadHeightmap | Private/HeightmapParser.cpp:71-92 | an unreadable file fails and keeps Width/Height; otherwise Width = Height = integer square root and success iff the count is a perfect square |
| HeightmapParser.MakeCell | Private/HeightmapParser.cpp:36-55 | altitude from the byte; at or below sea level depth = SeaLevel - Altitude and distance 0, above it depth 0 and distance FLT_MAX; depth positive iff strictly below sea level; every other field keeps its default |
| HeightmapParser.CoordinateBounds | Private/HeightmapParser.cpp:39-40 | row 0 gets MinLatitude and column 0 MinLongitude exactly; with Min < Max no row reaches MaxLatitude and no column MaxLongitude |
| HeightmapParser.CellGridRowMajor | Private/HeightmapParser.cpp:29-58 | the grid has Width*Height cells, and cell y*Width+x is built from the byte at that index and the coordinates (x, y) |
| HeightmapParser.BuildCells | Private/HeightmapParser.cpp:27-59 | the nested y/x loop appends exactly the row-major cell grid |
| HeightmapParser.ParseHeightmap | Private/HeightmapParser.cpp:5-69 | success iff the file is readable and its size a perfect square; a failed load keeps OutData; on success OutData is the row-major grid with distances recomputed |
| HeightmapParser.DistancePassSizeMatches | Private/HeightmapParser.cpp:61-66 | after a successful load the distance pass always accepts the grid, so it never causes a failure |
| HeightmapParser.SeaLevelCellIsNotSource | Private/HeightmapParser.cpp:46-49 | a cell exactly at sea level gets depth 0 and distance 0, is no search source, and ends with a positive distance |
| DistanceToOcean.NearestBelowLower | Private/DistanceToOcean.cpp:29-57 | among the first n cells no ocean cell is closer than their minimum city-block distance, which is non-negative once one exists |
| DistanceToOcean.NearestOceanWitness | Private/DistanceToOcean.cpp:29-57 | with some ocean, the reference nearest-ocean distance is attained by an ocean cell |
| DistanceToOcean.NearestOceanNeighbours | Private/DistanceToOcean.cpp:41-56 | the reference distances of two axis neighbours differ by at most 1 |
| DistanceToOcean.NearestOceanStep | Private/DistanceToOcean.cpp:41-56 | a cell away from the ocean has an axis neighbour one step closer |
| DistanceToOcean.SeedOceanCells | Private/DistanceToOcean.cpp:13-26 | ocean cells start at 0 and are all queued; every other cell starts at FLT_MAX |
| DistanceToOcean.UpdateStep | Private/DistanceToOcean.cpp:50-54 | a neighbour that gets lowered was unreached; lowering and queueing it keeps the search invariant, which pins every reached cell to its final distance |
| DistanceToOcean.KeepStep | Private/DistanceToOcean.cpp:46-55 | skipping an out-of-grid or already close neighbour keeps the search invariant |
| DistanceToOcean.VisitNeighbour | Private/DistanceToOcean.cpp:43-55 | one offset of the neighbour loop keeps the invariant; the unreached set shrinks by exactly the number of cells queued |
| DistanceToOcean.ExpandCell | Private/DistanceToOcean.cpp:41-56 | expanding a dequeued cell relaxes all four neighbours; each enqueue removes one cell from the unreached set, which bounds the loop |
| DistanceToOcean.OuterDone | Private/DistanceToOcean.cpp:32-57 | once the queue is empty every cell holds its expected distance |
| DistanceToOcean.DistanceMap | Private/DistanceToOcean.cpp:13-57 | the queue search terminates with every cell at its expected distance: the nearest-ocean distance when the width is positive and some ocean exists, otherwise 0 on ocean and FLT_MAX elsewhere |
| DistanceToOcean.CalculateDistanceToOcean | Private/DistanceToOcean.cpp:4-66 | returns false and writes nothing unless the size is Width*Height; otherwise only DistanceToOcean changes, to the expected distance, and cell order is kept |
| DistanceToOcean.OceanCellsAtZero | Private/DistanceToOcean.cpp:19-26 | every cell with OceanDepth > 0 ends at 0 |
| DistanceToOcean.DistanceIsNearestManhattan | Private/DistanceToOcean.cpp:29-57 | with width > 0 and some ocean, each distance is the least city-block distance to an ocean cell: none is closer, one is exactly that far, and the value is finite |
| DistanceToOcean.NoOceanStaysUnreached | Private/DistanceToOcean.cpp:14-26 | without any ocean cell every distance stays FLT_MAX |
| DistanceToOcean.NeighbourDistancesDifferByAtMostOne | Private/DistanceToOcean.cpp:46-54 | two reached axis neighbours differ in distance by at most 1 |
| FlowRouting.OffsetLength | Private/DInfinity.cpp:40 | the step length is at least 1: 1 on an axis, the float square root of 2 on a diagonal |
| FlowRouting.ScanPrefix | Private/DInfinity.cpp:23-50 | after k offsets the kept slope is >= every in-grid slope seen; a kept choice is in the grid, has that positive slope, and every earlier offset is strictly less steep |
| FlowRouting.ScanCell | Private/DInfinity.cpp:18-52 | the neighbour loop of one cell yields its steepest-descent direction |
| FlowRouting.FlowDirections | Private/DInfinity.cpp:13-53 | one direction per cell, each that cell's steepest-descent direction |
| FlowRouting.DirectionZeroIff | Private/DInfinity.cpp:23-47 | a direction is zero iff no in-grid neighbour is strictly lower |
| FlowRouting.SteepestChoice | Private/DInfinity.cpp:27-50 | a nonzero direction is the unit step to an in-grid, strictly lower neighbour of greatest slope, and no earlier offset has that slope |
| FlowRouting.DownstreamInRange | Private/DInfinity.cpp:83-88 | the sweep's target is -1 (none) or a cell of the grid |
| FlowRouting.RoundStep | Private/DInfinity.cpp:83-84 | rounding a coordinate plus a unit-step component, about 0.707 on a diagonal, lands on the neighbour's coordinate |
| FlowRouting.DownstreamIsChosenNeighbour | Private/DInfinity.cpp:78-90 | a zero direction pushes nowhere; a nonzero one pushes into a strictly lower cell |
| FlowRouting.SteepestDirectionsAreDownhill | Private/DInfinity.cpp:43-47 | the scanned directions, in either scan order, form a field in which every push goes strictly downhill |
| FlowRouting.InsertDescending | Private/DInfinity.cpp:74-76 | insertion adds exactly one index to the multiset |
| FlowRouting.InsertKeepsDescending | Private/DInfinity.cpp:74-76 | inserting into a list sorted by descending altitude keeps it sorted |
| FlowRouting.SortByAltitude | Private/DInfinity.cpp:74-76 | the result is a permutation of the input, sorted by descending altitude |
| FlowRouting.PermutationOfRange | Private/DInfinity.cpp:66-72 | a reordering of 0..n-1 lists each cell exactly once |
| FlowRouting.SweepInvariant | Private/DInfinity.cpp:78-90 | during a descending sweep, every value is non-negative and equals what the swept cells pushed into it |
| FlowRouting.SweepBalanced | Private/DInfinity.cpp:74-90 | a full descending sweep of a downhill field gives each cell the sum of (accumulation + 1) over the cells draining into it, all non-negative |
| FlowRouting.BalancedUnique | Private/DInfinity.cpp:74-90 | a downhill field has only one balanced accumulation |
| FlowRouting.SweepOrderIndependent | Private/DInfinity.cpp:74-90 | two descending orders, however they break altitude ties, give the same accumulation |
| FlowRouting.CellIndices | Private/DInfinity.cpp:66-72 | the list loop yields 0..n-1 |
| FlowRouting.SweepCells | Private/DInfinity.cpp:78-91 | the sweep loop computes the sweep over the given order |
| FlowRouting.CalculateFlowAccumulation | Private/DInfinity.cpp:56-92 | one value per cell, the sweep over the sorted order; for a downhill field it is the balanced, non-negative upstream count |
| FlowRouting.CalculateFlowDepth | Private/DInfinity.cpp:94-118 | one depth per cell: where the river width is positive, depth times width equals accumulation times precipitation factor; elsewhere 0 |
| FlowRouting.FlowDepthAt | Private/DInfinity.cpp:112-116 | zero without a positive width, the quotient otherwise, non-negative for non-negative inputs |
| PrivateDInfinity.OffsetsFollowNestedLoops | Private/DInfinity.cpp:27-31 | the scan order is the dx-outer, dy-inner nested loop without (0, 0): eight valid neighbour steps |
| PrivateDInfinity.CalculateFlowDirection | Private/DInfinity.cpp:7-54 | one entry per cell, each the steepest-descent step in nested-loop order; every push goes downhill |
| AddonDInfinity.CalculateFlowDirection | Addon/DInfinity.cpp:7-54 | one entry per cell, each the steepest-descent step in `NeighborOffsets` order; every push goes downhill |
| AddonDInfinity.NeighborOffsetsRowMajor | Addon/DInfinity.cpp:16-20 | the eight offsets are the 3x3 block around the cell in row-major order (dy outer, dx inner) with the centre left out |
| AddonDInfinity.SameOffsets | Addon/DInfinity.cpp:16-20 | the two copies scan the same eight offsets |
| AddonDInfinity.SameSteepestSlope | Addon/DInfinity.cpp:31-50 | both copies find the same steepest slope, and each returns zero exactly when the other does |
| AddonDInfinity.TieBest | Addon/DInfinity.cpp:44-48 | on the tie map, the first of two equally steep neighbours in scan order wins, because the test is strict |
| AddonDInfinity.TieBreakDiffers | Addon/DInfinity.cpp:16-20 | on a map with a left/top tie the Private copy flows left and the Addon copy flows up |
| Hydrology.FreezeFactor | Addon/HydrologyCalculator.cpp:23 | the surviving share is in [0, 1] and is 0 from -10 degrees down |
| Hydrology.MeltFactor | Addon/HydrologyCalculator.cpp:28 | the melting share is in [0, 1] and is 1 from 10 degrees up |
| Hydrology.AdjustFlowForEnvironment | Addon/HydrologyCalculator.cpp:11-34 | below 0 the flow is scaled by the freeze factor; above 0 and above 2000 m precipitation times the melt factor is added; otherwise only the humidity factor applies |
| Hydrology.FrozenFlowIsZero | Addon/HydrologyCalculator.cpp:21-25 | from -10 degrees down the flow is zero |
| Hydrology.FreezingShrinksFlow | Addon/HydrologyCalculator.cpp:21-33 | below 0, with a fractional humidity factor, a non-negative flow stays in [0, flow] |
| Hydrology.MeltAddsAtMostPrecipitation | Addon/HydrologyCalculator.cpp:26-30 | snowmelt adds between nothing and the whole annual precipitation |
| Hydrology.SlopeEffect | Addon/HydrologyCalculator.cpp:45 | the slope effect is in [0.5, 2] |
| Hydrology.RiverOceanEffect | Addon/HydrologyCalculator.cpp:42 | the ocean effect is in [0.5, 2] |
| Hydrology.EffectiveRiverWidth | Addon/HydrologyCalculator.cpp:36-54 | the width is in [2.5, 60], and in [2.5, 40] for a non-River cell |
| Hydrology.RiverIsWider | Addon/HydrologyCalculator.cpp:48-51 | a River cell is exactly 1.5 times as wide as the same cell of any other type |
| Hydrology.WidthShrinksInland | Addon/HydrologyCalculator.cpp:42 | moving away from the ocean never widens a river |
| Hydrology.BaseThreshold | Addon/HydrologyCalculator.cpp:60 | the base threshold is positive exactly when the resolution sum is |
| Hydrology.PrecipitationEffect | Addon/HydrologyCalculator.cpp:63 | the precipitation effect is in [0.1, 2] |
| Hydrology.OceanProximityEffect | Addon/HydrologyCalculator.cpp:66 | the ocean effect is in [0.1, 1] |
| Hydrology.HumidityEffect | Addon/HydrologyCalculator.cpp:69 | the humidity effect is in [0.1, 1] |
| Hydrology.StreamThresholdBounds | Addon/HydrologyCalculator.cpp:57-73 | at a positive resolution the threshold lies between a thousandth of the base and twice it |
| Hydrology.ThresholdOrder | Addon/HydrologyCalculator.cpp:72 | the threshold grows with its precipitation and humidity effects |
| Hydrology.StreamThresholdSign | Addon/HydrologyCalculator.cpp:57-73 | the threshold is positive exactly when Resolution.X + Resolution.Y is, since every effect is positive |
| Hydrology.HumidityLowersThreshold | Addon/HydrologyCalculator.cpp:69-72 | more humidity never raises the threshold |
| Hydrology.PrecipitationRaisesThreshold | Addon/HydrologyCalculator.cpp:63-72 | more precipitation never lowers the threshold |
| Hydrology.ScaledByte | Addon/HydrologyCalculator.cpp:186-187 | a ratio <= 0 gives 0, >= 1 gives 255, in between the truncated ratio times 255; a zero divisor gives 0 or 255 by the sign of the numerator |
| Hydrology.ScaledByteMonotone | Addon/HydrologyCalculator.cpp:195-196 | a larger ratio never gives a smaller byte |
| Hydrology.BasePixel | Addon/HydrologyCalculator.cpp:186-198 | opaque; with positive flow depth (0, 0, B) with B the scaled depth, otherwise grey (g, g, g) with g the scaled altitude between the sliders |
| Hydrology.GrayMonotone | Addon/HydrologyCalculator.cpp:186-190 | with the sliders in order a higher dry cell is never darker |
| Hydrology.StreamIndex | Addon/HydrologyCalculator.cpp:211-213 | a stream point, truncated and clamped, always lands inside the grid |
| Hydrology.LastHit | Addon/HydrologyCalculator.cpp:207-221 | the point a pixel keeps is one of the stream points and lands on that pixel |
| Hydrology.LastHitNone | Addon/HydrologyCalculator.cpp:207-221 | a pixel has no last hit exactly when no stream point lands on it |
| Hydrology.LastHitIsLast | Addon/HydrologyCalculator.cpp:207-221 | the point a pixel keeps is the last one in visiting order that lands on it |
| Hydrology.BaseTexture | Addon/HydrologyCalculator.cpp:173-204 | both arrays get Width*Height entries; each pixel its base colour and the vector (Longitude, Latitude, Altitude) |
| Hydrology.BaseRow | Addon/HydrologyCalculator.cpp:178-203 | one row of the nested loop fills that row's base colours and vectors |
| Hydrology.OverlaySeason | Addon/HydrologyCalculator.cpp:209-220 | overlaying one season's points gives the final colours and vectors for all points seen so far |
| Hydrology.FinalAfterPoint | Addon/HydrologyCalculator.cpp:211-219 | one more stream point sets its own pixel to blue and its vector to the point, and changes no other pixel |
| Hydrology.GenerateVisualizationTexture | Addon/HydrologyCalculator.cpp:160-226 | Width*Height colours and vectors, the return value equal to the colours, each pixel the base pixel overlaid by the stream points in map order |
| Hydrology.StreamPointsAreBlue | Addon/HydrologyCalculator.cpp:216 | every stream point leaves its pixel (0, 0, 255, 255) |
| Hydrology.UnhitPixelsKeepBase | Addon/HydrologyCalculator.cpp:186-202 | a pixel no stream point lands on keeps its base colour and the vector (Longitude, Latitude, Altitude) |
| Hydrology.HitPixelsCarryAPoint | Addon/HydrologyCalculator.cpp:219 | a pixel hit by stream points carries one of the points that land on it |
| BiomeCalculator.RuleAt | Private/BiomeCalculator.cpp:111-124 | each of the fourteen tested names has weights and is not "Unknown Biome" |
| BiomeCalculator.ColourMapCoversRulesButTaiga | Private/BiomeCalculator.cpp:6-21 | the colour map as written has an opaque colour for every tested name except "Taiga (Boreal Forest)", and its one extra key "Taiga and Boreal Forests" is no tested name |
| BiomeCalculator.CorrectedMapKeysAreRuleNames | Private/BiomeCalculator.cpp:6-21 | the corrected map has exactly the tested names as keys, all opaque; the taiga gets the colour written under the other name, and every shared key keeps its colour |
| BiomeCalculator.Matching | Private/BiomeCalculator.cpp:111-124 | the first k tests yield at most k names |
| BiomeCalculator.MatchingIff | Private/BiomeCalculator.cpp:111-124 | a name is a candidate exactly when some row of that name holds |
| BiomeCalculator.MatchingNames | Private/BiomeCalculator.cpp:111-124 | every candidate is the name of a row |
| BiomeCalculator.CandidatesAreWeighted | Private/BiomeCalculator.cpp:111-124 | every table candidate is a non-empty rule name with weights, never "Unknown Biome" |
| BiomeCalculator.AssignBiome | Private/BiomeCalculator.cpp:38-47 | a non-empty name that is a colour key is stored with its colour; anything else becomes "Unknown" in black; no other field changes |
| BiomeCalculator.BiomeOfIsKnownOrUnknown | Private/BiomeCalculator.cpp:33-35 | the returned name is "Unknown Biome" or a matching rule name, and never empty |
| BiomeCalculator.BiomeOfUnknownIff | Private/BiomeCalculator.cpp:30-35 | the name is "Unknown Biome" exactly when no candidate scores above zero |
| BiomeCalculator.ClassificationTouchesOnlyBiome | Private/BiomeCalculator.cpp:76-88 | for any colour map without an "Unknown Biome" key, the pass changes only the type and colour of a selected cell, to a rule name or "Unknown"; other cells are unchanged |
| BiomeCalculator.CounterFormula | Private/BiomeCalculator.cpp:128-135 | a positive counter falls by one per unmatched classification, down to 0; a non-positive one never changes |
| BiomeCalculator.CounterAfterCall | Private/BiomeCalculator.cpp:128-135 | a non-positive counter never changes; a positive one stays non-negative and drops by at most one; any match leaves it alone |
| BiomeCalculator.PassStep | Private/BiomeCalculator.cpp:72-89 | one more cell updates the tally and counter as the loop body does |
| BiomeCalculator.TallyWellFormed | Private/BiomeCalculator.cpp:86 | the tally lists each name once, and its names are exactly its keys |
| BiomeCalculator.TallyOccurrences | Private/BiomeCalculator.cpp:83-87 | each counted name has the number of selected cells with that biome, at least 1; an uncounted name has none |
| BiomeCalculator.TallySum | Private/BiomeCalculator.cpp:83-87 | the counts sum to the number of classified cells |
| BiomeCalculator.ReportShape | Private/BiomeCalculator.cpp:91-102 | the report is the no-data message exactly when no cell was classified; otherwise the header followed by one line per name |
| BiomeCalculator.FallbackCounter.constructor | Private/BiomeCalculator.cpp:26 | the module's counter starts at 100 |
| BiomeCalculator.BiomeCalculator.constructor | Private/BiomeCalculator.cpp:26 | a new calculator uses the shared counter and does not reset it |
| BiomeCalculator.BiomeCalculator.FilterBiomeCandidates | Private/BiomeCalculator.cpp:105-138 | holding rows in rule order; with none, ["Unknown Biome"] and one off a positive counter, else an empty list with the counter unchanged |
| BiomeCalculator.BiomeCalculator.ScanRules | Private/BiomeCalculator.cpp:111-124 | the fourteen tests produce exactly the table's matches in order |
| BiomeCalculator.BiomeCalculator.CalculateBiome | Private/BiomeCalculator.cpp:27-50 | returns the cell's non-empty biome name; the cell gets its name and colour from `BiomeColorMap` as written, or "Unknown" in black; the counter moves as the filter does |
| BiomeCalculator.BiomeCalculator.ClassifyCell | Private/BiomeCalculator.cpp:74-88 | a selected cell is classified with `BiomeColorMap` and its biome counted; any other cell is left as it is |
| BiomeCalculator.BiomeCalculator.ClassifyAll | Private/BiomeCalculator.cpp:72-89 | each cell classified in place, with the tally and counter of the whole pass |
| BiomeCalculator.BiomeCalculator.WriteReport | Private/BiomeCalculator.cpp:91-102 | builds the report text from the tally |
| BiomeCalculator.BiomeCalculator.CalculateBiomeFromInput | Private/BiomeCalculator.cpp:52-103 | inverted ranges give the invalid-range message and change nothing; otherwise cells classified in place, the counter advanced, and the report of the tally returned |
| BiomeCalculator.TaigaCandidates | Private/BiomeCalculator.cpp:123 | at -20 degrees and 500 mm the only candidate is "Taiga (Boreal Forest)" |
| BiomeCalculator.TaigaWins | Private/BiomeWeightedProbability.cpp:18 | that candidate scores 690 and is chosen |
| BiomeCalculator.TaigaHasNoColour | Private/BiomeCalculator.cpp:20 | the colour map as written has no key "Taiga (Boreal Forest)" |
| BiomeCalculator.TaigaLosesItsColour | Private/BiomeCalculator.cpp:38-47 | the calculator's pass, which uses the map as written, stores a selected taiga cell as "Unknown" in black |
| BiomeCalculator.EveryBiomeHasAColour | Private/BiomeCalculator.cpp:7-22 | with the corrected map every name the classification can return, except "Unknown Biome", has a colour |
| BiomeCalculator.ClassifiedCellNamesItsBiome | Private/BiomeCalculator.cpp:38-42 | with the corrected map a selected cell with a known biome stores that name and its colour |
| BiomeWeightedProbability.WeightsArePositive | Private/BiomeWeightedProbability.cpp:5-20 | both weights of every weighted biome are positive, and "Unknown Biome" has no weights |
| BiomeWeightedProbability.WeightedBest | Private/BiomeWeightedProbability.cpp:22-70 | the result is "Unknown Biome" or one of the candidates |
| BiomeWeightedProbability.Kept | Private/BiomeWeightedProbability.cpp:26-47 | kept entries are weighted candidates with positive scores, no more entries than candidates |
| BiomeWeightedProbability.KeptIff | Private/BiomeWeightedProbability.cpp:28-46 | a candidate is kept exactly when it has weights and a positive score |
| BiomeWeightedProbability.BestPrefix | Private/BiomeWeightedProbability.cpp:56-67 | the running choice is "Unknown Biome" or one of the entries seen |
| BiomeWeightedProbability.BestPrefixIsFirstMaximum | Private/BiomeWeightedProbability.cpp:62-66 | with positive scores the choice has the greatest score seen, every earlier entry is strictly smaller, and the choice is 0 only before any entry |
| BiomeWeightedProbability.WeightedBestIsCandidate | Private/BiomeWeightedProbability.cpp:56-69 | the result is "Unknown Biome" or one of the candidates |
| BiomeWeightedProbability.UnknownIffNoneKept | Private/BiomeWeightedProbability.cpp:56-69 | "Unknown Biome" comes back exactly when no candidate is kept |
| BiomeWeightedProbability.WeightedBestIsFirstMaximum | Private/BiomeWeightedProbability.cpp:59-67 | the winner is the first kept candidate of greatest score |
| BiomeWeightedProbability.TotalPositive | Private/BiomeWeightedProbability.cpp:50-54 | the total of positive scores is positive |
| BiomeWeightedProbability.DivideKeepsOrder | Private/BiomeWeightedProbability.cpp:61-62 | dividing by a positive total keeps every strict comparison |
| BiomeWeightedProbability.CalculateBiomeProbabilities | Private/BiomeWeightedProbability.cpp:22-70 | the three loops return the first maximum on raw scores; normalising does not change the winner |
| BiomeWeightedProbability.CollectScores | Private/BiomeWeightedProbability.cpp:26-47 | the first loop keeps exactly the weighted, positively scored candidates in order |
| BiomeWeightedProbability.SumScores | Private/BiomeWeightedProbability.cpp:50-54 | the second loop computes the total score |
| BiomeWeightedProbability.PickNormalised | Private/BiomeWeightedProbability.cpp:56-67 | the third loop, on normalised scores, returns the first maximum of the raw scores |
| OceanCurrents.ValidateFlowDirection | Private/OceanCurrents.cpp:35-46 | north (including latitude 0), "Clockwise" iff lon >= 0; south, "Counterclockwise" iff lon >= 0 |
| OceanCurrents.FlowDirectionIgnored | Private/OceanCurrents.cpp:35-46 | the passed-in direction has no influence |
| OceanCurrents.DetermineOceanCurrentType | Private/OceanCurrents.cpp:5-33 | only "warm" or "cold", and "warm" exactly when lon >= 0 and -40 < lat < 40 |
| OceanTemperature.CalculateOceanTemp | Private/OceanTemperature.cpp:7-23 | a warm current adds the coastal effect, a cold one subtracts it; there is no third case |
| OceanTemperature.CoastalEffectBounds | Private/OceanTemperature.cpp:15 | on land the effect is in (0, 5] and exactly 5 at the coast |
| OceanTemperature.CoastalEffectSign | Private/OceanTemperature.cpp:15-19 | the effect 5 / (d/1000 + 1) is positive exactly when d > -1000, so for every real distance to the ocean |
| OceanTemperature.CoastalEffectFades | Private/OceanTemperature.cpp:15 | the effect strictly fades with distance |
| OceanTemperature.OceanTempRisesIff | Private/OceanTemperature.cpp:10-20 | the temperature rises exactly when lon >= 0 and -40 < lat < 40, and it always changes |
| GlobalWind.CalculateWindDirection | Private/GlobalWind.cpp:3-25 | (-1, 0) up to 30 degrees, (1, 0) up to 60, (-1, 0) up to 90, zero beyond |
| GlobalWind.WindIsSymmetric | Private/GlobalWind.cpp:5-24 | the result for lat equals the result for -lat |
| GlobalWind.WindIsZonal | Private/GlobalWind.cpp:8-23 | every wind has y = 0 and x in {-1, 0, 1} |
| SeasonalWinds.CalculateSeasonalWindDirection | Private/SeasonalWinds.cpp:4-25 | in the tropics (0.7, -0.7) before mid-year and (-0.7, 0.7) after; elsewhere the global band wind |
| SeasonalWinds.MonsoonReverses | Private/SeasonalWinds.cpp:12-17 | the two tropical winds are opposite vectors |
| SeasonalWinds.ExtratropicalIgnoresSeason | Private/SeasonalWinds.cpp:20-24 | outside the tropics the time of year makes no difference |
| WindUtils.GetSafeNormal | Private/WindUtils.cpp:5 | a vector no longer than the tolerance normalises to zero; a longer one to a parallel vector pointing the same way |
| WindUtils.IsOnshoreWind | Private/WindUtils.cpp:3-7 | a wind or ocean-to-land vector no longer than the tolerance is never onshore |
| WindUtils.OnshoreIff | Private/WindUtils.cpp:3-7 | onshore exactly when both vectors are longer than the tolerance and their raw dot product is positive |
| WindUtils.ZeroVectorIsNotOnshore | Private/WindUtils.cpp:5-6 | a zero vector on either side is never onshore |
| WindUtils.LongVectorsOnshore | Private/WindUtils.cpp:3-7 | with both vectors beyond the tolerance, normalising does not change the sign of the dot product |
| WindUtils.AdjustWeatherFactors | Private/WindUtils.cpp:9-21 | onshore closer than 150000 multiplies P by 1+0.9W and adds W to T; offshore beyond 50000 gives 0.7P and T-1.5W; otherwise both are kept; onshore never lowers P, offshore never raises it |
| Albedo.CalculateAlbedo | Private/Albedo.cpp:7-11 | 0.15 below 30 degrees (every southern latitude), 0.25 below 60, else 0.60 |
| Albedo.AlbedoGrowsWithLatitude | Private/Albedo.cpp:7-11 | the base albedo never falls as latitude grows |
| Albedo.AdjustAlbedoForSnow | Private/Albedo.cpp:14-17 | 0.2 is added exactly below freezing |
| Albedo.AdjustAlbedoForPrecipitation | Private/Albedo.cpp:20-24 | -0.1 above 1000 mm, +0.1 below 250, unchanged in between |
| Albedo.DynamicAlbedo | Private/Albedo.cpp:32-52 | only the albedo changes, to a value in [0.05, 0.80] |
| Albedo.CoastKeepsClampedAlbedo | Private/Albedo.cpp:34-52 | at or below the coast the existing albedo is only clamped |
| Albedo.InlandTakesOneAdjustment | Private/Albedo.cpp:34-48 | inland, snow when freezing and vegetation otherwise, starting from the latitude albedo and ignoring the old value |
| Albedo.CalculateDynamicAlbedo | Private/Albedo.cpp:27-55 | every cell of the array is replaced by its adjusted self |
| Temperature.CalculateSlopeEffect | Private/Temperature.cpp:18-23 | -2 for slopes over 15 degrees plus 1 for aspects in [135, 225], so in {-2, -1, 0, 1} |
| Temperature.Declination | Private/Temperature.cpp:36 | the declination stays within 23.5 degrees of the equator |
| Temperature.SolarInsolation | Private/Temperature.cpp:37 | insolation is in [0, 1] |
| Temperature.LapseRate | Private/Temperature.cpp:43 | 0.004 per metre above 50% humidity, 0.0065 otherwise |
| Temperature.AltitudeCooling | Private/Temperature.cpp:46-54 | the lapse rate times the altitude up to 11000 m; beyond, the cooling at 11000 m plus the stratosphere rate per further metre, so never less than the cooling at 11000 m |
| Temperature.AltitudeCoolingMonotone | Private/Temperature.cpp:46-54 | the cooling is continuous at 11000 m and keeps growing above it |
| Temperature.NighttimeCooling | Private/Temperature.cpp:65 | no night cooling in saturated air, and none negative up to 100% |
| Temperature.CalculateSurfaceTemperature | Private/Temperature.cpp:25-69 | a base in [0, 27], less altitude cooling, plus the slope effect, less 0.1 per unit wind and the night cooling |
| Temperature.ColderHigherUp | Private/Temperature.cpp:46-54 | higher ground is never warmer |
| Temperature.WindCoolsLinearly | Private/Temperature.cpp:61-62 | each unit of wind costs exactly 0.1 degrees |
| Precipitation.LatitudeFactor | Private/Precipitation.cpp:7 | the latitude factor is in [0, 2000] |
| Precipitation.OceanFactor | Private/Precipitation.cpp:10 | the ocean factor is 200 - 0.002d or its floor -100, never below -100 |
| Precipitation.AltitudeFactor | Private/Precipitation.cpp:13-21 | below 400 everywhere, non-negative from sea level to 2000 m, non-positive from 2000 m on |
| Precipitation.AltitudeFactorShape | Private/Precipitation.cpp:13-21 | rises towards 400 below 2000 m, is 0 at 2000 m, falls beyond |
| Precipitation.HumidityFactor | Private/Precipitation.cpp:24 | in [0, 2]; 0 without humidity, RH/100 within [0, 200] |
| Precipitation.CalculatePrecipitation | Private/Precipitation.cpp:4-31 | never negative, and at most twice the unscaled sum of the factors |
| Precipitation.DryAirGivesNothing | Private/Precipitation.cpp:24-30 | relative humidity <= 0 gives no precipitation |
| EnvironmentFactors.CalculateTemperature | Private/EnvironmentFactors.cpp:12-18 | between -30 and 30 less 0.0065 per metre of altitude |
| EnvironmentFactors.TemperatureDropsPerKilometre | Private/EnvironmentFactors.cpp:14-17 | 1000 m more costs exactly 6.5 degrees |
| EnvironmentFactors.EquatorAtSeaLevel | Private/EnvironmentFactors.cpp:4-17 | 30 degrees at latitude 0 and altitude 0 |
| EnvironmentFactors.CalculatePrecipitation | Private/EnvironmentFactors.cpp:20-39 | never negative: the sum of `Precipitation`'s latitude, ocean and altitude factors, floored at 0 |
| EnvironmentFactors.AgreesAtFullHumidity | Private/EnvironmentFactors.cpp:20-39 | the result equals `Precipitation.CalculatePrecipitation` at 100% relative humidity |
| PlanetTime.PlanetTime.Default | Private/PlanetTime.cpp:7-10 | year 365, 24 h 0 min, 86400 s, day 1, time 0 |
| PlanetTime.PlanetTime.constructor | Private/PlanetTime.cpp:12-20 | the five settings stored, with seconds derived from hours and minutes |
| PlanetTime.PlanetTime.SetYearLength | Private/PlanetTime.cpp:46-49 | stores one day more than given, and nothing else changes |
| PlanetTime.PlanetTime.SetDayLengthHours | Private/PlanetTime.cpp:51-55 | stores the hours and recomputes the seconds |
| PlanetTime.PlanetTime.SetDayLengthMinutes | Private/PlanetTime.cpp:56-60 | stores the minutes and recomputes the seconds |
| PlanetTime.PlanetTime.SetDayOfYear | Private/PlanetTime.cpp:61-64 | changes only the day of the year |
| PlanetTime.PlanetTime.SetTimeOfDay | Private/PlanetTime.cpp:65-68 | stores the argument clamped into [0, 1] |
| PlanetTime.PlanetTime.GetDayLengthSeconds | Private/PlanetTime.cpp:41 | on an instance the constructors and setters left valid, the seconds equal hours * 3600 + minutes * 60 |
| PlanetTime.PlanetTime.GetSeason | Private/PlanetTime.cpp:71-89 | Spring below 0.25, Summer below 0.5, Autumn below 0.75, else Winter |
| PlanetTime.SeasonIsMonotone | Private/PlanetTime.cpp:71-89 | a later time of year never gives an earlier season |
| PlanetTime.PlanetTimeSingleton.constructor | Private/PlanetTime.cpp:4 | the instance starts out null |
| PlanetTime.PlanetTimeSingleton.Initialize | Private/PlanetTime.cpp:30-36 | creates the instance from its arguments only when none exists; later calls leave it as it is |
| PlanetTime.PlanetTimeSingleton.GetInstance | Private/PlanetTime.cpp:23-27 | returns the existing instance |
| LoggingUtils.LoggedIff | Private/LoggingUtils.cpp:13 | a row is written exactly for a nonzero altitude |
| LoggingUtils.LogBiomeDataToCsv | Private/LoggingUtils.cpp:5-27 | the header, then one row per logged cell in index order |
| LoggingUtils.RowShape | Private/LoggingUtils.cpp:15-25 | with comma- and newline-free text a row has 8 commas and ends with its only newline |
| LoggingUtils.Row | Private/LoggingUtils.cpp:15-25 | a row starts with the cell index and a comma and ends with a newline |
| LoggingUtils.HeaderShape | Private/LoggingUtils.cpp:7 | the header is one line of nine comma-separated names |
| LoggingUtils.StartsWithHeader | Private/LoggingUtils.cpp:7 | the content always starts with the header |
| LoggingUtils.CsvContent | Private/LoggingUtils.cpp:7-27 | the file content begins with the header line |
| LoggingUtils.RowLines | Private/LoggingUtils.cpp:9-27 | with newline-free text the rows hold one newline per logged cell |
| LoggingUtils.LineCount | Private/LoggingUtils.cpp:7-27 | with newline-free text the content has 1 + (cells of nonzero altitude) lines |
| MultiHandleSlider.HandlePosition | Widgets/MultiHandleSlider.cpp:64-69 | a finite position exists exactly when the range is non-empty |
| MultiHandleSlider.HandlePositionIsLinear | Widgets/MultiHandleSlider.cpp:64-69 | MinValue maps to the height, MaxValue to 0, and positions are linear in the value |
| MultiHandleSlider.ValueAtHandlePosition | Widgets/MultiHandleSlider.cpp:112-118 | updating from the mouse at a handle's position gives back its value |
| MultiHandleSlider.ValueFromMouse | Widgets/MultiHandleSlider.cpp:112-118 | on an ordered range the value lies in [MinValue, MaxValue]; the bottom edge gives MinValue and the top edge MaxValue |
| MultiHandleSlider.HandlePositionOfMouseValue | Widgets/MultiHandleSlider.cpp:112-118 | a value picked inside the widget is drawn under the mouse |
| MultiHandleSlider.MultiHandleSlider.GetHandleValues | Widgets/MultiHandleSlider.cpp:14-17 | the handle values; on a valid slider an active handle index is a position in them |
| MultiHandleSlider.MultiHandleSlider.GetHandlePosition | Widgets/MultiHandleSlider.cpp:64-69 | a finite position exactly when the range is non-empty; MinValue sits at the bottom (the height) and MaxValue at the top (0) |
| MultiHandleSlider.MultiHandleSlider.Construct | Widgets/MultiHandleSlider.cpp:4-12 | range and handles from the arguments, no handle active |
| MultiHandleSlider.MultiHandleSlider.OnMouseButtonDown | Widgets/MultiHandleSlider.cpp:71-87 | handled iff some handle is strictly within 10 of the mouse; then the first such is active; otherwise nothing changes |
| MultiHandleSlider.MultiHandleSlider.UpdateHandleValueFromMouse | Widgets/MultiHandleSlider.cpp:112-123 | only the active handle changes, to the clamped value under the mouse |
| MultiHandleSlider.MultiHandleSlider.OnMouseMove | Widgets/MultiHandleSlider.cpp:89-99 | with an active handle it is dragged and the event handled; otherwise unhandled and unchanged |
| MultiHandleSlider.MultiHandleSlider.OnMouseButtonUp | Widgets/MultiHandleSlider.cpp:101-110 | handled iff a handle was active; afterwards none is |

## Left out

- Floating point: reals replace single-precision floats. There is no rounding, NaN or infinity, except where written out (`FLT_MAX`, the float square root of 2, truncation to bytes and the +infinity in `SlopeEffect`).
- 32-bit wrap-around of `int32` index arithmetic is not modelled; sizes are bounded by `Int32Max` where the search needs it.
- Concurrency: every `ParallelFor` runs in index order. The unguarded `counter--` race in the parallel classification is not reproduced.
- `TMap` iteration order: the tally lists names in first-insertion order, and the stream-path map is a sequence of seasons in iteration order.
- String comparison: `FString ==` and `TMap<FString, …>` key lookup ignore case, while the model compares strings exactly (`candidates[0] != "Unknown Biome"`, membership in the colour and weight maps, the ocean-current names). Every compared string is a program constant, so no input tells them apart.
- File I/O: `LoadFileToArray` is an `Option` of bytes. `SaveStringToFile` and its log messages are not modelled; `LogBiomeDataToCsv` returns the content.
- `UE_LOG` messages are not modelled.
- `%f` formatting is a function parameter of `LoggingUtils`, and `%d` is exact decimal digits.
- The cosine is a bounded function parameter, and the inverse square root of `GetSafeNormal` a positive one.
- HeightmapParser.FloorSqrt: the float square root truncated to `int32` is taken to be the exact integer square root. Float rounding of `FMath::Sqrt` on very large counts is not modelled.
- HeightmapParser.ParseHeightmap: requires the file to have at most `Int32Max` bytes, as an engine `TArray` does.
- DistanceToOcean.CalculateDistanceToOcean: requires at most `Int32Max` cells, the size of an engine `TArray`.
- FlowRouting.SortByAltitude: the unstable engine sort is modelled as a functional insertion sort. `SweepOrderIndependent` shows the accumulation is the same for every descending order.
- Hydrology.StreamThreshold: requires Resolution.X + Resolution.Y != 0. The source's division by zero gives an infinity, which the model does not represent.
- Hydrology.StreamThreshold: reads `Cell.RelativeHumidity`, which the shown `FHeightmapCell` lacks, so relative humidity is a parameter.
- Hydrology.AdjustFlowForEnvironment: the by-reference flow is returned as a value. The day of the year and the planet time it receives are unused and not passed.
- Hydrology.GenerateVisualizationTexture: requires a non-empty grid when stream points exist, because the source indexes out of bounds otherwise.
- Hydrology.GenerateVisualizationTexture: stream points are an input. `AnalyzeHydrology` (nested `ParallelFor`, a `sin` multiplier, an unlocked map insert) is not part of this model.
- OceanTemperature.CalculateOceanTemp: requires DistanceToOcean != -1000, where the source divides by zero.
- Temperature.CalculateSurfaceTemperature: requires a nonzero year length; the year length is passed in place of the `FPlanetTime` it is read from.
- MultiHandleSlider: geometry is a local y coordinate and height. Mouse capture, painting (`OnPaint`, `DrawSliderBar`, `DrawHandles`) and the `OnValueChanged` delegate are not modelled.
- MultiHandleSlider.MultiHandleSlider.UpdateHandleValueFromMouse: requires an active handle, which its only caller checks, and height > 0. The height bound is how the model abstracts the widget geometry; no caller guarantees it. A zero-height widget divides by zero at Widgets/MultiHandleSlider.cpp:116, and the clamp then returns one end of the range. That path is not modelled.
- MultiHandleSlider.ValueFromMouse: requires height > 0 for the same reason; its range bounds are stated for MinValue <= MaxValue only. With MinValue > MaxValue the clamp returns one of the two ends, and no in-range property applies.
- MultiHandleSlider.MultiHandleSlider.OnMouseMove: requires height > 0 for the same reason, so the zero-height path through Widgets/MultiHandleSlider.cpp:93 is not modelled either.
- PlanetTime.PlanetTimeSingleton.GetInstance: requires the instance to exist, as the source dereferences it.
- PlanetTime: the getters return fields; only `GetDayLengthSeconds` carries a contract, its agreement with the hours and minutes.
- CalculateOceanDepth is positive below sea level. This follows the code, not the doc comment at Public/Altitude.h:18.
- `ClosestOceanCurrentType` is declared a float but initialised with "Warm"; it is kept as a string.
- `CalculateBiomeFromInput` takes a sea level it never reads.
- Not part of this model:
  - Private/HydrologyCalculator.cpp, an older variant whose calls do not match their definitions;
  - Private/Humidity.cpp, which is random;
  - Private/SlopeAndAspect.cpp, Private/PressureBasedWind.cpp and Private/UnifiedWindCalculator.cpp, which are trigonometric;
  - Private/Preprocessing.cpp, which is orchestration calling code that is not shown;
  - the widgets other than the slider, and the editor-mode and toolkit code.

## Findings

| source | as written | input that shows it | evidently intended | confidence | as-written member | corrected member |
|---|---|---|---|---|---|---|
| Private/BiomeCalculator.cpp:20 | the colour map key is "Taiga and Boreal Forests", but rule 13 (line 123) and the weight map name the biome "Taiga (Boreal Forest)" | a Land cell at -20 degrees and 500 mm: the only candidate is the taiga; it wins with score 690, and the cell is stored as "Unknown" in black | the key matches the rule name, so taiga cells get colour #084f45 | high, not executed | BiomeCalculator.TaigaLosesItsColour | BiomeCalculator.EveryBiomeHasAColour |

The classification methods follow the map as written, `BiomeColorMap`, so the calculator's pass loses the taiga colour (`TaigaLosesItsColour`). The corrected map, `CorrectedBiomeColorMap`, gives every classified name a colour (`EveryBiomeHasAColour`, `ClassifiedCellNamesItsBiome`).
