/** Biome classification (`UBiomeCalculator`): a table of temperature/precipitation
    boxes proposes candidates, the weighted choice picks one, and a colour map gives the
    cell its biome type and colour. A file-level `counter` limits how many unmatched
    calls receive the "Unknown Biome" fallback. */
module BiomeCalculator {
  import opened Common
  import opened HeightmapCell
  import opened BiomeWeightedProbability

  // ---------------------------------------------------------------------------
  // The rule table of `FilterBiomeCandidates`
  // ---------------------------------------------------------------------------

  datatype Lower = NoLower | AtLeast(lo: real) | Above(lo: real)

  datatype Upper = NoUpper | AtMost(hi: real) | Below(hi: real)

  /** One row: a biome and its temperature and precipitation box. */
  datatype Rule = Rule(name: string, tLow: Lower, tHigh: Upper, pLow: Lower, pHigh: Upper)

  predicate AboveLower(b: Lower, x: real)
  {
    match b
    case NoLower => true
    case AtLeast(lo) => x >= lo
    case Above(lo) => x > lo
  }

  predicate BelowUpper(b: Upper, x: real)
  {
    match b
    case NoUpper => true
    case AtMost(hi) => x <= hi
    case Below(hi) => x < hi
  }

  predicate Holds(r: Rule, temperature: real, precipitation: real)
  {
    AboveLower(r.tLow, temperature) && BelowUpper(r.tHigh, temperature) &&
    AboveLower(r.pLow, precipitation) && BelowUpper(r.pHigh, precipitation)
  }

  /** The number of rows of the table. */
  const RuleCount: nat := 14

  /** Row `k` of the table, in the order the source tests them. */
  function RuleAt(k: nat): (r: Rule)
    requires k < RuleCount
    ensures r.name in BiomeWeightMap && r.name != UnknownBiome
  {
    if k == 0 then Rule("Tropical Rainforest", AtLeast(20.0), AtMost(35.0), AtLeast(2000.0), NoUpper)
    else if k == 1 then Rule("Tropical Monsoon Forests", AtLeast(15.0), AtMost(35.0), AtLeast(1000.0), NoUpper)
    else if k == 2 then Rule("Savanna", AtLeast(20.0), AtMost(30.0), AtLeast(500.0), AtMost(1500.0))
    else if k == 3 then Rule("Temperate Steppe and Savanna", AtLeast(-5.0), AtMost(25.0), AtLeast(250.0), AtMost(750.0))
    else if k == 4 then Rule("Temperate Broadleaf", AtLeast(-30.0), AtMost(30.0), AtLeast(750.0), AtMost(2000.0))
    else if k == 5 then Rule("Subtropical Evergreen Forest", AtLeast(10.0), AtMost(26.0), AtLeast(1000.0), Below(2500.0))
    else if k == 6 then Rule("Mediterranean", Above(10.0), AtMost(40.0), AtLeast(400.0), AtMost(900.0))
    else if k == 7 then Rule("Xeric Shrubland", AtLeast(10.0), AtMost(40.0), AtLeast(100.0), AtMost(400.0))
    else if k == 8 then Rule("Dry Forest and Woodland Savanna", AtLeast(10.0), AtMost(40.0), AtLeast(400.0), AtMost(1250.0))
    else if k == 9 then Rule("Hot Arid Desert", Above(30.0), NoUpper, NoLower, Below(250.0))
    else if k == 10 then Rule("Tundra", Above(-34.0), Below(12.0), NoLower, AtMost(250.0))
    else if k == 11 then Rule("Montane Forests and Grasslands", AtLeast(0.0), AtMost(15.0), Above(1000.0), AtMost(2200.0))
    else if k == 12 then Rule("Taiga (Boreal Forest)", AtLeast(-54.0), AtMost(15.0), AtLeast(250.0), AtMost(750.0))
    else Rule("Cold or Polar Desert", NoLower, Below(5.0), NoLower, Below(250.0))
  }

  /** The names of the first `k` rows that hold, in row order. */
  function Matching(k: nat, temperature: real, precipitation: real): (r: seq<string>)
    requires k <= RuleCount
    ensures |r| <= k
  {
    if k == 0 then []
    else
      Matching(k - 1, temperature, precipitation) +
      (if Holds(RuleAt(k - 1), temperature, precipitation) then [RuleAt(k - 1).name] else [])
  }

  /** The table's candidates for a temperature and a precipitation. */
  function RuleMatches(temperature: real, precipitation: real): seq<string>
  {
    Matching(RuleCount, temperature, precipitation)
  }

  /** A name is a candidate exactly when some row of that name holds. */
  lemma {:induction false} MatchingIff(k: nat, temperature: real, precipitation: real, name: string)
    requires k <= RuleCount
    ensures name in Matching(k, temperature, precipitation) <==>
            exists j :: 0 <= j < k && RuleAt(j).name == name && Holds(RuleAt(j), temperature, precipitation)
  {
    if k > 0 {
      MatchingIff(k - 1, temperature, precipitation, name);
    }
  }

  /** Every candidate is the name of some row of the table. */
  lemma {:induction false} MatchingNames(k: nat, temperature: real, precipitation: real)
    requires k <= RuleCount
    ensures forall n :: n in Matching(k, temperature, precipitation) ==> exists j :: 0 <= j < k && RuleAt(j).name == n
  {
    if k > 0 {
      MatchingNames(k - 1, temperature, precipitation);
    }
  }

  const RuleNames: set<string> := {
    "Tropical Rainforest", "Tropical Monsoon Forests", "Savanna", "Temperate Steppe and Savanna",
    "Temperate Broadleaf", "Subtropical Evergreen Forest", "Mediterranean", "Xeric Shrubland",
    "Dry Forest and Woodland Savanna", "Hot Arid Desert", "Tundra", "Montane Forests and Grasslands",
    "Taiga (Boreal Forest)", "Cold or Polar Desert"
  }

  lemma RuleNamesListed()
    ensures forall k :: 0 <= k < RuleCount ==> RuleAt(k).name in RuleNames
  {
  }

  /** The table never proposes "Unknown Biome", every candidate is a non-empty name with
      weights, and each rule's name is a key of the weight map. */
  lemma CandidatesAreWeighted(temperature: real, precipitation: real)
    ensures forall n :: n in RuleMatches(temperature, precipitation) ==>
      n in RuleNames && n in BiomeWeightMap && n != UnknownBiome && n != ""
  {
    MatchingNames(RuleCount, temperature, precipitation);
    RuleNamesListed();
  }

  // ---------------------------------------------------------------------------
  // Colours
  // ---------------------------------------------------------------------------

  /** `BiomeColorMap` as written; `FColor::FromHex` of six digits gives an opaque colour. */
  const BiomeColorMap: map<string, Color> := map[
    "Tropical Rainforest" := Color(0x00, 0x64, 0x00, 255),
    "Tropical Monsoon Forests" := Color(0x22, 0x8B, 0x22, 255),
    "Savanna" := Color(0xF5, 0xDE, 0xB3, 255),
    "Temperate Steppe and Savanna" := Color(0x8b, 0x7d, 0x63, 255),
    "Temperate Broadleaf" := Color(0x87, 0x71, 0x16, 255),
    "Subtropical Evergreen Forest" := Color(0x89, 0xb8, 0x55, 255),
    "Mediterranean" := Color(0x51, 0x30, 0x58, 255),
    "Xeric Shrubland" := Color(0xc4, 0x94, 0x7c, 255),
    "Dry Forest and Woodland Savanna" := Color(0x59, 0x46, 0x3a, 255),
    "Hot Arid Desert" := Color(0x78, 0x27, 0x13, 255),
    "Tundra" := Color(0x30, 0xab, 0xf8, 255),
    "Montane Forests and Grasslands" := Color(0x07, 0x78, 0x91, 255),
    "Taiga and Boreal Forests" := Color(0x08, 0x4f, 0x45, 255),
    "Cold or Polar Desert" := Color(0xD3, 0xD3, 0xD3, 255)
  ]

  /** The colour map with its taiga entry under the name the rule table and the weight
      map use. */
  const CorrectedBiomeColorMap: map<string, Color> :=
    (BiomeColorMap - {"Taiga and Boreal Forests"})["Taiga (Boreal Forest)" := Color(0x08, 0x4f, 0x45, 255)]

  /** The map as written colours every rule name but the taiga's, with an opaque colour,
      and holds one extra key, "Taiga and Boreal Forests". */
  lemma ColourMapCoversRulesButTaiga()
    ensures forall k :: 0 <= k < RuleCount ==> (RuleAt(k).name in BiomeColorMap <==> RuleAt(k).name != "Taiga (Boreal Forest)")
    ensures forall n :: n in BiomeColorMap ==> BiomeColorMap[n].a == 255
    ensures forall n :: n in BiomeColorMap ==> n in RuleNames || n == "Taiga and Boreal Forests"
    ensures "Taiga and Boreal Forests" !in RuleNames
  {
    TaigaHasNoColour();
    RuleNamesListed();
    assert "Taiga and Boreal Forests"[6] == 'a';
    assert "Taiga (Boreal Forest)"[6] == '(';
  }

  /** The corrected map has exactly the rule names as keys, every colour opaque, and
      gives the taiga the colour the map as written files under its other name. */
  lemma CorrectedMapKeysAreRuleNames()
    ensures forall n :: n in CorrectedBiomeColorMap <==> n in RuleNames
    ensures forall n :: n in CorrectedBiomeColorMap ==> CorrectedBiomeColorMap[n].a == 255
    ensures CorrectedBiomeColorMap["Taiga (Boreal Forest)"] == BiomeColorMap["Taiga and Boreal Forests"]
    ensures forall n :: n in BiomeColorMap && n in CorrectedBiomeColorMap ==> CorrectedBiomeColorMap[n] == BiomeColorMap[n]
  {
    ColourMapCoversRulesButTaiga();
  }

  /** The assignment at the end of `CalculateBiome`: a name found in the colour map is
      stored with its colour, anything else becomes "Unknown" in black. */
  function AssignBiome(cell: Cell, biome: string, colors: map<string, Color>): (c: Cell)
    ensures c == cell.(biomeType := c.biomeType, biomeColor := c.biomeColor)
    ensures biome != "" && biome in colors ==> c.biomeType == biome && c.biomeColor == colors[biome]
    ensures !(biome != "" && biome in colors) ==> c.biomeType == "Unknown" && c.biomeColor == Black
  {
    if biome != "" && biome in colors then cell.(biomeType := biome, biomeColor := colors[biome])
    else cell.(biomeType := "Unknown", biomeColor := Black)
  }

  // ---------------------------------------------------------------------------
  // One cell
  // ---------------------------------------------------------------------------

  /** The name `CalculateBiome` returns. It does not depend on the counter: without a
      match the fallback list ["Unknown Biome"] and the empty list both give "Unknown Biome". */
  function BiomeOf(temperature: real, precipitation: real): string
  {
    var c := RuleMatches(temperature, precipitation);
    if |c| > 0 && c[0] != UnknownBiome then WeightedBest(temperature, precipitation, c) else UnknownBiome
  }

  /** The result is "Unknown Biome" or a name of the table, so it is never empty. */
  lemma BiomeOfIsKnownOrUnknown(temperature: real, precipitation: real)
    ensures BiomeOf(temperature, precipitation) == UnknownBiome ||
            (BiomeOf(temperature, precipitation) in RuleMatches(temperature, precipitation) &&
             BiomeOf(temperature, precipitation) in RuleNames)
    ensures BiomeOf(temperature, precipitation) != ""
  {
    CandidatesAreWeighted(temperature, precipitation);
    WeightedBestIsCandidate(temperature, precipitation, RuleMatches(temperature, precipitation));
  }

  /** With no matching row the result is "Unknown Biome"; with matches, it is
      "Unknown Biome" only when no candidate scores above zero. */
  lemma BiomeOfUnknownIff(temperature: real, precipitation: real)
    ensures BiomeOf(temperature, precipitation) == UnknownBiome <==>
      |Kept(RuleMatches(temperature, precipitation), temperature, precipitation)| == 0
  {
    var c := RuleMatches(temperature, precipitation);
    CandidatesAreWeighted(temperature, precipitation);
    UnknownIffNoneKept(temperature, precipitation, c);
    if |c| == 0 {
      assert Kept(c, temperature, precipitation) == [];
    } else {
      assert c[0] in c;
    }
  }

  /** The counter after one call of `FilterBiomeCandidates`. */
  function CounterAfterCall(counter: int, temperature: real, precipitation: real): (r: int)
    ensures counter <= 0 ==> r == counter
    ensures counter > 0 ==> 0 <= r && (r == counter || r == counter - 1)
    ensures |RuleMatches(temperature, precipitation)| > 0 ==> r == counter
  {
    if |RuleMatches(temperature, precipitation)| == 0 && counter > 0 then counter - 1 else counter
  }

  // ---------------------------------------------------------------------------
  // Many cells
  // ---------------------------------------------------------------------------

  /** The inclusive latitude, longitude and altitude ranges of `CalculateBiomeFromInput`. */
  datatype Ranges = Ranges(minLatitude: real, maxLatitude: real, minLongitude: real, maxLongitude: real,
                           minAltitude: real, maxAltitude: real)

  predicate ValidRanges(r: Ranges)
  {
    r.minLatitude <= r.maxLatitude && r.minLongitude <= r.maxLongitude && r.minAltitude <= r.maxAltitude
  }

  /** A cell is classified when it is Land and inside all three ranges. */
  predicate Selected(cell: Cell, r: Ranges)
  {
    cell.cellType == Land &&
    r.minLatitude <= cell.latitude <= r.maxLatitude &&
    r.minLongitude <= cell.longitude <= r.maxLongitude &&
    r.minAltitude <= cell.altitude <= r.maxAltitude
  }

  function CellBiome(cell: Cell): string
  {
    BiomeOf(cell.temperature, cell.annualPrecipitation)
  }

  lemma CellBiomeNonEmpty(cell: Cell)
    ensures CellBiome(cell) != ""
  {
    BiomeOfIsKnownOrUnknown(cell.temperature, cell.annualPrecipitation);
  }

  /** A cell after the pass with the colour map `colors`: classified when selected,
      untouched otherwise. The calculator uses `BiomeColorMap`. */
  function ClassifiedCell(cell: Cell, r: Ranges, colors: map<string, Color>): Cell
  {
    if Selected(cell, r) then AssignBiome(cell, CellBiome(cell), colors) else cell
  }

  /** The pass changes at most the biome type and colour of a cell, and only of a selected
      one; the type is a rule name or "Unknown" for any map without an "Unknown Biome" key. */
  lemma ClassificationTouchesOnlyBiome(cell: Cell, r: Ranges, colors: map<string, Color>)
    requires UnknownBiome !in colors
    ensures ClassifiedCell(cell, r, colors) == cell.(biomeType := ClassifiedCell(cell, r, colors).biomeType,
                                                     biomeColor := ClassifiedCell(cell, r, colors).biomeColor)
    ensures !Selected(cell, r) ==> ClassifiedCell(cell, r, colors) == cell
    ensures Selected(cell, r) ==> ClassifiedCell(cell, r, colors).biomeType in RuleNames + {"Unknown"}
  {
    if Selected(cell, r) {
      BiomeOfIsKnownOrUnknown(cell.temperature, cell.annualPrecipitation);
    }
  }

  function SelectedCount(cells: seq<Cell>, r: Ranges): nat
  {
    if |cells| == 0 then 0
    else SelectedCount(cells[..|cells| - 1], r) + (if Selected(cells[|cells| - 1], r) then 1 else 0)
  }

  /** How many selected cells have no matching row. */
  function UnmatchedCount(cells: seq<Cell>, r: Ranges): nat
  {
    if |cells| == 0 then 0
    else
      var c := cells[|cells| - 1];
      UnmatchedCount(cells[..|cells| - 1], r) +
      (if Selected(c, r) && |RuleMatches(c.temperature, c.annualPrecipitation)| == 0 then 1 else 0)
  }

  /** The counter after classifying `cells` in order. */
  function CounterAfter(counter: int, cells: seq<Cell>, r: Ranges): int
  {
    if |cells| == 0 then counter
    else
      var c := cells[|cells| - 1];
      var before := CounterAfter(counter, cells[..|cells| - 1], r);
      if Selected(c, r) then CounterAfterCall(before, c.temperature, c.annualPrecipitation) else before
  }

  function Positive(x: int): int
  {
    if x >= 0 then x else 0
  }

  /** Each unmatched classification takes one from a positive counter, down to 0. */
  lemma {:induction false} CounterFormula(counter: int, cells: seq<Cell>, r: Ranges)
    ensures counter <= 0 ==> CounterAfter(counter, cells, r) == counter
    ensures counter > 0 ==> CounterAfter(counter, cells, r) == Positive(counter - UnmatchedCount(cells, r))
  {
    if |cells| > 0 {
      CounterFormula(counter, cells[..|cells| - 1], r);
    }
  }

  /** The distinct biome names in first-occurrence order and their counts: the
      `UniqueBiomes` map, whose iteration follows insertion order. */
  datatype Tally = Tally(names: seq<string>, counts: map<string, int>)

  function AddName(t: Tally, b: string): Tally
  {
    if b in t.counts then Tally(t.names, t.counts[b := t.counts[b] + 1])
    else Tally(t.names + [b], t.counts[b := 1])
  }

  function TallyOf(cells: seq<Cell>, r: Ranges): Tally
  {
    if |cells| == 0 then Tally([], map[])
    else
      var t := TallyOf(cells[..|cells| - 1], r);
      var c := cells[|cells| - 1];
      if Selected(c, r) && CellBiome(c) != "" then AddName(t, CellBiome(c)) else t
  }

  /** One more cell of the pass: the tally and the counter after `i + 1` cells. */
  lemma PassStep(counter: int, cells: seq<Cell>, i: nat, r: Ranges)
    requires i < |cells|
    ensures var c := cells[i];
      TallyOf(cells[..i + 1], r) ==
        (if Selected(c, r) && CellBiome(c) != "" then AddName(TallyOf(cells[..i], r), CellBiome(c)) else TallyOf(cells[..i], r))
    ensures var c := cells[i];
      CounterAfter(counter, cells[..i + 1], r) ==
        (if Selected(c, r) then CounterAfterCall(CounterAfter(counter, cells[..i], r), c.temperature, c.annualPrecipitation)
         else CounterAfter(counter, cells[..i], r))
  {
    assert cells[..i + 1][..i] == cells[..i];
  }

  /** How many selected cells are given biome `b`. */
  function Occurrences(cells: seq<Cell>, r: Ranges, b: string): nat
  {
    if |cells| == 0 then 0
    else
      var c := cells[|cells| - 1];
      Occurrences(cells[..|cells| - 1], r, b) + (if Selected(c, r) && CellBiome(c) == b then 1 else 0)
  }

  function SumCounts(names: seq<string>, counts: map<string, int>): int
    requires forall n :: n in names ==> n in counts
  {
    if |names| == 0 then 0 else SumCounts(names[..|names| - 1], counts) + counts[names[|names| - 1]]
  }

  predicate Distinct(s: seq<string>)
  {
    forall i, j :: 0 <= i < j < |s| ==> s[i] != s[j]
  }

  predicate WellFormed(t: Tally)
  {
    Distinct(t.names) && (forall n :: n in t.names ==> n in t.counts) && (forall n :: n in t.counts ==> n in t.names)
  }

  lemma {:induction false} SumCountsFrame(names: seq<string>, counts: map<string, int>, b: string, v: int)
    requires forall n :: n in names ==> n in counts
    requires b !in names
    ensures SumCounts(names, counts[b := v]) == SumCounts(names, counts)
  {
    if |names| > 0 {
      SumCountsFrame(names[..|names| - 1], counts, b, v);
    }
  }

  lemma {:induction false} SumCountsBump(names: seq<string>, counts: map<string, int>, b: string)
    requires forall n :: n in names ==> n in counts
    requires Distinct(names) && b in names
    ensures SumCounts(names, counts[b := counts[b] + 1]) == SumCounts(names, counts) + 1
  {
    var init := names[..|names| - 1];
    var last := names[|names| - 1];
    assert forall n :: n in init ==> n in names;
    if last == b {
      assert forall i :: 0 <= i < |init| ==> init[i] == names[i] != last;
      SumCountsFrame(init, counts, b, counts[b] + 1);
    } else {
      assert b in init;
      SumCountsBump(init, counts, b);
    }
  }

  /** The tally lists each name once, and its names are exactly its keys. */
  lemma {:induction false} TallyWellFormed(cells: seq<Cell>, r: Ranges)
    ensures WellFormed(TallyOf(cells, r))
  {
    if |cells| > 0 {
      var init := cells[..|cells| - 1];
      var c := cells[|cells| - 1];
      TallyWellFormed(init, r);
      var t := TallyOf(init, r);
      if Selected(c, r) && CellBiome(c) !in t.counts {
        var names' := t.names + [CellBiome(c)];
        assert forall i :: 0 <= i < |t.names| ==> names'[i] == t.names[i];
        assert Distinct(names');
      }
    }
  }

  /** The tally counts exactly the selected cells of each name. */
  lemma {:induction false} TallyOccurrences(cells: seq<Cell>, r: Ranges, b: string)
    ensures b in TallyOf(cells, r).counts ==> TallyOf(cells, r).counts[b] == Occurrences(cells, r, b) >= 1
    ensures b !in TallyOf(cells, r).counts ==> Occurrences(cells, r, b) == 0
  {
    if |cells| > 0 {
      TallyOccurrences(cells[..|cells| - 1], r, b);
      var c := cells[|cells| - 1];
      if Selected(c, r) {
        CellBiomeNonEmpty(c);
      }
    }
  }

  /** The counts add up to the number of selected cells. */
  lemma {:induction false} TallySum(cells: seq<Cell>, r: Ranges)
    ensures WellFormed(TallyOf(cells, r))
    ensures SumCounts(TallyOf(cells, r).names, TallyOf(cells, r).counts) == SelectedCount(cells, r)
  {
    TallyWellFormed(cells, r);
    if |cells| > 0 {
      var init := cells[..|cells| - 1];
      var c := cells[|cells| - 1];
      TallySum(init, r);
      var t := TallyOf(init, r);
      if Selected(c, r) {
        CellBiomeNonEmpty(c);
        AddNameSum(t, CellBiome(c));
      }
    }
  }

  /** Adding a name to a well-formed tally adds one to the sum of its counts. */
  lemma AddNameSum(t: Tally, b: string)
    requires WellFormed(t)
    ensures forall n :: n in AddName(t, b).names ==> n in AddName(t, b).counts
    ensures SumCounts(AddName(t, b).names, AddName(t, b).counts) == SumCounts(t.names, t.counts) + 1
  {
    if b in t.counts {
      SumCountsBump(t.names, t.counts, b);
    } else {
      SumCountsFrame(t.names, t.counts, b, 1);
      var names' := t.names + [b];
      assert names'[..|names'| - 1] == t.names;
    }
  }

  function ReportLine(name: string, n: int): string
  {
    name + ": " + (if n >= 0 then NatToString(n) else "-" + NatToString(-n)) + " occurrences\n"
  }

  function ReportLines(names: seq<string>, counts: map<string, int>): string
    requires forall n :: n in names ==> n in counts
  {
    if |names| == 0 then "" else ReportLines(names[..|names| - 1], counts) + ReportLine(names[|names| - 1], counts[names[|names| - 1]])
  }

  const InvalidRanges: string := "Invalid input ranges provided."
  const NoValidData: string := "No valid data found in the provided heightmap."
  const ReportHeader: string := "Detected Biomes \n"

  function Report(t: Tally): string
    requires WellFormed(t)
  {
    if |t.names| == 0 then NoValidData else ReportHeader + ReportLines(t.names, t.counts)
  }

  /** The report says there is no valid data exactly when no cell was classified, and
      otherwise starts with the header. */
  lemma ReportShape(cells: seq<Cell>, r: Ranges)
    ensures WellFormed(TallyOf(cells, r))
    ensures Report(TallyOf(cells, r)) == NoValidData <==> SelectedCount(cells, r) == 0
    ensures SelectedCount(cells, r) > 0 ==>
      Report(TallyOf(cells, r)) == ReportHeader + ReportLines(TallyOf(cells, r).names, TallyOf(cells, r).counts)
  {
    TallySum(cells, r);
    var t := TallyOf(cells, r);
    if |t.names| > 0 {
      var last := t.names[|t.names| - 1];
      var line := ReportLine(last, t.counts[last]);
      var report := ReportHeader + ReportLines(t.names, t.counts);
      assert line[|line| - 1] == '\n';
      assert report[|report| - 1] == line[|line| - 1];
      assert NoValidData[|NoValidData| - 1] == '.';
    } else {
      assert SumCounts(t.names, t.counts) == 0;
    }
  }

  // ---------------------------------------------------------------------------
  // The calculator and its counter
  // ---------------------------------------------------------------------------

  /** The file-level `int counter = 100;`: one value, set when the module loads and
      shared by every calculator. */
  class FallbackCounter {
    var value: int

    /** The module load: the counter starts at 100. */
    constructor()
      ensures value == 100
    {
      value := 100;
    }
  }

  /** A calculator. Its methods update the shared fallback counter, which constructing
      a calculator does not reset. */
  class BiomeCalculator {
    const counter: FallbackCounter

    /** A calculator over the module's counter, whose value is left as it is. */
    constructor(shared: FallbackCounter)
      ensures counter == shared
    {
      counter := shared;
    }

    /** `FilterBiomeCandidates`: the names of the holding rows in order; without any,
        "Unknown Biome" while the counter is positive (taking one from it), else nothing. */
    method FilterBiomeCandidates(adjustedTemperature: real, precipitation: real) returns (candidates: seq<string>)
      modifies counter
      ensures |RuleMatches(adjustedTemperature, precipitation)| > 0 ==>
        candidates == RuleMatches(adjustedTemperature, precipitation) && counter.value == old(counter.value)
      ensures |RuleMatches(adjustedTemperature, precipitation)| == 0 && old(counter.value) > 0 ==>
        candidates == [UnknownBiome] && counter.value == old(counter.value) - 1
      ensures |RuleMatches(adjustedTemperature, precipitation)| == 0 && old(counter.value) <= 0 ==>
        candidates == [] && counter.value == old(counter.value)
    {
      candidates := ScanRules(adjustedTemperature, precipitation);
      if |candidates| == 0 && counter.value > 0 {
        candidates := candidates + [UnknownBiome];
        counter.value := counter.value - 1;
      }
    }

    /** `CalculateBiome`: classifies a cell passed by reference, returning the name and
        the updated cell. */
    method CalculateBiome(cell: Cell) returns (biome: string, updated: Cell)
      modifies counter
      ensures biome == CellBiome(cell) && biome != ""
      ensures updated == AssignBiome(cell, biome, BiomeColorMap)
      ensures counter.value == CounterAfterCall(old(counter.value), cell.temperature, cell.annualPrecipitation)
    {
      var candidates := FilterBiomeCandidates(cell.temperature, cell.annualPrecipitation);
      if |candidates| > 0 && candidates[0] != UnknownBiome {
        biome := CalculateBiomeProbabilities(cell.temperature, cell.annualPrecipitation, candidates);
      } else {
        biome := UnknownBiome;
      }
      BiomeOfIsKnownOrUnknown(cell.temperature, cell.annualPrecipitation);
      if biome != "" && biome in BiomeColorMap {
        updated := cell.(biomeType := biome, biomeColor := BiomeColorMap[biome]);
      } else {
        updated := cell.(biomeType := "Unknown", biomeColor := Black);
      }
    }

    /** `CalculateBiomeFromInput`: rejects inverted ranges, classifies every selected
        cell in place, counts the names and writes the report. The sea level is not read. */
    method CalculateBiomeFromInput(minLatitude: real, maxLatitude: real, minLongitude: real, maxLongitude: real,
                                   minAltitude: real, maxAltitude: real, seaLevel: real, heightmapData: array<Cell>)
      returns (result: string)
      modifies counter, heightmapData
      ensures var r := Ranges(minLatitude, maxLatitude, minLongitude, maxLongitude, minAltitude, maxAltitude);
        !ValidRanges(r) ==> result == InvalidRanges && heightmapData[..] == old(heightmapData[..]) && counter.value == old(counter.value)
      ensures var r := Ranges(minLatitude, maxLatitude, minLongitude, maxLongitude, minAltitude, maxAltitude);
        ValidRanges(r) ==>
          WellFormed(TallyOf(old(heightmapData[..]), r)) &&
          result == Report(TallyOf(old(heightmapData[..]), r)) &&
          counter.value == CounterAfter(old(counter.value), old(heightmapData[..]), r) &&
          forall i :: 0 <= i < heightmapData.Length ==> heightmapData[i] == ClassifiedCell(old(heightmapData[i]), r, BiomeColorMap)
    {
      var r := Ranges(minLatitude, maxLatitude, minLongitude, maxLongitude, minAltitude, maxAltitude);
      if minLatitude > maxLatitude || minLongitude > maxLongitude || minAltitude > maxAltitude {
        return InvalidRanges;
      }
      var tally := ClassifyAll(r, heightmapData);
      TallyWellFormed(old(heightmapData[..]), r);
      result := WriteReport(tally);
    }

    /** The report: the empty-data message, or the header and one line per name in
        insertion order. */
    method WriteReport(tally: Tally) returns (result: string)
      requires WellFormed(tally)
      ensures result == Report(tally)
    {
      if |tally.names| == 0 {
        return NoValidData;
      }
      var lines := "";
      var k := 0;
      while k < |tally.names|
        invariant 0 <= k <= |tally.names|
        invariant lines == ReportLines(tally.names[..k], tally.counts)
      {
        assert tally.names[..k + 1][..k] == tally.names[..k] && tally.names[..k + 1][k] == tally.names[k];
        lines := lines + ReportLine(tally.names[k], tally.counts[tally.names[k]]);
        k := k + 1;
      }
      assert tally.names[..k] == tally.names;
      result := ReportHeader + lines;
    }

    /** The per-cell loop (run in order): classification, the counter and the tally. */
    method ClassifyAll(r: Ranges, heightmapData: array<Cell>) returns (tally: Tally)
      modifies counter, heightmapData
      ensures tally == TallyOf(old(heightmapData[..]), r)
      ensures counter.value == CounterAfter(old(counter.value), old(heightmapData[..]), r)
      ensures forall i :: 0 <= i < heightmapData.Length ==> heightmapData[i] == ClassifiedCell(old(heightmapData[i]), r, BiomeColorMap)
    {
      ghost var cells := heightmapData[..];
      tally := Tally([], map[]);
      var i := 0;
      while i < heightmapData.Length
        invariant 0 <= i <= heightmapData.Length
        invariant tally == TallyOf(cells[..i], r)
        invariant counter.value == CounterAfter(old(counter.value), cells[..i], r)
        invariant forall j :: 0 <= j < i ==> heightmapData[j] == ClassifiedCell(cells[j], r, BiomeColorMap)
        invariant forall j :: i <= j < heightmapData.Length ==> heightmapData[j] == cells[j]
      {
        PassStep(old(counter.value), cells, i, r);
        var cell := heightmapData[i];
        assert cell == cells[i];
        ghost var before := heightmapData[..];
        var updated;
        updated, tally := ClassifyCell(r, cell, tally);
        assert heightmapData[..] == before;
        heightmapData[i] := updated;
        assert heightmapData[..] == before[i := ClassifiedCell(cells[i], r, BiomeColorMap)];
        i := i + 1;
      }
      assert cells[..i] == cells;
    }

    /** The body of the per-cell loop: a selected cell is classified and its biome
        counted; any other cell is left as it is. */
    method ClassifyCell(r: Ranges, cell: Cell, tally: Tally) returns (updated: Cell, newTally: Tally)
      modifies counter
      ensures updated == ClassifiedCell(cell, r, BiomeColorMap)
      ensures newTally == if Selected(cell, r) && CellBiome(cell) != "" then AddName(tally, CellBiome(cell)) else tally
      ensures counter.value == if Selected(cell, r) then CounterAfterCall(old(counter.value), cell.temperature, cell.annualPrecipitation)
                         else old(counter.value)
    {
      updated, newTally := cell, tally;
      if cell.cellType == Land &&
         cell.latitude >= r.minLatitude && cell.latitude <= r.maxLatitude &&
         cell.longitude >= r.minLongitude && cell.longitude <= r.maxLongitude &&
         cell.altitude >= r.minAltitude && cell.altitude <= r.maxAltitude
      {
        var biome;
        biome, updated := CalculateBiome(cell);
        if biome != "" {
          if biome in tally.counts {
            newTally := Tally(tally.names, tally.counts[biome := tally.counts[biome] + 1]);
          } else {
            newTally := Tally(tally.names + [biome], tally.counts[biome := 1]);
          }
        }
      }
    }

    /** The fourteen tests of `FilterBiomeCandidates`, in source order (in four groups,
        each proved on its own). */
    method ScanRules(t: real, p: real) returns (candidates: seq<string>)
      ensures candidates == RuleMatches(t, p)
    {
      candidates := [];
      candidates := ScanRowsA(t, p, candidates);
      candidates := ScanRowsB(t, p, candidates);
      candidates := ScanRowsC(t, p, candidates);
      candidates := ScanRowsD(t, p, candidates);
    }

    /** Tests one to four, after the earlier ones. */
    method ScanRowsA(t: real, p: real, before: seq<string>) returns (candidates: seq<string>)
      requires before == Matching(0, t, p)
      ensures candidates == Matching(4, t, p)
    {
      candidates := before;
      if t >= 20.0 && t <= 35.0 && p >= 2000.0 { candidates := candidates + ["Tropical Rainforest"]; }
      assert candidates == Matching(1, t, p);
      if t >= 15.0 && t <= 35.0 && p >= 1000.0 { candidates := candidates + ["Tropical Monsoon Forests"]; }
      assert candidates == Matching(2, t, p);
      if t >= 20.0 && t <= 30.0 && p >= 500.0 && p <= 1500.0 { candidates := candidates + ["Savanna"]; }
      assert candidates == Matching(3, t, p);
      if t >= -5.0 && t <= 25.0 && p >= 250.0 && p <= 750.0 { candidates := candidates + ["Temperate Steppe and Savanna"]; }
    }

    /** Tests five to seven, after the earlier ones. */
    method ScanRowsB(t: real, p: real, before: seq<string>) returns (candidates: seq<string>)
      requires before == Matching(4, t, p)
      ensures candidates == Matching(7, t, p)
    {
      candidates := before;
      if t >= -30.0 && t <= 30.0 && p >= 750.0 && p <= 2000.0 { candidates := candidates + ["Temperate Broadleaf"]; }
      assert candidates == Matching(5, t, p);
      if t >= 10.0 && t <= 26.0 && p >= 1000.0 && p < 2500.0 { candidates := candidates + ["Subtropical Evergreen Forest"]; }
      assert candidates == Matching(6, t, p);
      if t > 10.0 && t <= 40.0 && p >= 400.0 && p <= 900.0 { candidates := candidates + ["Mediterranean"]; }
    }

    /** Tests eight to eleven, after the earlier ones. */
    method ScanRowsC(t: real, p: real, before: seq<string>) returns (candidates: seq<string>)
      requires before == Matching(7, t, p)
      ensures candidates == Matching(11, t, p)
    {
      candidates := before;
      if t >= 10.0 && t <= 40.0 && p >= 100.0 && p <= 400.0 { candidates := candidates + ["Xeric Shrubland"]; }
      assert candidates == Matching(8, t, p);
      if t >= 10.0 && t <= 40.0 && p >= 400.0 && p <= 1250.0 { candidates := candidates + ["Dry Forest and Woodland Savanna"]; }
      assert candidates == Matching(9, t, p);
      if t > 30.0 && p < 250.0 { candidates := candidates + ["Hot Arid Desert"]; }
      assert candidates == Matching(10, t, p);
      if t > -34.0 && t < 12.0 && p <= 250.0 { candidates := candidates + ["Tundra"]; }
    }

    /** Tests twelve to fourteen, after the earlier ones. */
    method ScanRowsD(t: real, p: real, before: seq<string>) returns (candidates: seq<string>)
      requires before == Matching(11, t, p)
      ensures candidates == Matching(14, t, p)
    {
      candidates := before;
      if t >= 0.0 && t <= 15.0 && p > 1000.0 && p <= 2200.0 { candidates := candidates + ["Montane Forests and Grasslands"]; }
      assert candidates == Matching(12, t, p);
      if t >= -54.0 && t <= 15.0 && p >= 250.0 && p <= 750.0 { candidates := candidates + ["Taiga (Boreal Forest)"]; }
      assert candidates == Matching(13, t, p);
      if t < 5.0 && p < 250.0 { candidates := candidates + ["Cold or Polar Desert"]; }
    }
  }

  // ---------------------------------------------------------------------------
  // The colour map's taiga entry
  // ---------------------------------------------------------------------------

  lemma TaigaRowsFirst()
    ensures Matching(4, -20.0, 500.0) == []
  {
    assert !Holds(RuleAt(0), -20.0, 500.0);
    assert !Holds(RuleAt(1), -20.0, 500.0);
    assert !Holds(RuleAt(2), -20.0, 500.0);
    assert !Holds(RuleAt(3), -20.0, 500.0);
  }

  lemma TaigaRowsMiddle()
    ensures Matching(8, -20.0, 500.0) == []
  {
    assert !Holds(RuleAt(4), -20.0, 500.0);
    assert !Holds(RuleAt(5), -20.0, 500.0);
    assert !Holds(RuleAt(6), -20.0, 500.0);
    assert !Holds(RuleAt(7), -20.0, 500.0);
    TaigaRowsFirst();
  }

  lemma TaigaRowsLast()
    ensures Matching(12, -20.0, 500.0) == []
  {
    assert !Holds(RuleAt(8), -20.0, 500.0);
    assert !Holds(RuleAt(9), -20.0, 500.0);
    assert !Holds(RuleAt(10), -20.0, 500.0);
    assert !Holds(RuleAt(11), -20.0, 500.0);
    TaigaRowsMiddle();
  }

  /** At -20 degrees and 500 millimetres only the taiga row holds. */
  lemma TaigaCandidates()
    ensures RuleMatches(-20.0, 500.0) == ["Taiga (Boreal Forest)"]
  {
    TaigaRowsLast();
    assert Matching(13, -20.0, 500.0) == ["Taiga (Boreal Forest)"];
  }

  /** A cold, moderately wet cell matches only the taiga row and is classified as
      "Taiga (Boreal Forest)", a name the colour map as written lacks, so the calculator's
      pass paints the selected cell "Unknown" in black. */
  lemma TaigaLosesItsColour(cell: Cell, r: Ranges)
    requires cell.temperature == -20.0 && cell.annualPrecipitation == 500.0 && Selected(cell, r)
    ensures CellBiome(cell) == "Taiga (Boreal Forest)"
    ensures ClassifiedCell(cell, r, BiomeColorMap).biomeType == "Unknown"
    ensures ClassifiedCell(cell, r, BiomeColorMap).biomeColor == Black
  {
    TaigaWins();
    TaigaHasNoColour();
  }

  /** The only candidate scores 3.0 * -20 + 1.5 * 500 = 690 and wins. */
  lemma TaigaWins()
    ensures BiomeOf(-20.0, 500.0) == "Taiga (Boreal Forest)"
  {
    TaigaCandidates();
    var c := RuleMatches(-20.0, 500.0);
    assert Kept(c[..0], -20.0, 500.0) == [];
    assert c[..1] == c;
    assert Score(BiomeWeightMap["Taiga (Boreal Forest)"], -20.0, 500.0) == 690.0;
    assert Kept(c, -20.0, 500.0) == [Scored("Taiga (Boreal Forest)", 690.0)];
  }

  /** The colour map as written has no key "Taiga (Boreal Forest)". */
  lemma TaigaHasNoColour()
    ensures "Taiga (Boreal Forest)" !in BiomeColorMap
  {
    assert "Taiga (Boreal Forest)"[6] == '(' && "Taiga and Boreal Forests"[6] == 'a';
  }

  /** With the corrected map every name the classification can produce has a colour,
      so a classified cell carries either its biome or "Unknown Biome"'s fallback. */
  lemma EveryBiomeHasAColour(temperature: real, precipitation: real)
    ensures BiomeOf(temperature, precipitation) == UnknownBiome ||
            BiomeOf(temperature, precipitation) in CorrectedBiomeColorMap
  {
    BiomeOfIsKnownOrUnknown(temperature, precipitation);
    assert forall n :: n in RuleNames ==> n in CorrectedBiomeColorMap;
  }

  /** A selected cell classified with the corrected map gets its biome's name unless the
      name is "Unknown Biome". */
  lemma ClassifiedCellNamesItsBiome(cell: Cell, r: Ranges)
    requires Selected(cell, r) && CellBiome(cell) != UnknownBiome
    ensures ClassifiedCell(cell, r, CorrectedBiomeColorMap).biomeType == CellBiome(cell)
    ensures ClassifiedCell(cell, r, CorrectedBiomeColorMap).biomeColor == CorrectedBiomeColorMap[CellBiome(cell)]
  {
    EveryBiomeHasAColour(cell.temperature, cell.annualPrecipitation);
    BiomeOfIsKnownOrUnknown(cell.temperature, cell.annualPrecipitation);
  }
}
