/** The weighted choice among biome candidates (`BiomeWeightedProbability`): each
    candidate with known weights scores `TemperatureWeight * T + PrecipitationWeight * P`,
    only positive scores are kept, and the first candidate of greatest normalised
    score wins. */
module BiomeWeightedProbability {

  const UnknownBiome: string := "Unknown Biome"

  datatype BiomeWeights = BiomeWeights(temperatureWeight: real, precipitationWeight: real)

  /** `BiomeWeightMap`. */
  const BiomeWeightMap: map<string, BiomeWeights> := map[
    "Tropical Rainforest" := BiomeWeights(1.5, 3.0),
    "Savanna" := BiomeWeights(2.0, 2.5),
    "Tropical Monsoon Forests" := BiomeWeights(1.8, 2.7),
    "Temperate Steppe and Savanna" := BiomeWeights(1.8, 1.5),
    "Temperate Broadleaf" := BiomeWeights(2.0, 2.0),
    "Subtropical Evergreen Forest" := BiomeWeights(2.0, 2.0),
    "Mediterranean" := BiomeWeights(1.5, 2.0),
    "Xeric Shrubland" := BiomeWeights(2.5, 0.7),
    "Dry Forest and Woodland Savanna" := BiomeWeights(2.0, 2.5),
    "Hot Arid Desert" := BiomeWeights(3.0, 0.5),
    "Tundra" := BiomeWeights(3.0, 0.8),
    "Montane Forests and Grasslands" := BiomeWeights(2.5, 2.0),
    "Taiga (Boreal Forest)" := BiomeWeights(3.0, 1.5),
    "Cold or Polar Desert" := BiomeWeights(3.5, 0.5)
  ]

  /** Every weight of every weighted biome is positive; "Unknown Biome" has none. */
  lemma WeightsArePositive()
    ensures forall n :: n in BiomeWeightMap ==>
      BiomeWeightMap[n].temperatureWeight > 0.0 && BiomeWeightMap[n].precipitationWeight > 0.0
    ensures UnknownBiome !in BiomeWeightMap
  {
  }

  /** A candidate and its score (the `TPair<FString, float>` entries). */
  datatype Scored = Scored(name: string, value: real)

  function Score(w: BiomeWeights, temperature: real, precipitation: real): real
  {
    w.temperatureWeight * temperature + w.precipitationWeight * precipitation
  }

  /** The scored candidates the first loop keeps, in candidate order: those with
      weights and a positive score. */
  function Kept(candidates: seq<string>, temperature: real, precipitation: real): (r: seq<Scored>)
    ensures forall k :: 0 <= k < |r| ==> r[k].value > 0.0
    ensures forall k :: 0 <= k < |r| ==> r[k].name in candidates && r[k].name in BiomeWeightMap
    ensures |r| <= |candidates|
  {
    if |candidates| == 0 then []
    else
      var init := Kept(candidates[..|candidates| - 1], temperature, precipitation);
      var c := candidates[|candidates| - 1];
      if c in BiomeWeightMap && Score(BiomeWeightMap[c], temperature, precipitation) > 0.0 then
        init + [Scored(c, Score(BiomeWeightMap[c], temperature, precipitation))]
      else init
  }

  /** A candidate is kept exactly when it has weights and a positive score. */
  lemma {:induction false} KeptIff(candidates: seq<string>, temperature: real, precipitation: real, c: string)
    ensures (exists k :: 0 <= k < |Kept(candidates, temperature, precipitation)| &&
                         Kept(candidates, temperature, precipitation)[k].name == c) <==>
            (c in candidates && c in BiomeWeightMap && Score(BiomeWeightMap[c], temperature, precipitation) > 0.0)
  {
    if |candidates| > 0 {
      var init := candidates[..|candidates| - 1];
      var last := candidates[|candidates| - 1];
      KeptIff(init, temperature, precipitation, c);
      assert candidates == init + [last];
      var r := Kept(candidates, temperature, precipitation);
      var ri := Kept(init, temperature, precipitation);
      var keepLast := last in BiomeWeightMap && Score(BiomeWeightMap[last], temperature, precipitation) > 0.0;
      assert keepLast ==> r == ri + [Scored(last, Score(BiomeWeightMap[last], temperature, precipitation))];
      assert !keepLast ==> r == ri;
      if exists k :: 0 <= k < |r| && r[k].name == c {
        var k :| 0 <= k < |r| && r[k].name == c;
        if k < |ri| {
          assert ri[k] == r[k];
        } else {
          assert keepLast && c == last;
        }
      }
      if c in candidates && c in BiomeWeightMap && Score(BiomeWeightMap[c], temperature, precipitation) > 0.0 {
        if c in init {
          var k :| 0 <= k < |ri| && ri[k].name == c;
          assert r[k] == ri[k];
        } else {
          assert c == last;
          assert r[|r| - 1].name == c;
        }
      }
    }
  }

  /** The choice after the first `k` kept entries, on raw scores: the first entry with
      a score strictly above every earlier one, from "Unknown Biome" at 0. */
  function BestPrefix(kept: seq<Scored>, k: nat): (r: Scored)
    requires k <= |kept|
    ensures r.name == UnknownBiome || exists j :: 0 <= j < k && kept[j] == r
  {
    if k == 0 then Scored(UnknownBiome, 0.0)
    else
      var prev := BestPrefix(kept, k - 1);
      if kept[k - 1].value > prev.value then kept[k - 1] else prev
  }

  /** `CalculateBiomeProbabilities`, as specified on raw scores. */
  function WeightedBest(temperature: real, precipitation: real, candidates: seq<string>): (r: string)
    ensures r == UnknownBiome || r in candidates
  {
    var kept := Kept(candidates, temperature, precipitation);
    BestPrefix(kept, |kept|).name
  }

  /** Entry `j` has the greatest score among the first `k`, and every earlier entry a
      strictly smaller one. */
  predicate FirstMaximum(kept: seq<Scored>, k: nat, j: nat)
    requires j < k <= |kept|
  {
    (forall i :: 0 <= i < k ==> kept[i].value <= kept[j].value) &&
    (forall i :: 0 <= i < j ==> kept[i].value < kept[j].value)
  }

  /** With all kept scores positive, the choice is "Unknown Biome" only when nothing is
      kept; otherwise it is an entry with no greater score anywhere and a strictly smaller
      score at every earlier position. */
  lemma {:induction false} BestPrefixIsFirstMaximum(kept: seq<Scored>, k: nat)
    requires k <= |kept| && forall j :: 0 <= j < |kept| ==> kept[j].value > 0.0
    ensures k == 0 <==> BestPrefix(kept, k).value == 0.0
    ensures k > 0 ==> exists j :: 0 <= j < k && kept[j] == BestPrefix(kept, k) && FirstMaximum(kept, k, j)
  {
    if k > 0 {
      BestPrefixIsFirstMaximum(kept, k - 1);
      var prev := BestPrefix(kept, k - 1);
      if kept[k - 1].value > prev.value {
        if k - 1 > 0 {
          var j :| 0 <= j < k - 1 && kept[j] == prev && FirstMaximum(kept, k - 1, j);
        }
        assert forall i :: 0 <= i < k - 1 ==> kept[i].value < kept[k - 1].value;
      }
    }
  }

  /** The result is "Unknown Biome" or one of the candidates. */
  lemma WeightedBestIsCandidate(temperature: real, precipitation: real, candidates: seq<string>)
    ensures WeightedBest(temperature, precipitation, candidates) == UnknownBiome ||
            WeightedBest(temperature, precipitation, candidates) in candidates
  {
  }

  /** "Unknown Biome" comes back exactly when no candidate is kept ("Unknown Biome"
      itself has no weights). */
  lemma UnknownIffNoneKept(temperature: real, precipitation: real, candidates: seq<string>)
    ensures WeightedBest(temperature, precipitation, candidates) == UnknownBiome <==>
            |Kept(candidates, temperature, precipitation)| == 0
  {
    var kept := Kept(candidates, temperature, precipitation);
    BestPrefixIsFirstMaximum(kept, |kept|);
    assert UnknownBiome !in BiomeWeightMap;
  }

  /** The winner is the first kept candidate of greatest score. */
  lemma WeightedBestIsFirstMaximum(temperature: real, precipitation: real, candidates: seq<string>)
    requires |Kept(candidates, temperature, precipitation)| > 0
    ensures var kept := Kept(candidates, temperature, precipitation);
      exists j :: 0 <= j < |kept| && kept[j].name == WeightedBest(temperature, precipitation, candidates) &&
        FirstMaximum(kept, |kept|, j)
  {
    var kept := Kept(candidates, temperature, precipitation);
    BestPrefixIsFirstMaximum(kept, |kept|);
  }

  function Total(s: seq<Scored>): real
  {
    if |s| == 0 then 0.0 else Total(s[..|s| - 1]) + s[|s| - 1].value
  }

  lemma {:induction false} TotalPositive(s: seq<Scored>)
    requires |s| > 0 && forall j :: 0 <= j < |s| ==> s[j].value > 0.0
    ensures Total(s) > 0.0
  {
    if |s| > 1 {
      TotalPositive(s[..|s| - 1]);
    }
  }

  /** Dividing by a positive total keeps every strict comparison. */
  lemma DivideKeepsOrder(a: real, b: real, total: real)
    requires total > 0.0
    ensures a / total > b / total <==> a > b
  {
    assert a / total - b / total == (a - b) / total;
  }

  /** `CalculateBiomeProbabilities`: collects the kept candidates, sums their scores,
      normalises them in place and keeps the first strictly greatest. The result is the
      choice on raw scores, so normalising does not change the winner. */
  method CalculateBiomeProbabilities(temperature: real, precipitation: real, candidates: seq<string>)
    returns (best: string)
    ensures best == WeightedBest(temperature, precipitation, candidates)
  {
    var probabilities := CollectScores(temperature, precipitation, candidates);
    var totalScore := SumScores(probabilities);
    if |probabilities| > 0 {
      TotalPositive(probabilities);
    }
    best := PickNormalised(probabilities, totalScore);
  }

  /** The first loop: the scored candidates with weights and a positive score. */
  method CollectScores(temperature: real, precipitation: real, candidates: seq<string>)
    returns (probabilities: seq<Scored>)
    ensures probabilities == Kept(candidates, temperature, precipitation)
  {
    probabilities := [];
    var i := 0;
    while i < |candidates|
      invariant 0 <= i <= |candidates|
      invariant probabilities == Kept(candidates[..i], temperature, precipitation)
    {
      var candidate := candidates[i];
      assert candidates[..i + 1][..i] == candidates[..i] && candidates[..i + 1][i] == candidate;
      if candidate !in BiomeWeightMap {
        i := i + 1;
        continue;
      }
      var weights := BiomeWeightMap[candidate];
      var score := weights.temperatureWeight * temperature + weights.precipitationWeight * precipitation;
      assert score == Score(weights, temperature, precipitation);
      if score > 0.0 {
        probabilities := probabilities + [Scored(candidate, score)];
      }
      i := i + 1;
    }
    assert candidates[..i] == candidates;
  }

  /** The second loop: `TotalScore`. */
  method SumScores(probabilities: seq<Scored>) returns (totalScore: real)
    ensures totalScore == Total(probabilities)
  {
    totalScore := 0.0;
    var j := 0;
    while j < |probabilities|
      invariant 0 <= j <= |probabilities|
      invariant totalScore == Total(probabilities[..j])
    {
      assert probabilities[..j + 1][..j] == probabilities[..j];
      totalScore := totalScore + probabilities[j].value;
      j := j + 1;
    }
    assert probabilities[..j] == probabilities;
  }

  /** The third loop: each score divided by the total in place, the first strictly
      greatest normalised score winning from 0. */
  method PickNormalised(kept: seq<Scored>, totalScore: real) returns (best: string)
    requires |kept| > 0 ==> totalScore > 0.0
    ensures best == BestPrefix(kept, |kept|).name
  {
    var probabilities := kept;
    best := UnknownBiome;
    var maxProbability := 0.0;
    var k := 0;
    while k < |probabilities|
      invariant 0 <= k <= |probabilities| && |probabilities| == |kept|
      invariant forall m :: k <= m < |kept| ==> probabilities[m] == kept[m]
      invariant best == BestPrefix(kept, k).name
      invariant k > 0 ==> maxProbability == BestPrefix(kept, k).value / totalScore
      invariant k == 0 ==> maxProbability == 0.0
    {
      probabilities := probabilities[k := probabilities[k].(value := probabilities[k].value / totalScore)];
      ghost var prev := BestPrefix(kept, k);
      if k == 0 {
        assert prev.value == 0.0 && 0.0 / totalScore == 0.0;
      }
      DivideKeepsOrder(kept[k].value, prev.value, totalScore);
      if probabilities[k].value > maxProbability {
        maxProbability := probabilities[k].value;
        best := probabilities[k].name;
      }
      k := k + 1;
    }
  }
}
