/**
 * The selection and expected-value arithmetic behind the ROI endpoint: which
 * market lines count for the requested level and quality, how they are split
 * into colour buckets, the probability attached to each rank of a bucket, and
 * the resulting expected chaos value.
 *
 * Chaos values are reals; floating-point rounding is not modelled.
 */
module SkillGems {
  import opened Common
  import opened Models
  import Cache
  import CacheProperties
  import Leagues

  // ---------------------------------------------------------------------------
  // Request parameters

  /** The query string of the ROI endpoint; every field is optional. */
  datatype CalculationQuery = CalculationQuery(
    league: Option<string>,
    ignoreAfterChaos: Option<real>,
    gemLevel: Option<nat>,
    gemQuality: Option<nat>)

  /** The parameters once defaults are filled in. */
  datatype RoiParams = RoiParams(league: string, ignoreThreshold: real, level: nat, quality: nat)

  /** Defaults: league `Standard`, threshold 5 chaos, level 1, quality 0. */
  function Resolve(q: CalculationQuery): (p: RoiParams)
    ensures q.league.None? ==> p.league == "Standard"
    ensures q.ignoreAfterChaos.None? ==> p.ignoreThreshold == 5.0
    ensures q.gemLevel.None? ==> p.level == 1
    ensures q.gemQuality.None? ==> p.quality == 0
    ensures q.league.Some? ==> p.league == q.league.value
    ensures q.ignoreAfterChaos.Some? ==> p.ignoreThreshold == q.ignoreAfterChaos.value
    ensures q.gemLevel.Some? ==> p.level == q.gemLevel.value
    ensures q.gemQuality.Some? ==> p.quality == q.gemQuality.value
  {
    RoiParams(q.league.GetOr("Standard"), q.ignoreAfterChaos.GetOr(5.0), q.gemLevel.GetOr(1), q.gemQuality.GetOr(0))
  }

  /** The cache key the skill-gem data of a league is stored under. */
  function SkillGemsCacheKey(league: string): string {
    "skillGems_" + league
  }

  /**
   * The keys the handlers cache under are never empty, so their files carry a
   * proper `.json` extension and even the extension test of the directory
   * sweeps as written recognises them.
   */
  lemma HandlerKeysHaveExtension(league: string)
    ensures Cache.HasJsonExtension(Cache.CachePath(SkillGemsCacheKey(league)))
    ensures Cache.HasJsonExtension(Cache.CachePath(Leagues.LeaguesCacheKey))
  {
    CacheProperties.CachePathHasExtension(SkillGemsCacheKey(league));
    CacheProperties.CachePathHasExtension(Leagues.LeaguesCacheKey);
  }

  // ---------------------------------------------------------------------------
  // Filters

  predicate MatchesLevel(gem: SkillGem, level: nat) {
    gem.gemLevel == Some(level) || (level == 1 && gem.gemLevel.None?)
  }

  predicate MatchesQuality(gem: SkillGem, quality: nat) {
    if quality == 0 then gem.gemQuality.None? || gem.gemQuality == Some(0)
    else gem.gemQuality == Some(quality)
  }

  /** Gems above level 20 or quality 20 exist only corrupted, and the others only uncorrupted. */
  predicate MatchesCorruption(gem: SkillGem, level: nat, quality: nat) {
    if level > 20 || quality > 20 then gem.corrupted == Some(true)
    else gem.corrupted.None? || gem.corrupted == Some(false)
  }

  /** A line that takes part in the calculation: tradeable and matching all three filters. */
  predicate IsCandidate(gem: SkillGem, p: RoiParams) {
    && gem.tradeFilter.Some?
    && MatchesLevel(gem, p.level)
    && MatchesQuality(gem, p.quality)
    && MatchesCorruption(gem, p.level, p.quality)
  }

  /**
   * The filters treat a missing field as its default (level 1, quality 0, not
   * corrupted) and then demand an exact match; so each line matches exactly
   * one level, one quality and one corruption requirement.
   */
  lemma FiltersReadMissingAsDefault(gem: SkillGem, level: nat, quality: nat)
    ensures MatchesLevel(gem, level) <==> gem.gemLevel.GetOr(1) == level
    ensures MatchesQuality(gem, quality) <==> gem.gemQuality.GetOr(0) == quality
    ensures MatchesCorruption(gem, level, quality) <==> gem.corrupted.GetOr(false) == (level > 20 || quality > 20)
  {
  }

  // ---------------------------------------------------------------------------
  // Colour buckets

  /** A bucket entry: the gem's name and its chaos value, 0 when unknown. */
  function Entry(gem: SkillGem): (string, real) {
    (gem.name, gem.chaosValue.GetOr(0.0))
  }

  /** A line that goes into the bucket of colour `c`. */
  predicate InBucket(gem: SkillGem, p: RoiParams, colorOf: string -> Option<GemColor>, c: GemColor) {
    IsCandidate(gem, p) && colorOf(gem.name) == Some(c)
  }

  /**
   * The candidates of colour `c`, in market order; `colorOf` is the colour
   * table lookup by gem name. Every entry comes from a candidate of that
   * colour, and every such candidate has its entry in the bucket.
   */
  function Bucket(lines: seq<SkillGem>, p: RoiParams, colorOf: string -> Option<GemColor>, c: GemColor)
    : (r: seq<(string, real)>)
    ensures |r| <= |lines|
    ensures forall e :: e in r ==> exists g :: g in lines && InBucket(g, p, colorOf, c) && e == Entry(g)
    ensures forall g :: g in lines && InBucket(g, p, colorOf, c) ==> Entry(g) in r
  {
    if lines == [] then []
    else
      var rest := Bucket(lines[1..], p, colorOf, c);
      assert forall g :: g in lines[1..] ==> g in lines;
      assert forall g :: g in lines ==> g == lines[0] || g in lines[1..];
      if InBucket(lines[0], p, colorOf, c) then [Entry(lines[0])] + rest
      else rest
  }

  lemma BucketCons(lines: seq<SkillGem>, p: RoiParams, colorOf: string -> Option<GemColor>, c: GemColor)
    requires lines != []
    ensures Bucket(lines, p, colorOf, c)
            == (if InBucket(lines[0], p, colorOf, c) then [Entry(lines[0])] else []) + Bucket(lines[1..], p, colorOf, c)
  {
  }

  /**
   * Bucketing keeps market order: the bucket of two listings one after the
   * other is the first listing's bucket followed by the second's.
   */
  lemma {:induction false} BucketAppend(a: seq<SkillGem>, b: seq<SkillGem>, p: RoiParams,
                                        colorOf: string -> Option<GemColor>, c: GemColor)
    ensures Bucket(a + b, p, colorOf, c) == Bucket(a, p, colorOf, c) + Bucket(b, p, colorOf, c)
  {
    if a != [] {
      assert (a + b)[0] == a[0];
      assert (a + b)[1..] == a[1..] + b;
      var head := if InBucket(a[0], p, colorOf, c) then [Entry(a[0])] else [];
      var tail, rest := Bucket(a[1..], p, colorOf, c), Bucket(b, p, colorOf, c);
      assert Bucket(a + b, p, colorOf, c) == head + Bucket(a[1..] + b, p, colorOf, c) by {
        assert (a + b)[0] == a[0];
        assert (a + b)[1..] == a[1..] + b;
        BucketCons(a + b, p, colorOf, c);
      }
      assert Bucket(a, p, colorOf, c) == head + tail by {
        BucketCons(a, p, colorOf, c);
      }
      BucketAppend(a[1..], b, p, colorOf, c);
      assert head + (tail + rest) == (head + tail) + rest;
    } else {
      assert a + b == b;
    }
  }

  /** A one-line listing contributes its entry exactly when the line belongs in the bucket. */
  lemma BucketSingle(g: SkillGem, p: RoiParams, colorOf: string -> Option<GemColor>, c: GemColor)
    ensures Bucket([g], p, colorOf, c) == if InBucket(g, p, colorOf, c) then [Entry(g)] else []
  {
    assert [g][1..] == [];
  }

  /** The number of candidates that have a colour. */
  function ColouredCandidates(lines: seq<SkillGem>, p: RoiParams, colorOf: string -> Option<GemColor>): nat {
    if lines == [] then 0
    else (if IsCandidate(lines[0], p) && colorOf(lines[0].name).Some? then 1 else 0)
         + ColouredCandidates(lines[1..], p, colorOf)
  }

  /**
   * Every coloured candidate lands in exactly one bucket: the three buckets
   * together are exactly as long as the list of coloured candidates.
   */
  lemma {:induction false} BucketsPartition(lines: seq<SkillGem>, p: RoiParams, colorOf: string -> Option<GemColor>)
    ensures |Bucket(lines, p, colorOf, Red)| + |Bucket(lines, p, colorOf, Green)| + |Bucket(lines, p, colorOf, Blue)|
            == ColouredCandidates(lines, p, colorOf)
  {
    if lines != [] {
      BucketsPartition(lines[1..], p, colorOf);
      var g := lines[0];
      if IsCandidate(g, p) && colorOf(g.name).Some? {
        assert colorOf(g.name).value == Red || colorOf(g.name).value == Green || colorOf(g.name).value == Blue;
      }
    }
  }

  /** A line without a trade filter is never bucketed, whatever its other fields. */
  lemma UntradeableIgnored(gem: SkillGem, lines: seq<SkillGem>, p: RoiParams, colorOf: string -> Option<GemColor>,
                           c: GemColor)
    requires gem.tradeFilter.None?
    ensures Bucket([gem] + lines, p, colorOf, c) == Bucket(lines, p, colorOf, c)
  {
    assert ([gem] + lines)[1..] == lines;
  }

  // ---------------------------------------------------------------------------
  // Probabilities

  /**
   * The number of ways to draw three of the `n` gems so that the one at rank
   * `i` (counting from the cheapest as 1) is the most valuable: `C(i-1, 2)`.
   */
  function Favourable(i: nat): real {
    ((i - 1) * (i - 2)) as real / 2.0
  }

  /** The number of ways to draw three of `n` gems: `C(n, 3)`. */
  function Total(n: nat): real {
    (n * (n - 1) * (n - 2)) as real / 6.0
  }

  lemma TotalPositive(n: nat)
    requires n >= 3
    ensures Total(n) > 0.0
  {
    var m: int := n - 1;
    assert m * (n - 2) >= 2 by {
      assert m >= 2 && n - 2 >= 1;
    }
    assert n * m * (n - 2) >= 6 by {
      assert n * (m * (n - 2)) >= 3 * (m * (n - 2));
    }
  }

  /** The probability that the gem at index `j` of a bucket of `n`, most valuable first, is the best of a random three. */
  function Probability(n: nat, j: nat): real
    requires j + 3 <= n
  {
    Favourable(n - j) / Total(n)
  }

  /** `calculate_probability`, entry by entry. */
  function Probabilities(n: nat): (r: seq<real>)
    ensures n < 3 ==> r == []
    ensures n >= 3 ==> |r| == n - 2
  {
    if n < 3 then [] else seq(n - 2, (j: int) requires 0 <= j < n - 2 => Probability(n, j))
  }

  /**
   * `calculate_probability`: walks the ranks from `n` down to 3 and records
   * each rank's favourable count over the total.
   */
  method CalculateProbability(n: nat) returns (ps: seq<real>)
    ensures ps == Probabilities(n)
    ensures n < 3 ==> ps == []
    ensures n >= 3 ==> |ps| == n - 2 && Sum(ps) == 1.0
    ensures forall j :: 0 <= j < |ps| ==> ps[j] > 0.0
    ensures forall j :: 0 <= j < |ps| - 1 ==> ps[j] >= ps[j + 1]
  {
    if n < 3 {
      return [];
    }
    ps := [];
    var totalOutcomes := (n * (n - 1) * (n - 2)) as real / 6.0;
    assert totalOutcomes == Total(n);
    TotalPositive(n);
    var i := n;
    while i >= 3
      invariant 2 <= i <= n
      invariant |ps| == n - i
      invariant forall j :: 0 <= j < |ps| ==> ps[j] == Probability(n, j)
      decreases i
    {
      var favourableOutcomes := ((i - 1) * (i - 2)) as real / 2.0;
      assert favourableOutcomes / totalOutcomes == Probability(n, |ps|);
      ps := ps + [favourableOutcomes / totalOutcomes];
      i := i - 1;
    }
    assert forall j :: 0 <= j < |ps| ==> ps[j] == Probabilities(n)[j];
    ProbabilitiesSumToOne(n);
    forall j | 0 <= j < |ps|
      ensures ps[j] > 0.0
      ensures j < |ps| - 1 ==> ps[j] >= ps[j + 1]
    {
      ProbabilitiesDecrease(n, j);
    }
  }

  /** Every rank has a positive probability, and a better rank a larger one. */
  lemma ProbabilitiesDecrease(n: nat, j: nat)
    requires j + 3 <= n
    ensures Probabilities(n)[j] > 0.0
    ensures j + 4 <= n ==> Probabilities(n)[j] >= Probabilities(n)[j + 1]
  {
    TotalPositive(n);
    var i: int := n - j;
    assert (i - 1) * (i - 2) >= 2 by {
      assert i - 1 >= 2 && i - 2 >= 1;
    }
    if j + 4 <= n {
      assert (i - 1) * (i - 2) - (i - 2) * (i - 3) == 2 * (i - 2);
      assert Favourable(i) >= Favourable(i - 1);
      DivideMonotone(Favourable(i - 1), Favourable(i), Total(n));
    }
  }

  lemma DivideMonotone(a: real, b: real, d: real)
    requires d > 0.0 && a <= b
    ensures a / d <= b / d
  {
  }

  /** Sum of a sequence of reals. */
  function Sum(s: seq<real>): real {
    if s == [] then 0.0 else Sum(s[..|s| - 1]) + s[|s| - 1]
  }

  lemma {:induction false} SumAppend(a: seq<real>, b: seq<real>)
    ensures Sum(a + b) == Sum(a) + Sum(b)
    decreases |b|
  {
    if b != [] {
      assert (a + b)[..|a + b| - 1] == a + b[..|b| - 1];
      SumAppend(a, b[..|b| - 1]);
    } else {
      assert a + b == a;
    }
  }

  /** `Favourable(3) + ... + Favourable(n)`. */
  function FavourableUpTo(n: nat): real {
    if n < 3 then 0.0 else Favourable(n) + FavourableUpTo(n - 1)
  }

  /**
   * The favourable counts over all ranks add up to the total count (the
   * hockey-stick identity `C(2,2) + ... + C(n-1,2) = C(n,3)`).
   */
  lemma {:induction false} FavourableSumsToTotal(n: nat)
    requires n >= 3
    ensures FavourableUpTo(n) == Total(n)
  {
    if n > 3 {
      FavourableSumsToTotal(n - 1);
      var a: int := (n - 1) * (n - 2);
      assert n * (n - 1) * (n - 2) == n * a;
      assert (n - 1) * (n - 1 - 1) * (n - 1 - 2) == a * (n - 3);
      assert n * a == 3 * a + a * (n - 3);
    }
  }

  /** The favourable counts of ranks `n` down to 3, each divided by `d`. */
  function Shares(n: nat, d: real): (r: seq<real>)
    requires n >= 3 && d != 0.0
    ensures |r| == n - 2
    decreases n
  {
    if n == 3 then [Favourable(3) / d] else [Favourable(n) / d] + Shares(n - 1, d)
  }

  lemma {:induction false} SharesSum(n: nat, d: real)
    requires n >= 3 && d != 0.0
    ensures Sum(Shares(n, d)) == FavourableUpTo(n) / d
    decreases n
  {
    if n == 3 {
      assert Sum([Favourable(3) / d]) == Sum([]) + Favourable(3) / d;
    } else {
      SharesSum(n - 1, d);
      SumAppend([Favourable(n) / d], Shares(n - 1, d));
      assert Sum([Favourable(n) / d]) == Sum([]) + Favourable(n) / d;
    }
  }

  lemma {:induction false} SharesAreProbabilities(n: nat, m: nat)
    requires 3 <= n <= m
    ensures forall j :: 0 <= j < n - 2 ==> Shares(n, Total(m))[j] == Favourable(n - j) / Total(m)
    decreases n
  {
    TotalPositive(m);
    if n > 3 {
      SharesAreProbabilities(n - 1, m);
    }
  }

  /** The probabilities of a bucket of at least three gems add up to 1. */
  lemma ProbabilitiesSumToOne(n: nat)
    requires n >= 3
    ensures Sum(Probabilities(n)) == 1.0
  {
    TotalPositive(n);
    SharesAreProbabilities(n, n);
    assert Probabilities(n) == Shares(n, Total(n));
    SharesSum(n, Total(n));
    FavourableSumsToTotal(n);
  }

  // ---------------------------------------------------------------------------
  // Expected value

  /** A value below the threshold counts as nothing. */
  function Clip(value: real, threshold: real): real {
    if value >= threshold then value else 0.0
  }

  /** `ps[0] * v0 + ... + ps[k-1] * v(k-1)` over the clipped values of the first `|ps|` gems. */
  function Weighted(gems: seq<(string, real)>, ps: seq<real>, threshold: real): real
    requires |ps| <= |gems|
    decreases |ps|
  {
    if ps == [] then 0.0
    else Weighted(gems, ps[..|ps| - 1], threshold) + ps[|ps| - 1] * Clip(gems[|ps| - 1].1, threshold)
  }

  /** Weighting one more rank adds that rank's share. */
  lemma WeightedStep(gems: seq<(string, real)>, ps: seq<real>, i: nat, threshold: real)
    requires i < |ps| <= |gems|
    ensures Weighted(gems, ps[..i + 1], threshold)
            == Weighted(gems, ps[..i], threshold) + ps[i] * Clip(gems[i].1, threshold)
  {
    assert ps[..i + 1][..i] == ps[..i];
  }

  /**
   * The loop of `calculate_roi_for_gems`: walks the gems in order, stops at
   * the first rank without a probability, and adds each clipped value times
   * its rank's probability.
   */
  method AccumulateRoi(gems: seq<(string, real)>, probabilities: seq<real>, threshold: real) returns (roi: real)
    requires |probabilities| <= |gems|
    ensures roi == Weighted(gems, probabilities, threshold)
  {
    roi := 0.0;
    var i := 0;
    assert probabilities[..i] == [];
    while i < |gems|
      invariant 0 <= i <= |probabilities|
      invariant roi == Weighted(gems, probabilities[..i], threshold)
    {
      if i >= |probabilities| {
        break;
      }
      var value := gems[i].1;
      var gemValue := if value >= threshold then value else 0.0;
      WeightedStep(gems, probabilities, i, threshold);
      roi := roi + probabilities[i] * gemValue;
      i := i + 1;
    }
    assert probabilities[..i] == probabilities;
  }

  /**
   * `calculate_roi_for_gems` on a bucket sorted most valuable first: 0 for
   * fewer than three gems, otherwise each of the first `n - 2` gems' clipped
   * value weighted by its rank's probability.
   */
  method CalculateRoiForGems(gems: seq<(string, real)>, threshold: real) returns (roi: real)
    ensures |gems| < 3 ==> roi == 0.0
    ensures |gems| >= 3 ==> roi == Weighted(gems, Probabilities(|gems|), threshold)
  {
    if |gems| < 3 {
      return 0.0;
    }
    var probabilities := CalculateProbability(|gems|);
    roi := AccumulateRoi(gems, probabilities, threshold);
  }

  /**
   * The ROI sees only the clipped values of the first `|ps|` gems: gems below
   * the threshold and gems beyond the weighted ranks can change freely.
   */
  lemma {:induction false} WeightedSeesOnlyClippedTop(g1: seq<(string, real)>, g2: seq<(string, real)>, ps: seq<real>,
                                                      threshold: real)
    requires |ps| <= |g1| && |ps| <= |g2|
    requires forall i :: 0 <= i < |ps| ==> Clip(g1[i].1, threshold) == Clip(g2[i].1, threshold)
    ensures Weighted(g1, ps, threshold) == Weighted(g2, ps, threshold)
    decreases |ps|
  {
    if ps != [] {
      WeightedSeesOnlyClippedTop(g1, g2, ps[..|ps| - 1], threshold);
    }
  }

  /** With non-negative weights, the weighted sum lies between 0 and the largest clipped value times the weights' sum. */
  lemma {:induction false} WeightedBounds(gems: seq<(string, real)>, ps: seq<real>, threshold: real, top: real)
    requires |ps| <= |gems|
    requires forall i :: 0 <= i < |ps| ==> ps[i] >= 0.0
    requires forall i :: 0 <= i < |ps| ==> 0.0 <= Clip(gems[i].1, threshold) <= top
    ensures 0.0 <= Weighted(gems, ps, threshold) <= top * Sum(ps)
    decreases |ps|
  {
    if ps != [] {
      var k := |ps| - 1;
      WeightedBounds(gems, ps[..k], threshold, top);
      var c := Clip(gems[k].1, threshold);
      assert ps[k] * c >= 0.0;
      assert ps[k] * c <= ps[k] * top by {
        assert ps[k] * (top - c) >= 0.0;
      }
    }
  }

  /**
   * With a non-negative threshold, the ROI of a bucket is an average: it lies
   * between 0 and any non-negative bound on the bucket's chaos values.
   */
  lemma RoiIsAverage(gems: seq<(string, real)>, threshold: real, top: real)
    requires |gems| >= 3 && threshold >= 0.0 && top >= 0.0
    requires forall i :: 0 <= i < |gems| ==> gems[i].1 <= top
    ensures 0.0 <= Weighted(gems, Probabilities(|gems|), threshold) <= top
  {
    var n := |gems|;
    var ps := Probabilities(n);
    forall j | 0 <= j < |ps| ensures ps[j] >= 0.0 {
      ProbabilitiesDecrease(n, j);
    }
    WeightedBounds(gems, ps, threshold, top);
    ProbabilitiesSumToOne(n);
  }

  /** Three gems: only the most valuable is weighted, with probability 1. */
  lemma ThreeGemExample()
    ensures Probabilities(3) == [1.0]
    ensures Weighted([("a", 100.0), ("b", 50.0), ("c", 10.0)], Probabilities(3), 5.0) == 100.0
  {
    assert Probabilities(3)[0] == Favourable(3) / Total(3);
    assert [1.0][..0] == [];
  }

  /**
   * Four gems: the best is the top of a random three with probability 3/4,
   * the second with 1/4; a second-best value below the threshold counts as 0.
   */
  lemma FourGemExample()
    ensures Probabilities(4) == [0.75, 0.25]
    ensures Weighted([("a", 100.0), ("b", 20.0), ("c", 3.0), ("d", 1.0)], Probabilities(4), 5.0) == 80.0
    ensures Weighted([("a", 100.0), ("b", 4.0), ("c", 3.0), ("d", 1.0)], Probabilities(4), 5.0) == 75.0
  {
    assert Probabilities(4)[0] == Favourable(4) / Total(4);
    assert Probabilities(4)[1] == Favourable(3) / Total(4);
    assert [0.75, 0.25][..1] == [0.75];
    assert [0.75][..0] == [];
  }

  // ---------------------------------------------------------------------------
  // Reported gems

  /** `create_gem_values`: pairs gems with probabilities position by position. */
  function GemValues(gems: seq<(string, real)>, ps: seq<real>): (r: seq<GemValue>)
    ensures |r| == if |gems| < |ps| then |gems| else |ps|
    ensures forall i :: 0 <= i < |r| ==> r[i] == GemValue(gems[i].0, gems[i].1, ps[i])
  {
    if gems == [] || ps == [] then []
    else [GemValue(gems[0].0, gems[0].1, ps[0])] + GemValues(gems[1..], ps[1..])
  }

  /**
   * A bucket of `n >= 3` gems is reported without its two cheapest gems, and
   * the reported probabilities add up to 1; smaller buckets report nothing.
   */
  lemma ReportedGems(gems: seq<(string, real)>)
    ensures |gems| < 3 ==> GemValues(gems, Probabilities(|gems|)) == []
    ensures |gems| >= 3 ==> |GemValues(gems, Probabilities(|gems|))| == |gems| - 2
    ensures |gems| >= 3 ==> Sum(ProbabilitiesOf(GemValues(gems, Probabilities(|gems|)))) == 1.0
  {
    if |gems| >= 3 {
      var r := GemValues(gems, Probabilities(|gems|));
      assert ProbabilitiesOf(r) == Probabilities(|gems|);
      ProbabilitiesSumToOne(|gems|);
    }
  }

  function ProbabilitiesOf(values: seq<GemValue>): (r: seq<real>)
    ensures |r| == |values|
    ensures forall i :: 0 <= i < |r| ==> r[i] == values[i].probability
  {
    seq(|values|, (i: int) requires 0 <= i < |values| => values[i].probability)
  }

  // ---------------------------------------------------------------------------
  // Ranking

  /** Most valuable first. */
  predicate RankedByValue(gems: seq<(string, real)>) {
    forall i, j :: 0 <= i < j < |gems| ==> gems[i].1 >= gems[j].1
  }

  /** Inserts `x` before the first gem worth no more than it, so equal values keep their order. */
  function Insert(x: (string, real), ranked: seq<(string, real)>): (r: seq<(string, real)>)
    ensures |r| == |ranked| + 1
  {
    if ranked == [] || x.1 >= ranked[0].1 then [x] + ranked
    else [ranked[0]] + Insert(x, ranked[1..])
  }

  /** The bucket sort of the ROI endpoint: most valuable first, stable among equal values. */
  function RankByValue(gems: seq<(string, real)>): (r: seq<(string, real)>)
    ensures |r| == |gems|
  {
    if gems == [] then [] else Insert(gems[0], RankByValue(gems[1..]))
  }

  /** The chaos values of a bucket, position by position. */
  function Values(gems: seq<(string, real)>): (r: seq<real>)
    ensures |r| == |gems|
    ensures forall i :: 0 <= i < |gems| ==> r[i] == gems[i].1
  {
    seq(|gems|, (i: int) requires 0 <= i < |gems| => gems[i].1)
  }

  /** Inserting adds exactly `x` to the gems. */
  lemma {:induction false} InsertPermutes(x: (string, real), ranked: seq<(string, real)>)
    ensures multiset(Insert(x, ranked)) == multiset(ranked) + multiset{x}
  {
    if !(ranked == [] || x.1 >= ranked[0].1) {
      InsertPermutes(x, ranked[1..]);
      assert ranked == [ranked[0]] + ranked[1..];
    }
  }

  lemma ValuesCons(x: (string, real), t: seq<(string, real)>)
    ensures Values([x] + t) == [x.1] + Values(t)
    ensures multiset(Values([x] + t)) == multiset{x.1} + multiset(Values(t))
  {
    assert Values([x] + t) == [x.1] + Values(t);
  }

  /** Inserting adds exactly `x`'s value to the values. */
  lemma {:induction false} InsertAddsValue(x: (string, real), ranked: seq<(string, real)>)
    ensures multiset(Values(Insert(x, ranked))) == multiset(Values(ranked)) + multiset{x.1}
  {
    if ranked == [] || x.1 >= ranked[0].1 {
      ValuesCons(x, ranked);
    } else {
      var head, tail := ranked[0], ranked[1..];
      assert ranked == [head] + tail;
      InsertAddsValue(x, tail);
      ValuesCons(head, tail);
      ValuesCons(head, Insert(x, tail));
    }
  }

  /** Inserting a gem worth at most `bound` among gems worth at most `bound` keeps every gem within it. */
  lemma {:induction false} InsertBounded(x: (string, real), ranked: seq<(string, real)>, bound: real)
    requires x.1 <= bound
    requires forall k :: 0 <= k < |ranked| ==> ranked[k].1 <= bound
    ensures forall k :: 0 <= k < |Insert(x, ranked)| ==> Insert(x, ranked)[k].1 <= bound
  {
    if !(ranked == [] || x.1 >= ranked[0].1) {
      InsertBounded(x, ranked[1..], bound);
    }
  }

  /** Inserting into a ranked bucket keeps it ranked. */
  lemma {:induction false} InsertRanked(x: (string, real), ranked: seq<(string, real)>)
    requires RankedByValue(ranked)
    ensures RankedByValue(Insert(x, ranked))
  {
    if !(ranked == [] || x.1 >= ranked[0].1) {
      var rest := Insert(x, ranked[1..]);
      InsertRanked(x, ranked[1..]);
      InsertBounded(x, ranked[1..], ranked[0].1);
      var r := [ranked[0]] + rest;
      forall i, j | 0 <= i < j < |r| ensures r[i].1 >= r[j].1 {
        assert r[j] == rest[j - 1];
        if i > 0 {
          assert r[i] == rest[i - 1];
        }
      }
    }
  }

  /** Ranking puts a bucket in most-valuable-first order. */
  lemma {:induction false} RankByValueRanked(gems: seq<(string, real)>)
    ensures RankedByValue(RankByValue(gems))
  {
    if gems != [] {
      RankByValueRanked(gems[1..]);
      InsertRanked(gems[0], RankByValue(gems[1..]));
    }
  }

  /** Ranking neither adds nor loses a gem. */
  lemma {:induction false} RankByValuePermutes(gems: seq<(string, real)>)
    ensures multiset(RankByValue(gems)) == multiset(gems)
  {
    if gems != [] {
      RankByValuePermutes(gems[1..]);
      InsertPermutes(gems[0], RankByValue(gems[1..]));
      assert gems == [gems[0]] + gems[1..];
    }
  }

  /** Ranking keeps the bucket's values, only reordered. */
  lemma {:induction false} RankByValueKeepsValues(gems: seq<(string, real)>)
    ensures multiset(Values(RankByValue(gems))) == multiset(Values(gems))
  {
    if gems != [] {
      RankByValueKeepsValues(gems[1..]);
      InsertAddsValue(gems[0], RankByValue(gems[1..]));
      assert gems == [gems[0]] + gems[1..];
      ValuesCons(gems[0], gems[1..]);
    }
  }

  predicate Descending(s: seq<real>) {
    forall i, j :: 0 <= i < j < |s| ==> s[i] >= s[j]
  }

  /** Two descending arrangements of the same values begin with the same (largest) value. */
  lemma DescendingHeadsEqual(s: seq<real>, t: seq<real>)
    requires Descending(s) && Descending(t) && multiset(s) == multiset(t) && s != []
    ensures t != [] && s[0] == t[0]
  {
    assert s[0] in multiset(t);
    var k :| 0 <= k < |t| && t[k] == s[0];
    assert t[0] in multiset(s);
    var m :| 0 <= m < |s| && s[m] == t[0];
    assert s[0] >= s[m] && t[0] >= t[k];
  }

  lemma TailsPermuted<T>(s: seq<T>, t: seq<T>)
    requires multiset(s) == multiset(t) && s != [] && t != [] && s[0] == t[0]
    ensures multiset(s[1..]) == multiset(t[1..])
  {
    assert s == [s[0]] + s[1..];
    assert t == [t[0]] + t[1..];
    assert multiset(s[1..]) == multiset(s) - multiset{s[0]};
    assert multiset(t[1..]) == multiset(t) - multiset{t[0]};
  }

  /** Two descending arrangements of the same values are the same sequence. */
  lemma {:induction false} DescendingPermutationsEqual(s: seq<real>, t: seq<real>)
    requires Descending(s) && Descending(t) && multiset(s) == multiset(t)
    ensures s == t
    decreases |s|
  {
    if s == [] {
      assert |multiset(t)| == |t|;
    } else {
      DescendingHeadsEqual(s, t);
      TailsPermuted(s, t);
      DescendingPermutationsEqual(s[1..], t[1..]);
      assert s == [s[0]] + s[1..];
      assert t == [t[0]] + t[1..];
    }
  }

  /** The ROI of a bucket of `gems` once it has been ranked. */
  function BucketRoi(gems: seq<(string, real)>, threshold: real): real {
    var ranked := RankByValue(gems);
    if |ranked| < 3 then 0.0 else Weighted(ranked, Probabilities(|ranked|), threshold)
  }

  /**
   * The ROI of a bucket depends only on the multiset of its chaos values: not
   * on the gems' names, and not on the order in which the market listed them.
   */
  lemma RoiDependsOnlyOnValues(a: seq<(string, real)>, b: seq<(string, real)>, threshold: real)
    requires multiset(Values(a)) == multiset(Values(b))
    ensures BucketRoi(a, threshold) == BucketRoi(b, threshold)
  {
    var ra, rb := RankByValue(a), RankByValue(b);
    RankByValueRanked(a);
    RankByValueRanked(b);
    RankByValueKeepsValues(a);
    RankByValueKeepsValues(b);
    assert Descending(Values(ra)) && Descending(Values(rb));
    DescendingPermutationsEqual(Values(ra), Values(rb));
    if |ra| >= 3 {
      WeightedSeesOnlyClippedTop(ra, rb, Probabilities(|ra|), threshold);
    }
  }

  /** The weighted ranks hold the most valuable gems: no unweighted gem is worth more than a weighted one. */
  lemma WeightedRanksAreTheBest(gems: seq<(string, real)>, i: nat, j: nat)
    requires |gems| >= 3 && i < |Probabilities(|gems|)| <= j < |gems|
    ensures RankByValue(gems)[i].1 >= RankByValue(gems)[j].1
  {
    RankByValueRanked(gems);
  }

  // ---------------------------------------------------------------------------
  // The endpoint's calculation

  /** The ranked bucket of colour `c`. */
  function RankedBucket(lines: seq<SkillGem>, p: RoiParams, colorOf: string -> Option<GemColor>, c: GemColor)
    : seq<(string, real)>
  {
    RankByValue(Bucket(lines, p, colorOf, c))
  }

  /**
   * The calculation of `calculate_gem_roi` once the market lines are at hand:
   * resolve the defaults, bucket the candidates by colour, rank each bucket,
   * and report each bucket's ROI and its weighted gems.
   */
  method CalculateGemRoi(lines: seq<SkillGem>, q: CalculationQuery, colorOf: string -> Option<GemColor>)
    returns (response: CalculationResponse)
    ensures response.redRoi == BucketRoi(Bucket(lines, Resolve(q), colorOf, Red), Resolve(q).ignoreThreshold)
    ensures response.greenRoi == BucketRoi(Bucket(lines, Resolve(q), colorOf, Green), Resolve(q).ignoreThreshold)
    ensures response.blueRoi == BucketRoi(Bucket(lines, Resolve(q), colorOf, Blue), Resolve(q).ignoreThreshold)
    ensures var red := RankedBucket(lines, Resolve(q), colorOf, Red);
            response.redGems == GemValues(red, Probabilities(|red|))
    ensures var green := RankedBucket(lines, Resolve(q), colorOf, Green);
            response.greenGems == GemValues(green, Probabilities(|green|))
    ensures var blue := RankedBucket(lines, Resolve(q), colorOf, Blue);
            response.blueGems == GemValues(blue, Probabilities(|blue|))
  {
    var p := Resolve(q);
    var red := RankedBucket(lines, p, colorOf, Red);
    var green := RankedBucket(lines, p, colorOf, Green);
    var blue := RankedBucket(lines, p, colorOf, Blue);
    var redRoi := CalculateRoiForGems(red, p.ignoreThreshold);
    var greenRoi := CalculateRoiForGems(green, p.ignoreThreshold);
    var blueRoi := CalculateRoiForGems(blue, p.ignoreThreshold);
    var redProbabilities := CalculateProbability(|red|);
    var greenProbabilities := CalculateProbability(|green|);
    var blueProbabilities := CalculateProbability(|blue|);
    response := CalculationResponse(
      redRoi, greenRoi, blueRoi,
      GemValues(red, redProbabilities), GemValues(green, greenProbabilities), GemValues(blue, blueProbabilities));
  }
}
