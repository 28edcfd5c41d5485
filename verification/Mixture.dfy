/**
 The mixture of all sources: the largest feasible scale, each source's share of it, and the sample.
 */
module Mixture {
  import opened DatasetRows
  import opened MixtureSample

  datatype Source = Source(name: int, rows: seq<Row>)

  datatype Problem = BadWeights | NoSources | OmitsClasses(name: int)

  datatype Outcome = Mixed(rows: seq<Row>, counts: seq<nat>) | Refused(why: Problem)

  /** Every source, and nothing else, has a positive weight. */
  predicate Weighted(sources: seq<Source>, weights: map<int, real>) {
    && (forall k :: 0 <= k < |sources| ==> sources[k].name in weights && weights[sources[k].name] > 0.0)
    && forall x :: x in weights ==> exists k :: 0 <= k < |sources| && sources[k].name == x
  }

  function Weight(sources: seq<Source>, weights: map<int, real>, k: nat): (w: real)
    requires k < |sources| && Weighted(sources, weights)
    ensures w > 0.0
  {
    weights[sources[k].name]
  }

  function Ratio(sources: seq<Source>, weights: map<int, real>, k: nat): real
    requires k < |sources| && Weighted(sources, weights)
  {
    |sources[k].rows| as real / Weight(sources, weights, k)
  }

  /** The least ratio of the first n + 1 sources. */
  function Scale(sources: seq<Source>, weights: map<int, real>, n: nat): real
    requires n < |sources| && Weighted(sources, weights)
  {
    if n == 0 then Ratio(sources, weights, 0)
    else
      var before, here := Scale(sources, weights, n - 1), Ratio(sources, weights, n);
      if here < before then here else before
  }

  /** Rounding to the nearest integer, halves to the even one. */
  function RoundHalfEven(x: real): int {
    var low := x.Floor;
    var rest := x - low as real;
    if rest < 0.5 || (rest == 0.5 && low % 2 == 0) then low else low + 1
  }

  /** The share of a source that the scaled weight entitles to x rows. */
  function Share(rows: nat, x: real): nat {
    var wanted := RoundHalfEven(x);
    var least := if wanted < 1 then 1 else wanted;
    if rows < least then rows else least
  }

  function FullScale(sources: seq<Source>, weights: map<int, real>): real
    requires sources != [] && Weighted(sources, weights)
  {
    Scale(sources, weights, |sources| - 1)
  }

  /** How many rows, fractions included, a source's weight entitles it to. */
  function Entitled(sources: seq<Source>, weights: map<int, real>, k: nat): real
    requires k < |sources| && Weighted(sources, weights)
  {
    FullScale(sources, weights) * Weight(sources, weights, k)
  }

  function CountOf(sources: seq<Source>, weights: map<int, real>, k: nat): nat
    requires k < |sources| && Weighted(sources, weights)
  {
    Share(|sources[k].rows|, Entitled(sources, weights, k))
  }

  // ---------- The largest feasible mixture ----------

  lemma Quotient(a: real, w: real)
    requires w > 0.0
    ensures (a / w) * w == a
  {
  }

  lemma Feasible(a: real, w: real, t: real)
    requires w > 0.0
    ensures t <= a / w <==> t * w <= a
  {
    Quotient(a, w);
    if t <= a / w {
      assert t * w <= (a / w) * w;
    } else {
      assert t * w > (a / w) * w;
    }
  }

  lemma {:induction false} ScaleIsLeast(sources: seq<Source>, weights: map<int, real>, n: nat)
    requires n < |sources| && Weighted(sources, weights)
    ensures forall k :: 0 <= k <= n ==> Scale(sources, weights, n) <= Ratio(sources, weights, k)
    ensures exists k :: 0 <= k <= n && Scale(sources, weights, n) == Ratio(sources, weights, k)
  {
    if n > 0 {
      ScaleIsLeast(sources, weights, n - 1);
      var k :| 0 <= k <= n - 1 && Scale(sources, weights, n - 1) == Ratio(sources, weights, k);
      assert || Scale(sources, weights, n) == Ratio(sources, weights, k)
             || Scale(sources, weights, n) == Ratio(sources, weights, n);
    } else {
      assert Scale(sources, weights, 0) == Ratio(sources, weights, 0);
    }
  }

  ghost predicate Affordable(sources: seq<Source>, weights: map<int, real>, t: real)
    requires Weighted(sources, weights)
  {
    forall k :: 0 <= k < |sources| ==> t * Weight(sources, weights, k) <= |sources[k].rows| as real
  }

  /** A scale is affordable for every source if and only if it is not above the one the script takes. */
  lemma LargestFeasible(sources: seq<Source>, weights: map<int, real>, t: real)
    requires sources != [] && Weighted(sources, weights)
    ensures Affordable(sources, weights, t) <==> t <= FullScale(sources, weights)
  {
    hide Weighted, Ratio;
    ScaleIsLeast(sources, weights, |sources| - 1);
    forall k | 0 <= k < |sources|
      ensures t * Weight(sources, weights, k) <= |sources[k].rows| as real <==> t <= Ratio(sources, weights, k)
    {
      RatioFeasible(sources, weights, k, t);
    }
  }

  lemma RatioFeasible(sources: seq<Source>, weights: map<int, real>, k: nat, t: real)
    requires k < |sources| && Weighted(sources, weights)
    ensures t * Weight(sources, weights, k) <= |sources[k].rows| as real <==> t <= Ratio(sources, weights, k)
  {
    hide Weighted;
    Feasible(|sources[k].rows| as real, Weight(sources, weights, k), t);
  }

  lemma RoundFacts(x: real, n: int)
    ensures -0.5 <= RoundHalfEven(x) as real - x <= 0.5
    ensures x <= n as real ==> RoundHalfEven(x) <= n
    ensures x == n as real ==> RoundHalfEven(x) == n
  {
  }

  /** Rounding is to the nearest integer, and to the even one of two that are equally near. */
  lemma RoundsToNearestEven(x: real, n: int)
    ensures RoundHalfEven(x) == n <==> -0.5 <= n as real - x <= 0.5 && (n as real - x in {-0.5, 0.5} ==> n % 2 == 0)
  {
    var r := RoundHalfEven(x);
    RoundFacts(x, n);
    assert r as real - x in {-0.5, 0.5} ==> r % 2 == 0;
    if -0.5 <= n as real - x <= 0.5 && n != r {
      assert (n - r) as real == (n as real - x) - (r as real - x);
      assert n - r in {-1, 1};
    }
  }

  lemma RoundedWithin(x: real, rows: nat)
    requires x <= rows as real
    ensures RoundHalfEven(x) <= rows
    ensures 1.0 <= x ==> rows >= 1 && RoundHalfEven(x) >= 1
  {
    RoundFacts(x, rows);
  }

  lemma ShareOf(rows: nat, x: real)
    requires x <= rows as real
    ensures rows > 0 ==> Share(rows, x) == if RoundHalfEven(x) < 1 then 1 else RoundHalfEven(x)
    ensures x == rows as real ==> Share(rows, x) == rows
    ensures 1.0 <= x ==> -0.5 <= Share(rows, x) as real - x <= 0.5
  {
    hide RoundHalfEven;
    RoundedWithin(x, rows);
    RoundFacts(x, rows);
  }

  lemma EntitledFits(sources: seq<Source>, weights: map<int, real>, k: nat)
    requires Weighted(sources, weights) && k < |sources|
    ensures Entitled(sources, weights, k) <= |sources[k].rows| as real
    ensures FullScale(sources, weights) == Ratio(sources, weights, k) ==>
              Entitled(sources, weights, k) == |sources[k].rows| as real
  {
    hide Weighted, Scale;
    ScaleIsLeast(sources, weights, |sources| - 1);
    RatioFeasible(sources, weights, k, FullScale(sources, weights));
    Quotient(|sources[k].rows| as real, Weight(sources, weights, k));
  }

  /** At that scale no non-empty source is cut to its size: every share is the rounded one, at least one row, and
      within half a row of the requested proportion once the proportion asks for a row. */
  lemma SharesAreProportional(sources: seq<Source>, weights: map<int, real>, k: nat)
    requires Weighted(sources, weights) && k < |sources|
    ensures var wanted := Entitled(sources, weights, k);
            && (sources[k].rows != [] ==>
                  CountOf(sources, weights, k) == if RoundHalfEven(wanted) < 1 then 1 else RoundHalfEven(wanted))
            && (1.0 <= wanted ==> -0.5 <= CountOf(sources, weights, k) as real - wanted <= 0.5)
  {
    hide Weighted, Share, Entitled, RoundHalfEven;
    EntitledFits(sources, weights, k);
    ShareOf(|sources[k].rows|, Entitled(sources, weights, k));
  }

  /** Some source is taken whole. */
  lemma LimitingSourceIsTakenWhole(sources: seq<Source>, weights: map<int, real>)
    requires sources != [] && Weighted(sources, weights)
    ensures exists k :: 0 <= k < |sources| && CountOf(sources, weights, k) == |sources[k].rows|
  {
    hide Weighted, Share, Scale, Entitled, Ratio, RoundHalfEven;
    ScaleIsLeast(sources, weights, |sources| - 1);
    var k :| 0 <= k <= |sources| - 1 && Scale(sources, weights, |sources| - 1) == Ratio(sources, weights, k);
    EntitledFits(sources, weights, k);
    ShareOf(|sources[k].rows|, Entitled(sources, weights, k));
    assert CountOf(sources, weights, k) == |sources[k].rows|;
  }

  // ---------- Sampling all sources ----------

  function All(samples: seq<seq<Row>>): multiset<Row> {
    if samples == [] then multiset{} else All(samples[..|samples| - 1]) + multiset(samples[|samples| - 1])
  }

  ghost predicate FairSamples(sources: seq<Source>, counts: seq<nat>, samples: seq<seq<Row>>) {
    && |samples| == |counts| <= |sources|
    && forall k :: 0 <= k < |samples| ==>
         FairSample(sources[k].rows, counts[k], samples[k]) && counts[k] >= |Labels(sources[k].rows)|
  }

  /** A shuffled union of fair samples, one of every source. */
  ghost predicate IsMixture(sources: seq<Source>, counts: seq<nat>, rows: seq<Row>) {
    exists samples :: |samples| == |sources| && FairSamples(sources, counts, samples) && multiset(rows) == All(samples)
  }

  ghost predicate Serves(sources: seq<Source>, weights: map<int, real>, n: nat)
    requires Weighted(sources, weights) && n <= |sources|
  {
    forall k :: 0 <= k < n ==> CountOf(sources, weights, k) >= |Labels(sources[k].rows)|
  }

  ghost predicate Correct(sources: seq<Source>, weights: map<int, real>, m: Outcome) {
    if !Weighted(sources, weights) then m == Refused(BadWeights)
    else if sources == [] then m == Refused(NoSources)
    else if Serves(sources, weights, |sources|) then
      && m.Mixed?
      && IsMixture(sources, m.counts, m.rows)
      && forall k :: 0 <= k < |sources| ==> k < |m.counts| && m.counts[k] == CountOf(sources, weights, k)
    else
      exists k :: 0 <= k < |sources| && Serves(sources, weights, k) &&
                  CountOf(sources, weights, k) < |Labels(sources[k].rows)| &&
                  m == Refused(OmitsClasses(sources[k].name))
  }

  lemma AddSample(samples: seq<seq<Row>>, s: seq<Row>)
    ensures All(samples + [s]) == All(samples) + multiset(s)
  {
    assert (samples + [s])[..|samples|] == samples;
  }

  lemma AddFairSample(sources: seq<Source>, counts: seq<nat>, samples: seq<seq<Row>>, rows: seq<Row>, count: nat,
                      s: seq<Row>)
    requires FairSamples(sources, counts, samples) && |samples| < |sources| && multiset(rows) == All(samples)
    requires FairSample(sources[|samples|].rows, count, s) && count >= |Labels(sources[|samples|].rows)|
    ensures FairSamples(sources, counts + [count], samples + [s]) && multiset(rows + s) == All(samples + [s])
  {
    hide FairSample, Labels, All;
    AddSample(samples, s);
  }

  lemma NoSamples(sources: seq<Source>)
    ensures FairSamples(sources, [], []) && All([]) == multiset{}
  {
  }

  lemma RefusedCorrectly(sources: seq<Source>, weights: map<int, real>, k: nat)
    requires k < |sources| && Weighted(sources, weights) && Serves(sources, weights, k)
    requires CountOf(sources, weights, k) < |Labels(sources[k].rows)|
    ensures Correct(sources, weights, Refused(OmitsClasses(sources[k].name)))
  {
  }

  lemma MixedCorrectly(sources: seq<Source>, weights: map<int, real>, counts: seq<nat>, rows: seq<Row>,
                       samples: seq<seq<Row>>)
    requires sources != [] && Weighted(sources, weights) && Serves(sources, weights, |sources|)
    requires |samples| == |sources| && FairSamples(sources, counts, samples) && multiset(rows) == All(samples)
    requires forall k :: 0 <= k < |sources| ==> k < |counts| && counts[k] == CountOf(sources, weights, k)
    ensures Correct(sources, weights, Mixed(rows, counts))
  {
  }

  /** The sources are given in the order of their names. */
  method WeightedSample(sources: seq<Source>, weights: map<int, real>, shuffle: (nat, seq<Row>) -> seq<Row>,
                        order: (nat, seq<int>) -> seq<int>) returns (m: Outcome)
    requires Permutes(shuffle) && Reorders(order)
    ensures Correct(sources, weights, m)
  {
    hide Permutes, Reorders, FairSample, FairSamples, All, Labels, CountOf, Different;
    if !Weighted(sources, weights) {
      return Refused(BadWeights);
    }
    if sources == [] {
      return Refused(NoSources);
    }
    var result: seq<Row>, counts: seq<nat>, draws: nat := [], [], 0;
    ghost var samples: seq<seq<Row>> := [];
    NoSamples(sources);
    for k := 0 to |sources|
      invariant |counts| == |samples| == k && FairSamples(sources, counts, samples) && multiset(result) == All(samples)
      invariant forall j :: 0 <= j < k ==> counts[j] == CountOf(sources, weights, j)
      invariant Serves(sources, weights, k)
    {
      hide Weighted, Correct;
      var rows := sources[k].rows;
      var count := CountOf(sources, weights, k);
      CountWithin(sources, weights, k);
      if count < |Labels(rows)| {
        RefusedCorrectly(sources, weights, k);
        return Refused(OmitsClasses(sources[k].name));
      }
      ShuffledLabels(order, k, rows);
      var sampled := SampleSource(rows, count, order(k, Labels(rows)), draws, shuffle);
      draws := draws + |Labels(rows)|;
      AddFairSample(sources, counts, samples, result, count, sampled);
      result := result + sampled;
      counts := counts + [count];
      samples := samples + [sampled];
    }
    ShuffleKeeps(shuffle, draws, result);
    m := Mixed(shuffle(draws, result), counts);
    MixedCorrectly(sources, weights, counts, m.rows, samples);
  }

  lemma CountWithin(sources: seq<Source>, weights: map<int, real>, k: nat)
    requires k < |sources| && Weighted(sources, weights)
    ensures CountOf(sources, weights, k) <= |sources[k].rows|
  {
  }
}
