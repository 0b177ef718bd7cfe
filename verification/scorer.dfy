/** The four similarity scorers of `bin/scorer.py`.

    Each scorer compares one query fingerprint with every reference
    fingerprint through a pairwise similarity function and reduces the list
    of similarities to one number. Fingerprints are an abstract type `F` and
    the similarity function is a parameter; the `labels` argument is accepted
    and ignored, as in the source. */
module Scorer {
  import opened Outcomes
  import Stats

  /** The reductions named by the scorer registry. */
  datatype ScorerKind = MaxScorer | MeanScorer | UpperCuartileScorer | UpperDecileScorer

  /** The list comprehension every scorer starts with: one similarity per
      reference fingerprint, in reference order. */
  function Similarities<F>(query: F, refs: seq<F>, sim: (F, F) -> real): (r: seq<real>)
    ensures |r| == |refs|
    ensures forall i :: 0 <= i < |refs| ==> r[i] == sim(query, refs[i])
  {
    if |refs| == 0 then []
    else [sim(query, refs[0])] + Similarities(query, refs[1..], sim)
  }

  /** Reduce a list of similarities by one strategy. An empty list has no
      value: Python's `max`, `statistics.mean` and `numpy.percentile` all
      raise on it. */
  function Aggregate(kind: ScorerKind, s: seq<real>): (r: Option<real>)
    ensures r.Some? <==> |s| > 0
    ensures r.Some? ==> Stats.MinOf(s) <= r.value <= Stats.MaxOf(s)
    ensures r.Some? && kind == MaxScorer ==>
              r.value in s && forall i :: 0 <= i < |s| ==> s[i] <= r.value
    ensures r.Some? && kind == UpperCuartileScorer ==>
              Stats.Percentile(s, 75.0) <= r.value && Stats.Mean(s) <= r.value
    ensures r.Some? && kind == UpperDecileScorer ==>
              Stats.Percentile(s, 90.0) <= r.value && Stats.Mean(s) <= r.value
  {
    if |s| == 0 then None
    else
      match kind
      case MaxScorer => Some(Stats.MaxOf(s))
      case MeanScorer =>
        Stats.MeanWithin(s, Stats.MinOf(s), Stats.MaxOf(s));
        Some(Stats.Mean(s))
      case UpperCuartileScorer =>
        Stats.UpperMeanWithin(s, 75.0);
        Stats.UpperMeanAtLeastMean(s, 75.0);
        Stats.PercentileWithin(s, 75.0);
        Some(Stats.UpperMean(s, 75.0))
      case UpperDecileScorer =>
        Stats.UpperMeanWithin(s, 90.0);
        Stats.UpperMeanAtLeastMean(s, 90.0);
        Stats.PercentileWithin(s, 90.0);
        Some(Stats.UpperMean(s, 90.0))
  }

  /** `max_similarity_scorer`, `mean_similarity_scorer`, `upper_cuartile_scorer`
      and `upper_decile_scorer`: aggregate the similarities of `query` to
      every reference. */
  function Score<F, L>(kind: ScorerKind, query: F, refs: seq<F>, labels: seq<L>, sim: (F, F) -> real)
    : (r: Option<real>)
    ensures r.Some? <==> |refs| > 0
    ensures r.Some? ==> exists i :: 0 <= i < |refs| && sim(query, refs[i]) <= r.value
    ensures r.Some? ==> exists i :: 0 <= i < |refs| && r.value <= sim(query, refs[i])
  {
    var s := Similarities(query, refs, sim);
    var r := Aggregate(kind, s);
    if r.Some? then
      assert Stats.MinOf(s) in s && Stats.MaxOf(s) in s;
      r
    else r
  }

  /** On the same similarities the strategies are ordered:
      mean <= upper quartile mean <= upper decile mean <= max. */
  lemma AggregateOrder(s: seq<real>)
    requires |s| > 0
    ensures Aggregate(MeanScorer, s).value <= Aggregate(UpperCuartileScorer, s).value
    ensures Aggregate(UpperCuartileScorer, s).value <= Aggregate(UpperDecileScorer, s).value
    ensures Aggregate(UpperDecileScorer, s).value <= Aggregate(MaxScorer, s).value
  {
    Stats.UpperMeanMonotone(s, 75.0, 90.0);
  }

  /** The upper-quartile score lies between the 75th percentile and the
      maximum of the similarities, and is at least the mean score. */
  lemma UpperCuartileBounds<F, L>(query: F, refs: seq<F>, labels: seq<L>, sim: (F, F) -> real)
    requires |refs| > 0
    ensures var s := Similarities(query, refs, sim);
            var u := Score(UpperCuartileScorer, query, refs, labels, sim).value;
            Stats.Percentile(s, 75.0) <= u <= Stats.MaxOf(s)
            && Score(MeanScorer, query, refs, labels, sim).value <= u
  {
    var s := Similarities(query, refs, sim);
    Stats.UpperMeanWithin(s, 75.0);
    AggregateOrder(s);
  }

  /** The upper-decile score is at least the upper-quartile score, and the
      max score is at least every other score. */
  lemma ScoreOrder<F, L>(query: F, refs: seq<F>, labels: seq<L>, sim: (F, F) -> real)
    requires |refs| > 0
    ensures Score(MeanScorer, query, refs, labels, sim).value
            <= Score(UpperCuartileScorer, query, refs, labels, sim).value
            <= Score(UpperDecileScorer, query, refs, labels, sim).value
            <= Score(MaxScorer, query, refs, labels, sim).value
  {
    AggregateOrder(Similarities(query, refs, sim));
  }

  /** The max score is the similarity to some reference and at least the
      similarity to every reference. */
  lemma MaxScoreIsGreatest<F, L>(query: F, refs: seq<F>, labels: seq<L>, sim: (F, F) -> real)
    requires |refs| > 0
    ensures var m := Score(MaxScorer, query, refs, labels, sim).value;
            (exists i :: 0 <= i < |refs| && m == sim(query, refs[i]))
            && forall i :: 0 <= i < |refs| ==> sim(query, refs[i]) <= m
  {
    var s := Similarities(query, refs, sim);
    var m := Score(MaxScorer, query, refs, labels, sim).value;
    assert m in s;
    var k :| 0 <= k < |s| && s[k] == m;
    assert m == sim(query, refs[k]);
  }

  /** The mean score is the total similarity divided by the number of references. */
  lemma MeanScoreIsAverage<F, L>(query: F, refs: seq<F>, labels: seq<L>, sim: (F, F) -> real)
    requires |refs| > 0
    ensures Score(MeanScorer, query, refs, labels, sim).value
            == Stats.Sum(Similarities(query, refs, sim)) / |refs| as real
  {
    var s := Similarities(query, refs, sim);
    assert Score(MeanScorer, query, refs, labels, sim).value == Stats.Mean(s);
  }

  /** No scorer looks at the labels. */
  lemma LabelsIgnored<F, L>(kind: ScorerKind, query: F, refs: seq<F>, labels: seq<L>, other: seq<L>,
                            sim: (F, F) -> real)
    ensures Score(kind, query, refs, labels, sim) == Score(kind, query, refs, other, sim)
  {
  }
}
