/** The two-class similarity predictor of `bin/predictor.py`.

    The training table is split into the rows labelled active (1) and
    inactive (0). Every query row is scored against each class with one
    scorer, and the two aggregates become a probability-like pair through a
    two-way softmax. The fingerprinter (`fp`), the pairwise similarity
    (`sim`) and the exponential (`exp`) are parameters. */
module Predictor {
  import opened Outcomes
  import opened Frames
  import opened Scorer
  import Stats

  const SmilesColumn := "smiles"
  const BioactivityColumn := "bioactivity"
  const PredScoreColumn := "pred_score"
  const PositiveColumn := "positive_comps_similarity"
  const NegativeColumn := "negative_comps_similarity"
  const PredictionColumn := "prediction_score"
  const NegativePredictionColumn := "negative_prediction_score"

  /** The four columns the predictor appends to the query table, in order. */
  const AddedColumns := [PositiveColumn, NegativeColumn, PredictionColumn, NegativePredictionColumn]

  // ---------------------------------------------------------------------
  // The exponential and the two-way softmax
  // ---------------------------------------------------------------------

  /** What the model relies on about `exp`: it is positive and strictly increasing. */
  ghost predicate IsExp(exp: real -> real)
  {
    && (forall x :: 0.0 < exp(x))
    && (forall x, y :: x < y ==> exp(x) < exp(y))
  }

  /** A positive, strictly increasing function; it shows `IsExp` can be met. */
  function ExpStandIn(x: real): real
  {
    if x >= 0.0 then 1.0 + x else 1.0 / (1.0 - x)
  }

  lemma ExpStandInIsExp()
    ensures IsExp(ExpStandIn)
  {
    forall x, y | x < y ensures ExpStandIn(x) < ExpStandIn(y) {
      if y < 0.0 {
        ReciprocalDecreasing(1.0 - y, 1.0 - x);
      } else if x < 0.0 {
        ReciprocalDecreasing(1.0, 1.0 - x);
      }
    }
  }

  lemma ReciprocalDecreasing(a: real, b: real)
    requires 1.0 <= a < b
    ensures 1.0 / b < 1.0 / a <= 1.0
  {
    var ia := 1.0 / a;
    var ib := 1.0 / b;
    assert ia * a == 1.0 && ib * b == 1.0;
    assert 0.0 < ib;
    if ia > 1.0 {
      Stats.MulMonotone(1.0, ia, a);
    }
    if ia <= ib {
      Stats.MulMonotone(ia, ib, a);
      MulStrict(ib, a, b);
    }
  }

  lemma MulStrict(k: real, x: real, y: real)
    requires 0.0 < k && x < y
    ensures k * x < k * y
  {
  }

  /** scipy's `softmax` over the pair [a, b] (one row, `axis=1`). */
  function Softmax2(exp: real -> real, a: real, b: real): (r: (real, real))
    requires IsExp(exp)
    ensures r.0 + r.1 == 1.0
    ensures 0.0 < r.0 < 1.0 && 0.0 < r.1 < 1.0
  {
    var ea := exp(a);
    var eb := exp(b);
    (ea / (ea + eb), eb / (ea + eb))
  }

  /** The positive share is above one half exactly when the positive
      aggregate is larger, one half exactly when they tie, and below one half
      exactly when it is smaller. */
  lemma SoftmaxThreshold(exp: real -> real, a: real, b: real)
    requires IsExp(exp)
    ensures Softmax2(exp, a, b).0 > 0.5 <==> a > b
    ensures Softmax2(exp, a, b).0 == 0.5 <==> a == b
    ensures Softmax2(exp, a, b).0 < 0.5 <==> a < b
  {
    ShareThreshold(exp(a), exp(b));
    if a < b {
      assert exp(a) < exp(b);
    } else if b < a {
      assert exp(b) < exp(a);
    }
  }

  /** For positive weights, a share of the total compares with one half as
      its weight compares with the other weight. */
  lemma ShareThreshold(x: real, y: real)
    requires 0.0 < x && 0.0 < y
    ensures x / (x + y) > 0.5 <==> x > y
    ensures x / (x + y) == 0.5 <==> x == y
    ensures x / (x + y) < 0.5 <==> x < y
  {
    var p := x / (x + y);
    assert p * (x + y) == x;
    assert (p - 0.5) * (x + y) == (x - y) / 2.0;
    if p > 0.5 {
      MulPositive(p - 0.5, x + y);
    } else if p < 0.5 {
      MulPositive(0.5 - p, x + y);
    }
  }

  lemma MulPositive(a: real, b: real)
    requires 0.0 < a && 0.0 < b
    ensures 0.0 < a * b
  {
  }

  // ---------------------------------------------------------------------
  // Partition of the training rows
  // ---------------------------------------------------------------------

  /** The row's bioactivity cell equals `activity` (`df.bioactivity == activity`). */
  predicate HasLabel(row: Row, activity: real)
  {
    BioactivityColumn in row && row[BioactivityColumn] == Number(activity)
  }

  /** `df[df.bioactivity == activity]`: the rows with that activity, in order. */
  function WithLabel(rows: seq<Row>, activity: real): (r: seq<Row>)
    ensures |r| <= |rows|
    ensures (forall i :: 0 <= i < |rows| ==> HasLabel(rows[i], activity)) ==> r == rows
    ensures (forall i :: 0 <= i < |rows| ==> !HasLabel(rows[i], activity)) ==> r == []
  {
    if |rows| == 0 then []
    else if HasLabel(rows[0], activity) then [rows[0]] + WithLabel(rows[1..], activity)
    else WithLabel(rows[1..], activity)
  }

  /** Rows labelled 1 (`train_positives`). */
  function Positives(train: Table): (r: seq<Row>)
    ensures forall x :: x in r ==> x in train.rows && HasLabel(x, 1.0)
  {
    WithLabelMembers(train.rows, 1.0);
    WithLabel(train.rows, 1.0)
  }

  /** Rows labelled 0 (`train_negatives`). */
  function Negatives(train: Table): (r: seq<Row>)
    ensures forall x :: x in r ==> x in train.rows && HasLabel(x, 0.0)
  {
    WithLabelMembers(train.rows, 0.0);
    WithLabel(train.rows, 0.0)
  }

  /** Ascending positions, from `from` on, of the rows carrying `activity`. */
  function LabelIndices(rows: seq<Row>, activity: real, from: nat): seq<nat>
    requires from <= |rows|
    decreases |rows| - from
  {
    if from == |rows| then []
    else if HasLabel(rows[from], activity) then [from] + LabelIndices(rows, activity, from + 1)
    else LabelIndices(rows, activity, from + 1)
  }

  /** Filtering a suffix keeps, in order, the rows at the labelled positions of that suffix. */
  lemma {:induction false} WithLabelFrom(rows: seq<Row>, activity: real, from: nat)
    requires from <= |rows|
    decreases |rows| - from
    ensures var kept := WithLabel(rows[from..], activity);
            var idx := LabelIndices(rows, activity, from);
            && |kept| == |idx|
            && (forall k :: 0 <= k < |idx| ==> from <= idx[k] < |rows| && kept[k] == rows[idx[k]])
  {
    if from < |rows| {
      WithLabelFrom(rows, activity, from + 1);
      var rest := WithLabel(rows[from + 1..], activity);
      var restIdx := LabelIndices(rows, activity, from + 1);
      assert rows[from..][1..] == rows[from + 1..];
      if HasLabel(rows[from], activity) {
        assert WithLabel(rows[from..], activity) == [rows[from]] + rest;
        assert LabelIndices(rows, activity, from) == [from] + restIdx;
      } else {
        assert WithLabel(rows[from..], activity) == rest;
        assert LabelIndices(rows, activity, from) == restIdx;
      }
    }
  }

  /** The labelled positions are listed in strictly increasing order. */
  lemma {:induction false} LabelIndicesIncreasing(rows: seq<Row>, activity: real, from: nat)
    requires from <= |rows|
    decreases |rows| - from
    ensures forall k :: 0 <= k < |LabelIndices(rows, activity, from)| ==>
              from <= LabelIndices(rows, activity, from)[k]
    ensures forall k, l :: 0 <= k < l < |LabelIndices(rows, activity, from)| ==>
              LabelIndices(rows, activity, from)[k] < LabelIndices(rows, activity, from)[l]
  {
    if from < |rows| {
      LabelIndicesIncreasing(rows, activity, from + 1);
      var rest := LabelIndices(rows, activity, from + 1);
      assert forall k :: 0 <= k < |rest| ==> from + 1 <= rest[k];
      if HasLabel(rows[from], activity) {
        var idx := [from] + rest;
        assert LabelIndices(rows, activity, from) == idx;
        forall k, l | 0 <= k < l < |idx| ensures idx[k] < idx[l] {
          if k > 0 {
            assert idx[k] == rest[k - 1] && idx[l] == rest[l - 1];
          } else {
            assert idx[l] == rest[l - 1];
          }
        }
      }
    }
  }

  /** A position of the suffix is listed exactly when its row carries the activity. */
  lemma {:induction false} LabelIndicesMembers(rows: seq<Row>, activity: real, from: nat)
    requires from <= |rows|
    decreases |rows| - from
    ensures forall i :: from <= i < |rows| ==>
              (i in LabelIndices(rows, activity, from) <==> HasLabel(rows[i], activity))
  {
    if from < |rows| {
      LabelIndicesMembers(rows, activity, from + 1);
      LabelIndicesIncreasing(rows, activity, from + 1);
      var rest := LabelIndices(rows, activity, from + 1);
      assert from !in rest;
      if HasLabel(rows[from], activity) {
        assert LabelIndices(rows, activity, from) == [from] + rest;
      }
    }
  }

  /** The kept rows are exactly the rows whose activity matches, each kept
      once and in their original relative order: the k-th kept row is the
      row at the k-th matching position. */
  lemma WithLabelSelects(rows: seq<Row>, activity: real)
    ensures var kept := WithLabel(rows, activity);
            var idx := LabelIndices(rows, activity, 0);
            && |kept| == |idx|
            && (forall k :: 0 <= k < |idx| ==> idx[k] < |rows| && kept[k] == rows[idx[k]])
            && (forall k, l :: 0 <= k < l < |idx| ==> idx[k] < idx[l])
            && (forall i :: 0 <= i < |rows| ==> (i in idx <==> HasLabel(rows[i], activity)))
  {
    WithLabelFrom(rows, activity, 0);
    LabelIndicesIncreasing(rows, activity, 0);
    LabelIndicesMembers(rows, activity, 0);
    assert rows[0..] == rows;
  }

  /** Every kept row is a row of the input with the activity. */
  lemma {:induction false} WithLabelMembers(rows: seq<Row>, activity: real)
    ensures forall r :: r in WithLabel(rows, activity) ==> r in rows && HasLabel(r, activity)
  {
    if |rows| > 0 {
      WithLabelMembers(rows[1..], activity);
    }
  }

  /** A training row is a positive exactly when its activity is 1 and a negative
      exactly when it is 0; so no row is both, and a row with any other activity
      (or none) is neither. */
  lemma PartitionByLabel(train: Table, i: nat)
    requires i < |train.rows|
    ensures i in LabelIndices(train.rows, 1.0, 0) <==> HasLabel(train.rows[i], 1.0)
    ensures i in LabelIndices(train.rows, 0.0, 0) <==> HasLabel(train.rows[i], 0.0)
    ensures !(i in LabelIndices(train.rows, 1.0, 0) && i in LabelIndices(train.rows, 0.0, 0))
  {
    WithLabelSelects(train.rows, 1.0);
    WithLabelSelects(train.rows, 0.0);
  }

  /** A class of training rows as a table of its own, with the training columns. */
  function ClassTable(train: Table, activity: real): (r: Table)
    requires WellFormed(train)
    ensures WellFormed(r) && r.columns == train.columns
  {
    var kept := WithLabel(train.rows, activity);
    WithLabelMembers(train.rows, activity);
    assert forall k :: 0 <= k < |kept| ==> kept[k] in train.rows;
    Table(train.columns, kept)
  }

  // ---------------------------------------------------------------------
  // Fingerprinting and per-row scoring
  // ---------------------------------------------------------------------

  /** The row has a text structure cell (RDKit's parser accepts only text). */
  predicate TextSmiles(row: Row)
  {
    SmilesColumn in row && row[SmilesColumn].Text?
  }

  predicate AllTextSmiles(rows: seq<Row>)
  {
    forall i :: 0 <= i < |rows| ==> TextSmiles(rows[i])
  }

  /** The structure string of a row. */
  function SmilesOf(row: Row): string
    requires TextSmiles(row)
  {
    row[SmilesColumn].text
  }

  /** One fingerprint per row, in row order. */
  function FingerprintRows<F>(rows: seq<Row>, fp: string -> F): (r: seq<F>)
    requires AllTextSmiles(rows)
    ensures |r| == |rows|
    ensures forall i :: 0 <= i < |rows| ==> r[i] == fp(SmilesOf(rows[i]))
  {
    seq(|rows|, i requires 0 <= i < |rows| => fp(SmilesOf(rows[i])))
  }

  /** A fingerprint generator applied to a table: pandas' `KeyError` when the
      structure column is absent, a parse failure when a structure cell is
      not text, otherwise one fingerprint per row. */
  function Fingerprints<F>(t: Table, fp: string -> F): (r: Result<seq<F>>)
    requires WellFormed(t)
    ensures r.Ok? <==> SmilesColumn in t.columns && AllTextSmiles(t.rows)
    ensures SmilesColumn !in t.columns ==> r == Err(MissingColumn(SmilesColumn))
    ensures r.Ok? ==> r.value == FingerprintRows(t.rows, fp)
  {
    if SmilesColumn !in t.columns then Err(MissingColumn(SmilesColumn))
    else if !AllTextSmiles(t.rows) then Err(InvalidSmiles)
    else Ok(FingerprintRows(t.rows, fp))
  }

  /** The scorer applied to every query fingerprint (`.apply(lambda x: scorer(...))`).
      The scorer is only called when there is a query row, so an empty
      reference list fails only then. */
  function ScoreRows<F>(kind: ScorerKind, queries: seq<F>, refs: seq<F>, labels: seq<Value>,
                        sim: (F, F) -> real): (r: Option<seq<real>>)
    ensures r.Some? <==> |queries| == 0 || |refs| > 0
    ensures r.Some? ==> |r.value| == |queries|
    ensures r.Some? ==> forall i :: 0 <= i < |queries| ==>
              Score(kind, queries[i], refs, labels, sim) == Some(r.value[i])
  {
    if |queries| == 0 then Some([])
    else
      match Score(kind, queries[0], refs, labels, sim)
      case None => None
      case Some(x) =>
        match ScoreRows(kind, queries[1..], refs, labels, sim)
        case None => None
        case Some(rest) => Some([x] + rest)
  }

  /** An empty label list: the scorers never read their labels. */
  const NoLabels: seq<Value> := []

  /** One class's aggregate for one structure, computed straight from the rows. */
  function ClassScore<F>(kind: ScorerKind, smiles: string, refs: seq<Row>, fp: string -> F,
                         sim: (F, F) -> real): (r: Option<real>)
    requires AllTextSmiles(refs)
    ensures r.Some? <==> |refs| > 0
  {
    Score(kind, fp(smiles), FingerprintRows(refs, fp), NoLabels, sim)
  }

  /** The `pred_score` column of `calculate_similiarity_scores`: both tables
      are fingerprinted (query first), then every query row is scored
      against all reference fingerprints. The reference labels are looked up
      inside the per-row call, so they are needed only when a row is scored. */
  function ScoreQuery<F>(of: Table, to: Table, kind: ScorerKind, fp: string -> F,
                         sim: (F, F) -> real): (r: Result<seq<real>>)
    requires WellFormed(of) && WellFormed(to)
    ensures r.Ok? <==> Scorable(of, to)
    ensures r.Ok? ==> |r.value| == |of.rows|
  {
    var ofFps :- Fingerprints(of, fp);
    var toFps :- Fingerprints(to, fp);
    if |ofFps| > 0 && BioactivityColumn !in to.columns then Err(MissingColumn(BioactivityColumn))
    else
      match ScoreRows(kind, ofFps, toFps, ReferenceLabels(to), sim)
      case None => Err(EmptyReference)
      case Some(scores) => Ok(scores)
  }

  /** When `calculate_similiarity_scores` returns: both tables have text
      structures and, if there is a query row, the reference table has a
      bioactivity column and at least one row. */
  predicate Scorable(of: Table, to: Table)
  {
    && SmilesColumn in of.columns && AllTextSmiles(of.rows)
    && SmilesColumn in to.columns && AllTextSmiles(to.rows)
    && (|of.rows| == 0 || (BioactivityColumn in to.columns && |to.rows| > 0))
  }

  /** The labels handed to the scorer: the reference bioactivity column. */
  function ReferenceLabels(to: Table): (r: seq<Value>)
    requires WellFormed(to)
    ensures BioactivityColumn in to.columns ==>
              |r| == |to.rows| && forall i :: 0 <= i < |r| ==> r[i] == to.rows[i][BioactivityColumn]
  {
    if BioactivityColumn in to.columns then Column(to, BioactivityColumn) else []
  }

  /** Score i is the scorer applied to query row i's structure and the
      reference rows' structures. */
  lemma ScoreQueryRows<F>(of: Table, to: Table, kind: ScorerKind, fp: string -> F, sim: (F, F) -> real)
    requires WellFormed(of) && WellFormed(to)
    requires Scorable(of, to)
    ensures forall i :: 0 <= i < |of.rows| ==>
              ClassScore(kind, SmilesOf(of.rows[i]), to.rows, fp, sim) == Some(ScoreQuery(of, to, kind, fp, sim).value[i])
  {
    var ofFps := FingerprintRows(of.rows, fp);
    var toFps := FingerprintRows(to.rows, fp);
    var labels := ReferenceLabels(to);
    var scores := ScoreRows(kind, ofFps, toFps, labels, sim).value;
    assert ScoreQuery(of, to, kind, fp, sim).value == scores;
    forall i | 0 <= i < |of.rows|
      ensures ClassScore(kind, SmilesOf(of.rows[i]), to.rows, fp, sim) == Some(scores[i])
    {
      LabelsIgnored(kind, ofFps[i], toFps, labels, NoLabels, sim);
    }
  }

  /** `calculate_similiarity_scores`: the query table's own columns plus
      `pred_score`, one row per query row, in order. */
  function CalculateScores<F>(of: Table, to: Table, kind: ScorerKind, fp: string -> F,
                              sim: (F, F) -> real): (r: Result<Table>)
    requires WellFormed(of) && WellFormed(to)
    ensures r.Ok? <==> Scorable(of, to)
    ensures r.Ok? ==> WellFormed(r.value) && r.value.columns == of.columns + [PredScoreColumn]
    ensures r.Ok? ==> |r.value.rows| == |of.rows|
    ensures r.Ok? ==> forall i :: 0 <= i < |of.rows| ==>
              r.value.rows[i][PredScoreColumn] == Number(ScoreQuery(of, to, kind, fp, sim).value[i])
    ensures r.Ok? ==> forall i, c :: 0 <= i < |of.rows| && c in of.columns && c != PredScoreColumn ==>
              r.value.rows[i][c] == of.rows[i][c]
  {
    var scores :- ScoreQuery(of, to, kind, fp, sim);
    var scored := SetColumn(of, PredScoreColumn, Numbers(scores));
    Project(scored, of.columns + [PredScoreColumn])
  }

  // ---------------------------------------------------------------------
  // The predictor
  // ---------------------------------------------------------------------

  /** When the predictor returns a table: the training table has a
      bioactivity column, both tables have a structure column, every
      structure that gets fingerprinted is text, and, if there is any query
      row, both classes are non-empty, and the query has no `pred_score`
      column of its own. Training rows labelled neither 0 nor 1 are never
      fingerprinted. */
  predicate PredictionDefined(train: Table, query: Table)
  {
    && BioactivityColumn in train.columns
    && SmilesColumn in query.columns && SmilesColumn in train.columns
    && AllTextSmiles(query.rows)
    && AllTextSmiles(Positives(train)) && AllTextSmiles(Negatives(train))
    && (|query.rows| == 0 || (|Positives(train)| > 0 && |Negatives(train)| > 0))
    && PredScoreColumn !in query.columns
  }

  /** The four cells the predictor appends to a row whose class aggregates
      are `p` (positive) and `n` (negative): the aggregates themselves, then
      the two shares of their softmax. */
  predicate PredictionCells(out: Row, p: real, n: real, exp: real -> real)
    requires IsExp(exp)
  {
    && PositiveColumn in out && out[PositiveColumn] == Number(p)
    && NegativeColumn in out && out[NegativeColumn] == Number(n)
    && PredictionColumn in out && out[PredictionColumn] == Number(Softmax2(exp, p, n).0)
    && NegativePredictionColumn in out && out[NegativePredictionColumn] == Number(Softmax2(exp, p, n).1)
  }

  /** The table with the four prediction columns appended (or overwritten,
      when the table already has a column of that name); row i receives the
      aggregates `pos[i]`, `neg[i]` and their softmax. */
  function WithPrediction(t: Table, pos: seq<real>, neg: seq<real>, exp: real -> real): (r: Table)
    requires WellFormed(t) && IsExp(exp) && |pos| == |t.rows| && |neg| == |t.rows|
    ensures WellFormed(r) && |r.rows| == |t.rows|
    ensures forall c :: c in r.columns <==> c in t.columns || c in AddedColumns
    ensures (forall c :: c in AddedColumns ==> c !in t.columns) ==> r.columns == t.columns + AddedColumns
    ensures forall i :: 0 <= i < |t.rows| ==> PredictionCells(r.rows[i], pos[i], neg[i], exp)
    ensures forall i, c :: 0 <= i < |t.rows| && c in t.columns && c !in AddedColumns ==>
              r.rows[i][c] == t.rows[i][c]
  {
    assert Distinct(AddedColumns);
    var values := PredictionValues(pos, neg, exp);
    var r := SetColumns(t, AddedColumns, values);
    forall i | 0 <= i < |t.rows| ensures PredictionCells(r.rows[i], pos[i], neg[i], exp) {
      assert r.rows[i][AddedColumns[0]] == values[0][i];
      assert r.rows[i][AddedColumns[1]] == values[1][i];
      assert r.rows[i][AddedColumns[2]] == values[2][i];
      assert r.rows[i][AddedColumns[3]] == values[3][i];
    }
    r
  }

  /** The four appended columns as cells, in the order of `AddedColumns`. */
  function PredictionValues(pos: seq<real>, neg: seq<real>, exp: real -> real): (r: seq<seq<Value>>)
    requires IsExp(exp) && |pos| == |neg|
    ensures |r| == 4 && forall j :: 0 <= j < 4 ==> |r[j]| == |pos|
    ensures forall i :: 0 <= i < |pos| ==>
              && r[0][i] == Number(pos[i]) && r[1][i] == Number(neg[i])
              && r[2][i] == Number(Softmax2(exp, pos[i], neg[i]).0)
              && r[3][i] == Number(Softmax2(exp, pos[i], neg[i]).1)
  {
    [Numbers(pos), Numbers(neg),
     seq(|pos|, i requires 0 <= i < |pos| => Number(Softmax2(exp, pos[i], neg[i]).0)),
     seq(|pos|, i requires 0 <= i < |pos| => Number(Softmax2(exp, pos[i], neg[i]).1))]
  }

  /** Setting a column other than the structure column leaves every structure cell as it was. */
  lemma SetKeepsSmiles(t: Table, name: string, values: seq<Value>)
    requires WellFormed(t) && |values| == |t.rows| && name != SmilesColumn
    ensures var r := SetColumn(t, name, values);
            && (SmilesColumn in r.columns <==> SmilesColumn in t.columns)
            && (SmilesColumn in t.columns ==> forall i :: 0 <= i < |t.rows| ==>
                  r.rows[i][SmilesColumn] == t.rows[i][SmilesColumn])
            && (AllTextSmiles(r.rows) <==> AllTextSmiles(t.rows))
  {
    var r := SetColumn(t, name, values);
    forall i | 0 <= i < |t.rows| ensures TextSmiles(r.rows[i]) <==> TextSmiles(t.rows[i]) {
      assert SmilesColumn in r.rows[i] <==> SmilesColumn in t.rows[i];
    }
  }

  /** The two aggregate columns, computed in the source's order: the query
      is scored against the positives, the positive aggregate is stored in
      the query table, and that table is scored against the negatives. A
      query that already has a `pred_score` column comes back from the
      scoring with that column twice, so selecting `pred_score` gives two
      columns, which cannot be stored in the single positive column. */
  function ClassAggregates<F>(train: Table, query: Table, kind: ScorerKind, fp: string -> F,
                              sim: (F, F) -> real): (r: Result<(seq<real>, seq<real>)>)
    requires WellFormed(train) && WellFormed(query) && BioactivityColumn in train.columns
    ensures r.Ok? <==> PredictionDefined(train, query)
    ensures r.Ok? ==> |r.value.0| == |query.rows| && |r.value.1| == |query.rows|
    ensures PredScoreColumn in query.columns && Scorable(query, ClassTable(train, 1.0)) ==>
              r == Err(MultipleColumns(PredScoreColumn))
  {
    var pos :- ScoreQuery(query, ClassTable(train, 1.0), kind, fp, sim);
    if PredScoreColumn in query.columns then Err(MultipleColumns(PredScoreColumn))
    else
      var withPos := SetColumn(query, PositiveColumn, Numbers(pos));
      SetKeepsSmiles(query, PositiveColumn, Numbers(pos));
      var neg :- ScoreQuery(withPos, ClassTable(train, 0.0), kind, fp, sim);
      Ok((pos, neg))
  }

  /** Aggregate i of each class is the scorer applied to query row i's
      structure and the structures of that class's training rows. */
  lemma ClassAggregatesRows<F>(train: Table, query: Table, kind: ScorerKind, fp: string -> F,
                               sim: (F, F) -> real, i: nat)
    requires WellFormed(train) && WellFormed(query)
    requires PredictionDefined(train, query) && i < |query.rows|
    ensures var agg := ClassAggregates(train, query, kind, fp, sim).value;
            && ClassScore(kind, SmilesOf(query.rows[i]), Positives(train), fp, sim) == Some(agg.0[i])
            && ClassScore(kind, SmilesOf(query.rows[i]), Negatives(train), fp, sim) == Some(agg.1[i])
  {
    var positives := ClassTable(train, 1.0);
    var negatives := ClassTable(train, 0.0);
    var pos := ScoreQuery(query, positives, kind, fp, sim).value;
    var withPos := SetColumn(query, PositiveColumn, Numbers(pos));
    SetKeepsSmiles(query, PositiveColumn, Numbers(pos));
    ScoreQueryRows(query, positives, kind, fp, sim);
    ScoreQueryRows(withPos, negatives, kind, fp, sim);
    assert SmilesOf(withPos.rows[i]) == SmilesOf(query.rows[i]);
  }

  /** `similarity_softmax_bioactivity_predictor`: the query table with the
      positive aggregate, negative aggregate, positive share and negative
      share appended as columns. It fails when the training table has no
      bioactivity column, when a table has no structure column, when a
      structure that is fingerprinted is not text, and when there is a query
      row but a class is empty, and when the query already has a
      `pred_score` column. With no query row nothing is scored, and the
      softmax of the empty aggregate columns is taken to be empty. */
  function Predict<F>(train: Table, query: Table, kind: ScorerKind, fp: string -> F,
                      sim: (F, F) -> real, exp: real -> real): (r: Result<Table>)
    requires WellFormed(train) && WellFormed(query) && IsExp(exp)
    ensures r.Ok? <==> PredictionDefined(train, query)
    ensures BioactivityColumn !in train.columns ==> r == Err(MissingColumn(BioactivityColumn))
    ensures r.Ok? ==> WellFormed(r.value) && |r.value.rows| == |query.rows|
    ensures r.Ok? ==> forall c :: c in r.value.columns <==> c in query.columns || c in AddedColumns
    ensures r.Ok? && (forall c :: c in AddedColumns ==> c !in query.columns) ==>
              r.value.columns == query.columns + AddedColumns
    ensures r.Ok? ==> forall i, c :: 0 <= i < |query.rows| && c in query.columns && c !in AddedColumns ==>
              r.value.rows[i][c] == query.rows[i][c]
  {
    if BioactivityColumn !in train.columns then Err(MissingColumn(BioactivityColumn))
    else
      var agg :- ClassAggregates(train, query, kind, fp, sim);
      Ok(WithPrediction(query, agg.0, agg.1, exp))
  }

  /** Each output row holds the class aggregates of its query structure and
      their softmax. */
  lemma PredictRow<F>(train: Table, query: Table, kind: ScorerKind, fp: string -> F,
                      sim: (F, F) -> real, exp: real -> real, i: nat)
    requires WellFormed(train) && WellFormed(query) && IsExp(exp)
    requires PredictionDefined(train, query) && i < |query.rows|
    ensures PredictedRow(Predict(train, query, kind, fp, sim, exp).value.rows[i], SmilesOf(query.rows[i]),
                         train, kind, fp, sim, exp)
  {
    var agg := ClassAggregates(train, query, kind, fp, sim).value;
    ClassAggregatesRows(train, query, kind, fp, sim, i);
    assert Predict(train, query, kind, fp, sim, exp).value == WithPrediction(query, agg.0, agg.1, exp);
  }

  /** One output row as the predictor promises it for a query structure: the
      aggregate similarity to each class, and the two-way softmax of the pair. */
  ghost predicate PredictedRow<F>(out: Row, smiles: string, train: Table, kind: ScorerKind,
                                  fp: string -> F, sim: (F, F) -> real, exp: real -> real)
    requires IsExp(exp)
  {
    && AllTextSmiles(Positives(train)) && AllTextSmiles(Negatives(train))
    && |Positives(train)| > 0 && |Negatives(train)| > 0
    && PredictionCells(out, ClassScore(kind, smiles, Positives(train), fp, sim).value,
                       ClassScore(kind, smiles, Negatives(train), fp, sim).value, exp)
  }

  // ---------------------------------------------------------------------
  // Properties of the prediction
  // ---------------------------------------------------------------------

  /** In every output row the two shares are numbers strictly between 0 and 1
      that sum to 1. */
  lemma SharesSumToOne<F>(train: Table, query: Table, kind: ScorerKind, fp: string -> F,
                          sim: (F, F) -> real, exp: real -> real, i: nat)
    requires WellFormed(train) && WellFormed(query) && IsExp(exp)
    requires PredictionDefined(train, query) && i < |query.rows|
    ensures var out := Predict(train, query, kind, fp, sim, exp).value.rows[i];
            && PredictionColumn in out && NegativePredictionColumn in out
            && out[PredictionColumn].Number? && out[NegativePredictionColumn].Number?
            && out[PredictionColumn].number + out[NegativePredictionColumn].number == 1.0
            && 0.0 < out[PredictionColumn].number < 1.0
            && 0.0 < out[NegativePredictionColumn].number < 1.0
  {
    PredictRow(train, query, kind, fp, sim, exp, i);
    var out := Predict(train, query, kind, fp, sim, exp).value.rows[i];
    assert PredictedRow(out, SmilesOf(query.rows[i]), train, kind, fp, sim, exp);
  }

  /** A row's prediction score is above one half exactly when its positive
      aggregate beats its negative aggregate, and exactly one half on a tie. */
  lemma PredictionAboveHalf<F>(train: Table, query: Table, kind: ScorerKind, fp: string -> F,
                               sim: (F, F) -> real, exp: real -> real, i: nat)
    requires WellFormed(train) && WellFormed(query) && IsExp(exp)
    requires PredictionDefined(train, query) && i < |query.rows|
    ensures var out := Predict(train, query, kind, fp, sim, exp).value.rows[i];
            && PredictionColumn in out && PositiveColumn in out && NegativeColumn in out
            && out[PredictionColumn].Number? && out[PositiveColumn].Number? && out[NegativeColumn].Number?
            && (out[PredictionColumn].number > 0.5 <==> out[PositiveColumn].number > out[NegativeColumn].number)
            && (out[PredictionColumn].number == 0.5 <==> out[PositiveColumn].number == out[NegativeColumn].number)
            && (out[PredictionColumn].number < 0.5 <==> out[PositiveColumn].number < out[NegativeColumn].number)
  {
    var out := Predict(train, query, kind, fp, sim, exp).value.rows[i];
    var smiles := SmilesOf(query.rows[i]);
    PredictRow(train, query, kind, fp, sim, exp, i);
    SoftmaxThreshold(exp, ClassScore(kind, smiles, Positives(train), fp, sim).value,
                     ClassScore(kind, smiles, Negatives(train), fp, sim).value);
  }

  /** The softmax is taken row by row: two query rows with the same structure
      get the same four appended cells, whatever the other rows hold. */
  lemma SameStructureSamePrediction<F>(train: Table, query: Table, kind: ScorerKind, fp: string -> F,
                                       sim: (F, F) -> real, exp: real -> real, i: nat, j: nat)
    requires WellFormed(train) && WellFormed(query) && IsExp(exp)
    requires PredictionDefined(train, query) && i < |query.rows| && j < |query.rows|
    requires SmilesOf(query.rows[i]) == SmilesOf(query.rows[j])
    ensures var out := Predict(train, query, kind, fp, sim, exp).value;
            forall c :: c in AddedColumns ==> out.rows[i][c] == out.rows[j][c]
  {
    var out := Predict(train, query, kind, fp, sim, exp).value;
    PredictRow(train, query, kind, fp, sim, exp, i);
    PredictRow(train, query, kind, fp, sim, exp, j);
    PredictedRowsAgree(out.rows[i], out.rows[j], SmilesOf(query.rows[i]), train, kind, fp, sim, exp);
  }

  /** Predicting one query row on its own gives that row the same four
      appended cells as predicting it together with the rest of the table. */
  lemma RowByRow<F>(train: Table, query: Table, kind: ScorerKind, fp: string -> F,
                    sim: (F, F) -> real, exp: real -> real, i: nat)
    requires WellFormed(train) && WellFormed(query) && IsExp(exp)
    requires PredictionDefined(train, query) && i < |query.rows|
    ensures var single := Table(query.columns, [query.rows[i]]);
            && WellFormed(single)
            && Predict(train, single, kind, fp, sim, exp).Ok?
            && forall c :: c in AddedColumns ==>
                 Predict(train, single, kind, fp, sim, exp).value.rows[0][c]
                 == Predict(train, query, kind, fp, sim, exp).value.rows[i][c]
  {
    var single := Table(query.columns, [query.rows[i]]);
    SingleRowDefined(train, query, i);
    PredictRow(train, query, kind, fp, sim, exp, i);
    PredictRow(train, single, kind, fp, sim, exp, 0);
    PredictedRowsAgree(Predict(train, single, kind, fp, sim, exp).value.rows[0],
                       Predict(train, query, kind, fp, sim, exp).value.rows[i],
                       SmilesOf(query.rows[i]), train, kind, fp, sim, exp);
  }

  /** A single query row taken out as a table of its own is still a valid
      prediction input. */
  lemma SingleRowDefined(train: Table, query: Table, i: nat)
    requires WellFormed(train) && WellFormed(query)
    requires PredictionDefined(train, query) && i < |query.rows|
    ensures WellFormed(Table(query.columns, [query.rows[i]]))
    ensures PredictionDefined(train, Table(query.columns, [query.rows[i]]))
  {
    var single := Table(query.columns, [query.rows[i]]);
    assert TextSmiles(query.rows[i]);
    assert AllTextSmiles(single.rows);
  }

  /** Two rows predicted for the same structure agree on the appended columns. */
  lemma PredictedRowsAgree<F>(a: Row, b: Row, smiles: string, train: Table, kind: ScorerKind,
                              fp: string -> F, sim: (F, F) -> real, exp: real -> real)
    requires IsExp(exp)
    requires PredictedRow(a, smiles, train, kind, fp, sim, exp)
    requires PredictedRow(b, smiles, train, kind, fp, sim, exp)
    ensures forall c :: c in AddedColumns ==> c in a && c in b && a[c] == b[c]
  {
    var p := ClassScore(kind, smiles, Positives(train), fp, sim).value;
    var n := ClassScore(kind, smiles, Negatives(train), fp, sim).value;
    CellsAgree(a, b, p, n, exp);
  }

  /** Rows whose appended cells come from the same aggregates agree on them. */
  lemma CellsAgree(a: Row, b: Row, p: real, n: real, exp: real -> real)
    requires IsExp(exp) && PredictionCells(a, p, n, exp) && PredictionCells(b, p, n, exp)
    ensures forall c :: c in AddedColumns ==> c in a && c in b && a[c] == b[c]
  {
  }

  /** With the max scorer, a query structure that occurs among the positives,
      a similarity that gives 1 on identical fingerprints, and every negative
      strictly less similar than that, the prediction score is above one half. */
  lemma SelfMatchWins<F>(train: Table, query: Table, fp: string -> F,
                         sim: (F, F) -> real, exp: real -> real, i: nat, k: nat)
    requires WellFormed(train) && WellFormed(query) && IsExp(exp)
    requires PredictionDefined(train, query) && i < |query.rows|
    requires k < |Positives(train)| && SmilesOf(Positives(train)[k]) == SmilesOf(query.rows[i])
    requires sim(fp(SmilesOf(query.rows[i])), fp(SmilesOf(query.rows[i]))) == 1.0
    requires forall n :: n in Negatives(train) ==>
               sim(fp(SmilesOf(query.rows[i])), fp(SmilesOf(n))) < 1.0
    ensures var out := Predict(train, query, MaxScorer, fp, sim, exp).value.rows[i];
            PredictionColumn in out && out[PredictionColumn].Number? && out[PredictionColumn].number > 0.5
  {
    var smiles := SmilesOf(query.rows[i]);
    var f := fp(smiles);
    var posRefs := FingerprintRows(Positives(train), fp);
    var negRefs := FingerprintRows(Negatives(train), fp);
    MaxScoreIsGreatest(f, posRefs, NoLabels, sim);
    MaxScoreIsGreatest(f, negRefs, NoLabels, sim);
    assert posRefs[k] == f;
    var p := ClassScore(MaxScorer, smiles, Positives(train), fp, sim).value;
    var n := ClassScore(MaxScorer, smiles, Negatives(train), fp, sim).value;
    assert 1.0 <= p;
    var m :| 0 <= m < |negRefs| && n == sim(f, negRefs[m]);
    assert Negatives(train)[m] in Negatives(train);
    assert n < 1.0;
    PredictionAboveHalf(train, query, MaxScorer, fp, sim, exp, i);
    var out := Predict(train, query, MaxScorer, fp, sim, exp).value.rows[i];
    PredictRow(train, query, MaxScorer, fp, sim, exp, i);
  }
}
