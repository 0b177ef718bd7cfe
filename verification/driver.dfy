/** The command's core in `bin/main.py`: three name registries checked in a
    fixed order, the predictor run with the selected entries, and the output
    cut down to the query's own columns plus `prediction_score`.

    The fingerprint generators and similarity metrics themselves belong to
    external libraries; the driver takes them as functions indexed by the
    registry's kinds. */
module Driver {
  import opened Outcomes
  import opened Frames
  import opened Scorer
  import opened Predictor

  /** The entries of the fingerprinter registry. */
  datatype FingerprintKind = Rdkit | Lstar | Asp | Rad2d

  /** The entries of the similarity-function registry. */
  datatype SimilarityKind = BraunBlanquet | Tanimoto | Cosine

  const Scorers: map<string, ScorerKind> := map[
    "max" := MaxScorer,
    "mean" := MeanScorer,
    "upper_cuartile" := UpperCuartileScorer,
    "upper_decile" := UpperDecileScorer]

  const Fingerprinters: map<string, FingerprintKind> := map[
    "RDKIT" := Rdkit,
    "LSTAR" := Lstar,
    "ASP" := Asp,
    "RAD2D" := Rad2d]

  const SimilarityFunctions: map<string, SimilarityKind> := map[
    "BraunBlanquet" := BraunBlanquet,
    "Tanimoto" := Tanimoto,
    "Cosine" := Cosine]

  /** The registry key of each entry. */
  function ScorerName(k: ScorerKind): string
  {
    match k
    case MaxScorer => "max"
    case MeanScorer => "mean"
    case UpperCuartileScorer => "upper_cuartile"
    case UpperDecileScorer => "upper_decile"
  }

  function FingerprintName(k: FingerprintKind): string
  {
    match k
    case Rdkit => "RDKIT"
    case Lstar => "LSTAR"
    case Asp => "ASP"
    case Rad2d => "RAD2D"
  }

  function SimilarityName(k: SimilarityKind): string
  {
    match k
    case BraunBlanquet => "BraunBlanquet"
    case Tanimoto => "Tanimoto"
    case Cosine => "Cosine"
  }

  /** The three registry entries a run uses. */
  datatype Selection = Selection(fingerprint: FingerprintKind, similarity: SimilarityKind, scoring: ScorerKind)

  /** The three membership checks, in the source's order: an unknown
      fingerprint name is reported before an unknown similarity name, and
      that before an unknown scoring name. */
  function Select(fingerprintType: string, similarityFunction: string, scoring: string): (r: Result<Selection>)
    ensures fingerprintType !in {"RDKIT", "LSTAR", "ASP", "RAD2D"} ==>
              r == Err(InvalidFingerprintType(fingerprintType))
    ensures fingerprintType in {"RDKIT", "LSTAR", "ASP", "RAD2D"}
            && similarityFunction !in {"BraunBlanquet", "Tanimoto", "Cosine"} ==>
              r == Err(InvalidSimilarityFunction(similarityFunction))
    ensures fingerprintType in {"RDKIT", "LSTAR", "ASP", "RAD2D"}
            && similarityFunction in {"BraunBlanquet", "Tanimoto", "Cosine"}
            && scoring !in {"max", "mean", "upper_cuartile", "upper_decile"} ==>
              r == Err(InvalidScoringMethod(scoring))
    ensures r.Ok? <==>
              && fingerprintType in {"RDKIT", "LSTAR", "ASP", "RAD2D"}
              && similarityFunction in {"BraunBlanquet", "Tanimoto", "Cosine"}
              && scoring in {"max", "mean", "upper_cuartile", "upper_decile"}
    ensures r.Ok? ==>
              && FingerprintName(r.value.fingerprint) == fingerprintType
              && SimilarityName(r.value.similarity) == similarityFunction
              && ScorerName(r.value.scoring) == scoring
  {
    if fingerprintType !in Fingerprinters then Err(InvalidFingerprintType(fingerprintType))
    else if similarityFunction !in SimilarityFunctions then Err(InvalidSimilarityFunction(similarityFunction))
    else if scoring !in Scorers then Err(InvalidScoringMethod(scoring))
    else Ok(Selection(Fingerprinters[fingerprintType], SimilarityFunctions[similarityFunction], Scorers[scoring]))
  }

  /** Every selection is reachable: selecting by an entry's own names gives
      back exactly that entry. */
  lemma SelectByName(f: FingerprintKind, s: SimilarityKind, k: ScorerKind)
    ensures Select(FingerprintName(f), SimilarityName(s), ScorerName(k)) == Ok(Selection(f, s, k))
  {
    match f
    case Rdkit =>
    case Lstar =>
    case Asp =>
    case Rad2d =>
  }

  /** The output columns: the query's columns in their order, then `prediction_score`. */
  function OutputColumns(query: Table): seq<string>
  {
    query.columns + [PredictionColumn]
  }

  /** `out` is the predictor's table `full` cut down to the output columns:
      the query's columns in their order, then `prediction_score`, with the
      cells of `full`. */
  predicate Projected(out: Table, full: Table, query: Table)
  {
    && WellFormed(out) && out.columns == OutputColumns(query)
    && |out.rows| == |query.rows| && |full.rows| == |query.rows|
    && forall i, c :: 0 <= i < |query.rows| && c in OutputColumns(query) ==>
         c in out.rows[i] && c in full.rows[i] && out.rows[i][c] == full.rows[i][c]
  }

  /** `similarity_activity_predictor` without the file reading and writing:
      check the names, run the predictor with the selected fingerprinter,
      similarity and scorer, and keep the query's columns plus
      `prediction_score`. */
  function Run<F>(train: Table, query: Table, fingerprintType: string, similarityFunction: string,
                  scoring: string, fingerprinters: FingerprintKind -> (string -> F),
                  similarities: SimilarityKind -> ((F, F) -> real), exp: real -> real): (r: Result<Table>)
    requires WellFormed(train) && WellFormed(query) && IsExp(exp)
    ensures Select(fingerprintType, similarityFunction, scoring).Err? ==>
              r == Err(Select(fingerprintType, similarityFunction, scoring).error)
    ensures r.Ok? <==> Select(fingerprintType, similarityFunction, scoring).Ok? && PredictionDefined(train, query)
    ensures r.Ok? ==>
              var sel := Select(fingerprintType, similarityFunction, scoring).value;
              Projected(r.value, Predict(train, query, sel.scoring, fingerprinters(sel.fingerprint),
                                         similarities(sel.similarity), exp).value, query)
  {
    var sel :- Select(fingerprintType, similarityFunction, scoring);
    RunSelected(train, query, sel, fingerprinters, similarities, exp)
  }

  /** The part of a run after the names are accepted. */
  function RunSelected<F>(train: Table, query: Table, sel: Selection,
                          fingerprinters: FingerprintKind -> (string -> F),
                          similarities: SimilarityKind -> ((F, F) -> real), exp: real -> real): (r: Result<Table>)
    requires WellFormed(train) && WellFormed(query) && IsExp(exp)
    ensures r.Ok? <==> PredictionDefined(train, query)
    ensures r.Ok? ==> Projected(r.value, Predict(train, query, sel.scoring, fingerprinters(sel.fingerprint),
                                                 similarities(sel.similarity), exp).value, query)
  {
    var full :- Predict(train, query, sel.scoring, fingerprinters(sel.fingerprint),
                        similarities(sel.similarity), exp);
    Ok(Output(full, query))
  }

  /** `prediction_result[cols]` for a table the predictor returned: the
      selection cannot fail, since the predictor keeps every query column and
      adds `prediction_score`. */
  function Output(full: Table, query: Table): (r: Table)
    requires WellFormed(full) && |full.rows| == |query.rows|
    requires forall c :: c in full.columns <==> c in query.columns || c in AddedColumns
    ensures Project(full, OutputColumns(query)) == Ok(r)
    ensures Projected(r, full, query)
  {
    assert PredictionColumn in AddedColumns;
    assert forall i, c :: 0 <= i < |full.rows| && c in OutputColumns(query) ==> c in full.rows[i];
    Project(full, OutputColumns(query)).value
  }

  /** A successful run returns the query's own cells unchanged in every query
      column the predictor does not write. */
  lemma RunKeepsQuery<F>(train: Table, query: Table, fingerprintType: string, similarityFunction: string,
                         scoring: string, fingerprinters: FingerprintKind -> (string -> F),
                         similarities: SimilarityKind -> ((F, F) -> real), exp: real -> real,
                         i: nat, c: string)
    requires WellFormed(train) && WellFormed(query) && IsExp(exp)
    requires Select(fingerprintType, similarityFunction, scoring).Ok? && PredictionDefined(train, query)
    requires i < |query.rows| && c in query.columns && c !in AddedColumns
    ensures Run(train, query, fingerprintType, similarityFunction, scoring,
                fingerprinters, similarities, exp).value.rows[i][c] == query.rows[i][c]
  {
    var sel := Select(fingerprintType, similarityFunction, scoring).value;
    var full := Predict(train, query, sel.scoring, fingerprinters(sel.fingerprint), similarities(sel.similarity), exp);
    assert c in OutputColumns(query);
  }

  /** An output row as a run promises it for a query structure: its
      `prediction_score` is the softmax share of the positive aggregate over
      the aggregates the scorer computes against each class. */
  ghost predicate ScoredRow<F>(out: Row, smiles: string, train: Table, kind: ScorerKind,
                               fp: string -> F, sim: (F, F) -> real, exp: real -> real)
    requires IsExp(exp)
  {
    && AllTextSmiles(Positives(train)) && AllTextSmiles(Negatives(train))
    && |Positives(train)| > 0 && |Negatives(train)| > 0
    && var p := ClassScore(kind, smiles, Positives(train), fp, sim).value;
       var n := ClassScore(kind, smiles, Negatives(train), fp, sim).value;
       && PredictionColumn in out && out[PredictionColumn] == Number(Softmax2(exp, p, n).0)
       && 0.0 < out[PredictionColumn].number < 1.0
  }

  /** A successful run's `prediction_score` is, row by row, the softmax share
      of the positive aggregate over the aggregates the selected scorer
      computes against each class; so it lies strictly between 0 and 1. */
  lemma RunScore<F>(train: Table, query: Table, fingerprintType: string, similarityFunction: string,
                    scoring: string, fingerprinters: FingerprintKind -> (string -> F),
                    similarities: SimilarityKind -> ((F, F) -> real), exp: real -> real, i: nat)
    requires WellFormed(train) && WellFormed(query) && IsExp(exp)
    requires Select(fingerprintType, similarityFunction, scoring).Ok? && PredictionDefined(train, query)
    requires i < |query.rows|
    ensures Select(fingerprintType, similarityFunction, scoring).Ok? && TextSmiles(query.rows[i])
    ensures var sel := Select(fingerprintType, similarityFunction, scoring).value;
            ScoredRow(Run(train, query, fingerprintType, similarityFunction, scoring,
                          fingerprinters, similarities, exp).value.rows[i],
                      SmilesOf(query.rows[i]), train, sel.scoring,
                      fingerprinters(sel.fingerprint), similarities(sel.similarity), exp)
  {
    var sel := Select(fingerprintType, similarityFunction, scoring).value;
    var fp := fingerprinters(sel.fingerprint);
    var sim := similarities(sel.similarity);
    PredictRow(train, query, sel.scoring, fp, sim, exp, i);
    assert PredictionColumn in OutputColumns(query);
  }
}
