# Similarity-based bioactivity predictor, modelled in Dafny

The program predicts whether a query compound is active. It compares the
compound's fingerprint with the fingerprints of a labelled training set,
using a similarity metric. Training rows labelled 1 are the positives and
rows labelled 0 are the negatives. The similarities to each class are reduced
to one aggregate by a scorer: max, mean, upper quartile mean or upper decile
mean. The two aggregates go through a two-way softmax. The positive share is
the `prediction_score`.

The model is written over mathematical reals and immutable values:

- `outcomes.dfy` (`Outcomes`): `Option`, and a `Result` whose `Err` names the
  exception that would have aborted the run.
- `stats.dfy` (`Stats`): the reductions.
  - `max`, and `statistics.mean`.
  - numpy's default linear percentile: sort, take the virtual index
    (n-1)·p/100, then interpolate between the two order statistics around it.
  - The mean of the elements at or above a threshold.
- `scorer.dfy` (`Scorer`): the four scorers of `bin/scorer.py`.
- `frames.dfy` (`Frames`): the slice of a pandas DataFrame the pipeline uses.
  - Ordered columns and rows of cells.
  - `df[name] = values`.
  - `df[cols]`, which fails with `KeyError` on an absent column.
- `predictor.dfy` (`Predictor`): the following from `bin/predictor.py`.
  - The class partition.
  - `calculate_similiarity_scores`.
  - The per-row softmax.
  - The whole `similarity_softmax_bioactivity_predictor`.
- `driver.dfy` (`Driver`): the part of `similarity_activity_predictor` in
  `bin/main.py` that works on the data.
  - The three name registries, checked in order.
  - The call to the predictor with the selected entries.
  - The final column selection.
- `bitstring.dfy` (`BitString`): the text that `list_to_explicit_bit_vect`
  builds, which is Python's `str` of each element joined with no separator.

These are parameters of the model:

- The fingerprint generator of each registry entry: any function from a
  structure string to a fingerprint.
- The similarity metric of each entry: any function from two fingerprints to
  a real.
- The exponential used by the softmax: any function that is positive and
  strictly increasing (`IsExp`).

In these details the model follows the code:

- A training row whose `bioactivity` is neither 1 nor 0 is silently left out
  of both classes. Nothing rejects it.
- Failures are the exceptions the code raises: the name checks raise
  `ValueError`; everything else fails inside Python's built-in `max`
  (`ValueError` on an empty list), pandas, RDKit, `statistics` or numpy.
- A query table that already has a `pred_score` column fails. Scoring it
  returns that column twice, so the `["pred_score"]` selection at
  bin/predictor.py:16 has two columns, and pandas refuses to store them in
  the single positive column with `ValueError`. The model reports
  `MultipleColumns` at the same point, after the positive scoring.
- The query table is fingerprinted once for each class, not once in total.
  This has no observable effect.
- The four appended columns are assigned in one step. The source assigns
  two of them one at a time and then the last two together. The names are
  distinct, so the resulting table is the same.
- Fingerprinting both tables happens before the scorer is first called.
  - So a non-text structure anywhere in the query or in a used class fails
    even when the other class is empty.
  - The labels column of a class is looked up only when a query row is
    scored, so an empty query table does not need it.

## Model

| member | source | states |
|---|---|---|
| Stats.MaxOf | bin/scorer.py:8 | `max` of a non-empty list is one of its elements and at least every element |
| Stats.Mean | bin/scorer.py:12-19 | `statistics.mean` and `np.mean` of a non-empty list; its partner lemmas Stats.MeanWithin and Stats.MeanBetweenMinMax bound it and Scorer.MeanScoreIsAverage gives its value as total over count |
| Stats.MeanWithin | bin/scorer.py:12 | the mean of a list whose elements lie in [lo, hi] lies in [lo, hi] |
| Stats.MeanBetweenMinMax | bin/scorer.py:12 | the mean lies between the minimum and the maximum |
| Stats.Sort | bin/scorer.py:17 | the sorted copy numpy reads order statistics from is ascending, of the same length and a permutation (same multiset) of the input |
| Stats.VirtualIndex | bin/scorer.py:17 | numpy's virtual index (n-1)·p/100 lies in [0, n-1] |
| Stats.LowerIndex | bin/scorer.py:17 | the lower order-statistic index is a valid position and is the floor of the virtual index |
| Stats.UpperIndex | bin/scorer.py:17 | the upper order-statistic index is one past the lower one, or the lower one itself when that is already the last position |
| Stats.Interpolate | bin/scorer.py:17 | linear interpolation between the order statistics around the virtual index; Stats.InterpolateBetween, Stats.InterpolateWithin and Stats.InterpolateMonotone state its bounds and its growth in p |
| Stats.InterpolateBetween | bin/scorer.py:17 | over a sorted list the interpolated value lies between the two neighbouring order statistics |
| Stats.InterpolateWithin | bin/scorer.py:17 | over a sorted list the interpolated value lies between the first and last element |
| Stats.InterpolateMonotone | bin/scorer.py:17 | over a sorted list the interpolated value does not decrease as p grows |
| Stats.Percentile | bin/scorer.py:17-25 | `np.percentile(arr, p)`, the interpolation over the sorted copy; Stats.PercentileWithin, Stats.PercentileAtIndex, Stats.PercentileEnds and Stats.PercentileMonotone state its range, its exact values at whole indices and at 0 and 100, and its growth in p |
| Stats.PercentileWithin | bin/scorer.py:17 | any percentile of a non-empty list lies between its minimum and its maximum |
| Stats.PercentileAtIndex | bin/scorer.py:17 | when the virtual index is a whole number k, the percentile is the k-th smallest element |
| Stats.PercentileEnds | bin/scorer.py:17 | the 0th percentile is the minimum and the 100th the maximum |
| Stats.SortEnds | bin/scorer.py:17 | the sorted copy starts with the minimum and ends with the maximum |
| Stats.SortedEnds | bin/scorer.py:17 | any ascending permutation of a list starts with its minimum and ends with its maximum |
| Stats.PercentileMonotone | bin/scorer.py:17-25 | p ≤ q gives percentile p ≤ percentile q, so the 90th is at least the 75th |
| Stats.AtLeast | bin/scorer.py:18-26 | `arr[arr >= c]` is no longer than the input and keeps only input elements at or above c |
| Stats.AtLeastMembers | bin/scorer.py:18 | `arr[arr >= c]` keeps exactly the elements at or above c, and the complement keeps exactly those below |
| Stats.AtLeastSplits | bin/scorer.py:18 | the kept and dropped parts together have the input's length and sum |
| Stats.AtLeastNonEmpty | bin/scorer.py:17-19 | a threshold not above the maximum keeps a non-empty subset containing the maximum, so the following mean is defined |
| Stats.AtLeastTwice | bin/scorer.py:18 | filtering at a and then at b ≥ a is the same as filtering at b |
| Stats.TailMeanAtLeastMean | bin/scorer.py:18-19 | the mean of a non-empty upper tail is at least the mean of the whole list |
| Stats.UpperMean | bin/scorer.py:17-27 | the mean of the elements at or above the p-th percentile; Stats.UpperMeanWithin, Stats.UpperMeanAtLeastMean and Stats.UpperMeanMonotone bound it and order it in p |
| Stats.UpperMeanWithin | bin/scorer.py:14-20 | the mean above the p-th percentile lies between that percentile and the maximum |
| Stats.UpperMeanAtLeastMean | bin/scorer.py:10-20 | the mean above any percentile is at least the plain mean |
| Stats.UpperMeanMonotone | bin/scorer.py:14-28 | a higher percentile gives an upper mean at least as large |
| Scorer.Similarities | bin/scorer.py:7 | one similarity per reference fingerprint, in reference order, the i-th being similarity(query, ref_i) |
| Scorer.Aggregate | bin/scorer.py:6-28 | a reduction has a value exactly when the list is non-empty; the value lies between min and max; `max` returns an element at least every element; the two upper means are at least their percentile and at least the mean |
| Scorer.Score | bin/scorer.py:6-28 | a scorer succeeds exactly when there is a reference, and its result is bracketed by two of the query's similarities |
| Scorer.AggregateOrder | bin/scorer.py:10-28 | on one list, mean ≤ upper quartile mean ≤ upper decile mean ≤ max |
| Scorer.UpperCuartileBounds | bin/scorer.py:14-20 | the upper quartile score lies in [75th percentile, max] and is at least the mean score |
| Scorer.ScoreOrder | bin/scorer.py:6-28 | for one query and reference set: mean score ≤ upper quartile ≤ upper decile ≤ max score |
| Scorer.MaxScoreIsGreatest | bin/scorer.py:6-8 | the max score equals the similarity to some reference and is at least the similarity to every reference |
| Scorer.MeanScoreIsAverage | bin/scorer.py:10-12 | the mean score is the total similarity divided by the number of references |
| Scorer.LabelsIgnored | bin/scorer.py:6-28 | no scorer's result depends on the labels argument |
| Frames.SetColumn | bin/predictor.py:16-17 | column assignment overwrites an existing column or appends a new last column, sets exactly the given cells and leaves every other cell as it was |
| Frames.SetColumns | bin/predictor.py:19 | assigning several distinct columns at once adds exactly the new names, at the end and in order when all are new, sets each named column to its values and leaves every other cell as it was |
| Frames.Project | bin/predictor.py:39 | column selection fails exactly when a requested column is absent, naming one; otherwise it returns the requested columns in the requested order with the same rows and cells |
| Predictor.Softmax2 | bin/predictor.py:19 | the two softmax shares are strictly between 0 and 1 and sum to 1 |
| Predictor.SoftmaxThreshold | bin/predictor.py:19 | the positive share is > 1/2, = 1/2 or < 1/2 exactly when the positive aggregate is greater than, equal to or less than the negative one |
| Predictor.WithLabel | bin/predictor.py:10-14 | `df[df.bioactivity == a]` keeps at most the input rows, all of them when every row has the label and none when no row has it; Predictor.WithLabelSelects gives the exact selection |
| Predictor.Positives | bin/predictor.py:10-11 | every positive is a training row labelled 1 |
| Predictor.Negatives | bin/predictor.py:13-14 | every negative is a training row labelled 0 |
| Predictor.WithLabelFrom | bin/predictor.py:10-14 | filtering a suffix keeps, in order, the rows at the labelled positions of that suffix |
| Predictor.LabelIndicesIncreasing | bin/predictor.py:10-14 | the kept positions are strictly increasing, so relative order is kept and no row is kept twice |
| Predictor.LabelIndicesMembers | bin/predictor.py:10-14 | a position is kept exactly when its row's bioactivity equals the class label |
| Predictor.WithLabelSelects | bin/predictor.py:10-14 | a class holds exactly the training rows with its label, each once, in their original order |
| Predictor.WithLabelMembers | bin/predictor.py:10-14 | every row of a class is a training row with that label |
| Predictor.PartitionByLabel | bin/predictor.py:10-14 | a row is a positive iff its label is 1, a negative iff it is 0, never both; any other label is in neither |
| Predictor.ClassTable | bin/predictor.py:10-14 | a class table keeps the training columns and is rectangular |
| Predictor.FingerprintRows | bin/predictor.py:27 | one fingerprint per row, in row order, of that row's structure |
| Predictor.Fingerprints | bin/predictor.py:23-34 | fingerprinting succeeds exactly when the structure column exists and every structure cell is text, and fails with the missing column when it does not exist |
| Predictor.ScoreRows | bin/predictor.py:37 | the per-row scoring succeeds exactly when there is no query row or there is a reference; it gives one score per query row, each the scorer applied to that row |
| Predictor.ClassScore | bin/predictor.py:37 | a class aggregate exists exactly when the class has a row |
| Predictor.ReferenceLabels | bin/predictor.py:37 | the labels handed to the scorer are the reference table's bioactivity cells, one per reference row in order |
| Predictor.ScoreQuery | bin/predictor.py:23-37 | the scores exist exactly when both tables have text structures and, if there is a query row, the reference has a bioactivity column and a row; there is one score per query row |
| Predictor.ScoreQueryRows | bin/predictor.py:27-37 | score i is the scorer applied to query row i's structure against the reference rows' structures, whatever the labels |
| Predictor.CalculateScores | bin/predictor.py:23-39 | the result has the query's columns plus `pred_score`, one row per query row in order, the query's cells unchanged and `pred_score` holding the scores |
| Predictor.WithPrediction | bin/predictor.py:16-19 | the four columns are added, as the last four columns when new; row i holds the aggregates i and the softmax of that pair alone; other cells are unchanged |
| Predictor.CellsAgree | bin/predictor.py:16-19 | two rows whose appended cells come from the same pair of aggregates agree on all four appended columns |
| Predictor.SetKeepsSmiles | bin/predictor.py:16-17 | adding a score column leaves the structure cells as they were |
| Predictor.ClassAggregates | bin/predictor.py:10-17 | the two aggregate columns exist exactly when the prediction is defined (both tables have text structures where used, both classes have a row if there is a query row, and the query has no `pred_score` column of its own); a query with such a column fails with `MultipleColumns` once the positive scoring succeeds; each has one entry per query row |
| Predictor.ClassAggregatesRows | bin/predictor.py:10-17 | aggregate i of each class is the scorer applied to query row i's structure and that class's training structures; storing the positive column first does not change the structures the negative pass reads |
| Predictor.Predict | bin/predictor.py:6-21 | the predictor fails exactly when the training table lacks bioactivity, a table lacks structures, a used structure is not text, a class is empty while there is a query row, or the query already has a `pred_score` column; a missing bioactivity column is the error reported; otherwise it keeps the row count and order, keeps the query's other cells and adds the four columns, last and in order when new |
| Predictor.PredictRow | bin/predictor.py:6-21 | each output row holds its structure's two class aggregates and the two softmax shares of that pair |
| Predictor.SharesSumToOne | bin/predictor.py:19 | in every output row `prediction_score + negative_prediction_score = 1`, both strictly in (0, 1) |
| Predictor.PredictionAboveHalf | bin/predictor.py:19 | a row's `prediction_score` exceeds 1/2 iff its positive aggregate exceeds its negative aggregate, and equals 1/2 iff they tie |
| Predictor.SameStructureSamePrediction | bin/predictor.py:16-19 | two query rows with the same structure get the same appended cells |
| Predictor.RowByRow | bin/predictor.py:16-19 | predicting a row on its own gives it the same appended cells as predicting the whole table |
| Predictor.PredictedRowsAgree | bin/predictor.py:16-19 | two rows predicted for the same structure agree on the four appended columns |
| Predictor.SelfMatchWins | bin/predictor.py:6-21 | with the max scorer, a query structure that is among the positives, self-similarity 1, and every negative less similar than 1, the prediction score exceeds 1/2 |
| Driver.Select | bin/main.py:16-43 | the fingerprint name is checked first, then the similarity name, then the scoring name; the first unknown name is the error; success iff all three are registry keys (spelled `upper_cuartile`); the selected entries are the ones the names denote |
| Driver.SelectByName | bin/main.py:16-34 | every combination of registry entries is selected by its own three names |
| Driver.Run | bin/main.py:36-55 | a name error is returned as is; otherwise the run succeeds exactly when the predictor does, and the output is the predictor's table for the selected entries cut to the query's columns then `prediction_score`, same rows in order |
| Driver.RunKeepsQuery | bin/main.py:45-55 | every query cell outside the four predictor columns comes out of a run unchanged |
| Driver.RunSelected | bin/main.py:45-55 | after the names are accepted, the predictor's result is cut to the query's columns plus `prediction_score` and the intermediate columns are dropped |
| Driver.Output | bin/main.py:53-55 | the final column selection cannot fail on a predictor result and keeps the cells of the selected columns |
| Driver.RunScore | bin/main.py:45-55 | each output `prediction_score` is the softmax share of the positive aggregate computed with the selected scorer, fingerprinter and metric, strictly between 0 and 1 |
| BitString.Digits | bin/fingerprinter.py:52 | Python's `str` of a natural number is a non-empty string of decimal digits |
| BitString.DigitsRoundTrip | bin/fingerprinter.py:52 | reading the digits back gives the number, and only zero starts with '0' |
| BitString.PyStr | bin/fingerprinter.py:52 | Python's `str` of an integer is non-empty, starts with '-' exactly for a negative number, and is otherwise made of digits |
| BitString.Join | bin/fingerprinter.py:52 | `"".join(map(str, xs))` has at least one character per element, only digits and '-', and only digits when no element is negative |
| BitString.JoinBits | bin/fingerprinter.py:50-52 | for a 0/1 list the string has the list's length, '1' exactly where the element is 1, '0' exactly where it is 0, and no other characters |
| BitString.ParseBits | bin/fingerprinter.py:51-52 | decoding succeeds exactly on '0'/'1' strings and gives a 0/1 list of the same length |
| BitString.ParseJoin | bin/fingerprinter.py:51-52 | decoding the string of a 0/1 list gives the list back |
| BitString.JoinParse | bin/fingerprinter.py:51-52 | encoding a decoded '0'/'1' string gives the string back |
| BitString.JoinNotInjective | bin/fingerprinter.py:52 | for elements beyond 0/1 the encoding loses information: [10] and [1, 0] give the same text |

## Left out

- CSV reading and writing, argument parsing and the final `print`
  (bin/main.py:13-14, 57-87). These are I/O.
  - The driver starts from tables that are already loaded.
  - In the source, the files are read before the names are checked. A
    missing file therefore fails before a bad name does, and the model does
    not represent that failure.
- Fingerprint generation (bin/fingerprinter.py:14-47) and RDKit's
  `CreateFromBitString` (bin/fingerprinter.py:53). These are calls into
  RDKit and jCompoundMapper.
  - Each registry entry is an abstract function from a structure string to
    a fingerprint.
  - A structure cell that is not text (for example an empty cell) fails.
  - A text structure that RDKit cannot parse is library behaviour, and is
    not modelled.
- The intermediate `ROMol` and `fps` columns, which the fingerprinters add to
  their working copy. The model keeps fingerprints beside the table.
  - It therefore does not model a query table that already has a column
    named `ROMol` or `fps`. The source overwrites that column in its working
    copy and returns the overwritten cells.
- The similarity metrics Tanimoto, BraunBlanquet and Cosine. They are RDKit
  functions, and the model takes each as an abstract function parameter.
- Floating point. All numbers are reals.
  - `statistics.mean` and `np.mean` are both the exact sum divided by the
    count.
  - numpy interpolates as `b - (b - a)(1 - t)` when t ≥ 1/2 and as
    `a + (b - a)t` otherwise. Over the reals these are equal, and the model
    uses the second form.
- The exponential. scipy's `softmax` subtracts the row maximum before
  exponentiating. With the real exponential this gives the same shares. The
  model uses an abstract positive, strictly increasing `exp` and the
  unshifted form `exp(a) / (exp(a) + exp(b))`.
- The text of error messages, including the list of valid keys. Only the
  kind of error and the offending name are kept.
- pandas index handling (`copy`, `reset_index`). Every table the pipeline
  combines has a fresh 0..n-1 index, so row alignment is by position.
- Boolean labels. pandas compares them with Python's `==`, so `True` joins
  the positives and `False` the negatives. The model has no boolean cell,
  and a cell belongs to a class only when it is the number 1 or 0. Text
  labels never join a class, in the source or in the model.
- Predictor.Predict: an empty query table succeeds in the model, even when a
  class is empty, and so does Driver.Run. With no query row the scorer is
  never called, and the two aggregate columns the source builds are empty
  and of object dtype. Whether scipy's `softmax` then accepts them depends
  on the scipy release: releases that validate their input refuse object
  arrays with `ValueError`, later ones return an empty result. The model
  assumes the input is accepted and returns the empty table with the four
  columns added.
- Predictor.ClassScore: its contract states only when the aggregate exists.
  Its value is described by the scorer lemmas, through
  Predictor.ScoreQueryRows and Predictor.PredictRow.
