# Heart-disease risk dashboard: verified model of its core

This project is a Dafny model of the computational core of a heart-disease risk
dashboard and of its data-cleaning script. It covers:

- **Feature encoding** (`FeatureEncoder`). A patient's form inputs become the
  13-element vector that the classifier expects, in the fixed order
  `age, sex, cp, trestbps, chol, fbs, restecg, thalach, exang, oldpeak, slope, ca, thal`.
  - Categorical labels go through lookup tables. An unknown label falls back to a
    default code.
  - Fasting blood sugar is derived from glucose with a strict `> 120` threshold.
- **Risk bands** (`RiskBands`). The predicted probability is a LOW, MODERATE or HIGH
  category, split at 0.4 and 0.7. Each category has its colour: green, amber or red.
- **Key drivers** (`Explanation`). The per-feature weights come from the model:
  - a tree model's importances;
  - a linear model's absolute coefficients, divided by their sum;
  - otherwise a fixed 0.1 for every feature.

  These weights are paired with the display names and sorted heaviest first with a
  stable sort. The top five are kept.
- **Indicator bars** (`MetricBar`). A reading's position on a bar is a percentage
  clamped to [0, 100].
- **Preprocessing** (`Preprocess`, with `Statistics` for the median). The script
  runs these steps over a two-dimensional frame of 14 columns:
  1. read the raw records;
  2. turn `"?"` into a missing value;
  3. coerce every cell to a number, or to missing;
  4. fill each column's gaps with the median of its present values;
  5. binarise the target as `1 if x > 0 else 0`.

  Each step is a method over an `array2`. Each is proved against pure column-wise
  functions, and `Run` is proved equal to the pure `Clean`.

`Wrappers`, `Multisets` and `RealArith` hold supporting definitions and lemmas:
`Option`, a multiset lemma about sequence tails, and facts about real division.

The model follows the code in three places where a reader might expect otherwise:

- **Fallback weight.** With neither importances nor coefficients, the code gives every
  feature 0.1, not 1/13, so the 13 weights sum to 1.3 (`Explanation.FallbackWeights`).
- **Column with no value.** The code's median for such a column is NaN, and filling
  with NaN leaves the cells missing, so the model keeps them as `None`. The code defines no
  other value for this case, and the model keeps what it computes
  (`Preprocess.EmptyFeatureColumnStaysMissing`). A
  target that is still missing compares `NaN > 0` as false and becomes 0
  (`Preprocess.TargetBinarised`).
- **All-zero coefficients.** A non-empty row of coefficients that are all zero divides
  0 by 0, and every weight is NaN. NaN keys never compare less, so the stable sort
  leaves the pairs in feature order. The model represents this as `Unweighted` with
  the first min(5, 13, row length) names. An empty row divides an empty array and
  shows no driver at all (`Explanation.ZeroCoefficientsRanking`).

## Model

| member | source | states |
|---|---|---|
| FeatureEncoder.Lookup | src/app.py:265-274 | the lookup never fails: its code is always one of the table's codes or the default, the default exactly for a label not in the table |
| FeatureEncoder.Encode | src/app.py:264-277 | the encoded vector always has exactly one entry per schema column (13) |
| FeatureEncoder.PositionsFollowSchema | src/app.py:276-277 | each named position is the column of that name in the classifier's schema |
| FeatureEncoder.NumericPassThrough | src/app.py:276 | age, blood pressure, cholesterol, heart rate, ST depression and vessel count reach their own positions unchanged |
| FeatureEncoder.BinaryCodes | src/app.py:264-270 | sex and exercise angina are 0 or 1, and 1 exactly for "Male" / "Yes" |
| FeatureEncoder.FastingSugarStrict | src/app.py:267 | fasting sugar is 0 or 1, and 1 exactly when glucose > 120 (120 itself gives 0) |
| FeatureEncoder.CategoricalDomains | src/app.py:265-274 | chest pain is in {1..4}, ECG in {0,1,2}, slope in {1,2,3}, thal in {3,6,7} for every label; unknown labels give 4, 0, 2 and 3 |
| FeatureEncoder.EncodeExample | src/app.py:264-267 | a female, asymptomatic patient with glucose 90 encodes sex 0, chest pain 4, fasting sugar 0 |
| RiskBands.Level | src/app.py:309 | the level's colour is the colour the risk circle is drawn in for the same probability |
| RiskBands.Colour | src/app.py:303 | the colour is one of green, amber and red; green iff p < 0.4, red iff p >= 0.7 |
| RiskBands.LevelBands | src/app.py:309 | LOW iff p < 0.4, MODERATE iff 0.4 <= p < 0.7, HIGH iff p >= 0.7 |
| RiskBands.LevelMonotone | src/app.py:309 | a higher probability never gives a lower category |
| RiskBands.ColourMatchesLevel | src/app.py:303-310 | the colour chosen from p is the colour of p's level, and two probabilities share a colour iff they share a level |
| RiskBands.BoundaryExamples | src/app.py:309 | 0.39 is LOW, 0.40 and 0.69 MODERATE, 0.70 HIGH: each boundary belongs to the upper band |
| MetricBar.Position | src/app.py:204-206 | the marker is always within [0, 100]; inside the bar it is the reading's fraction of the range times 100; at or below the low end 0, at or above the high end 100 |
| MetricBar.PositionMonotone | src/app.py:204-206 | a higher reading never moves the marker left |
| Explanation.Weights | src/app.py:284-290 | there is one weight per reported importance or coefficient (13 in the fallback); the weights are undefined (NaN) only for a non-empty row of linear coefficients |
| Explanation.TreeWeights | src/app.py:284-285 | a tree model's importances are used exactly as reported |
| Explanation.LinearWeights | src/app.py:286-288 | the weights are undefined (NaN) iff the row is non-empty and every coefficient is 0; an empty row gives no weights; otherwise each is abs(coef)/total, lies in [0, 1], and they sum to 1 |
| Explanation.FallbackWeights | src/app.py:289-290 | without importances or coefficients there are 13 weights of 0.1, summing to 1.3 |
| Explanation.Zip | src/app.py:292 | the pairs come in feature order (strictly ascending feature positions, which the stable sort relies on), as many as the shorter input, each name with the weight at its position |
| Explanation.SortDescending | src/app.py:292 | the result is a permutation of the input, ordered by non-increasing weight |
| Explanation.SortDescendingRanked | src/app.py:292 | the sort is stable: among equal weights the earlier feature comes first |
| Explanation.Explain | src/app.py:282-292 | the result is a list of weighted drivers exactly when the weights are numbers, and it shows min(5, 13, row length) entries |
| Explanation.ExplainTopK | src/app.py:282-292 | the shown drivers number min(5, pairs), all come from the pairs, are ranked by weight with ties in feature order, and no dropped pair outweighs a shown one |
| Explanation.ExplainByRanking | src/app.py:292 | any ranked arrangement of the pairs is exactly the one the explanation cuts to five |
| Explanation.RankedUnique | src/app.py:292 | two ranked orderings of the same pairs are equal, so the stable sort's result is determined |
| Explanation.FallbackRanking | src/app.py:289-292 | with no model information the drivers are Age, Sex, CP, BP, Chol at 0.1 each |
| Explanation.ZeroCoefficientsRanking | src/app.py:286-292 | an empty coefficient row shows no driver; a non-empty all-zero row shows the first min(5, row length) names in feature order, unweighted (two names for two zeros, Age to Chol for five or more) |
| Explanation.TiedImportancesRanking | src/app.py:284-292 | importances led by Sex with ties below give Sex, CP, Heart Rate, Age, BP: ties are kept in feature order |
| Statistics.Sort | src/utils/preprocess.py:17 | the result is sorted and a permutation of the input |
| Statistics.Median | src/utils/preprocess.py:17 | some present value is at most the median and some present value is at least it; for an odd count the median is itself a present value |
| Statistics.MedianOfSorted | src/utils/preprocess.py:17 | on sorted values the median is the middle one (odd count) or the mean of the two middle ones (even count) |
| Statistics.MedianPermutationInvariant | src/utils/preprocess.py:17 | row order does not change a column's median |
| Statistics.MedianSplits | src/utils/preprocess.py:17 | the lower half of the sorted values is at most the median, and the upper half at least |
| Preprocess.Present | src/utils/preprocess.py:17 | each value occurs among the present values exactly as often as the column holds it, and there are none iff every cell is missing |
| Preprocess.ColumnMedian | src/utils/preprocess.py:17 | a column has a median iff some cell holds a value, and that median lies between two of the column's values |
| Preprocess.ColumnMedianRowOrder | src/utils/preprocess.py:17 | reordering a column's rows does not change its median |
| Preprocess.CleanCell | src/utils/preprocess.py:15-18 | a present feature is kept, a missing feature takes its column's median, and the target is 0 or 1 |
| Preprocess.Clean | src/utils/preprocess.py:15-18 | the cleaned table keeps the row count and the 14 columns, leaves every present feature value alone, and holds only 0 or 1 in the target column |
| Preprocess.ReadFrame | src/utils/preprocess.py:8-14 | a fresh rows-by-14 frame holding every record's cells in column order |
| Preprocess.ReplaceSentinels | src/utils/preprocess.py:15 | every "?" cell becomes blank in place, and every other cell is unchanged |
| Preprocess.CoerceNumeric | src/utils/preprocess.py:16 | a fresh frame of the same shape whose cells are the coerced numbers, or missing where a cell is not a number |
| Preprocess.FillMissing | src/utils/preprocess.py:17 | every missing cell takes its column's median computed before any fill; present cells are unchanged |
| Preprocess.FillRow | src/utils/preprocess.py:17 | fills one row's missing cells from the given medians and leaves all other rows alone |
| Preprocess.BinariseTarget | src/utils/preprocess.py:18 | the target column becomes 1 where its value is > 0 and 0 otherwise; feature columns are unchanged |
| Preprocess.Run | src/utils/preprocess.py:13-19 | the in-place pipeline produces exactly the cleaned table `Clean` |
| Preprocess.SentinelAndCoercion | src/utils/preprocess.py:15-16 | "?" and blanks become missing, numbers keep their value, other text is what the parser makes of it |
| Preprocess.CleanShape | src/utils/preprocess.py:8-14 | same row count, 14 cells per row, the 13 classifier features then "target" |
| Preprocess.PresentFeatureUnchanged | src/utils/preprocess.py:17 | a present feature cell is left as it is |
| Preprocess.MissingFeatureTakesMedian | src/utils/preprocess.py:17 | a missing feature cell becomes its column's median, which lies between present values of that column |
| Preprocess.EmptyFeatureColumnStaysMissing | src/utils/preprocess.py:17 | a feature column with no value at all stays entirely missing |
| Preprocess.TargetBinarised | src/utils/preprocess.py:17-18 | every target is 0 or 1, and it is 1 iff the value after filling is > 0 (iff the raw value is > 0 when it was present) |
| Preprocess.CleanComplete | src/utils/preprocess.py:17 | when every column has at least one value, no cell of the cleaned table is missing |

## Left out

- The Streamlit page is not part of this model. That covers layout, widgets, session
  state, reruns, the spinner delay and the HTML markup around the numbers.
- Model loading (joblib), the choice among the three models and the model inspection
  script are not part of this model.
- `predict_proba` is a call into the trained classifier. `RiskBands` takes the
  probability as its input.
- Reading and writing the CSV files and printing the result are I/O. `Run` takes the
  parsed records and returns the table that would be written.
- `pd.to_numeric` on text is foreign code. It is the `parse` parameter, which returns
  `None` for text that is not a number.
- Floating point is modelled as exact reals. Rounding, and `p:.2f` and `int(val*100)`
  in the display, are left out.
- pandas' integer and float column types are not distinguished. Every value is a real.
- Records must have 14 fields (`WellFormed`). A ragged CSV line, which pandas pads
  with NaN or rejects, is not modelled.
- MetricBar.Position: requires the two ends to differ, because equal ends raise a
  division by zero in the code. Every call site passes constant ends with low < high.
- Explanation.Explain: the result is a list of pairs. The code turns it into a dict,
  which keeps every shown entry only because the 13 display names are distinct. That
  distinctness is not restated as a lemma.
- Explanation.Weights: a non-empty all-zero coefficient row is `None`, not one NaN
  weight per coefficient. The ranking this leads to is stated by
  `ZeroCoefficientsRanking`.
