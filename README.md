# Intent classifier ensemble, modelled in Dafny

This project models `IntentClassifier` from `src/classifier.js`. The classifier keeps a
label mapping (class code to intent label) and one inference session per base model
(`logistic_regression`, `svm`, `knn`). `predict` queries every session in load order. For each
model it:

- takes the first element of the label tensor,
- resolves the element's string form through the mapping, and
- takes as confidence the maximum of the probability vector, or 1.0 when the model gives none.

It then combines the verdicts into an ensemble entry:

- a tally of the labels, kept in a plain object whose keys are in first-vote order;
- the label with the most votes, where a tie goes to the label voted first;
- the unweighted mean of all confidences;
- the literal `"others"` in place of that label when the mean is below the threshold (default 0.5). A mean equal to the threshold keeps the label.

Modules:

- `Wrappers`: `Option` and `Result`.
- `JsObject`: a JavaScript plain object with string keys, as an insertion-ordered `Dict`. It covers property read and assignment, `Object.entries` and `Object.values`, the property key `"undefined"`, and the object built by assigning keys in order.
- `LabelResolver`: `prediction.toString()` for integer and string codes, and the mapping lookup.
- `Votes`: the imperative tally loop `CountVotes`, proved against the reference `Tally`. It also holds the majority fold (`Majority`, a left fold that keeps the earlier entry unless a later one has strictly more votes) and its first-maximum characterisation.
- `Ensemble`: per-model confidence, the mean, the reference ensemble decision `Aggregate`, and the imperative ensemble step `Combine`.
- `Classifier`: the class `IntentClassifier`, with the constructor, `LoadModels` and `Predict` in the source's imperative form, and the reference `Classify` that `Predict` is proved equal to.

The inference runtime is abstracted:

- `create: string -> bool` says whether a model's session can be created.
- `run: string -> RunOutput` gives the output the named session produces for the request's embedding. An output is a failed run, or the label tensor's elements with an optional probability vector.
- Confidences and thresholds are exact `real`s.
- `predict`'s rejection and `loadModels`'s rethrown error become `Result`/`LoadOutcome` values that name the failing model. A failed run, a missing label tensor, or an empty one (where `Array.from(...)[0].toString()` throws) gives `ModelFailed(name)`. With no session loaded, the majority `reduce` has no initial value and throws; that gives `NoVotes`.

### Codes missing from the mapping

A code missing from the mapping is not an error: `this.labelMapping[prediction.toString()]` is `undefined`. That `undefined` is recorded as the model's prediction, tallied under the property key `"undefined"`, and can become the final label. In the model:

- `Resolve` returns `None`.
- `PropertyKey(None)` is `"undefined"`.
- `Ensemble.UnresolvedLabelsExample` shows three unresolved codes yielding the final label `"undefined"`.

## Model

| member | source | states |
|---|---|---|
| JsObject.Dict.Set | src/classifier.js:59-65 | assigning `o[k] = v` keeps the object well formed; a new key goes to the end of the key order and an existing key keeps its place; `k` now reads `v` and every other key reads as before |
| JsObject.Dict.Entries | src/classifier.js:79 | `Object.entries` lists one pair per key, in key order, each pair holding that key's value |
| JsObject.Dict.Values | src/classifier.js:82-83 | `Object.values` lists each key's value in key order |
| JsObject.Empty | src/classifier.js:33-35 | the literal `{}` is well formed, has no own keys, and no own property is read from it |
| JsObject.FromPairsKeys | src/classifier.js:59-65 | assigning distinct keys in order gives a well-formed object whose key order is the assignment order |
| JsObject.FromPairsGet | src/classifier.js:59-65 | every key assigned once holds the value assigned to it |
| JsObject.FromPairsLookup | src/classifier.js:65-83 | the confidence object built in the loop has the model names as keys, in query order, and `Object.values` of it is the confidences in query order |
| LabelResolver.NatToDecimal | src/classifier.js:57 | `toString` of a natural is a canonical numeral: digits only, with a leading zero only for 0 |
| LabelResolver.NatDecimalRoundTrip | src/classifier.js:57 | reading back the numeral of `n` gives `n` |
| LabelResolver.NumeralRoundTrip | src/classifier.js:57 | every canonical numeral is the `toString` of the number it denotes |
| LabelResolver.NatDecimalInjective | src/classifier.js:57 | different naturals have different numerals |
| LabelResolver.IntKeysInjective | src/classifier.js:57 | different integer codes are looked up under different keys, including negative codes |
| LabelResolver.Resolve | src/classifier.js:57 | the lookup gives a label exactly when the code's string form is a mapping key, and that label is one of the mapping's labels |
| LabelResolver.ResolveIndexKey | src/classifier.js:57 | the integer code spelled by a numeral key finds exactly the entry stored under that key, or `undefined` when there is none |
| Ensemble.MaxOf | src/classifier.js:55 | `Math.max` of a non-empty vector is one of its elements and at least every element |
| Ensemble.Confidence | src/classifier.js:54-55 | a model's confidence is exactly 1.0 without a probability vector, and otherwise an element of the vector that is at least every element |
| Ensemble.ConfidenceInUnitRange | src/classifier.js:54-55 | with probabilities in [0, 1] the confidence is in [0, 1] |
| Classifier.Step | src/classifier.js:47-62 | one model's step fails exactly when the run fails or yields no label; otherwise its label is the resolution of the first label element and its confidence is as in `Confidence` |
| Votes.Count | src/classifier.js:74-77 | a label's count is at most the number of votes, and zero exactly when nobody voted for it |
| Votes.FirstOccurrences | src/classifier.js:74-77 | the tally's key order lists each voted label once, and only voted labels |
| Votes.FirstOccurrencesOrder | src/classifier.js:74-77 | the tally's keys are ordered by the position of each label's first vote |
| Votes.TallyCounts | src/classifier.js:74-77 | the tally is well formed, its keys are the labels in first-vote order, and each label reads its number of votes, with unvoted labels reading `undefined` |
| Votes.TallyAppend | src/classifier.js:75 | one more vote sets its label's count to one more than before, starting from 0 for a new label, and changes nothing else |
| Votes.CountVotes | src/classifier.js:74-77 | the imperative tally loop over the collected labels yields the reference tally of their property keys |
| Votes.TallyTotal | src/classifier.js:74-77 | the tally's counts add up to the number of models |
| Votes.CountPair | src/classifier.js:74-77 | two different labels together hold at most every vote |
| Votes.CountDistinct | src/classifier.js:74-77 | when every model votes differently, each label has one vote |
| Votes.CountAll | src/classifier.js:74-77 | when every model votes for one label, that label has every vote |
| Votes.FoldMaxIsFirstMax | src/classifier.js:79-80 | the strict-`>` left fold returns the first entry with the largest count |
| Votes.Majority | src/classifier.js:79-80 | the majority entry is an entry whose count is maximal and which no earlier entry ties |
| Votes.FirstMaxOfTally | src/classifier.js:74-80 | the first maximal entry of the tally is a voted label with the most votes, first voted among those tied with it |
| Votes.MajorityInQueryOrder | src/classifier.js:74-80 | the majority label was voted for, no label has more votes, and among labels tied with it none was voted earlier |
| Ensemble.MeanBounds | src/classifier.js:82-83 | the mean lies between any lower and upper bound of the confidences |
| Ensemble.MeanOfConstant | src/classifier.js:82-83 | the mean of equal confidences is that confidence |
| Ensemble.MeanBelowOne | src/classifier.js:82-83 | with confidences at most 1, the mean is below 1 as soon as one confidence is |
| Ensemble.ViewsAppend | src/classifier.js:64-65 | one more model appends its label and its confidence to the collected ones |
| Ensemble.CombineInputs | src/classifier.js:74-83 | the tally is empty exactly when there is no verdict, the confidence object's values are the confidences in query order, and `Aggregate` unfolds to the majority over the tally's entries with the mean and threshold applied (this last clause is the proof step `Combine` needs) |
| Ensemble.Combine | src/classifier.js:73-89 | the imperative ensemble step has no result exactly when there is no vote, and otherwise yields the reference `Aggregate` of the verdicts |
| Ensemble.AggregateVotes | src/classifier.js:74-88 | the reported votes are the tally: well formed, keys in first-vote order, each label holding its number of votes, counts adding up to the number of models |
| Ensemble.MajorityLabelChoice | src/classifier.js:79-80 | the majority label was voted for, has the most votes, and wins ties by being voted first |
| Ensemble.AggregateDecision | src/classifier.js:82-87 | the reported confidence is the mean of all confidences; the label is "others" below the threshold, and at or above it a voted label with the most votes |
| Ensemble.StrictMajorityWins | src/classifier.js:79-80 | a label with more than half of the votes is the majority label |
| Ensemble.UnanimousVote | src/classifier.js:74-87 | when every model votes for one label, the ensemble reports that label if the mean reaches the threshold and "others" otherwise, with the mean as confidence |
| Ensemble.AllDifferentPicksFirst | src/classifier.js:74-80 | when every model votes differently, the first model's label wins |
| Ensemble.NonPositiveThresholdKeepsMajority | src/classifier.js:86 | with confidences in [0, 1], a threshold of at most 0 always keeps the majority label |
| Ensemble.FullThresholdKeepsCertainMajority | src/classifier.js:86 | with threshold 1.0, fully confident models keep the majority label |
| Ensemble.FullThresholdAbstainsOnDoubt | src/classifier.js:86 | with threshold 1.0 and confidences at most 1, one model below 1 makes the ensemble answer "others" |
| Ensemble.TieBreakExample | src/classifier.js:74-80 | votes "billing", "shipping", "returns" in query order give "billing" |
| Ensemble.TwoOneSplitExample | src/classifier.js:74-80 | in a 2-1 split the label of the two models wins |
| Ensemble.TwoOneSplitConfidenceExample | src/classifier.js:82-83 | in a 2-1 split the confidence is the mean of all three confidences, not only the majority pair's |
| Ensemble.AbstainExample | src/classifier.js:82-87 | confidences 0.4, 0.4, 0.4 under the default threshold give "others" with confidence 0.4 |
| Ensemble.InclusiveThresholdExample | src/classifier.js:86 | confidences 0.5, 0.5, 0.5 under the default threshold keep the majority label |
| Ensemble.UnresolvedLabelsExample | src/classifier.js:57-86 | three codes missing from the mapping are tallied under "undefined", and that string becomes the final label when the mean reaches the default threshold |
| Classifier.Verdicts | src/classifier.js:42-71 | querying the models in order yields one verdict per model, or the first failure |
| Classifier.VerdictsExtend | src/classifier.js:42-70 | querying one more model either appends its verdict or fails with its name |
| Classifier.QueryStep | src/classifier.js:47-65 | a successful step extends the verdicts, the results object, the collected labels and the confidence object by the model's entry |
| Classifier.QueryFails | src/classifier.js:67-70 | a failing step aborts the whole query sequence with that model's name |
| Classifier.QueryDone | src/classifier.js:42-71 | after the last model, the loop state holds every model's verdict, the results object, the labels and the confidence object |
| Classifier.VerdictsFailurePersists | src/classifier.js:67-70 | a failure among the first models is the failure of the whole sequence |
| Classifier.VerdictsAllSucceed | src/classifier.js:42-66 | when every step succeeds, the verdicts are the steps' verdicts in query order |
| Classifier.VerdictsFirstFailure | src/classifier.js:67-70 | the first failing model decides the error |
| Classifier.ClassifyAbortsOnModelError | src/classifier.js:67-70 | a prediction with a failing model fails with the first failing model's name and no partial result |
| Classifier.ClassifyNeedsAModel | src/classifier.js:79-80 | with no session loaded the prediction fails for lack of votes |
| Classifier.ClassifySucceeds | src/classifier.js:42-89 | when every model's step succeeds, the results object has the model names in query order, each recording its step's label and confidence unchanged, and the ensemble entry is `Aggregate` of the verdicts |
| Classifier.AddKey | src/classifier.js:17 | storing one session keeps the session keys distinct and adds the new name |
| Classifier.AddKeyIsSet | src/classifier.js:17 | the key order `AddKey` gives is the one `Dict.Set` gives the sessions object for `this.sessions[name] = ...` |
| Classifier.AddKeys | src/classifier.js:17-25 | storing several sessions keeps the keys distinct, adds the names and keeps the existing keys first |
| Classifier.CreatedPrefix | src/classifier.js:15-28 | the sessions created are the models before the first creation that fails |
| Classifier.CreatedModels | src/classifier.js:15-28 | the created models are none, the first, the first two or all three, depending on which creation fails first |
| Classifier.FreshLoadOrder | src/classifier.js:17-25 | loading into an empty sessions object stores the three models in load order |
| Classifier.IntentClassifier.constructor | src/classifier.js:7-12 | a new classifier holds the given mapping and no sessions |
| Classifier.IntentClassifier.LoadModels | src/classifier.js:14-30 | the sessions become the old ones plus the models created before the first failure, which is named in the outcome; a fresh full load stores the three models in order |
| Classifier.IntentClassifier.Predict | src/classifier.js:32-92 | the imperative `predict` loop and ensemble step give exactly the reference `Classify`: the per-model results and the ensemble entry, or the error that aborts the prediction; a call without a threshold uses the default 0.5 |

## Left out

- `onnxruntime-node` session creation and `session.run` are foreign asynchronous calls. They become the parameters `create` and `run`, with the embedding folded into `run`.
- `async`/`await`: the loop over the sessions is a plain sequential loop, and the rejection of a promise is a `Failure` value.
- Reading and parsing `label_mapping.json` is file I/O. The constructor takes the mapping as a `map<string, string>`.
- The field-name fallbacks `output_label`/`label` and `output_probability`/`probability`, and the `Float32Array`/`ort.Tensor` input construction, are backend shapes. `RunOutput` is the normalised output.
- Console logging of errors is left out.
- `src/embeddings.js` is not part of this model. It is a network client for generating embeddings.
- `src/index.js` is not part of this model. It is a command-line demo.
- IEEE-754 arithmetic, `NaN` and infinities are out of scope. Confidences are exact reals.
- Classifier.IntentClassifier.Predict: requires every probability vector a session returns to be non-empty (`AllWellShaped`). `Math.max()` of an empty vector is `-Infinity`, which the reals do not have.
- JsObject.Dict: keys are kept in assignment order for every key. JavaScript instead lists integer-like keys (such as "3") first, in ascending numeric order, so a tally of labels that look like integers may be ordered differently from the model.
- JsObject.Dict: the special property `__proto__` is treated as an ordinary key.
- JsObject.Empty: a JavaScript `{}` inherits the members of `Object.prototype` (`constructor`, `toString`, `valueOf`, `hasOwnProperty`, ...). The model reads those keys as absent. So the tally of a label such as "constructor" counts 1 in the model. The source instead computes `(Object || 0) + 1`, a string, and the majority fold then compares a number with a string.
- LabelResolver.Resolve: the object `JSON.parse` returns also inherits `Object.prototype`. A code whose string form is such a member name (for example "toString") and which is not in the mapping resolves to `None` in the model. The source resolves it to the inherited function, tallied under that function's source text.
- LabelResolver.CodeKey: covers integer and string class codes. `toString` of non-integer numbers, including exponent notation, is not modelled.
- Classifier.Prediction: keeps the per-model results and the ensemble entry apart. The source stores the ensemble entry in the same object, under the key `ensemble`, which no model name can collide with because the names are fixed.
- Idempotence of `predict` holds because the model is functional: `Classify` is a function of its inputs. No separate lemma states it.
