/** The intent classifier: it holds the label mapping and the loaded inference sessions, and
    `Predict` queries every session in load order, resolves each model's label and confidence,
    and combines them into the ensemble decision. The inference runtime is abstracted: `create`
    says whether a model's session could be created, and `run` gives the output each named
    session produces for the request's embedding. */
module Classifier {
  import opened Wrappers
  import opened JsObject
  import opened LabelResolver
  import opened Votes
  import opened Ensemble

  /** What running one session yields: it fails (the run rejects, or its output lacks the
      label tensor), or it produces the label tensor's elements and, optionally, a probability
      vector. */
  datatype RunOutput = RunFailed | RunOk(labels: seq<RawCode>, probabilities: Option<seq<real>>)

  /** Why a prediction is thrown away: a model's step failed, or there was no vote to choose
      from (no session loaded). */
  datatype Error = ModelFailed(model: string) | NoVotes

  /** The object `predict` returns: one verdict per model name, and the ensemble entry. */
  datatype Prediction = Prediction(models: Dict<Verdict>, ensemble: EnsembleVerdict)

  datatype LoadOutcome = AllLoaded | LoadFailed(model: string)

  /** The models `loadModels` creates, in this order. */
  const ModelNames: seq<string> := ["logistic_regression", "svm", "knn"]

  predicate WellShaped(out: RunOutput)
  {
    out.RunOk? ==> ProbabilitiesOk(out.probabilities)
  }

  predicate AllWellShaped(run: string -> RunOutput, names: seq<string>)
  {
    forall n :: n in names ==> WellShaped(run(n))
  }

  /** One model's step: the first element of its label tensor, resolved through the mapping,
      and its confidence; the step fails when the run fails or yields no label. */
  function Step(mapping: map<string, string>, out: RunOutput): (v: Option<Verdict>)
    requires WellShaped(out)
    ensures v.None? <==> out.RunFailed? || |out.labels| == 0
    ensures v.Some? ==> v.value.prediction == Resolve(mapping, out.labels[0])
    ensures v.Some? && out.probabilities.None? ==> v.value.confidence == 1.0
    ensures v.Some? && out.probabilities.Some? ==>
      v.value.confidence in out.probabilities.value &&
      forall i :: 0 <= i < |out.probabilities.value| ==> out.probabilities.value[i] <= v.value.confidence
  {
    match out
    case RunFailed => None
    case RunOk(labels, probabilities) =>
      if |labels| == 0 then None
      else Some(Verdict(Resolve(mapping, labels[0]), Confidence(probabilities)))
  }

  /** The verdicts of the models `names`, queried in order; the first model whose step fails
      aborts the whole sequence. */
  function Verdicts(mapping: map<string, string>, names: seq<string>, run: string -> RunOutput): (r: Result<seq<Verdict>, Error>)
    requires AllWellShaped(run, names)
    ensures r.Success? ==> |r.value| == |names|
    decreases |names|
  {
    if names == [] then Success([])
    else
      var p := names[..|names| - 1];
      var last := names[|names| - 1];
      assert names == p + [last];
      match Verdicts(mapping, p, run)
      case Failure(e) => Failure(e)
      case Success(vs) =>
        match Step(mapping, run(last))
        case None => Failure(ModelFailed(last))
        case Some(v) => Success(vs + [v])
  }

  /** Reference definition of `predict`: the per-model verdicts keyed by model name and the
      ensemble decision over them, or the error that aborts it. */
  function Classify(mapping: map<string, string>, names: seq<string>, run: string -> RunOutput, threshold: real := DefaultThreshold): Result<Prediction, Error>
    requires AllWellShaped(run, names)
  {
    match Verdicts(mapping, names, run)
    case Failure(e) => Failure(e)
    case Success(vs) =>
      if |vs| == 0 then Failure(NoVotes)
      else Success(Prediction(FromPairs(names, vs), Aggregate(vs, threshold)))
  }

  /** Querying one more model either extends the verdicts by its verdict or fails with its
      name. */
  lemma VerdictsExtend(mapping: map<string, string>, names: seq<string>, run: string -> RunOutput, i: nat, vs: seq<Verdict>)
    requires AllWellShaped(run, names) && i < |names|
    requires Verdicts(mapping, names[..i], run) == Success(vs)
    ensures Verdicts(mapping, names[..i + 1], run) ==
      match Step(mapping, run(names[i]))
      case None => Failure(ModelFailed(names[i]))
      case Some(v) => Success(vs + [v])
  {
    assert names[..i + 1][..i] == names[..i] && names[..i + 1][i] == names[i];
  }

  /** The state of the query loop after the first `i` models: their verdicts `vs`, the
      per-model results object, the collected labels and the confidence object. */
  ghost predicate Queried(mapping: map<string, string>, names: seq<string>, run: string -> RunOutput, i: nat,
                          vs: seq<Verdict>, results: Dict<Verdict>, preds: seq<Option<string>>, confs: Dict<real>)
    requires AllWellShaped(run, names) && i <= |names|
  {
    |vs| == i && Verdicts(mapping, names[..i], run) == Success(vs) &&
    results == FromPairs(names[..i], vs) && preds == Predictions(vs) &&
    confs == FromPairs(names[..i], Confidences(vs))
  }

  /** One successful step of the query loop: the verdicts, the per-model results, the labels
      and the confidences all grow by the new model's entry. */
  lemma QueryStep(mapping: map<string, string>, names: seq<string>, run: string -> RunOutput, i: nat, vs: seq<Verdict>, v: Verdict,
                  results: Dict<Verdict>, preds: seq<Option<string>>, confs: Dict<real>)
    requires AllWellShaped(run, names) && i < |names|
    requires Queried(mapping, names, run, i, vs, results, preds, confs)
    requires run(names[i]).RunOk? && |run(names[i]).labels| > 0
    requires v == Verdict(Resolve(mapping, run(names[i]).labels[0]), Confidence(run(names[i]).probabilities))
    ensures Queried(mapping, names, run, i + 1, vs + [v], results.Set(names[i], v), preds + [v.prediction], confs.Set(names[i], v.confidence))
  {
    VerdictsExtend(mapping, names, run, i, vs);
    assert names[..i + 1] == names[..i] + [names[i]];
    ViewsAppend(vs, v);
    FromPairsAppend(names[..i], vs, names[i], v);
    FromPairsAppend(names[..i], Confidences(vs), names[i], v.confidence);
  }

  lemma QueryDone(mapping: map<string, string>, names: seq<string>, run: string -> RunOutput,
                  vs: seq<Verdict>, results: Dict<Verdict>, preds: seq<Option<string>>, confs: Dict<real>)
    requires AllWellShaped(run, names)
    requires Queried(mapping, names, run, |names|, vs, results, preds, confs)
    ensures Verdicts(mapping, names, run) == Success(vs) && |vs| == |names|
    ensures results == FromPairs(names, vs) && preds == Predictions(vs) && confs == FromPairs(names, Confidences(vs))
  {
    assert names[..|names|] == names;
  }

  /** A failed step of the query loop aborts the whole sequence with the failing model's name. */
  lemma QueryFails(mapping: map<string, string>, names: seq<string>, run: string -> RunOutput, i: nat, vs: seq<Verdict>)
    requires AllWellShaped(run, names) && i < |names|
    requires |vs| == i && Verdicts(mapping, names[..i], run) == Success(vs)
    requires run(names[i]).RunFailed? || |run(names[i]).labels| == 0
    ensures Verdicts(mapping, names, run) == Failure(ModelFailed(names[i]))
  {
    VerdictsExtend(mapping, names, run, i, vs);
    VerdictsFailurePersists(mapping, names, run, i + 1);
  }

  /** A failure in a prefix of the models is the failure of the whole sequence. */
  lemma {:induction false} VerdictsFailurePersists(mapping: map<string, string>, names: seq<string>, run: string -> RunOutput, k: nat)
    requires AllWellShaped(run, names) && k <= |names|
    requires Verdicts(mapping, names[..k], run).Failure?
    ensures Verdicts(mapping, names, run) == Verdicts(mapping, names[..k], run)
    decreases |names|
  {
    if k < |names| {
      var p := names[..|names| - 1];
      assert p[..k] == names[..k];
      VerdictsFailurePersists(mapping, p, run, k);
    } else {
      assert names[..k] == names;
    }
  }

  /** When every model's step succeeds, the verdicts are exactly the steps' verdicts, in
      query order. */
  lemma {:induction false} VerdictsAllSucceed(mapping: map<string, string>, names: seq<string>, run: string -> RunOutput)
    requires AllWellShaped(run, names)
    requires forall i :: 0 <= i < |names| ==> Step(mapping, run(names[i])).Some?
    ensures Verdicts(mapping, names, run).Success?
    ensures forall i :: 0 <= i < |names| ==> Verdicts(mapping, names, run).value[i] == Step(mapping, run(names[i])).value
    decreases |names|
  {
    if names != [] {
      var p := names[..|names| - 1];
      assert forall i :: 0 <= i < |p| ==> p[i] == names[i];
      VerdictsAllSucceed(mapping, p, run);
    }
  }

  /** The first model whose step fails decides the error; no verdict survives it. */
  lemma {:induction false} VerdictsFirstFailure(mapping: map<string, string>, names: seq<string>, run: string -> RunOutput, k: int)
    requires AllWellShaped(run, names)
    requires 0 <= k < |names| && Step(mapping, run(names[k])).None?
    requires forall i :: 0 <= i < k ==> Step(mapping, run(names[i])).Some?
    ensures Verdicts(mapping, names, run) == Failure(ModelFailed(names[k]))
  {
    var p := names[..k];
    assert forall i :: 0 <= i < k ==> p[i] == names[i];
    VerdictsAllSucceed(mapping, p, run);
    assert names[..k + 1][..k] == p;
    assert names[..k + 1][k] == names[k];
    VerdictsFailurePersists(mapping, names, run, k + 1);
  }

  /** An error in any model's step aborts the prediction with that model's error: the first
      failing model in query order is reported and no partial result is returned. */
  lemma ClassifyAbortsOnModelError(mapping: map<string, string>, names: seq<string>, run: string -> RunOutput, threshold: real, k: int)
    requires AllWellShaped(run, names)
    requires 0 <= k < |names| && Step(mapping, run(names[k])).None?
    requires forall i :: 0 <= i < k ==> Step(mapping, run(names[i])).Some?
    ensures Classify(mapping, names, run, threshold) == Failure(ModelFailed(names[k]))
  {
    VerdictsFirstFailure(mapping, names, run, k);
  }

  /** With no model there is nothing to vote on, and the prediction fails. */
  lemma ClassifyNeedsAModel(mapping: map<string, string>, run: string -> RunOutput, threshold: real)
    ensures Classify(mapping, [], run, threshold) == Failure(NoVotes)
  {
  }

  /** When every model's step succeeds, the prediction records, for each model name, that
      model's resolved label and confidence unchanged, and its ensemble entry is the decision
      over those verdicts in query order. */
  lemma ClassifySucceeds(mapping: map<string, string>, names: seq<string>, run: string -> RunOutput, threshold: real)
    requires AllWellShaped(run, names) && Distinct(names) && |names| > 0
    requires forall i :: 0 <= i < |names| ==> Step(mapping, run(names[i])).Some?
    ensures Classify(mapping, names, run, threshold).Success?
    ensures Classify(mapping, names, run, threshold).value.models.Valid()
    ensures Classify(mapping, names, run, threshold).value.models.keys == names
    ensures forall i :: 0 <= i < |names| ==>
      Classify(mapping, names, run, threshold).value.models.Get(names[i]) == Step(mapping, run(names[i]))
    ensures Classify(mapping, names, run, threshold).value.ensemble ==
      Aggregate(Verdicts(mapping, names, run).value, threshold)
  {
    VerdictsAllSucceed(mapping, names, run);
    FromPairsLookup(names, Verdicts(mapping, names, run).value);
  }

  /** The key order of an object with keys `keys` after the assignment `o[k] = ...`; the
      sessions object keeps only its key order, and `AddKeyIsSet` shows it is the order
      `Dict.Set` gives. */
  function AddKey(keys: seq<string>, k: string): (r: seq<string>)
    ensures Distinct(keys) ==> Distinct(r)
    ensures forall x :: x in r <==> x in keys || x == k
  {
    if k in keys then keys else keys + [k]
  }

  lemma AddKeyIsSet<V>(d: Dict<V>, k: string, v: V)
    requires d.Valid()
    ensures d.Set(k, v).keys == AddKey(d.keys, k)
  {
  }

  /** The key order after assigning the keys `ks` one after another. */
  function AddKeys(keys: seq<string>, ks: seq<string>): (r: seq<string>)
    ensures Distinct(keys) ==> Distinct(r)
    ensures forall x :: x in r <==> x in keys || x in ks
    ensures |keys| <= |r| && r[..|keys|] == keys
  {
    if ks == [] then keys else AddKey(AddKeys(keys, ks[..|ks| - 1]), ks[|ks| - 1])
  }

  /** The models of `names` that are created before the first creation that fails. */
  function CreatedPrefix(create: string -> bool, names: seq<string>): (p: seq<string>)
    ensures |p| <= |names| && p == names[..|p|]
    ensures forall i :: 0 <= i < |p| ==> create(p[i])
    ensures |p| < |names| ==> !create(names[|p|])
  {
    if names == [] || !create(names[0]) then []
    else [names[0]] + CreatedPrefix(create, names[1..])
  }

  lemma CreatedModels(create: string -> bool)
    ensures CreatedPrefix(create, ModelNames) ==
      if !create("logistic_regression") then []
      else if !create("svm") then ["logistic_regression"]
      else if !create("knn") then ["logistic_regression", "svm"]
      else ModelNames
  {
    assert ModelNames[1..] == ["svm", "knn"] && ModelNames[1..][1..] == ["knn"];
  }

  /** Loading into an empty sessions object stores the three models in their load order. */
  lemma FreshLoadOrder()
    ensures AddKeys([], ModelNames) == ModelNames
  {
    var a := ["logistic_regression"];
    var b := a + ["svm"];
    assert AddKeys([], a) == a by { assert a[..0] == []; }
    assert AddKeys([], b) == b by {
      assert "svm" !in a by { assert |"svm"| != |"logistic_regression"|; }
      assert b[..1] == a;
    }
    assert "knn" !in b by {
      assert |"knn"| != |"logistic_regression"|;
      assert "knn"[0] != "svm"[0];
    }
    assert ModelNames == b + ["knn"] && ModelNames[..2] == b;
  }

  class IntentClassifier {
    /** The keys of the sessions object, in the order the sessions were stored. */
    var sessions: seq<string>
    /** The code-to-label mapping read once at construction. */
    const labelMapping: map<string, string>

    ghost predicate Valid()
      reads this
    {
      Distinct(sessions)
    }

    constructor (labelMapping: map<string, string>)
      ensures Valid()
      ensures this.labelMapping == labelMapping && sessions == []
    {
      this.labelMapping := labelMapping;
      sessions := [];
    }

    /** Creates the three sessions in order; the first creation that fails aborts the rest and
        leaves the sessions created before it stored. */
    method LoadModels(create: string -> bool) returns (outcome: LoadOutcome)
      requires Valid()
      modifies this
      ensures Valid()
      ensures sessions == AddKeys(old(sessions), CreatedPrefix(create, ModelNames))
      ensures outcome == if |CreatedPrefix(create, ModelNames)| == |ModelNames| then AllLoaded
        else LoadFailed(ModelNames[|CreatedPrefix(create, ModelNames)|])
      ensures old(sessions) == [] && outcome == AllLoaded ==> sessions == ModelNames
    {
      CreatedModels(create);
      ghost var start := sessions;
      assert [] + ["logistic_regression"] == ["logistic_regression"];
      if !create("logistic_regression") {
        return LoadFailed("logistic_regression");
      }
      sessions := AddKey(sessions, "logistic_regression");
      assert sessions == AddKeys(start, ["logistic_regression"]);
      if !create("svm") {
        return LoadFailed("svm");
      }
      sessions := AddKey(sessions, "svm");
      assert ["logistic_regression", "svm"][..1] == ["logistic_regression"];
      assert sessions == AddKeys(start, ["logistic_regression", "svm"]);
      if !create("knn") {
        return LoadFailed("knn");
      }
      sessions := AddKey(sessions, "knn");
      assert ModelNames[..2] == ["logistic_regression", "svm"];
      assert sessions == AddKeys(start, ModelNames);
      FreshLoadOrder();
      outcome := AllLoaded;
    }

    /** `predict`: queries every loaded session in order, recording each model's resolved label
        and confidence, then tallies the votes, picks the majority label, averages the
        confidences and applies the threshold, 0.5 unless the caller gives one. */
    method Predict(run: string -> RunOutput, threshold: real := DefaultThreshold) returns (r: Result<Prediction, Error>)
      requires Valid()
      requires AllWellShaped(run, sessions)
      ensures r == Classify(labelMapping, sessions, run, threshold)
    {
      var results: Dict<Verdict> := Empty();
      var allPredictions: seq<Option<string>> := [];
      var allConfidences: Dict<real> := Empty();
      ghost var vs: seq<Verdict> := [];
      var i := 0;
      while i < |sessions|
        invariant 0 <= i <= |sessions|
        invariant Queried(labelMapping, sessions, run, i, vs, results, allPredictions, allConfidences)
      {
        var name := sessions[i];
        var outputData := run(name);
        if outputData.RunFailed? || |outputData.labels| == 0 {
          QueryFails(labelMapping, sessions, run, i, vs);
          return Failure(ModelFailed(name));
        }
        var prediction := outputData.labels[0];
        var confidence := Confidence(outputData.probabilities);
        var predictedLabel := Resolve(labelMapping, prediction);
        var verdict := Verdict(predictedLabel, confidence);
        QueryStep(labelMapping, sessions, run, i, vs, verdict, results, allPredictions, allConfidences);
        results := results.Set(name, verdict);
        allPredictions := allPredictions + [predictedLabel];
        allConfidences := allConfidences.Set(name, confidence);
        vs := vs + [verdict];
        i := i + 1;
      }
      QueryDone(labelMapping, sessions, run, vs, results, allPredictions, allConfidences);
      var ensemble := Combine(allPredictions, allConfidences, threshold, sessions, vs);
      if ensemble.None? {
        return Failure(NoVotes);
      }
      r := Success(Prediction(results, ensemble.value));
    }
  }
}
