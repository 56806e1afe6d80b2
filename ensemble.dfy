/** Per-model confidence and the ensemble decision: majority label, mean confidence and the
    abstention threshold. Confidences are exact reals. */
module Ensemble {
  import opened Wrappers
  import opened JsObject
  import opened Votes

  /** The label the ensemble reports when it abstains. */
  const Others: string := "others"

  /** The threshold `predict` uses when its caller gives none. */
  const DefaultThreshold: real := 0.5

  /** One model's result: its resolved label (`None` for `undefined`) and its confidence. */
  datatype Verdict = Verdict(prediction: Option<string>, confidence: real)

  /** The ensemble entry of a prediction: final label, mean confidence and the vote tally. */
  datatype EnsembleVerdict = EnsembleVerdict(prediction: string, confidence: real, votes: Dict<nat>)

  /** `Math.max(...p)` of a non-empty vector. */
  function MaxOf(p: seq<real>): (m: real)
    requires |p| > 0
    ensures m in p
    ensures forall i :: 0 <= i < |p| ==> p[i] <= m
  {
    if |p| == 1 then p[0]
    else
      var rest := MaxOf(p[1..]);
      assert forall i :: 1 <= i < |p| ==> p[i] == p[1..][i - 1];
      if p[0] >= rest then p[0] else rest
  }

  /** A probability vector, when present, has at least one element. */
  predicate ProbabilitiesOk(probs: Option<seq<real>>)
  {
    probs.Some? ==> |probs.value| > 0
  }

  /** A model's confidence: the largest probability of its vector, or full confidence 1.0 when
      the model reports no vector. */
  function Confidence(probs: Option<seq<real>>): (c: real)
    requires ProbabilitiesOk(probs)
    ensures probs.None? ==> c == 1.0
    ensures probs.Some? ==> c in probs.value
    ensures probs.Some? ==> forall i :: 0 <= i < |probs.value| ==> probs.value[i] <= c
  {
    match probs
    case None => 1.0
    case Some(p) => MaxOf(p)
  }

  /** A vector of probabilities gives a confidence that is a probability too. */
  lemma ConfidenceInUnitRange(probs: Option<seq<real>>)
    requires ProbabilitiesOk(probs)
    requires probs.Some? ==> forall i :: 0 <= i < |probs.value| ==> 0.0 <= probs.value[i] <= 1.0
    ensures 0.0 <= Confidence(probs) <= 1.0
  {
  }

  /** `xs.reduce((a, b) => a + b, 0)`. */
  function Sum(xs: seq<real>): real
  {
    if xs == [] then 0.0 else Sum(xs[..|xs| - 1]) + xs[|xs| - 1]
  }

  /** The unweighted arithmetic mean. */
  function Mean(xs: seq<real>): real
    requires |xs| > 0
  {
    Sum(xs) / (|xs| as real)
  }

  lemma {:induction false} SumAtMost(xs: seq<real>, hi: real)
    requires forall i :: 0 <= i < |xs| ==> xs[i] <= hi
    ensures Sum(xs) <= hi * (|xs| as real)
  {
    if xs != [] {
      var p := xs[..|xs| - 1];
      assert forall i :: 0 <= i < |p| ==> p[i] == xs[i];
      SumAtMost(p, hi);
      assert hi * (|xs| as real) == hi * (|p| as real) + hi;
    }
  }

  lemma {:induction false} SumAtLeast(xs: seq<real>, lo: real)
    requires forall i :: 0 <= i < |xs| ==> lo <= xs[i]
    ensures lo * (|xs| as real) <= Sum(xs)
  {
    if xs != [] {
      var p := xs[..|xs| - 1];
      assert forall i :: 0 <= i < |p| ==> p[i] == xs[i];
      SumAtLeast(p, lo);
      assert lo * (|xs| as real) == lo * (|p| as real) + lo;
    }
  }

  /** Values that are all at most 1, one of them below 1, sum to less than their number. */
  lemma {:induction false} SumBelowCount(xs: seq<real>, k: int)
    requires 0 <= k < |xs| && xs[k] < 1.0
    requires forall i :: 0 <= i < |xs| ==> xs[i] <= 1.0
    ensures Sum(xs) < |xs| as real
  {
    var p := xs[..|xs| - 1];
    assert forall i :: 0 <= i < |p| ==> p[i] == xs[i];
    if k < |p| {
      SumBelowCount(p, k);
    } else {
      SumAtMost(p, 1.0);
    }
  }

  /** Values that are all at most 1, one of them below 1, have a mean below 1. */
  lemma MeanBelowOne(xs: seq<real>, k: int)
    requires 0 <= k < |xs| && xs[k] < 1.0
    requires forall i :: 0 <= i < |xs| ==> xs[i] <= 1.0
    ensures Mean(xs) < 1.0
  {
    SumBelowCount(xs, k);
    var n := |xs| as real;
    assert Mean(xs) * n == Sum(xs);
  }

  /** The mean lies between any lower and upper bound of the values. */
  lemma MeanBounds(xs: seq<real>, lo: real, hi: real)
    requires |xs| > 0
    requires forall i :: 0 <= i < |xs| ==> lo <= xs[i] <= hi
    ensures lo <= Mean(xs) <= hi
  {
    SumAtMost(xs, hi);
    SumAtLeast(xs, lo);
    var n := |xs| as real;
    assert Mean(xs) * n == Sum(xs);
  }

  /** The mean of equal values is that value. */
  lemma MeanOfConstant(xs: seq<real>, c: real)
    requires |xs| > 0
    requires forall i :: 0 <= i < |xs| ==> xs[i] == c
    ensures Mean(xs) == c
  {
    MeanBounds(xs, c, c);
  }

  function Predictions(vs: seq<Verdict>): seq<Option<string>>
  {
    seq(|vs|, i requires 0 <= i < |vs| => vs[i].prediction)
  }

  function Confidences(vs: seq<Verdict>): seq<real>
  {
    seq(|vs|, i requires 0 <= i < |vs| => vs[i].confidence)
  }

  lemma ViewsAppend(vs: seq<Verdict>, v: Verdict)
    ensures Predictions(vs + [v]) == Predictions(vs) + [v.prediction]
    ensures Confidences(vs + [v]) == Confidences(vs) + [v.confidence]
  {
  }

  /** The label each model votes for: the property key of its resolved label. */
  function VoteKeys(vs: seq<Verdict>): seq<string>
  {
    PropertyKeys(Predictions(vs))
  }

  /** Reference definition of the ensemble decision over the models' verdicts in query order:
      the tally of their votes, the majority label over it, the mean of all confidences, and
      "others" in place of the majority label when the mean is below the threshold. */
  function Aggregate(vs: seq<Verdict>, threshold: real): EnsembleVerdict
    requires |vs| > 0
  {
    var confidence := Mean(Confidences(vs));
    var winner := MajorityLabel(VoteKeys(vs));
    EnsembleVerdict(if confidence >= threshold then winner else Others, confidence, Tally(VoteKeys(vs)))
  }

  /** What `Combine` reads its inputs as: the tally of the labels, empty exactly when there
      is no verdict, and the values of the confidence object, which are the confidences in
      query order. */
  lemma CombineInputs(names: seq<string>, vs: seq<Verdict>, threshold: real)
    requires |names| == |vs| && Distinct(names)
    ensures Tally(VoteKeys(vs)).Valid() && (|Tally(VoteKeys(vs)).keys| == 0 <==> |vs| == 0)
    ensures FromPairs(names, Confidences(vs)).Valid() && FromPairs(names, Confidences(vs)).Values() == Confidences(vs)
    ensures |vs| > 0 ==> Aggregate(vs, threshold) == EnsembleVerdict(
      if Mean(Confidences(vs)) >= threshold then Majority(Tally(VoteKeys(vs)).Entries()).0 else Others,
      Mean(Confidences(vs)), Tally(VoteKeys(vs)))
  {
    TallyCounts(VoteKeys(vs));
    FromPairsLookup(names, Confidences(vs));
  }

  /** The ensemble step of `predict`: tally the collected labels, take the majority label,
      average the values of the confidence object and apply the threshold. With no vote the
      step has nothing to choose from (`None`); otherwise it computes `Aggregate` of the
      verdicts the labels and confidences were collected from. */
  method Combine(allPredictions: seq<Option<string>>, allConfidences: Dict<real>, threshold: real,
                 ghost names: seq<string>, ghost vs: seq<Verdict>)
    returns (r: Option<EnsembleVerdict>)
    requires |names| == |vs| && Distinct(names)
    requires allPredictions == Predictions(vs)
    requires allConfidences == FromPairs(names, Confidences(vs))
    ensures r.None? <==> |vs| == 0
    ensures r.Some? ==> |vs| > 0 && r.value == Aggregate(vs, threshold)
  {
    CombineInputs(names, vs, threshold);
    var predictionCounts := CountVotes(allPredictions);
    if |predictionCounts.keys| == 0 {
      return None;
    }
    var finalPrediction := Majority(predictionCounts.Entries()).0;
    var finalConfidence := Mean(allConfidences.Values());
    r := Some(EnsembleVerdict(if finalConfidence >= threshold then finalPrediction else Others, finalConfidence, predictionCounts));
  }

  /** The tally holds, for every label, the number of models that voted for it, and nothing
      for labels no model voted for; its keys are in first-vote order and its counts add up to
      the number of models. */
  lemma AggregateVotes(vs: seq<Verdict>, threshold: real)
    requires |vs| > 0
    ensures Aggregate(vs, threshold).votes.Valid()
    ensures Aggregate(vs, threshold).votes.keys == FirstOccurrences(VoteKeys(vs))
    ensures forall x :: Aggregate(vs, threshold).votes.Get(x) == Tally(VoteKeys(vs)).Get(x)
    ensures forall x :: Tally(VoteKeys(vs)).Get(x) == if x in VoteKeys(vs) then Some(Count(VoteKeys(vs), x)) else None
    ensures VoteTotal(Aggregate(vs, threshold).votes) == |vs|
  {
    TallyCounts(VoteKeys(vs));
    TallyTotal(VoteKeys(vs));
  }

  /** The majority label has a vote and at least as many votes as any other label, and on a tie
      it is the tied label that a model earliest in query order voted for. */
  lemma MajorityLabelChoice(vs: seq<Verdict>)
    requires |vs| > 0
    ensures MajorityLabel(VoteKeys(vs)) in VoteKeys(vs)
    ensures forall x :: x in VoteKeys(vs) ==> Count(VoteKeys(vs), x) <= Count(VoteKeys(vs), MajorityLabel(VoteKeys(vs)))
    ensures forall x :: x in VoteKeys(vs) && Count(VoteKeys(vs), x) == Count(VoteKeys(vs), MajorityLabel(VoteKeys(vs))) ==>
      FirstIndex(VoteKeys(vs), MajorityLabel(VoteKeys(vs))) <= FirstIndex(VoteKeys(vs), x)
  {
    MajorityInQueryOrder(VoteKeys(vs));
  }

  /** The reported confidence is the mean of every model's confidence, whatever label each
      voted for and whether or not the ensemble abstains; the final label is "others" below the
      threshold and, at or above it, a label with the most votes. */
  lemma AggregateDecision(vs: seq<Verdict>, threshold: real)
    requires |vs| > 0
    ensures Aggregate(vs, threshold).confidence == Sum(Confidences(vs)) / (|vs| as real)
    ensures Aggregate(vs, threshold).confidence < threshold ==> Aggregate(vs, threshold).prediction == Others
    ensures Aggregate(vs, threshold).confidence >= threshold ==>
      Aggregate(vs, threshold).prediction in VoteKeys(vs) &&
      forall x :: x in VoteKeys(vs) ==> Count(VoteKeys(vs), x) <= Count(VoteKeys(vs), Aggregate(vs, threshold).prediction)
  {
    MajorityInQueryOrder(VoteKeys(vs));
  }

  /** A label voted for by more than half of the models wins. */
  lemma StrictMajorityWins(vs: seq<Verdict>, a: string)
    requires |vs| > 0
    requires 2 * Count(VoteKeys(vs), a) > |vs|
    ensures MajorityLabel(VoteKeys(vs)) == a
  {
    var s := VoteKeys(vs);
    var w := MajorityLabel(s);
    assert a in s;
    MajorityInQueryOrder(s);
    if w != a {
      CountPair(s, w, a);
    }
  }

  /** When every model votes for the same label, that label is the ensemble's label unless
      the mean confidence is below the threshold. */
  lemma UnanimousVote(vs: seq<Verdict>, a: string, threshold: real)
    requires |vs| > 0
    requires forall i :: 0 <= i < |vs| ==> PropertyKey(vs[i].prediction) == a
    ensures Aggregate(vs, threshold).prediction == if Mean(Confidences(vs)) >= threshold then a else Others
    ensures Aggregate(vs, threshold).confidence == Mean(Confidences(vs))
  {
    CountAll(VoteKeys(vs), a);
    StrictMajorityWins(vs, a);
  }

  /** When every model votes for a different label, the first model's label wins. */
  lemma AllDifferentPicksFirst(vs: seq<Verdict>)
    requires |vs| > 0
    requires Distinct(VoteKeys(vs))
    ensures MajorityLabel(VoteKeys(vs)) == VoteKeys(vs)[0]
  {
    var s := VoteKeys(vs);
    var w := MajorityLabel(s);
    MajorityInQueryOrder(s);
    CountDistinct(s, w);
    CountDistinct(s, s[0]);
    assert FirstIndex(s, s[0]) == 0;
    assert s[FirstIndex(s, w)] == w;
  }

  /** With every confidence in [0, 1], a threshold of at most 0 never abstains. */
  lemma NonPositiveThresholdKeepsMajority(vs: seq<Verdict>, threshold: real)
    requires |vs| > 0 && threshold <= 0.0
    requires forall i :: 0 <= i < |vs| ==> 0.0 <= vs[i].confidence <= 1.0
    ensures Aggregate(vs, threshold).prediction == MajorityLabel(VoteKeys(vs))
  {
    MeanBounds(Confidences(vs), 0.0, 1.0);
  }

  /** With threshold 1.0, the ensemble keeps the majority label when every model reports
      confidence exactly 1. */
  lemma FullThresholdKeepsCertainMajority(vs: seq<Verdict>)
    requires |vs| > 0
    requires forall i :: 0 <= i < |vs| ==> vs[i].confidence == 1.0
    ensures Aggregate(vs, 1.0).prediction == MajorityLabel(VoteKeys(vs))
  {
    MeanOfConstant(Confidences(vs), 1.0);
  }

  /** With threshold 1.0 and every confidence at most 1, the ensemble abstains as soon as one
      model is not fully confident. */
  lemma FullThresholdAbstainsOnDoubt(vs: seq<Verdict>, k: int)
    requires 0 <= k < |vs| && vs[k].confidence < 1.0
    requires forall i :: 0 <= i < |vs| ==> vs[i].confidence <= 1.0
    ensures Aggregate(vs, 1.0).prediction == Others
  {
    MeanBelowOne(Confidences(vs), k);
  }

  function Vote(name: string, confidence: real): Verdict
  {
    Verdict(Some(name), confidence)
  }

  /** Three models voting "billing", "shipping", "returns" in query order: one vote each, and
      "billing", voted first, wins. */
  lemma TieBreakExample(c1: real, c2: real, c3: real)
    ensures MajorityLabel(VoteKeys([Vote("billing", c1), Vote("shipping", c2), Vote("returns", c3)])) == "billing"
  {
    var vs := [Vote("billing", c1), Vote("shipping", c2), Vote("returns", c3)];
    assert VoteKeys(vs) == ["billing", "shipping", "returns"];
    AllDifferentPicksFirst(vs);
  }

  /** Three models whose codes are all missing from the mapping: their labels are `undefined`,
      they are tallied under the key "undefined", and under the default threshold that string is
      the ensemble's label whenever the mean confidence reaches it. */
  lemma UnresolvedLabelsExample(c: real)
    requires c >= DefaultThreshold
    ensures Aggregate([Verdict(None, c), Verdict(None, c), Verdict(None, c)], DefaultThreshold).prediction == "undefined"
  {
    var vs := [Verdict(None, c), Verdict(None, c), Verdict(None, c)];
    MeanOfConstant(Confidences(vs), c);
    UnanimousVote(vs, "undefined", DefaultThreshold);
  }

  /** A 2-1 split: the label held by two of three models wins. */
  lemma TwoOneSplitExample(a: string, b: string, c1: real, c2: real, c3: real)
    requires a != b
    ensures MajorityLabel(VoteKeys([Vote(a, c1), Vote(b, c2), Vote(a, c3)])) == a
  {
    var vs := [Vote(a, c1), Vote(b, c2), Vote(a, c3)];
    assert VoteKeys(vs) == [a, b] + [a];
    assert [a, b] == [a] + [b] && [a] == [] + [a];
    CountAppend([], a, a);
    CountAppend([a], b, a);
    CountAppend([a, b], a, a);
    StrictMajorityWins(vs, a);
  }

  /** In the same split the confidence is the mean over all three models, not over the
      majority pair. */
  lemma TwoOneSplitConfidenceExample(a: string, b: string, c1: real, c2: real, c3: real, threshold: real)
    ensures Aggregate([Vote(a, c1), Vote(b, c2), Vote(a, c3)], threshold).confidence == (c1 + c2 + c3) / 3.0
  {
    var cs := Confidences([Vote(a, c1), Vote(b, c2), Vote(a, c3)]);
    assert cs == [c1, c2] + [c3] && [c1, c2] == [c1] + [c2] && [c1] == [] + [c1];
    assert Sum(cs) == c1 + c2 + c3 by {
      assert Sum(cs) == Sum([c1, c2]) + c3;
      assert Sum([c1, c2]) == Sum([c1]) + c2;
      assert Sum([c1]) == Sum([]) + c1;
    }
  }

  /** Confidences 0.4, 0.4, 0.4 under threshold 0.5: the ensemble abstains with "others" and
      still reports confidence 0.4. */
  lemma AbstainExample(l1: string, l2: string, l3: string)
    ensures Aggregate([Vote(l1, 0.4), Vote(l2, 0.4), Vote(l3, 0.4)], DefaultThreshold).prediction == Others
    ensures Aggregate([Vote(l1, 0.4), Vote(l2, 0.4), Vote(l3, 0.4)], DefaultThreshold).confidence == 0.4
  {
    MeanOfConstant(Confidences([Vote(l1, 0.4), Vote(l2, 0.4), Vote(l3, 0.4)]), 0.4);
  }

  /** Confidences 0.5, 0.5, 0.5 under threshold 0.5: the threshold is inclusive and the
      majority label is kept. */
  lemma InclusiveThresholdExample(l1: string, l2: string, l3: string)
    ensures Aggregate([Vote(l1, 0.5), Vote(l2, 0.5), Vote(l3, 0.5)], DefaultThreshold).prediction ==
      MajorityLabel(VoteKeys([Vote(l1, 0.5), Vote(l2, 0.5), Vote(l3, 0.5)]))
  {
    MeanOfConstant(Confidences([Vote(l1, 0.5), Vote(l2, 0.5), Vote(l3, 0.5)]), 0.5);
  }
}
