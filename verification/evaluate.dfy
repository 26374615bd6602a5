/**
 * The dataset evaluator (`evaluate_dataset.py`): value normalisation, the
 * substring match rule, the counting loop, the metrics and the threshold
 * exit code.
 *
 * Each sample's extraction is an input (`None` when `extract_intent`
 * raised). Percentages are exact rationals; the printed report is not
 * modelled.
 */
module Evaluation {
  import opened Base
  import opened Text

  /** `_normalise`: `None` is "", anything else is trimmed and lowered. */
  function Normalise(value: Option<string>): (r: string)
    ensures value.None? ==> r == ""
    ensures |r| <= |value.GetOr("")|
    ensures Strip(r) == r && Lower(r) == r
    ensures var t := Strip(value.GetOr(""));
            |r| == |t| && forall k :: 0 <= k < |r| ==> r[k] == LowerChar(t[k])
    ensures value.Some? && Strip(value.value) == value.value && Lower(value.value) == value.value ==> r == value.value
  {
    var t := Strip(value.GetOr(""));
    StripIdempotent(value.GetOr(""));
    LowerIdempotent(t);
    LowerOfTrimmed(t);
    Lower(t)
  }

  /** Lowering leaves the outer whitespace alone, so a trimmed text stays trimmed. */
  lemma LowerOfTrimmed(t: string)
    requires Strip(t) == t
    ensures Strip(Lower(t)) == Lower(t)
  {
    var l := Lower(t);
    if |t| > 0 {
      assert !IsSpace(t[0]) && !IsSpace(t[|t| - 1]);
      assert !IsSpace(l[0]) && !IsSpace(l[|l| - 1]);
    }
    StripOfTrimmed(l);
  }

  /** Normalising is idempotent. */
  lemma NormaliseIdempotent(value: Option<string>)
    ensures Normalise(Some(Normalise(value))) == Normalise(value)
  {
  }

  /** The match rule: either value contains the other. */
  predicate Hit(expected: string, predicted: string) {
    Contains(predicted, expected) || Contains(expected, predicted)
  }

  /** The rule is symmetric, reflexive, and an empty expectation matches anything. */
  lemma HitProperties(expected: string, predicted: string)
    ensures Hit(expected, predicted) == Hit(predicted, expected)
    ensures Hit(expected, expected)
    ensures expected == "" ==> Hit(expected, predicted)
  {
    assert OccursAt(expected, expected, 0) by {
      assert expected[0..|expected|] == expected;
    }
    assert OccursAt(predicted, "", 0);
  }

  // ---------------------------------------------------------------------------
  // Counting
  // ---------------------------------------------------------------------------

  /** What `extract_intent` returned for a sample. */
  datatype Prediction = Prediction(intent: Option<string>, device: Option<string>, symptom: Option<string>, confidence: real)

  /** A dataset sample, with the extraction outcome for its text. */
  datatype Trial = Trial(
    expectedIntent: Option<string>,
    expectedDevice: Option<string>,
    expectedSymptom: Option<string>,
    outcome: Option<Prediction>)

  datatype Counts = Counts(failures: nat, intentHits: nat, deviceHits: nat, symptomHits: nat, confidenceSum: real)

  const NoCounts := Counts(0, 0, 0, 0, 0.0)

  function Add(a: Counts, b: Counts): Counts {
    Counts(a.failures + b.failures, a.intentHits + b.intentHits, a.deviceHits + b.deviceHits,
           a.symptomHits + b.symptomHits, a.confidenceSum + b.confidenceSum)
  }

  function Ind(b: bool): nat {
    if b then 1 else 0
  }

  /** One sample's contribution: a failed extraction counts once as a failure and nowhere else. */
  function Score(t: Trial): (c: Counts)
    ensures t.outcome.None? ==> c == Counts(1, 0, 0, 0, 0.0)
    ensures t.outcome.Some? ==> c.failures == 0 && c.confidenceSum == t.outcome.value.confidence
    ensures c.intentHits <= 1 - c.failures && c.deviceHits <= 1 - c.failures && c.symptomHits <= 1 - c.failures
  {
    match t.outcome
    case None => Counts(1, 0, 0, 0, 0.0)
    case Some(p) =>
      Counts(0,
             Ind(Hit(Normalise(t.expectedIntent), Normalise(p.intent))),
             Ind(Hit(Normalise(t.expectedDevice), Normalise(p.device))),
             Ind(Hit(Normalise(t.expectedSymptom), Normalise(p.symptom))),
             p.confidence)
  }

  /** A contribution that counts a hit only for a sample that did not fail. */
  predicate Single(c: Counts) {
    c.failures <= 1 && c.intentHits <= 1 - c.failures && c.deviceHits <= 1 - c.failures && c.symptomHits <= 1 - c.failures
  }

  /** The sum of contributions, taken in order. */
  function Sum(cs: seq<Counts>): Counts {
    if |cs| == 0 then NoCounts else Add(Sum(cs[..|cs| - 1]), cs[|cs| - 1])
  }

  /** Summing is additive over concatenation. */
  lemma {:induction false} SumAppend(a: seq<Counts>, b: seq<Counts>)
    ensures Sum(a + b) == Add(Sum(a), Sum(b))
    decreases |b|
  {
    if |b| == 0 {
      assert a + b == a;
    } else {
      var b' := b[..|b| - 1];
      var last := b[|b| - 1];
      assert b == b' + [last];
      assert a + b == (a + b') + [last];
      SumSnoc(a + b', last);
      SumAppend(a, b');
      SumSnoc(b', last);
      AddAssociative(Sum(a), Sum(b'), last);
    }
  }

  /** One more contribution of a prefix. */
  lemma SumPrefixStep(cs: seq<Counts>, i: nat)
    requires i < |cs|
    ensures Sum(cs[..i + 1]) == Add(Sum(cs[..i]), cs[i])
  {
    assert cs[..i + 1] == cs[..i] + [cs[i]];
    SumSnoc(cs[..i], cs[i]);
  }

  lemma SumSnoc(cs: seq<Counts>, c: Counts)
    ensures Sum(cs + [c]) == Add(Sum(cs), c)
  {
    assert (cs + [c])[..|cs|] == cs;
  }

  lemma AddAssociative(x: Counts, y: Counts, z: Counts)
    ensures Add(Add(x, y), z) == Add(x, Add(y, z))
  {
  }

  /** Summing single contributions: no hit count exceeds the contributions that did not fail. */
  lemma {:induction false} SumBounds(cs: seq<Counts>)
    requires forall k :: 0 <= k < |cs| ==> Single(cs[k])
    ensures Sum(cs).failures <= |cs|
    ensures Sum(cs).intentHits + Sum(cs).failures <= |cs|
    ensures Sum(cs).deviceHits + Sum(cs).failures <= |cs|
    ensures Sum(cs).symptomHits + Sum(cs).failures <= |cs|
  {
    if |cs| > 0 {
      SumBounds(cs[..|cs| - 1]);
    }
  }

  /** The failure count is the number of contributions that failed. */
  lemma {:induction false} SumFailures(cs: seq<Counts>)
    requires forall k :: 0 <= k < |cs| ==> Single(cs[k])
    ensures Sum(cs).failures == |set k: nat | k < |cs| && cs[k].failures == 1|
  {
    if |cs| > 0 {
      var n := |cs| - 1;
      var front := cs[..n];
      SumFailures(front);
      var sf := set k: nat | k < |front| && front[k].failures == 1;
      var st := set k: nat | k < |cs| && cs[k].failures == 1;
      if cs[n].failures == 1 {
        assert st == sf + {n};
      } else {
        assert st == sf;
      }
    }
  }

  function Scores(trials: seq<Trial>): (r: seq<Counts>)
    ensures |r| == |trials|
    ensures forall k :: 0 <= k < |trials| ==> r[k] == Score(trials[k]) && Single(r[k])
  {
    seq(|trials|, k requires 0 <= k < |trials| => Score(trials[k]))
  }

  /** The counts over a list of samples. */
  function Tally(trials: seq<Trial>): (c: Counts)
    ensures c.failures <= |trials|
    ensures c.intentHits <= |trials| - c.failures
    ensures c.deviceHits <= |trials| - c.failures
    ensures c.symptomHits <= |trials| - c.failures
  {
    SumBounds(Scores(trials));
    Sum(Scores(trials))
  }

  /** Counting is additive over the list of samples. */
  lemma TallyAppend(a: seq<Trial>, b: seq<Trial>)
    ensures Tally(a + b) == Add(Tally(a), Tally(b))
  {
    assert Scores(a + b) == Scores(a) + Scores(b);
    SumAppend(Scores(a), Scores(b));
  }

  /** The failed extractions are exactly the samples whose outcome is `None`. */
  lemma FailuresAreFailedSamples(trials: seq<Trial>)
    ensures Tally(trials).failures == |set k: nat | k < |trials| && trials[k].outcome.None?|
  {
    SumFailures(Scores(trials));
    FailedScores(trials);
  }

  lemma FailedScores(trials: seq<Trial>)
    ensures (set k: nat | k < |Scores(trials)| && Scores(trials)[k].failures == 1)
            == (set k: nat | k < |trials| && trials[k].outcome.None?)
  {
    var cs := Scores(trials);
    var counted := set k: nat | k < |cs| && cs[k].failures == 1;
    var failed := set k: nat | k < |trials| && trials[k].outcome.None?;
    forall k: nat | k < |trials|
      ensures k in counted <==> k in failed
    {
      assert cs[k] == Score(trials[k]);
    }
    assert counted == failed;
  }

  /** A sample whose extraction raised changes nothing but the failure count. */
  lemma FailedSampleOnlyFails(trials: seq<Trial>, t: Trial)
    requires t.outcome.None?
    ensures Tally(trials + [t]) == Tally(trials).(failures := Tally(trials).failures + 1)
  {
    assert Scores(trials + [t]) == Scores(trials) + [Score(t)];
    SumSnoc(Scores(trials), Score(t));
  }

  // ---------------------------------------------------------------------------
  // evaluate
  // ---------------------------------------------------------------------------

  /** `hits / denom * 100`, unrounded. */
  function Percent(hits: nat, denom: nat): (r: real)
    requires denom > 0
    ensures hits <= denom ==> 0.0 <= r <= 100.0
  {
    hits as real / denom as real * 100.0
  }

  datatype Metrics = Metrics(
    total: nat,
    evaluated: nat,
    failed: nat,
    intentAccuracy: real,
    deviceAccuracy: real,
    symptomAccuracy: real,
    averageConfidence: real)

  /**
   * `evaluate`: counts the samples in one pass. Percentages divide by the
   * number evaluated, or by 1 when none was.
   */
  method Evaluate(trials: seq<Trial>) returns (m: Metrics)
    ensures m.total == |trials|
    ensures m.failed == Tally(trials).failures
    ensures m.evaluated == m.total - m.failed
    ensures 0.0 <= m.intentAccuracy <= 100.0 && 0.0 <= m.deviceAccuracy <= 100.0 && 0.0 <= m.symptomAccuracy <= 100.0
    ensures m.intentAccuracy == Percent(Tally(trials).intentHits, Max(m.evaluated, 1))
    ensures m.deviceAccuracy == Percent(Tally(trials).deviceHits, Max(m.evaluated, 1))
    ensures m.symptomAccuracy == Percent(Tally(trials).symptomHits, Max(m.evaluated, 1))
    ensures m.averageConfidence == Average(Tally(trials).confidenceSum, Max(m.evaluated, 1))
    ensures |trials| == 0 ==> m == Metrics(0, 0, 0, 0.0, 0.0, 0.0, 0.0)
  {
    var total := |trials|;
    if total == 0 {
      return Metrics(0, 0, 0, 0.0, 0.0, 0.0, 0.0);
    }
    var counts := SumInOrder(Scores(trials));
    assert counts == Tally(trials);
    var evaluated := total - counts.failures;
    var denom := if evaluated > 0 then evaluated else 1;
    m := Metrics(total, evaluated, counts.failures,
                 Percent(counts.intentHits, denom), Percent(counts.deviceHits, denom),
                 Percent(counts.symptomHits, denom), Average(counts.confidenceSum, denom));
  }

  /** `confidence_sum / denom * 100`, unrounded. */
  function Average(sum: real, denom: nat): real
    requires denom > 0
  {
    sum / denom as real * 100.0
  }

  /** The loop of `evaluate`: adds up the contributions in order. */
  method SumInOrder(scores: seq<Counts>) returns (counts: Counts)
    ensures counts == Sum(scores)
  {
    counts := NoCounts;
    var i := 0;
    while i < |scores|
      invariant 0 <= i <= |scores|
      invariant counts == Sum(scores[..i])
    {
      SumPrefixStep(scores, i);
      counts := Add(counts, scores[i]);
      i := i + 1;
    }
    assert scores[..|scores|] == scores;
  }

  // ---------------------------------------------------------------------------
  // main
  // ---------------------------------------------------------------------------

  const AllKeys: set<string> := {"total_samples", "evaluated", "failed_samples", "intent_accuracy",
                                 "device_accuracy", "symptom_accuracy", "average_confidence"}

  /** The keys `evaluate` puts in its result as written: the empty dataset's result lacks two. */
  function ReportedKeysAsWritten(total: nat): (r: set<string>)
    ensures r <= AllKeys
    ensures "evaluated" in r <==> total > 0
  {
    if total == 0 then AllKeys - {"evaluated", "failed_samples"} else AllKeys
  }

  /**
   * `main` as written, from the metrics on: it reads `metrics["evaluated"]`,
   * which raises KeyError when the key is missing (`None`); otherwise the
   * exit code.
   */
  function MainAsWritten(m: Metrics, threshold: real): (r: Option<nat>)
    ensures r.None? <==> "evaluated" !in ReportedKeysAsWritten(m.total)
    ensures r.Some? ==> (r.value == 1 <==> m.intentAccuracy < threshold)
  {
    if "evaluated" !in ReportedKeysAsWritten(m.total) then None
    else Some(if m.intentAccuracy < threshold then 1 else 0)
  }

  /** An empty dataset makes the script crash instead of reporting. */
  lemma EmptyDatasetCrashes(threshold: real)
    ensures MainAsWritten(Metrics(0, 0, 0, 0.0, 0.0, 0.0, 0.0), threshold).None?
  {
  }

  /** The default `--fail-threshold`. */
  const DefaultThreshold: real := 60.0

  /**
   * `main` as intended: the empty dataset's result carries "evaluated" and
   * "failed_samples" as 0 (which `Evaluate` returns), and the exit code is 1
   * exactly when intent accuracy is below the threshold.
   */
  function ExitCode(m: Metrics, threshold: real): (r: nat)
    ensures r == 0 || r == 1
    ensures r == 1 <==> m.intentAccuracy < threshold
    ensures MainAsWritten(m, threshold).Some? ==> MainAsWritten(m, threshold).value == r
  {
    if m.intentAccuracy < threshold then 1 else 0
  }

  /**
   * With the corrected result, an empty dataset gets an exit code instead of
   * crashing: 1 under any positive threshold, the default 60 included.
   */
  method EmptyDatasetFails(threshold: real) returns (code: nat)
    ensures code == 1 <==> threshold > 0.0
    ensures threshold == DefaultThreshold ==> code == 1
  {
    var m := Evaluate([]);
    code := ExitCode(m, threshold);
  }

  /** Every sample failing gives the all-failure tally: no intent, device or symptom hits and no confidence. */
  lemma {:induction false} AllFailedTally(trials: seq<Trial>)
    requires forall k :: 0 <= k < |trials| ==> trials[k].outcome.None?
    ensures Tally(trials) == Counts(|trials|, 0, 0, 0, 0.0)
  {
    if |trials| > 0 {
      var front := trials[..|trials| - 1];
      AllFailedTally(front);
      assert Scores(trials)[..|trials| - 1] == Scores(front);
    }
  }
}
