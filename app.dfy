/**
 * The `/predict` endpoint: check the submitted URL, give it a scheme,
 * probe it, extract its features once, classify them, retrain and retry
 * once when the classifier is unfitted or mismatched, then explain.
 * The form field, the reachability probe, the training table and the
 * fit are parameters.
 */
module App {
  import opened Optional
  import opened PyStr
  import opened UrlParse
  import FeatureExtraction
  import Explanation
  import DataLoader
  import opened Detection

  const NoUrlError := "No URL provided"
  const UnreachableError := "URL is unreachable or invalid."

  /** The JSON the endpoint answers with, or an uncaught exception. */
  datatype Response =
    | Error(message: string)
    | Verdict(url: string, isMalicious: bool, confidence: real, explanation: seq<string>)
    | Failure

  /** `url.startswith(('http://', 'https://'))`, which is case-sensitive. */
  predicate HasWebScheme(url: string) {
    StartsWith(url, HttpPrefix) || StartsWith(url, HttpsPrefix)
  }

  /** The scheme normalisation of `predict`: prefix `http://` unless a web scheme is there. */
  function Normalize(url: string): (r: string)
    ensures HasWebScheme(r)
    ensures HasWebScheme(url) ==> r == url
    ensures !HasWebScheme(url) ==> r == HttpPrefix + url
  {
    if HasWebScheme(url) then url else HttpPrefix + url
  }

  /** Normalising twice changes nothing; so the second normalisation, of `target_url`, is a no-op. */
  lemma NormalizeIdempotent(url: string)
    ensures Normalize(Normalize(url)) == Normalize(url)
  {
  }

  /** An upper-case scheme is not recognised, so it gets a second, lower-case one. */
  lemma NormalizeCaseSensitive(rest: string)
    ensures Normalize("HTTP://" + rest) == HttpPrefix + "HTTP://" + rest
  {
    var url := "HTTP://" + rest;
    assert url[0] == 'H';
    assert !StartsWith(url, HttpPrefix) && !StartsWith(url, HttpsPrefix);
  }

  /**
   * One run of `predict` from the detector's classifier at the start:
   * the response, the classifier afterwards, and how many times the
   * detector was trained and asked to classify.
   */
  datatype Run = Run(response: Response, model: Classifier, trainings: nat, attempts: nat)

  /** What `predict` does, given what training would produce. */
  function PredictRun(model: Classifier, form: Option<string>, reachable: string -> bool,
                      lg: real -> real, trained: Option<Classifier>): Run
  {
    if form.None? || form.value == "" then Run(Error(NoUrlError), model, 0, 0)
    else
      var url := Normalize(form.value);
      if !reachable(Normalize(url)) then Run(Error(UnreachableError), model, 0, 0)
      else ScoreRun(model, url, FeatureExtraction.ExtractFeatures(url, lg), trained)
  }

  /**
   * Classify the vector; on a mismatch, train once and classify the same
   * vector once more; explain a scored prediction.
   */
  function ScoreRun(model: Classifier, url: string, features: seq<real>, trained: Option<Classifier>): Run {
    var first := Classify(model, features);
    if first.Mismatch? then
      if trained.None? then Run(Failure, model, 1, 1)
      else Run(Answer(url, features, Classify(trained.value, features)), trained.value, 1, 2)
    else
      Run(Answer(url, features, first), model, 0, 1)
  }

  /** The response for a classification outcome: a verdict when scored, an uncaught exception otherwise. */
  function Answer(url: string, features: seq<real>, outcome: Outcome): Response {
    if outcome.Scored? then
      Verdict(url, outcome.prediction != 0, outcome.probability,
              Explanation.Explain(features, outcome.prediction))
    else Failure
  }

  /** `predict`, against the module-level detector. */
  method Predict(detector: PhishingDetector, form: Option<string>, reachable: string -> bool, lg: real -> real,
                 rows: seq<DataLoader.Row>, fit: (seq<seq<real>>, seq<int>) -> Option<Classifier>)
    returns (response: Response, ghost trainings: nat, ghost attempts: nat)
    modifies detector
    ensures var run := PredictRun(old(detector.model), form, reachable, lg, Trained(rows, lg, fit));
      response == run.response && detector.model == run.model
      && trainings == run.trainings && attempts == run.attempts
  {
    if form.None? || form.value == "" {
      return Error(NoUrlError), 0, 0;
    }
    var url := form.value;
    if !StartsWith(url, HttpPrefix) && !StartsWith(url, HttpsPrefix) {
      url := HttpPrefix + url;
    }
    var target := url;
    if !StartsWith(target, HttpPrefix) && !StartsWith(target, HttpsPrefix) {
      target := HttpPrefix + target;
    }
    if !reachable(target) {
      return Error(UnreachableError), 0, 0;
    }
    var features := FeatureExtraction.ExtractFeatures(url, lg);
    response, trainings, attempts := Score(detector, url, features, rows, lg, fit);
  }

  /** The predict, retrain-and-retry and explain steps of `predict`, on the extracted vector. */
  method Score(detector: PhishingDetector, url: string, features: seq<real>, rows: seq<DataLoader.Row>,
               lg: real -> real, fit: (seq<seq<real>>, seq<int>) -> Option<Classifier>)
    returns (response: Response, ghost trainings: nat, ghost attempts: nat)
    modifies detector
    ensures var run := ScoreRun(old(detector.model), url, features, Trained(rows, lg, fit));
      response == run.response && detector.model == run.model
      && trainings == run.trainings && attempts == run.attempts
  {
    trainings, attempts := 0, 0;
    var outcome := Classify(detector.model, features);
    attempts := attempts + 1;
    if outcome.Mismatch? {
      var ok := detector.Train(rows, lg, fit);
      trainings := trainings + 1;
      if !ok {
        return Failure, trainings, attempts;
      }
      outcome := Classify(detector.model, features);
      attempts := attempts + 1;
    }
    if !outcome.Scored? {
      return Failure, trainings, attempts;
    }
    var explanation := Explanation.ExplainPrediction(features, outcome.prediction);
    response := Verdict(url, outcome.prediction != 0, outcome.probability, explanation);
  }

  /** A missing or empty URL is refused before any probe, extraction, training or classification. */
  lemma EmptyUrlRejected(model: Classifier, form: Option<string>, reachable: string -> bool,
                         lg: real -> real, trained: Option<Classifier>)
    requires form.None? || form.value == ""
    ensures PredictRun(model, form, reachable, lg, trained) == Run(Error(NoUrlError), model, 0, 0)
  {
  }

  /** A URL that is present and reachable is normalised, extracted once, and scored. */
  lemma PredictScores(model: Classifier, form: Option<string>, reachable: string -> bool,
                      lg: real -> real, trained: Option<Classifier>)
    requires form.Some? && form.value != ""
    requires reachable(Normalize(form.value))
    ensures var url := Normalize(form.value);
      PredictRun(model, form, reachable, lg, trained)
        == ScoreRun(model, url, FeatureExtraction.ExtractFeatures(url, lg), trained)
  {
    NormalizeIdempotent(form.value);
  }

  /**
   * Training happens exactly when the first classification is a mismatch,
   * and then once; the vector is classified a second time only after a
   * training that succeeded; the classifier changes only by training.
   */
  lemma RetrainOnce(model: Classifier, url: string, features: seq<real>, trained: Option<Classifier>)
    ensures var run := ScoreRun(model, url, features, trained);
      && run.trainings <= 1 && 1 <= run.attempts <= 2
      && (run.trainings == 1 <==> Classify(model, features).Mismatch?)
      && (run.attempts == 2 <==> Classify(model, features).Mismatch? && trained.Some?)
      && (run.trainings == 0 ==> run.model == model)
      && (run.attempts == 2 ==> run.model == trained.value)
  {
  }

  /** A retrained classifier that still cannot score the vector ends the request with an exception. */
  lemma SecondFailurePropagates(model: Classifier, url: string, features: seq<real>, trained: Option<Classifier>)
    requires Classify(model, features).Mismatch?
    requires trained.None? || !Classify(trained.value, features).Scored?
    ensures ScoreRun(model, url, features, trained).response == Failure
  {
  }

  /**
   * When a successful fit always matches the width of its non-empty
   * table, a request fails only by a failed retrain or a classifier that
   * saw a single class, never by a second mismatch.
   */
  lemma NoSecondMismatch(model: Classifier, url: string, lg: real -> real,
                         rows: seq<DataLoader.Row>, fit: (seq<seq<real>>, seq<int>) -> Option<Classifier>)
    requires FitsShape(fit) && |rows| > 0
    ensures var trained := Trained(rows, lg, fit);
      var features := FeatureExtraction.ExtractFeatures(url, lg);
      var run := ScoreRun(model, url, features, trained);
      run.response == Failure ==> trained.None? || Classify(run.model, features).Crash?
  {
    var trained := Trained(rows, lg, fit);
    if trained.Some? {
      RetrainAcceptsFeatures(rows, lg, fit, url);
    }
  }

  /**
   * A verdict reports the prediction and probability the final classifier
   * gives for the extracted vector, and the explanation of that same
   * vector and prediction.
   */
  lemma VerdictOnSameVector(model: Classifier, url: string, features: seq<real>, trained: Option<Classifier>)
    requires ScoreRun(model, url, features, trained).response.Verdict?
    ensures var run := ScoreRun(model, url, features, trained);
      var v := run.response;
      var o := Classify(run.model, features);
      && o.Scored?
      && v.url == url
      && v.isMalicious == (o.prediction != 0)
      && v.confidence == o.probability
      && v.explanation == Explanation.Explain(features, o.prediction)
  {
  }

  /**
   * For a prediction of 0 or 1, the verdict is malicious exactly when the
   * explanation is anything but the single legitimate reason.
   */
  lemma VerdictAgreesWithExplanation(url: string, features: seq<real>, outcome: Outcome)
    requires outcome.Scored? && (outcome.prediction == 0 || outcome.prediction == 1)
    ensures var v := Answer(url, features, outcome);
      v.isMalicious <==> v.explanation != [Explanation.LegitimateReason]
  {
    var e := Explanation.Explain(features, outcome.prediction);
    if outcome.prediction == 1 {
      Explanation.FiredReasonsOnlyRules(features);
      var fired := Explanation.FiredReasons(features);
      if |fired| > 0 {
        assert e[0] == fired[0] && fired[0] in fired;
      }
    } else {
      Explanation.ExplainNotMalicious(features, outcome.prediction);
    }
  }
}
