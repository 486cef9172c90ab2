/**
 * `PhishingDetector`: the classifier slot and `train`. The random forest
 * is outside the model; a classifier is what the detector can observe of
 * it: unfitted, or fitted on vectors of some width and some number of
 * classes, with a prediction and a malicious probability per vector.
 */
module Detection {
  import opened Optional
  import opened FeatureExtraction
  import opened DataLoader

  datatype Classifier =
    | Unfitted
    | Fitted(width: nat, classes: nat, predict: seq<real> -> int, malicious: seq<real> -> real)

  /**
   * What `model.predict([x])[0]` with `model.predict_proba([x])[0][1]`
   * does: a prediction and a probability; a `ValueError` or
   * `AttributeError` (an unfitted model, a vector of the wrong width); or
   * another error (an `IndexError` when the model saw a single class).
   */
  datatype Outcome = Scored(prediction: int, probability: real) | Mismatch | Crash

  function Classify(m: Classifier, x: seq<real>): (o: Outcome)
    ensures o.Mismatch? <==> m.Unfitted? || |x| != m.width
    ensures o.Crash? <==> m.Fitted? && |x| == m.width && m.classes < 2
    ensures o.Scored? ==> o.prediction == m.predict(x) && o.probability == m.malicious(x)
  {
    if m.Unfitted? || |x| != m.width then Mismatch
    else if m.classes < 2 then Crash
    else Scored(m.predict(x), m.malicious(x))
  }

  /** `X = [self.extract_features(url) for url in df['url']]`: one 20-wide row per table row. */
  function FeatureMatrix(rows: seq<Row>, lg: real -> real): (x: seq<seq<real>>)
    ensures |x| == |rows|
    ensures forall i :: 0 <= i < |rows| ==> |x[i]| == |FeatureNames| && x[i] == ExtractFeatures(rows[i].url, lg)
  {
    seq(|rows|, i requires 0 <= i < |rows| => ExtractFeatures(rows[i].url, lg))
  }

  /** `y = df['label'].values` */
  function Tags(rows: seq<Row>): (y: seq<int>)
    ensures |y| == |rows|
    ensures forall i :: 0 <= i < |rows| ==> y[i] == rows[i].tag
  {
    seq(|rows|, i requires 0 <= i < |rows| => rows[i].tag)
  }

  /**
   * The classifier `train` leaves behind, from the rows `get_data`
   * returned; `fit` stands for the split and the forest fit, and gives
   * nothing when they raise.
   */
  function Trained(rows: seq<Row>, lg: real -> real, fit: (seq<seq<real>>, seq<int>) -> Option<Classifier>): Option<Classifier> {
    fit(FeatureMatrix(rows, lg), Tags(rows))
  }

  /**
   * A fit that, when it succeeds on a non-empty matrix, yields a
   * classifier fitted on vectors of that matrix's width.
   */
  ghost predicate FitsShape(fit: (seq<seq<real>>, seq<int>) -> Option<Classifier>) {
    forall x, y :: |x| > 0 && fit(x, y).Some? ==> fit(x, y).value.Fitted? && fit(x, y).value.width == |x[0]|
  }

  /** Training that succeeds on a non-empty table leaves a classifier that accepts every extracted vector. */
  lemma RetrainAcceptsFeatures(rows: seq<Row>, lg: real -> real, fit: (seq<seq<real>>, seq<int>) -> Option<Classifier>,
                               url: string)
    requires FitsShape(fit) && |rows| > 0 && Trained(rows, lg, fit).Some?
    ensures !Classify(Trained(rows, lg, fit).value, ExtractFeatures(url, lg)).Mismatch?
  {
    var x := FeatureMatrix(rows, lg);
    assert |x[0]| == |FeatureNames|;
  }

  class PhishingDetector {
    /** `self.model` */
    var model: Classifier

    /** A fresh detector holds an unfitted forest. */
    constructor ()
      ensures model == Unfitted
    {
      model := Unfitted;
    }

    /** `train`: extract every row's features and fit the classifier slot on them. */
    method Train(rows: seq<Row>, lg: real -> real, fit: (seq<seq<real>>, seq<int>) -> Option<Classifier>)
      returns (ok: bool)
      modifies this
      ensures ok == Trained(rows, lg, fit).Some?
      ensures model == if ok then Trained(rows, lg, fit).value else old(model)
    {
      var x := FeatureMatrix(rows, lg);
      var y := Tags(rows);
      var fitted := fit(x, y);
      ok := fitted.Some?;
      if ok {
        model := fitted.value;
      }
    }
  }
}
