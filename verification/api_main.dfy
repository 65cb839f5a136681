/** The breast-cancer risk endpoint: the same ordered feature-vector builder as the tabular
    predictor, followed by the classifier's class-1 probability and its own predicted class,
    with no threshold of its own. */
module BreastPredict {
  import opened Common
  import opened OncoPredict

  datatype RiskResponse = RiskResponse(probabilityOfClass1: Prob, predictedClass: int)

  /** A missing feature name returns the error for the first one in order; otherwise both
      numbers come from the classifier applied to the scaled vector. */
  method PredictRisk(featureNames: seq<string>, features: map<string, real>,
                     scale: seq<real> -> seq<real>, proba: seq<real> -> Prob,
                     classify: seq<real> -> int)
    returns (r: Result<RiskResponse, string>)
    ensures r.Failure? <==> !AllPresent(featureNames, features)
    ensures r.Failure? ==> ReportsFirstMissing(featureNames, features, r.error)
    ensures r.Success? ==>
              var xs := scale(Vector(featureNames, features));
              r.value == RiskResponse(proba(xs), classify(xs))
  {
    var built := BuildVector(featureNames, features);
    if built.Failure? {
      return Failure(built.error);
    }
    var xs := scale(built.value);
    return Success(RiskResponse(proba(xs), classify(xs)));
  }
}
