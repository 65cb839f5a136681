/** The tabular cancer-risk predictor: builds an ordered feature vector from a sparse
    name-to-value map, turns the classifier's probability into a label and a confidence band,
    and, when an attribution explainer is loaded, attaches the features ranked by the size of
    their attribution. The scaler, the classifier and the explainer are opaque functions. */
module OncoPredict {
  import opened Common
  import opened Ranking

  /** A probability as the classifier reports it. */
  type Prob = r: real | 0.0 <= r <= 1.0

  predicate AllPresent(features: seq<string>, data: map<string, real>) {
    forall i :: 0 <= i < |features| ==> features[i] in data
  }

  /** The feature vector in the order of `features`; keys of `data` that are not features
      play no part. */
  function Vector(features: seq<string>, data: map<string, real>): (x: seq<real>)
    requires AllPresent(features, data)
    ensures |x| == |features|
    ensures forall i :: 0 <= i < |features| ==> x[i] == data[features[i]]
  {
    if features == [] then [] else [data[features[0]]] + Vector(features[1..], data)
  }

  /** Keys outside `features` play no part: two maps that agree on the features give the
      same vector. */
  lemma {:induction false} ExtraKeysIgnored(features: seq<string>, data: map<string, real>, other: map<string, real>)
    requires AllPresent(features, data) && AllPresent(features, other)
    requires forall i :: 0 <= i < |features| ==> data[features[i]] == other[features[i]]
    ensures Vector(features, data) == Vector(features, other)
  {
    if features != [] {
      assert forall i :: 0 <= i < |features[1..]| ==> features[1..][i] == features[i + 1];
      ExtraKeysIgnored(features[1..], data, other);
    }
  }

  /** `msg` is the error for the first feature, in order, that `data` lacks. */
  predicate ReportsFirstMissing(features: seq<string>, data: map<string, real>, msg: string) {
    exists k :: 0 <= k < |features| && features[k] !in data && AllPresent(features[..k], data)
                && msg == "Missing feature: " + features[k]
  }

  /** Walks `features` in order, appending each value, and stops at the first missing name
      with an error value (a normal return, not an exception). */
  method BuildVector(features: seq<string>, data: map<string, real>) returns (r: Result<seq<real>, string>)
    ensures r.Success? <==> AllPresent(features, data)
    ensures r.Success? ==> r.value == Vector(features, data)
    ensures r.Failure? ==> ReportsFirstMissing(features, data, r.error)
  {
    var x: seq<real> := [];
    for i := 0 to |features|
      invariant AllPresent(features[..i], data)
      invariant |x| == i && forall j :: 0 <= j < i ==> x[j] == data[features[j]]
    {
      if features[i] !in data {
        return Failure("Missing feature: " + features[i]);
      }
      x := x + [data[features[i]]];
    }
    assert features[..|features|] == features;
    return Success(x);
  }

  /** The predicted label: 1 exactly when the probability is strictly above one half. */
  function Label(p: Prob): (l: int)
    ensures l == 0 || l == 1
    ensures l == 1 <==> p > 0.5
  {
    if p > 0.5 then 1 else 0
  }

  datatype Confidence = High | Medium | Low

  /** The confidence band, with half-open intervals (0.75, 1], (0.4, 0.75] and [0, 0.4]. */
  function ConfidenceOf(p: Prob): (c: Confidence)
    ensures c == High <==> p > 0.75
    ensures c == Medium <==> 0.4 < p <= 0.75
    ensures c == Low <==> p <= 0.4
  {
    if p > 0.75 then High else if p > 0.4 then Medium else Low
  }

  /** The two cut-off scales are nested: a high band always comes with label 1, a low band
      always with label 0, and a probability in (0.4, 0.5] is a medium-confidence 0. */
  lemma LabelAgreesWithBand(p: Prob)
    ensures ConfidenceOf(p) == High ==> Label(p) == 1
    ensures ConfidenceOf(p) == Low ==> Label(p) == 0
    ensures Label(p) == 0 && ConfidenceOf(p) == Medium <==> 0.4 < p <= 0.5
  {
  }

  // ---------------------------------------------------------------------------------------
  // Attribution output

  function Product(dims: seq<nat>): nat {
    if dims == [] then 1 else dims[0] * Product(dims[1..])
  }

  /** A numeric array: its shape and its elements in row-major order. */
  datatype Arr = Arr(dims: seq<nat>, data: seq<real>)
  type NdArray = a: Arr | |a.data| == Product(a.dims) witness Arr([0], [])

  /** What the explainer can produce: an exception, a bare number, a list with one array per
      class, or a single array. */
  datatype ShapOutput = Raised | Scalar(x: real) | PerClass(classes: seq<NdArray>) | Single(a: NdArray)

  lemma RowFits(dims: seq<nat>)
    requires dims != [] && dims[0] > 0
    ensures Product(dims[1..]) <= Product(dims)
  {
    var p := Product(dims[1..]);
    assert Product(dims) == dims[0] * p;
    assert dims[0] * p == p + (dims[0] - 1) * p;
  }

  /** `a[0]` of an array whose first dimension is positive. */
  function FirstRow(a: NdArray): (b: NdArray)
    requires a.dims != [] && a.dims[0] > 0
    ensures b.dims == a.dims[1..]
    ensures b.data == a.data[..|b.data|]
  {
    RowFits(a.dims);
    Arr(a.dims[1..], a.data[..Product(a.dims[1..])])
  }

  /** A zero-dimensional array has no length: pairing fails as soon as there is a feature. */
  function ZeroDim(nFeatures: nat): Option<seq<real>> {
    if nFeatures == 0 then Some([]) else None
  }

  /** The values once the array is one-dimensional: flattened when it has more dimensions. */
  function Flat(a: NdArray, nFeatures: nat): Option<seq<real>> {
    if a.dims == [] then ZeroDim(nFeatures) else Some(a.data)
  }

  /** Takes element 0 of an array with a non-empty first dimension; an empty array stays. */
  function FirstOfArray(a: NdArray, nFeatures: nat): Option<seq<real>> {
    if a.dims == [] then None
    else if a.dims[0] > 0 then Flat(FirstRow(a), nFeatures)
    else Flat(a, nFeatures)
  }

  /** The per-feature attribution values, or `None` when any step raises. */
  function Normalise(out: ShapOutput, nFeatures: nat): (r: Option<seq<real>>)
    ensures out.Raised? ==> r.None?
    ensures out.PerClass? && |out.classes| < 2 ==> r.None?
    ensures out.Scalar? ==> (r.Some? <==> nFeatures == 0)
    ensures out.Single? && |out.a.dims| >= 2 && out.a.dims[0] > 0 ==>
              r == Some(out.a.data[..Product(out.a.dims[1..])])
    ensures out.Single? && |out.a.dims| == 1 && out.a.dims[0] > 0 ==> (r.Some? <==> nFeatures == 0)
    ensures out.Single? && out.a.dims != [] && out.a.dims[0] == 0 ==> r == Some([])
    ensures out.Single? && out.a.dims == [] ==> r.None?
    ensures out.PerClass? && |out.classes| >= 2 && out.classes[1].dims == [] ==> r.None?
    ensures r.Some? && nFeatures > 0 ==> out.PerClass? || out.Single?
  {
    match out
    case Raised => None
    case Scalar(_) => ZeroDim(nFeatures)
    case PerClass(classes) => if |classes| < 2 then None else FirstOfArray(classes[1], nFeatures)
    case Single(a) => FirstOfArray(a, nFeatures)
  }

  /** A per-class list is reduced to its entry for class 1, which is then treated exactly as a
      single array would be. */
  lemma PerClassUsesClassOne(classes: seq<NdArray>, nFeatures: nat)
    requires |classes| >= 2
    ensures Normalise(PerClass(classes), nFeatures) == Normalise(Single(classes[1]), nFeatures)
  {
  }

  // ---------------------------------------------------------------------------------------
  // Ranking the features

  datatype Factor = Factor(feature: string, impact: real)

  function AbsImpact(f: Factor): real {
    if f.impact < 0.0 then -f.impact else f.impact
  }

  /** Each feature paired with the attribution at its position, for the positions both have. */
  function Pairs(features: seq<string>, vals: seq<real>): (fi: seq<Factor>)
    ensures |fi| == MinInt(|features|, |vals|)
    ensures forall i :: 0 <= i < |fi| ==> fi[i] == Factor(features[i], vals[i])
  {
    if features == [] || vals == [] then []
    else [Factor(features[0], vals[0])] + Pairs(features[1..], vals[1..])
  }

  /** The pairing loop: every feature is visited, and the ones past the end of `vals` are
      skipped. */
  method PairFeatures(features: seq<string>, vals: seq<real>) returns (fi: seq<Factor>)
    ensures fi == Pairs(features, vals)
  {
    fi := [];
    for i := 0 to |features|
      invariant |fi| == MinInt(i, |vals|)
      invariant forall j :: 0 <= j < |fi| ==> fi[j] == Factor(features[j], vals[j])
    {
      if i < |vals| {
        fi := fi + [Factor(features[i], vals[i])];
      }
    }
  }

  datatype Explanation = Explanation(allFeatures: seq<Factor>, topFeatures: seq<Factor>)

  /** The explanation for the scaled input `xs`: present only when an explainer is loaded, the
      normalisation raises nothing and at least one feature was paired. */
  function Explain(features: seq<string>, explainer: Option<seq<real> -> ShapOutput>, xs: seq<real>): Option<Explanation> {
    if explainer.None? then None
    else
      match Normalise(explainer.value(xs), |features|)
      case None => None
      case Some(vals) =>
        var fi := Pairs(features, vals);
        if fi == [] then None
        else
          var all := SortDesc(fi, AbsImpact);
          Some(Explanation(all, Take(all, 3)))
  }

  /** An explanation lists every paired feature exactly once, ordered by absolute impact,
      largest first, with features of equal absolute impact in feature order; the top list is
      the first three of them (fewer when there are fewer). */
  lemma ExplanationRanked(features: seq<string>, explainer: Option<seq<real> -> ShapOutput>, xs: seq<real>)
    ensures Explain(features, explainer, xs).Some? <==>
              explainer.Some? && Normalise(explainer.value(xs), |features|).Some?
              && |features| > 0 && |Normalise(explainer.value(xs), |features|).value| > 0
    ensures Explain(features, explainer, xs).Some? ==>
              var e := Explain(features, explainer, xs).value;
              var fi := Pairs(features, Normalise(explainer.value(xs), |features|).value);
              SortedDesc(e.allFeatures, AbsImpact)
              && multiset(e.allFeatures) == multiset(fi)
              && (forall m :: WithKey(e.allFeatures, AbsImpact, m) == WithKey(fi, AbsImpact, m))
              && |e.allFeatures| == |fi| > 0
              && |e.topFeatures| == MinInt(3, |fi|)
              && e.topFeatures == e.allFeatures[..|e.topFeatures|]
  {
    if explainer.Some? {
      var n := Normalise(explainer.value(xs), |features|);
      if n.Some? {
        var fi := Pairs(features, n.value);
        assert fi == [] <==> |features| == 0 || |n.value| == 0;
        if fi != [] {
          var all := SortDesc(fi, AbsImpact);
          assert Explain(features, explainer, xs) == Some(Explanation(all, Take(all, 3)));
          SortDescCorrect(fi, AbsImpact);
        }
      }
    }
  }

  datatype Response = Response(cancerRisk: Prob, prediction: int, confidence: Confidence,
                               explainability: Option<Explanation>)

  /** The prediction endpoint. A missing feature returns the error before anything is
      computed; otherwise risk, label and confidence come from the classifier's probability,
      and the explanation is added when it can be built, any failure there leaving the rest of
      the response as it is. */
  method Predict(features: seq<string>, data: map<string, real>, scale: seq<real> -> seq<real>,
                 proba: seq<real> -> Prob, explainer: Option<seq<real> -> ShapOutput>)
    returns (r: Result<Response, string>)
    ensures r.Failure? <==> !AllPresent(features, data)
    ensures r.Failure? ==> ReportsFirstMissing(features, data, r.error)
    ensures r.Success? ==>
              var xs := scale(Vector(features, data));
              var p := proba(xs);
              r.value.cancerRisk == p && r.value.prediction == Label(p)
              && r.value.confidence == ConfidenceOf(p)
              && r.value.explainability == Explain(features, explainer, xs)
  {
    var built := BuildVector(features, data);
    if built.Failure? {
      return Failure(built.error);
    }
    var xs := scale(built.value);
    var p := proba(xs);
    var response := Response(p, if p > 0.5 then 1 else 0,
                             if p > 0.75 then High else if p > 0.4 then Medium else Low, None);
    if explainer.Some? {
      var vals := Normalise(explainer.value(xs), |features|);
      if vals.Some? {
        var fi := PairFeatures(features, vals.value);
        if fi != [] {
          fi := SortDesc(fi, AbsImpact);
          response := response.(explainability := Some(Explanation(fi, Take(fi, 3))));
        }
      }
    }
    return Success(response);
  }
}
