/** The rule-based risk analysis: a baseline of 20 plus fixed contributions from age, smoking,
    high neutrophils, declining hemoglobin and hemoptysis; a confidence from how much data is
    present; a stage and next steps from the score; and the views of stored analyses. The
    language-model call is an outcome passed in. */
module RiskAnalysis {
  import opened Common
  import opened JsText
  import opened Entities

  // ---------------------------------------------------------------------------------------
  // Collecting the documents

  /** The image documents of `docs`, in order. */
  function ImageDocs(docs: seq<Document>): (r: seq<Document>)
    ensures |r| <= |docs|
    ensures forall d :: d in r ==> d in docs && IsImage(d)
    ensures forall d :: d in docs && IsImage(d) ==> d in r
  {
    if docs == [] then []
    else
      var init := docs[..|docs| - 1];
      var last := docs[|docs| - 1];
      assert docs == init + [last];
      ImageDocs(init) + (if IsImage(last) then [last] else [])
  }

  /** Every document's id is recorded, in order, and the image documents are kept for the
      model call. */
  method CollectDocuments(docs: seq<Document>) returns (ids: seq<string>, images: seq<Document>)
    ensures |ids| == |docs| && forall i :: 0 <= i < |docs| ==> ids[i] == docs[i].id
    ensures images == ImageDocs(docs)
  {
    ids, images := [], [];
    for i := 0 to |docs|
      invariant |ids| == i && forall j :: 0 <= j < i ==> ids[j] == docs[j].id
      invariant images == ImageDocs(docs[..i])
    {
      assert docs[..i + 1][..i] == docs[..i];
      ids := ids + [docs[i].id];
      if IsImage(docs[i]) {
        images := images + [docs[i]];
      }
    }
    assert docs[..|docs|] == docs;
  }

  // ---------------------------------------------------------------------------------------
  // Evidence

  /** `profile?.age || 52`; a value that is not a non-zero number counts as absent. */
  function AgeOf(profile: Option<map<string, Json>>): real {
    if profile.Some? then NumberOr(profile.value, "age", 52.0) else 52.0
  }

  predicate AnswerYes(questionnaire: Option<map<string, Json>>, key: string) {
    questionnaire.Some? && Truthy(Field(questionnaire.value, key))
  }

  /** Some connected bundle has an entry coded 'Neutrophils' whose value exceeds 70. */
  predicate HasHighNeutrophils(hospitalData: seq<Bundle>) {
    exists b, e | b in hospitalData && e in b.entry ::
      CodeText(e) == Some("Neutrophils") && e.Observation? && e.quantity.Some? && e.quantity.value > 70.0
  }

  /** Some connected bundle reports a declining hemoglobin trend. */
  predicate HasHemoglobinDrop(hospitalData: seq<Bundle>) {
    exists b | b in hospitalData :: b.hemoglobin.Some? && b.hemoglobin.value.trend == "declining"
  }

  // ---------------------------------------------------------------------------------------
  // Factors

  function TotalImpact(fs: seq<ShapFactor>): real {
    if fs == [] then 0.0 else fs[0].impact + TotalImpact(fs[1..])
  }

  lemma TotalImpactAppend(fs: seq<ShapFactor>, f: ShapFactor)
    ensures TotalImpact(fs + [f]) == TotalImpact(fs) + f.impact
  {
    if fs != [] {
      assert (fs + [f])[1..] == fs[1..] + [f];
      TotalImpactAppend(fs[1..], f);
    }
  }

  /** The impact of the factor called `name`, if one is listed. */
  function ImpactNamed(fs: seq<ShapFactor>, name: FactorName): Option<real> {
    if fs == [] then None
    else if fs[0].name == name then Some(fs[0].impact)
    else ImpactNamed(fs[1..], name)
  }

  /** Position of a factor in the order the rules are applied. */
  function Rank(name: FactorName): nat {
    match name
    case AgeFactor => 0
    case SmokingHistory => 1
    case HighNeutrophils => 2
    case DecliningHemoglobin => 3
    case Hemoptysis => 4
  }

  // ---------------------------------------------------------------------------------------
  // Score, confidence, stage

  /** The stage text for a score. */
  function StageOf(score: real): string {
    if score > 80.0 then "Suspected Early Stage (requires biopsy)"
    else if score > 50.0 then "Moderate Risk" else "Low Risk"
  }

  /** Each stage text stands for exactly one band of scores. */
  lemma StageBands(score: real)
    ensures StageOf(score) == "Suspected Early Stage (requires biopsy)" <==> score > 80.0
    ensures StageOf(score) == "Moderate Risk" <==> 50.0 < score <= 80.0
    ensures StageOf(score) == "Low Risk" <==> score <= 50.0
  {
  }

  /** The recommended next step for a score. */
  function NextStepsOf(score: real): string {
    if score > 70.0 then "Immediate biopsy recommendation and oncology consultation"
    else "Regular monitoring and follow-up in 3 months"
  }

  /** Each next-step text stands for exactly one band of scores. */
  lemma NextStepsBands(score: real)
    ensures NextStepsOf(score) == "Immediate biopsy recommendation and oncology consultation" <==> score > 70.0
    ensures NextStepsOf(score) == "Regular monitoring and follow-up in 3 months" <==> score <= 70.0
  {
  }

  /** How complete the data is: 30 for images, 30 for connected hospital data, 25 for a
      questionnaire with more than two answers (10 otherwise), 15 for a profile. */
  function Completeness(hasImages: bool, hospitalData: seq<Bundle>, questionnaire: Option<map<string, Json>>,
                        profile: Option<map<string, Json>>): (c: int)
    ensures 10 <= c <= 100
  {
    (if hasImages then 30 else 0) + (if |hospitalData| > 0 then 30 else 0)
    + (if questionnaire.Some? && |questionnaire.value.Keys| > 2 then 25 else 10)
    + (if profile.Some? then 15 else 0)
  }

  datatype OrganRisk = OrganRisk(score: Option<real>, explanation: string)

  /** What the language model contributes to an analysis. */
  datatype AiResult = AiResult(organRisks: Option<map<string, OrganRisk>>, shapExplanation: Option<string>)

  /** The organ risks stored when the model gives none: the lung at the overall score. */
  function FallbackOrganRisks(score: real): (m: map<string, OrganRisk>)
    ensures m.Keys == {"lung"} && m["lung"].score == Some(score)
  {
    map["lung" := OrganRisk(Some(score), "Based on smoking history and imaging findings")]
  }

  /** A stored analysis. An absent or empty `shapExplanation` of the model is replaced by a
      sentence quoting the score; `explanation == None` stands for that sentence. */
  datatype Analysis = Analysis(userId: string, documentIds: seq<string>, overallRiskScore: real,
                               confidence: int, organRisks: Option<map<string, OrganRisk>>,
                               cancerStage: string, explanation: Option<string>,
                               shapFactors: seq<ShapFactor>, nextSteps: string)

  /** `analysisResult.shapExplanation || <sentence>`: the model's explanation is kept unless it
      is missing or empty, which are both falsy. */
  function StoredExplanation(e: Option<string>): (r: Option<string>)
    ensures r.None? <==> e.None? || e.value == ""
    ensures r.Some? ==> r == e
  {
    if e.Some? && e.value != "" then e else None
  }

  /** The factor a rule contributes when its condition holds. */
  function Contribution(holds: bool, name: FactorName, impact: real): seq<ShapFactor> {
    if holds then [ShapFactor(name, impact, Increase)] else []
  }

  function AgeImpact(age: real): real { Min((age - 50.0) * 1.5, 10.0) }

  /** The factors the five rules contribute, in the order the rules are applied. */
  function RuleFactors(age: real, smoker: bool, highNeutrophils: bool, hemoglobinDrop: bool, coughingBlood: bool): seq<ShapFactor> {
    Contribution(age > 50.0, AgeFactor, AgeImpact(age)) + Contribution(smoker, SmokingHistory, 30.0)
    + Contribution(highNeutrophils, HighNeutrophils, 15.0) + Contribution(hemoglobinDrop, DecliningHemoglobin, 10.0)
    + Contribution(coughingBlood, Hemoptysis, 12.0)
  }

  /** The factors appear in rule order, each rule at most once. */
  predicate Ranked(fs: seq<ShapFactor>) {
    forall i, j :: 0 <= i < j < |fs| ==> Rank(fs[i].name) < Rank(fs[j].name)
  }

  /** The rank of the last factor, -1 when there is none. */
  function TopRank(fs: seq<ShapFactor>): int {
    if fs == [] then -1 else Rank(fs[|fs| - 1].name)
  }

  lemma AppendRanked(fs: seq<ShapFactor>, holds: bool, name: FactorName, impact: real)
    requires Ranked(fs) && TopRank(fs) < Rank(name)
    ensures Ranked(fs + Contribution(holds, name, impact))
    ensures TopRank(fs + Contribution(holds, name, impact)) <= Rank(name)
  {
    if !holds {
      assert fs + Contribution(holds, name, impact) == fs;
    } else {
      var gs := fs + Contribution(holds, name, impact);
      forall i, j | 0 <= i < j < |gs| ensures Rank(gs[i].name) < Rank(gs[j].name) {
        if j < |fs| {
          assert gs[i] == fs[i] && gs[j] == fs[j];
        } else {
          assert gs[i] == fs[i] && Rank(fs[i].name) <= TopRank(fs);
        }
      }
    }
  }

  lemma {:induction false} ImpactNamedConcat(fs: seq<ShapFactor>, gs: seq<ShapFactor>, name: FactorName)
    ensures ImpactNamed(fs + gs, name) == if ImpactNamed(fs, name).Some? then ImpactNamed(fs, name) else ImpactNamed(gs, name)
  {
    if fs != [] {
      assert (fs + gs)[1..] == fs[1..] + gs;
      ImpactNamedConcat(fs[1..], gs, name);
    } else {
      assert fs + gs == gs;
    }
  }

  lemma {:induction false} TotalImpactConcat(fs: seq<ShapFactor>, gs: seq<ShapFactor>)
    ensures TotalImpact(fs + gs) == TotalImpact(fs) + TotalImpact(gs)
  {
    if fs != [] {
      assert (fs + gs)[1..] == fs[1..] + gs;
      TotalImpactConcat(fs[1..], gs);
    } else {
      assert fs + gs == gs;
    }
  }

  lemma ContributionNamed(holds: bool, name: FactorName, impact: real)
    ensures forall m :: ImpactNamed(Contribution(holds, name, impact), m) == if holds && m == name then Some(impact) else None
  {
    if holds {
      assert Contribution(holds, name, impact)[1..] == [];
    }
  }

  lemma ContributionTotal(holds: bool, name: FactorName, impact: real)
    ensures TotalImpact(Contribution(holds, name, impact)) == if holds then impact else 0.0
  {
    if holds {
      assert Contribution(holds, name, impact)[1..] == [];
    }
  }

  /** Each rule's factor is listed exactly when its condition holds, with its fixed impact;
      the age impact grows by 1.5 per year over 50 and is capped at 10. */
  lemma RuleFactorsImpacts(age: real, smoker: bool, highNeutrophils: bool, hemoglobinDrop: bool, coughingBlood: bool)
    ensures var fs := RuleFactors(age, smoker, highNeutrophils, hemoglobinDrop, coughingBlood);
      && ImpactNamed(fs, AgeFactor) == (if age > 50.0 then Some(AgeImpact(age)) else None)
      && ImpactNamed(fs, SmokingHistory) == (if smoker then Some(30.0) else None)
      && ImpactNamed(fs, HighNeutrophils) == (if highNeutrophils then Some(15.0) else None)
      && ImpactNamed(fs, DecliningHemoglobin) == (if hemoglobinDrop then Some(10.0) else None)
      && ImpactNamed(fs, Hemoptysis) == (if coughingBlood then Some(12.0) else None)
  {
    var c0 := Contribution(age > 50.0, AgeFactor, AgeImpact(age));
    var c1 := Contribution(smoker, SmokingHistory, 30.0);
    var c2 := Contribution(highNeutrophils, HighNeutrophils, 15.0);
    var c3 := Contribution(hemoglobinDrop, DecliningHemoglobin, 10.0);
    var c4 := Contribution(coughingBlood, Hemoptysis, 12.0);
    ContributionNamed(age > 50.0, AgeFactor, AgeImpact(age));
    ContributionNamed(smoker, SmokingHistory, 30.0);
    ContributionNamed(highNeutrophils, HighNeutrophils, 15.0);
    ContributionNamed(hemoglobinDrop, DecliningHemoglobin, 10.0);
    ContributionNamed(coughingBlood, Hemoptysis, 12.0);
    forall name ensures ImpactNamed(c0 + c1 + c2 + c3 + c4, name) ==
      if ImpactNamed(c0, name).Some? then ImpactNamed(c0, name)
      else if ImpactNamed(c1, name).Some? then ImpactNamed(c1, name)
      else if ImpactNamed(c2, name).Some? then ImpactNamed(c2, name)
      else if ImpactNamed(c3, name).Some? then ImpactNamed(c3, name)
      else ImpactNamed(c4, name)
    {
      ImpactNamedConcat(c0, c1, name);
      ImpactNamedConcat(c0 + c1, c2, name);
      ImpactNamedConcat(c0 + c1 + c2, c3, name);
      ImpactNamedConcat(c0 + c1 + c2 + c3, c4, name);
    }
  }

  /** The factors come in rule order, each rule at most once. */
  lemma RuleFactorsOrdered(age: real, smoker: bool, highNeutrophils: bool, hemoglobinDrop: bool, coughingBlood: bool)
    ensures Ranked(RuleFactors(age, smoker, highNeutrophils, hemoglobinDrop, coughingBlood))
  {
    var c0 := Contribution(age > 50.0, AgeFactor, AgeImpact(age));
    var c1 := c0 + Contribution(smoker, SmokingHistory, 30.0);
    var c2 := c1 + Contribution(highNeutrophils, HighNeutrophils, 15.0);
    var c3 := c2 + Contribution(hemoglobinDrop, DecliningHemoglobin, 10.0);
    assert Ranked(c0) && TopRank(c0) <= 0 by {
      AppendRanked([], age > 50.0, AgeFactor, AgeImpact(age));
      assert [] + c0 == c0;
    }
    assert Ranked(c1) && TopRank(c1) <= 1 by {
      AppendRanked(c0, smoker, SmokingHistory, 30.0);
    }
    assert Ranked(c2) && TopRank(c2) <= 2 by {
      AppendRanked(c1, highNeutrophils, HighNeutrophils, 15.0);
    }
    assert Ranked(c3) && TopRank(c3) <= 3 by {
      AppendRanked(c2, hemoglobinDrop, DecliningHemoglobin, 10.0);
    }
    AppendRanked(c3, coughingBlood, Hemoptysis, 12.0);
  }

  /** A factor is listed exactly when it is the factor of a rule whose condition holds. */
  lemma RuleFactorsMembers(age: real, smoker: bool, highNeutrophils: bool, hemoglobinDrop: bool, coughingBlood: bool)
    ensures forall f :: f in RuleFactors(age, smoker, highNeutrophils, hemoglobinDrop, coughingBlood) <==>
              || (age > 50.0 && f == ShapFactor(AgeFactor, AgeImpact(age), Increase))
              || (smoker && f == ShapFactor(SmokingHistory, 30.0, Increase))
              || (highNeutrophils && f == ShapFactor(HighNeutrophils, 15.0, Increase))
              || (hemoglobinDrop && f == ShapFactor(DecliningHemoglobin, 10.0, Increase))
              || (coughingBlood && f == ShapFactor(Hemoptysis, 12.0, Increase))
  {
  }

  /** Every factor increases the risk, by at most 30, and together they add at most 77: the
      score, 20 plus the impacts, never reaches the cap of 98. */
  lemma RuleFactorsBounded(age: real, smoker: bool, highNeutrophils: bool, hemoglobinDrop: bool, coughingBlood: bool)
    ensures forall f :: f in RuleFactors(age, smoker, highNeutrophils, hemoglobinDrop, coughingBlood) ==>
              f.direction == Increase && 0.0 < f.impact <= 30.0
    ensures 0.0 <= TotalImpact(RuleFactors(age, smoker, highNeutrophils, hemoglobinDrop, coughingBlood)) <= 77.0
  {
    RuleFactorsMembers(age, smoker, highNeutrophils, hemoglobinDrop, coughingBlood);
    var c0 := Contribution(age > 50.0, AgeFactor, AgeImpact(age));
    var c1 := Contribution(smoker, SmokingHistory, 30.0);
    var c2 := Contribution(highNeutrophils, HighNeutrophils, 15.0);
    var c3 := Contribution(hemoglobinDrop, DecliningHemoglobin, 10.0);
    var c4 := Contribution(coughingBlood, Hemoptysis, 12.0);
    assert TotalImpact(c0 + c1 + c2 + c3 + c4) ==
           TotalImpact(c0) + TotalImpact(c1) + TotalImpact(c2) + TotalImpact(c3) + TotalImpact(c4) by {
      TotalImpactConcat(c0, c1);
      TotalImpactConcat(c0 + c1, c2);
      TotalImpactConcat(c0 + c1 + c2, c3);
      TotalImpactConcat(c0 + c1 + c2 + c3, c4);
    }
    ContributionTotal(age > 50.0, AgeFactor, AgeImpact(age));
    ContributionTotal(smoker, SmokingHistory, 30.0);
    ContributionTotal(highNeutrophils, HighNeutrophils, 15.0);
    ContributionTotal(hemoglobinDrop, DecliningHemoglobin, 10.0);
    ContributionTotal(coughingBlood, Hemoptysis, 12.0);
  }

  /** Step by step: each rule that holds pushes its factor and adds its impact to the risk,
      which starts at 20. */
  method AccumulateFactors(age: real, smoker: bool, highNeutrophils: bool, hemoglobinDrop: bool, coughingBlood: bool)
    returns (factors: seq<ShapFactor>, baseRisk: real)
    ensures factors == RuleFactors(age, smoker, highNeutrophils, hemoglobinDrop, coughingBlood)
    ensures baseRisk == 20.0 + TotalImpact(factors)
  {
    factors, baseRisk := [], 20.0;
    if age > 50.0 {
      var ageFactor := Min((age - 50.0) * 1.5, 10.0);
      factors, baseRisk := Push(factors, baseRisk, ShapFactor(AgeFactor, ageFactor, Increase));
    }
    assert factors == Contribution(age > 50.0, AgeFactor, AgeImpact(age));
    if smoker {
      factors, baseRisk := Push(factors, baseRisk, ShapFactor(SmokingHistory, 30.0, Increase));
    }
    assert factors == Contribution(age > 50.0, AgeFactor, AgeImpact(age)) + Contribution(smoker, SmokingHistory, 30.0);
    if highNeutrophils {
      factors, baseRisk := Push(factors, baseRisk, ShapFactor(HighNeutrophils, 15.0, Increase));
    }
    assert factors == Contribution(age > 50.0, AgeFactor, AgeImpact(age)) + Contribution(smoker, SmokingHistory, 30.0)
                      + Contribution(highNeutrophils, HighNeutrophils, 15.0);
    if hemoglobinDrop {
      factors, baseRisk := Push(factors, baseRisk, ShapFactor(DecliningHemoglobin, 10.0, Increase));
    }
    assert factors == Contribution(age > 50.0, AgeFactor, AgeImpact(age)) + Contribution(smoker, SmokingHistory, 30.0)
                      + Contribution(highNeutrophils, HighNeutrophils, 15.0) + Contribution(hemoglobinDrop, DecliningHemoglobin, 10.0);
    if coughingBlood {
      factors, baseRisk := Push(factors, baseRisk, ShapFactor(Hemoptysis, 12.0, Increase));
    }
  }

  /** `shapFactors.push(f); baseRisk += f.impact`: the risk stays the baseline plus the listed
      impacts. */
  method Push(factors: seq<ShapFactor>, baseRisk: real, f: ShapFactor) returns (factors': seq<ShapFactor>, baseRisk': real)
    requires baseRisk == 20.0 + TotalImpact(factors)
    ensures factors' == factors + [f] && baseRisk' == baseRisk + f.impact
    ensures baseRisk' == 20.0 + TotalImpact(factors')
  {
    TotalImpactAppend(factors, f);
    factors', baseRisk' := factors + [f], baseRisk + f.impact;
  }

  /** The factors and the capped score `min(baseRisk, 98)`. */
  method ScoreRules(age: real, smoker: bool, highNeutrophils: bool, hemoglobinDrop: bool, coughingBlood: bool)
    returns (factors: seq<ShapFactor>, overallRiskScore: real)
    ensures factors == RuleFactors(age, smoker, highNeutrophils, hemoglobinDrop, coughingBlood)
    ensures overallRiskScore == 20.0 + TotalImpact(factors) && 20.0 <= overallRiskScore <= 97.0
  {
    var baseRisk;
    factors, baseRisk := AccumulateFactors(age, smoker, highNeutrophils, hemoglobinDrop, coughingBlood);
    RuleFactorsBounded(age, smoker, highNeutrophils, hemoglobinDrop, coughingBlood);
    overallRiskScore := Min(baseRisk, 98.0);
  }

  /** Collects the documents, applies the rules, then asks the model. The image downloads, the
      user lookup and the save are taken to succeed; then a model failure fails the whole
      request, and otherwise the analysis records the rule-based results. */
  method AnalyzeData(userId: string, profile: Option<map<string, Json>>,
                     questionnaire: Option<map<string, Json>>, hospitalData: seq<Bundle>,
                     documents: seq<Document>, ai: Result<AiResult, string>)
    returns (r: Result<Analysis, string>)
    ensures r.Failure? <==> ai.Failure?
    ensures r.Failure? ==> r.error == ai.error
    ensures r.Success? ==>
              var a := r.value;
              && a.shapFactors == RuleFactors(AgeOf(profile), AnswerYes(questionnaire, "isSmoker"),
                                              HasHighNeutrophils(hospitalData), HasHemoglobinDrop(hospitalData),
                                              AnswerYes(questionnaire, "coughingBlood"))
              && a.overallRiskScore == 20.0 + TotalImpact(a.shapFactors) && 20.0 <= a.overallRiskScore <= 97.0
              && a.userId == userId && a.explanation == StoredExplanation(ai.value.shapExplanation)
              && |a.documentIds| == |documents|
              && (forall i :: 0 <= i < |documents| ==> a.documentIds[i] == documents[i].id)
              && a.confidence == MinInt(Completeness(ImageDocs(documents) != [], hospitalData, questionnaire, profile), 95)
              && 10 <= a.confidence <= 95
              && a.cancerStage == StageOf(a.overallRiskScore) && a.nextSteps == NextStepsOf(a.overallRiskScore)
              && a.organRisks == (if ai.value.organRisks.Some? then ai.value.organRisks
                                  else Some(FallbackOrganRisks(a.overallRiskScore)))
  {
    var ids, images := CollectDocuments(documents);
    var factors, overallRiskScore := ScoreRules(AgeOf(profile), AnswerYes(questionnaire, "isSmoker"),
                                                HasHighNeutrophils(hospitalData), HasHemoglobinDrop(hospitalData),
                                                AnswerYes(questionnaire, "coughingBlood"));

    var dataCompleteness := Completeness(images != [], hospitalData, questionnaire, profile);
    var confidence := MinInt(dataCompleteness, 95);
    var cancerStage := StageOf(overallRiskScore);

    if ai.Failure? {
      return Failure(ai.error);
    }
    var organRisks := if ai.value.organRisks.Some? then ai.value.organRisks
                      else Some(FallbackOrganRisks(overallRiskScore));
    return Success(Analysis(userId, ids, overallRiskScore, confidence, organRisks, cancerStage,
                            StoredExplanation(ai.value.shapExplanation), factors, NextStepsOf(overallRiskScore)));
  }

  // ---------------------------------------------------------------------------------------
  // Views of stored analyses

  const Organs: seq<string> := ["lung", "breast", "oral", "colorectal", "prostate", "skin"]

  /** `organRisks.<organ>?.score || 0`. */
  function OrganScore(risks: map<string, OrganRisk>, organ: string): real {
    if organ in risks && risks[organ].score.Some? then risks[organ].score.value else 0.0
  }

  datatype ResultView = ResultView(riskScore: real, cancerStage: string, confidence: int,
                                   organRisk: map<string, real>, nextSteps: string)

  /** One entry of the results list: the stored score and stage, a fixed confidence of 85, and
      a score for each of the six organs, 0 where the analysis has none; no organ scores at all
      when the analysis has no organ risks. */
  function ViewOf(a: Analysis): (v: ResultView)
    ensures v.riskScore == a.overallRiskScore && v.cancerStage == a.cancerStage && v.confidence == 85
    ensures a.organRisks.None? ==> v.organRisk == map[]
    ensures a.organRisks.Some? ==>
              v.organRisk.Keys == set o | o in Organs
              && forall o :: o in Organs ==>
                   o in v.organRisk && v.organRisk[o] == (if o in a.organRisks.value && a.organRisks.value[o].score.Some?
                                      then a.organRisks.value[o].score.value else 0.0)
  {
    var organRisk := if a.organRisks.None? then map[]
                     else map o | o in Organs :: OrganScore(a.organRisks.value, o);
    ResultView(a.overallRiskScore, a.cancerStage, 85, organRisk, a.nextSteps)
  }

  /** The results list has one view per stored analysis, in the same order. */
  function GetResults(analyses: seq<Analysis>): (vs: seq<ResultView>)
    ensures |vs| == |analyses| && forall i :: 0 <= i < |vs| ==> vs[i] == ViewOf(analyses[i])
  {
    if analyses == [] then [] else [ViewOf(analyses[0])] + GetResults(analyses[1..])
  }

  /** The response status of fetching one analysis: 404 when it does not exist, 403 when it
      belongs to another user, 200 otherwise. */
  function AnalysisStatus(found: Option<Analysis>, caller: string): (status: int)
    ensures status == 404 <==> found.None?
    ensures status == 403 <==> found.Some? && found.value.userId != caller
    ensures status == 200 <==> found.Some? && found.value.userId == caller
  {
    if found.None? then 404 else if found.value.userId != caller then 403 else 200
  }
}
