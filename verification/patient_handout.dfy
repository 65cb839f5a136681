/** The patient's handout for a reviewed analysis: the risk band in words, the first clinic
    referral as an appointment, and at most three lifestyle recommendations. */
module PatientHandout {
  import opened Common
  import Ranking
  import MedicalReport

  /** `analysis?.overallRiskScore || 0`: no analysis reads as a score of 0. */
  function HandoutScore(analysis: Option<MedicalReport.AnalysisView>): (s: real)
    ensures analysis.None? ==> s == 0.0
    ensures analysis.Some? ==> s == MedicalReport.RiskScore(analysis.value.overallRiskScore)
  {
    match analysis
    case None => 0.0
    case Some(a) => MedicalReport.RiskScore(a.overallRiskScore)
  }

  function LevelText(score: real): string {
    if score > 70.0 then "HIGH RISK" else if score > 40.0 then "MODERATE RISK" else "LOW RISK"
  }

  function LevelColor(score: real): string {
    if score > 70.0 then "text-red-600" else if score > 40.0 then "text-amber-600" else "text-green-600"
  }

  /** The handout and the doctor's report band every score the same way: the handout's words
      are the report's level followed by " RISK", and its colour is the report's text colour. */
  lemma HandoutAgreesWithReport(score: real)
    ensures LevelText(score) == MedicalReport.LevelName(MedicalReport.LevelOf(score)) + " RISK"
    ensures LevelColor(score) == MedicalReport.TextColorOf(score)
  {
  }

  /** The page, once loading is over. */
  datatype Handout = Handout(score: real, level: string, color: string,
                             appointment: Option<MedicalReport.Referral>, recommendations: seq<string>)

  /** The first three recommendations, in order; none when the list is missing. */
  function ShownRecommendations(recs: Option<seq<string>>): (r: seq<string>)
    ensures recs.None? ==> r == []
    ensures recs.Some? ==> |r| == MinInt(3, |recs.value|) && r == recs.value[..|r|]
  {
    match recs
    case None => []
    case Some(rs) =>
      var t := Ranking.Take(rs, 3);
      assert t == rs[..|t|];
      t
  }

  /** The appointment block appears exactly when the analysis has a first referral, and shows
      that referral. */
  function FirstReferral(refs: Option<seq<MedicalReport.Referral>>): (r: Option<MedicalReport.Referral>)
    ensures r.Some? <==> refs.Some? && |refs.value| > 0
    ensures r.Some? ==> r.value == refs.value[0]
  {
    if refs.Some? && |refs.value| > 0 then Some(refs.value[0]) else None
  }

  /** The handout. It renders even without an analysis, then with a score of 0. */
  function HandoutOf(analysis: Option<MedicalReport.AnalysisView>): (h: Handout)
    ensures h.score == HandoutScore(analysis)
    ensures h.level == MedicalReport.LevelName(MedicalReport.LevelOf(h.score)) + " RISK"
    ensures h.color == MedicalReport.TextColorOf(h.score)
    ensures h.appointment.Some? <==> analysis.Some? && FirstReferral(analysis.value.clinicReferrals).Some?
    ensures |h.recommendations| <= 3
    ensures analysis.None? ==> h.appointment.None? && h.recommendations == []
    ensures analysis.Some? ==>
              && h.appointment == FirstReferral(analysis.value.clinicReferrals)
              && h.recommendations == ShownRecommendations(analysis.value.recommendations)
  {
    var score := HandoutScore(analysis);
    HandoutAgreesWithReport(score);
    match analysis
    case None => Handout(score, LevelText(score), LevelColor(score), None, [])
    case Some(a) =>
      Handout(score, LevelText(score), LevelColor(score), FirstReferral(a.clinicReferrals),
              ShownRecommendations(a.recommendations))
  }

  /** A handout whose analysis could not be loaded still reads "LOW RISK", with no appointment
      and no recommendations. */
  lemma MissingAnalysisReadsLow()
    ensures HandoutOf(None) == Handout(0.0, "LOW RISK", "text-green-600", None, [])
  {
  }
}
