/** The doctor's report page for one analysis: a risk band from the overall score with its
    styling, the contributor chart, and the first uploaded image (or a stock radiograph). The
    analysis and the image come from the backend; both fetches are parameters. */
module MedicalReport {
  import opened Common
  import opened Entities
  import RiskAnalysis
  import ShapChart

  /** A clinic referral, as the report and the handout read it. */
  datatype Referral = Referral(name: string, location: string, contact: string, appointmentDate: Option<string>)

  /** The analysis as the pages receive it, with its documents populated. */
  datatype AnalysisView = AnalysisView(overallRiskScore: Option<real>, documentIds: seq<Document>,
                                       shapFactors: Option<seq<ShapFactor>>,
                                       recommendations: Option<seq<string>>,
                                       clinicReferrals: Option<seq<Referral>>)

  /** `overallRiskScore || 0`: a missing score (and a zero one) reads as 0. */
  function RiskScore(overall: Option<real>): real {
    if overall.Some? then overall.value else 0.0
  }

  datatype Level = High | Moderate | Low

  /** The band of a score: above 70 high, above 40 moderate, otherwise low. */
  function LevelOf(score: real): (l: Level)
    ensures l == High <==> score > 70.0
    ensures l == Moderate <==> 40.0 < score <= 70.0
    ensures l == Low <==> score <= 40.0
  {
    if score > 70.0 then High else if score > 40.0 then Moderate else Low
  }

  function LevelName(l: Level): string {
    match l
    case High => "HIGH"
    case Moderate => "MODERATE"
    case Low => "LOW"
  }

  /** The three style classes, each chosen by its own comparison chain on the score. */
  function GradientOf(score: real): string {
    if score > 70.0 then "risk-gradient-high" else if score > 40.0 then "risk-gradient-medium" else "risk-gradient-low"
  }

  function TextColorOf(score: real): string {
    if score > 70.0 then "text-red-600" else if score > 40.0 then "text-amber-600" else "text-green-600"
  }

  function BorderOf(score: real): string {
    if score > 70.0 then "border-red-200" else if score > 40.0 then "border-amber-200" else "border-green-200"
  }

  /** The styles never contradict the band: two scores get the same gradient, the same text
      colour and the same border exactly when they fall in the same band. */
  lemma StylesAgreeWithLevel(s: real, t: real)
    ensures LevelOf(s) == LevelOf(t) <==> GradientOf(s) == GradientOf(t)
    ensures LevelOf(s) == LevelOf(t) <==> TextColorOf(s) == TextColorOf(t)
    ensures LevelOf(s) == LevelOf(t) <==> BorderOf(s) == BorderOf(t)
  {
  }

  /** `documentIds.find(doc => doc.mimeType && doc.mimeType.startsWith('image/'))`. */
  function FirstImage(docs: seq<Document>): (r: Option<Document>)
    ensures r.None? <==> forall d :: d in docs ==> !IsImage(d)
    ensures r.Some? ==> exists k :: 0 <= k < |docs| && docs[k] == r.value && IsImage(docs[k])
                                   && forall j :: 0 <= j < k ==> !IsImage(docs[j])
  {
    if docs == [] then None
    else if IsImage(docs[0]) then Some(docs[0])
    else
      var r := FirstImage(docs[1..]);
      if r.Some? then
        var k :| 0 <= k < |docs[1..]| && docs[1..][k] == r.value && IsImage(docs[1..][k])
                 && forall j :: 0 <= j < k ==> !IsImage(docs[1..][j]);
        assert docs[k + 1] == r.value;
        r
      else r
  }

  lemma {:induction false} FirstImageAppend(a: seq<Document>, b: seq<Document>)
    ensures FirstImage(a + b) == if FirstImage(a).Some? then FirstImage(a) else FirstImage(b)
  {
    if a == [] {
      assert a + b == b;
    } else {
      assert (a + b)[1..] == a[1..] + b;
      FirstImageAppend(a[1..], b);
    }
  }

  /** The report shows the same image the analysis sent to the model first: the first of the
      image documents the analysis collected, when there is one. */
  lemma {:induction false} FirstImageIsFirstSent(docs: seq<Document>)
    ensures var sent := RiskAnalysis.ImageDocs(docs);
            FirstImage(docs) == if sent == [] then None else Some(sent[0])
  {
    if docs != [] {
      var n := |docs| - 1;
      var init, last := docs[..n], docs[n];
      assert docs == init + [last];
      FirstImageIsFirstSent(init);
      FirstImageAppend(init, [last]);
      assert FirstImage([last]) == if IsImage(last) then Some(last) else None;
      var tail := if IsImage(last) then [last] else [];
      assert RiskAnalysis.ImageDocs(docs) == RiskAnalysis.ImageDocs(init) + tail;
      if RiskAnalysis.ImageDocs(init) == [] {
        assert RiskAnalysis.ImageDocs(docs) == tail;
      }
    }
  }

  const FallbackImage := "https://upload.wikimedia.org/wikipedia/commons/a/a1/Normal_posteroanterior_%28PA%29_chest_radiograph_%28X-ray%29.jpg"

  /** The image shown: the object URL of the first image document when its download succeeds,
      otherwise the stock radiograph. `fetch` is the download, `None` when it fails. */
  function ImageUrl(docs: seq<Document>, fetch: Document -> Option<string>): (url: string)
    ensures FirstImage(docs).None? ==> url == FallbackImage
    ensures FirstImage(docs).Some? && fetch(FirstImage(docs).value).Some? && fetch(FirstImage(docs).value).value != "" ==>
              url == fetch(FirstImage(docs).value).value
    ensures url != FallbackImage ==> FirstImage(docs).Some? && Some(url) == fetch(FirstImage(docs).value)
  {
    match FirstImage(docs)
    case None => FallbackImage
    case Some(d) =>
      var got := fetch(d);
      if got.Some? && got.value != "" then got.value else FallbackImage
  }

  /** What the page renders once loading is over. */
  datatype Page =
    | NotFound
    | Report(score: real, level: string, gradient: string, textColor: string, border: string,
             chart: Option<seq<ShapChart.Bar>>, imageUrl: string)

  /** A missing analysis (the fetch failed or found nothing) renders "Analysis not found";
      otherwise the report's band, styles, chart and image all come from the one analysis. */
  function ReportPage(analysis: Option<AnalysisView>, fetch: Document -> Option<string>): (p: Page)
    ensures p.NotFound? <==> analysis.None?
    ensures p.Report? ==>
              && p.score == RiskScore(analysis.value.overallRiskScore)
              && p.level == LevelName(LevelOf(p.score))
              && p.gradient == GradientOf(p.score) && p.textColor == TextColorOf(p.score)
              && p.border == BorderOf(p.score)
              && p.chart == ShapChart.Chart(analysis.value.shapFactors)
              && p.imageUrl == ImageUrl(analysis.value.documentIds, fetch)
  {
    match analysis
    case None => NotFound
    case Some(a) =>
      var score := RiskScore(a.overallRiskScore);
      Report(score, LevelName(LevelOf(score)), GradientOf(score), TextColorOf(score), BorderOf(score),
             ShapChart.Chart(a.shapFactors), ImageUrl(a.documentIds, fetch))
  }
}
