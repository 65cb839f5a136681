/** The half-donut risk gauge: the score against the rest of 100, coloured green, amber or red. */
module RiskGauge {
  import MedicalReport

  datatype Slice = Slice(name: string, value: real)

  /** The two slices: the score and what remains of 100; together they fill the gauge. */
  function GaugeData(score: real): (d: seq<Slice>)
    ensures |d| == 2 && d[0].name == "Score" && d[1].name == "Remaining"
    ensures d[0].value == score && d[0].value + d[1].value == 100.0
  {
    [Slice("Score", score), Slice("Remaining", 100.0 - score)]
  }

  const Green := "#10b981"
  const Amber := "#f59e0b"
  const Red := "#ef4444"

  /** The colour bands: green up to 30, amber above 30 up to 70, red above 70. */
  function ColorOf(score: real): (c: string)
    ensures c == Green <==> score <= 30.0
    ensures c == Amber <==> 30.0 < score <= 70.0
    ensures c == Red <==> score > 70.0
  {
    if score <= 30.0 then Green else if score <= 70.0 then Amber else Red
  }

  /** The colour as the component picks it: green, overwritten by amber above 30 and then by
      red above 70. */
  method GaugeColor(score: real) returns (color: string)
    ensures color == ColorOf(score)
  {
    color := Green;
    if score > 30.0 {
      color := Amber;
    }
    if score > 70.0 {
      color := Red;
    }
  }

  /** The gauge turns red exactly where the report says HIGH, but its amber band starts at 30
      rather than 40: a score in (30, 40] is amber on the gauge and LOW on the report. */
  lemma GaugeVersusReport(score: real)
    ensures ColorOf(score) == Red <==> MedicalReport.LevelOf(score) == MedicalReport.High
    ensures ColorOf(score) == Green ==> MedicalReport.LevelOf(score) == MedicalReport.Low
    ensures 30.0 < score <= 40.0 ==> ColorOf(score) == Amber && MedicalReport.LevelOf(score) == MedicalReport.Low
  {
  }
}
