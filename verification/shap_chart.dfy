/** The contributor chart of a report: one bar per factor, largest signed impact first, red
    with '+' for factors that raise the risk and green with '-' for the others. */
module ShapChart {
  import opened Common
  import opened Entities
  import opened Ranking
  import RiskAnalysis

  /** The sort key: the impact as stored, sign included (not its magnitude). */
  function SignedImpact(f: ShapFactor): real { f.impact }

  /** A drawn bar: the factor's title, the sign shown before its impact, the bar width in
      percent of the track, and the bar and text colour classes. */
  datatype Bar = Bar(title: string, sign: char, impact: real, widthPercent: real,
                     barColor: string, textColor: string)

  /** The bar of one factor: '+', red bar and red text exactly for an increasing factor; the width
      scales 35 impact points to the full track. */
  function BarOf(f: ShapFactor): (b: Bar)
    ensures b.sign == '+' <==> f.direction == Increase
    ensures b.sign == '-' <==> f.direction == Decrease
    ensures b.widthPercent * 35.0 == f.impact * 100.0
    ensures b.title == FactorLabel(f.name) && b.impact == f.impact
  {
    var increase := f.direction == Increase;
    Bar(FactorLabel(f.name), if increase then '+' else '-', f.impact, f.impact / 35.0 * 100.0,
        if increase then "bg-red-500" else "bg-green-500",
        if increase then "text-red-700" else "text-green-700")
  }

  /** The colours follow the sign: red bar and red text with '+', green with '-'. */
  lemma BarColours(f: ShapFactor)
    ensures var b := BarOf(f);
            && (b.barColor == "bg-red-500" <==> b.sign == '+')
            && (b.textColor == "text-red-700" <==> b.sign == '+')
            && (b.barColor == "bg-green-500" <==> b.sign == '-')
  {
  }

  /** `factors.map(...)`: one bar per factor, in order. */
  function Bars(fs: seq<ShapFactor>): (bs: seq<Bar>)
    ensures |bs| == |fs| && forall i :: 0 <= i < |fs| ==> bs[i] == BarOf(fs[i])
  {
    if fs == [] then [] else [BarOf(fs[0])] + Bars(fs[1..])
  }

  /** The component: nothing for a missing or empty list; otherwise the bars of a sorted copy,
      largest signed impact first, ties in the order given. The list passed in is a value and is
      not changed. */
  function Chart(factors: Option<seq<ShapFactor>>): (r: Option<seq<Bar>>)
    ensures r.None? <==> factors.None? || factors.value == []
    ensures r.Some? ==> |r.value| == |factors.value|
  {
    if factors.None? || factors.value == [] then None
    else
      var sorted := SortDesc(factors.value, SignedImpact);
      SortDescCorrect(factors.value, SignedImpact);
      Some(Bars(sorted))
  }

  /** The drawn bars are those of a reordering of the factors, by signed impact from largest to
      smallest, with factors of equal impact in the order given; the first bar is the largest. */
  lemma ChartOrdered(factors: seq<ShapFactor>)
    requires factors != []
    ensures var sorted := SortDesc(factors, SignedImpact);
            && Chart(Some(factors)) == Some(Bars(sorted))
            && multiset(sorted) == multiset(factors)
            && (forall i, j :: 0 <= i < j < |sorted| ==> sorted[i].impact >= sorted[j].impact)
            && (forall m :: WithKey(sorted, SignedImpact, m) == WithKey(factors, SignedImpact, m))
            && (forall f :: f in factors ==> f.impact <= sorted[0].impact)
  {
    var sorted := SortDesc(factors, SignedImpact);
    SortDescCorrect(factors, SignedImpact);
    assert sorted != [] by { assert |sorted| == |factors|; }
    forall i, j | 0 <= i < j < |sorted| ensures sorted[i].impact >= sorted[j].impact {
      assert SignedImpact(sorted[i]) >= SignedImpact(sorted[j]);
    }
    forall f | f in factors ensures f.impact <= sorted[0].impact {
      assert f in multiset(sorted);
      var i :| 0 <= i < |sorted| && sorted[i] == f;
      if i > 0 {
        assert sorted[0].impact >= sorted[i].impact;
      }
    }
  }

  /** On the factors of the rule-based analysis every bar is red with '+' and fits the track. */
  lemma RuleChartBars(age: real, smoker: bool, highNeutrophils: bool, hemoglobinDrop: bool, coughingBlood: bool)
    ensures var c := Chart(Some(RiskAnalysis.RuleFactors(age, smoker, highNeutrophils, hemoglobinDrop, coughingBlood)));
            c.Some? ==> forall b :: b in c.value ==> b.sign == '+' && b.widthPercent <= 100.0
  {
    var fs := RiskAnalysis.RuleFactors(age, smoker, highNeutrophils, hemoglobinDrop, coughingBlood);
    if fs != [] {
      var sorted := SortDesc(fs, SignedImpact);
      var bars := Bars(sorted);
      assert Chart(Some(fs)) == Some(bars) && multiset(sorted) == multiset(fs) by {
        ChartOrdered(fs);
      }
      assert forall f :: f in fs ==> f.direction == Increase && f.impact <= 30.0 by {
        RiskAnalysis.RuleFactorsBounded(age, smoker, highNeutrophils, hemoglobinDrop, coughingBlood);
      }
      forall i | 0 <= i < |bars| ensures bars[i].sign == '+' && bars[i].widthPercent <= 100.0 {
        assert bars[i] == BarOf(sorted[i]);
        assert sorted[i] in fs by {
          assert sorted[i] in multiset(fs);
        }
        BarFits(sorted[i]);
      }
    }
  }

  /** A factor that raises the risk by at most 35 points draws a '+' bar within the track. */
  lemma BarFits(f: ShapFactor)
    requires f.direction == Increase && f.impact <= 35.0
    ensures BarOf(f).sign == '+' && BarOf(f).widthPercent <= 100.0
  {
  }

  /** A smoker's chart starts with the smoking bar, whose 30 points exceed every other rule. */
  lemma SmokerChartLeadsWithSmoking(age: real, highNeutrophils: bool, hemoglobinDrop: bool, coughingBlood: bool)
    ensures var c := Chart(Some(RiskAnalysis.RuleFactors(age, true, highNeutrophils, hemoglobinDrop, coughingBlood)));
            c.Some? && c.value[0].title == "Smoking History"
  {
    var fs := RiskAnalysis.RuleFactors(age, true, highNeutrophils, hemoglobinDrop, coughingBlood);
    RuleFactorsBelowSmoking(age, true, highNeutrophils, hemoglobinDrop, coughingBlood);
    var sorted := SortDesc(fs, SignedImpact);
    ChartOrdered(fs);
    assert ShapFactor(SmokingHistory, 30.0, Increase) in fs;
    assert sorted[0] in multiset(fs);
    assert sorted[0].impact >= 30.0;
  }

  /** Smoking is the only rule with an impact of 30; the others stay at or below 15. */
  lemma RuleFactorsBelowSmoking(age: real, smoker: bool, highNeutrophils: bool, hemoglobinDrop: bool, coughingBlood: bool)
    ensures smoker ==>
              ShapFactor(SmokingHistory, 30.0, Increase) in RiskAnalysis.RuleFactors(age, smoker, highNeutrophils, hemoglobinDrop, coughingBlood)
    ensures forall f :: f in RiskAnalysis.RuleFactors(age, smoker, highNeutrophils, hemoglobinDrop, coughingBlood) ==>
              f == ShapFactor(SmokingHistory, 30.0, Increase) || f.impact <= 15.0
  {
    RiskAnalysis.RuleFactorsMembers(age, smoker, highNeutrophils, hemoglobinDrop, coughingBlood);
  }
}
