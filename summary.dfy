/**
 * The summary stage (`create_summary`): four headline metrics computed from
 * the analysis table, as a two-column (`Metric`, `Value`) table.
 */
module Summary {

  import opened Wrappers
  import opened Text
  import opened Analysis

  /**
   * A cell of the `Value` column: a display string, a plain integer (the
   * product count is not formatted), or a real shown with one decimal place.
   */
  datatype Value = Str(text: string) | Int(n: int) | Fixed1(x: real)

  datatype SummaryRow = SummaryRow(metric: string, value: Value)

  /** The metric names, in the order of the summary's rows. */
  const Metrics: seq<string> := ["Total Sales", "Total Revenue", "Average Daily Sales", "Number of Products"]

  /** `f"${x:,.2f}"` for an integral amount: sign, grouped digits, zero cents. */
  function FormatMoney(n: int): (s: string)
  {
    "$" + FormatThousands(n) + ".00"
  }

  /** `analysis['Sales_mean']`, added up. */
  function SalesMeanTotal(rows: seq<Aggregate>): real
  {
    if rows == [] then 0.0 else rows[0].salesMean + SalesMeanTotal(rows[1..])
  }

  function ProductsOf(rows: seq<Aggregate>): (ps: seq<string>)
    ensures |ps| == |rows|
    ensures forall i :: 0 <= i < |rows| ==> ps[i] == rows[i].product
  {
    seq(|rows|, i requires 0 <= i < |rows| => rows[i].product)
  }

  predicate NoRepeats(s: seq<string>)
  {
    forall i, j :: 0 <= i < j < |s| ==> s[i] != s[j]
  }

  /** `Series.unique()`: each value of the input once and nothing else. The
    * summary only takes its length, so the order of the values is not stated. */
  function Unique(s: seq<string>): (u: seq<string>)
    ensures NoRepeats(u)
    ensures forall x :: x in u <==> x in s
    ensures |u| <= |s|
  {
    if s == [] then []
    else
      var u := Unique(s[..|s| - 1]);
      var x := s[|s| - 1];
      assert forall y :: y in s <==> y in s[..|s| - 1] || y == x by {
        assert s == s[..|s| - 1] + [x];
      }
      if x in u then u else u + [x]
  }

  /** `analysis['Sales_mean'].mean()`, as the summary shows it. */
  function AverageSales(analysis: seq<Aggregate>): Value
  {
    if analysis == [] then Str("nan")
    else Fixed1(SalesMeanTotal(analysis) / |analysis| as real)
  }

  /** `create_summary`. `Average Daily Sales` is the mean of `Sales_mean`,
    * which pandas makes NaN (printed "nan") when there are no groups. */
  function Summarize(analysis: seq<Aggregate>): seq<SummaryRow>
  {
    [ SummaryRow(Metrics[0], Str(FormatThousands(SalesSumTotal(analysis)))),
      SummaryRow(Metrics[1], Str(FormatMoney(RevenueSumTotal(analysis)))),
      SummaryRow(Metrics[2], AverageSales(analysis)),
      SummaryRow(Metrics[3], Int(|Unique(ProductsOf(analysis))|)) ]
  }

  /** A sequence without repeats is as long as the set of its elements. */
  lemma {:induction false} NoRepeatsCardinality(s: seq<string>, elems: set<string>)
    requires NoRepeats(s)
    requires forall x :: x in s <==> x in elems
    ensures |s| == |elems|
  {
    if s != [] {
      var last := s[|s| - 1];
      var init := s[..|s| - 1];
      assert forall x :: x in init <==> x in elems - {last} by {
        forall x ensures x in init <==> x in elems - {last} {
          if x in elems - {last} {
            assert x in s;
            var j :| 0 <= j < |s| && s[j] == x;
            assert j < |s| - 1;
            assert init[j] == x;
          }
        }
      }
      NoRepeatsCardinality(init, elems - {last});
    }
  }

  /** The summary always has the same four metrics in the same order. */
  lemma SummaryMetrics(analysis: seq<Aggregate>)
    ensures |Summarize(analysis)| == 4
    ensures forall i :: 0 <= i < 4 ==> Summarize(analysis)[i].metric == Metrics[i]
  {
  }

  /** `Total Sales` is a grouped number, with no leading zero, that reads
    * back as the sum of the `Sales_sum` column. */
  lemma SummaryTotalSales(analysis: seq<Aggregate>)
    ensures Summarize(analysis)[0].value.Str?
    ensures var text := Summarize(analysis)[0].value.text;
      && ParseThousands(text) == Some(SalesSumTotal(analysis))
      && ThousandsShaped(text, SalesSumTotal(analysis))
  {
    FormatThousandsRoundTrip(SalesSumTotal(analysis));
    FormatThousandsShape(SalesSumTotal(analysis));
  }

  /** `Total Revenue` is a dollar sign, the grouped sum of `Revenue_sum`, and
    * zero cents. */
  lemma SummaryTotalRevenue(analysis: seq<Aggregate>)
    ensures Summarize(analysis)[1].value.Str?
    ensures var text := Summarize(analysis)[1].value.text;
      && |text| >= 4 && text[0] == '$' && text[|text| - 3..] == ".00"
      && ParseThousands(text[1..|text| - 3]) == Some(RevenueSumTotal(analysis))
      && ThousandsShaped(text[1..|text| - 3], RevenueSumTotal(analysis))
  {
    var total := RevenueSumTotal(analysis);
    var text := FormatMoney(total);
    assert text[1..|text| - 3] == FormatThousands(total);
    FormatThousandsRoundTrip(total);
    FormatThousandsShape(total);
  }

  /** `Average Daily Sales` is the mean of the `Sales_mean` column, or "nan"
    * for an empty analysis. */
  lemma SummaryAverage(analysis: seq<Aggregate>)
    ensures analysis == [] ==> Summarize(analysis)[2].value == Str("nan")
    ensures analysis != [] ==>
      && Summarize(analysis)[2].value.Fixed1?
      && IsMeanOf(Summarize(analysis)[2].value.x, SalesMeanTotal(analysis), |analysis|)
  {
    SummaryAverageCell(analysis);
    if analysis != [] {
      AverageSalesIsMean(analysis);
    }
  }

  lemma SummaryAverageCell(analysis: seq<Aggregate>)
    ensures Summarize(analysis)[2].value == AverageSales(analysis)
  {
  }

  lemma AverageSalesIsMean(analysis: seq<Aggregate>)
    requires analysis != []
    ensures AverageSales(analysis).Fixed1?
    ensures IsMeanOf(AverageSales(analysis).x, SalesMeanTotal(analysis), |analysis|)
  {
    var total, n := SalesMeanTotal(analysis), |analysis| as real;
    assert (total / n) * n == total;
  }

  /** `Number of Products` is the number of distinct products in the analysis. */
  lemma SummaryProductCount(analysis: seq<Aggregate>)
    ensures Summarize(analysis)[3].value == Int(|set r | r in analysis :: r.product|)
  {
    var ps := ProductsOf(analysis);
    var elems := set r | r in analysis :: r.product;
    forall x ensures x in Unique(ps) <==> x in elems {
      if x in ps {
        var i :| 0 <= i < |ps| && ps[i] == x;
        assert analysis[i] in analysis;
      }
      if x in elems {
        var r :| r in analysis && r.product == x;
        var i :| 0 <= i < |analysis| && analysis[i] == r;
        assert ps[i] == x;
      }
    }
    NoRepeatsCardinality(Unique(ps), elems);
  }
  /**
   * Analyses that agree except in `Revenue_sum` and `Revenue_mean` give the
   * same `Total Sales`, `Average Daily Sales` and `Number of Products`; only
   * `Total Revenue` can differ.
   */
  lemma SummaryIgnoresRevenue(a1: seq<Aggregate>, a2: seq<Aggregate>)
    requires |a1| == |a2|
    requires forall i :: 0 <= i < |a1| ==> WithoutRevenue(a1[i]) == WithoutRevenue(a2[i])
    ensures Summarize(a1)[0] == Summarize(a2)[0]
    ensures Summarize(a1)[2] == Summarize(a2)[2]
    ensures Summarize(a1)[3] == Summarize(a2)[3]
  {
    SalesColumnsAgree(a1, a2);
    assert ProductsOf(a1) == ProductsOf(a2) by {
      forall i | 0 <= i < |a1|
        ensures a1[i].product == a2[i].product
      {
        assert WithoutRevenue(a1[i]) == WithoutRevenue(a2[i]);
      }
    }
  }

  lemma {:induction false} SalesColumnsAgree(a1: seq<Aggregate>, a2: seq<Aggregate>)
    requires |a1| == |a2|
    requires forall i :: 0 <= i < |a1| ==> WithoutRevenue(a1[i]) == WithoutRevenue(a2[i])
    ensures SalesSumTotal(a1) == SalesSumTotal(a2)
    ensures SalesMeanTotal(a1) == SalesMeanTotal(a2)
  {
    if a1 != [] {
      assert WithoutRevenue(a1[0]) == WithoutRevenue(a2[0]);
      assert forall i :: 0 <= i < |a1| - 1 ==> a1[1..][i] == a1[i + 1] && a2[1..][i] == a2[i + 1];
      SalesColumnsAgree(a1[1..], a2[1..]);
    }
  }
}
