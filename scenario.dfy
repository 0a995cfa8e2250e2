/**
 * The analysis scenario: three tasks over four data nodes, wired
 * raw_data -> clean_task -> cleaned_data -> analyze_task -> analysis_data
 * -> summary_task -> summary_data, and what submitting it computes.
 */
module Scenario {

  import opened Wrappers
  import opened Text
  import opened Frames
  import opened Cleaning
  import opened Analysis
  import opened Summary

  /** What a data node holds. */
  datatype Data =
    | RawData(raw: RawFrame)
    | CleanedData(cleaned: CleanFrame)
    | AnalysisData(analysis: seq<Aggregate>)
    | SummaryData(summary: seq<SummaryRow>)

  datatype TaskFunction = CleanData | AnalyzeData | CreateSummary

  /** One `configure_task`: an id, the function it runs, and its input and output nodes. */
  datatype TaskConfig = TaskConfig(id: string, run: TaskFunction, input: string, output: string)

  const CleanTask := TaskConfig("clean_task", CleanData, "raw_data", "cleaned_data")
  const AnalyzeTask := TaskConfig("analyze_task", AnalyzeData, "cleaned_data", "analysis_data")
  const SummaryTask := TaskConfig("summary_task", CreateSummary, "analysis_data", "summary_data")

  /** `analysis_scenario`'s task list, in its declared order. */
  const AnalysisScenario: seq<TaskConfig> := [CleanTask, AnalyzeTask, SummaryTask]

  /** A failed run names the task that raised and why. */
  datatype StageFailure = StageFailure(task: string, cause: Cause)

  /** The data nodes after a submission, and the failure if one task raised. */
  datatype Outcome =
    | Completed(nodes: map<string, Data>)
    | Failed(failure: StageFailure, nodes: map<string, Data>)
  {
    function Nodes(): map<string, Data>
    {
      match this
      case Completed(nodes) => nodes
      case Failed(_, nodes) => nodes
    }
  }

  /** Runs one task function on the content of its input node. */
  function Apply(task: TaskConfig, input: Data, multiplier: nat -> int): Result<Data, Cause>
  {
    match (task.run, input)
    case (CleanData, RawData(raw)) =>
      (match Clean(raw, multiplier)
       case Ok(c) => Ok(CleanedData(c))
       case Err(e) => Err(e))
    case (AnalyzeData, CleanedData(c)) =>
      (match Analyze(c)
       case Ok(a) => Ok(AnalysisData(a))
       case Err(e) => Err(e))
    case (CreateSummary, AnalysisData(a)) => Ok(SummaryData(Summarize(a)))
    case _ => Err(WrongInput(task.input))
  }

  /** Reads the task's input node, runs the task, and gives what it writes. */
  function Execute(task: TaskConfig, nodes: map<string, Data>, multiplier: nat -> int): Result<Data, Cause>
  {
    if task.input !in nodes then Err(MissingInput(task.input))
    else Apply(task, nodes[task.input], multiplier)
  }

  /**
   * Submitting a scenario: the tasks run one after another in the given
   * order, each writing its output node before the next starts; the first
   * task that raises stops the run.
   */
  function Submit(tasks: seq<TaskConfig>, nodes: map<string, Data>, multiplier: nat -> int): Outcome
  {
    if tasks == [] then Completed(nodes)
    else
      match Execute(tasks[0], nodes, multiplier)
      case Err(e) => Failed(StageFailure(tasks[0].id, e), nodes)
      case Ok(d) => Submit(tasks[1..], nodes[tasks[0].output := d], multiplier)
  }

  /** The whole pipeline on one raw table: write `raw_data`, submit the scenario. */
  function Pipeline(raw: RawFrame, multiplier: nat -> int): Outcome
  {
    Submit(AnalysisScenario, map["raw_data" := RawData(raw)], multiplier)
  }

  function Outputs(tasks: seq<TaskConfig>): set<string>
  {
    set t | t in tasks :: t.output
  }

  // ---------------------------------------------------------------------
  // Properties.
  // ---------------------------------------------------------------------

  /** The declared tasks form a chain: the first reads the raw node, each
    * other task reads exactly the node its predecessor writes, and no two
    * tasks write the same node. */
  lemma ScenarioIsChain()
    ensures |AnalysisScenario| == 3
    ensures AnalysisScenario[0].input == "raw_data"
    ensures forall i :: 0 < i < |AnalysisScenario| ==> AnalysisScenario[i].input == AnalysisScenario[i - 1].output
    ensures forall i, j :: 0 <= i < j < |AnalysisScenario| ==> AnalysisScenario[i].output != AnalysisScenario[j].output
    ensures "raw_data" !in Outputs(AnalysisScenario)
  {
  }

  /**
   * Submission only adds nodes: a completed run has written every task's
   * output, a failed run only outputs of tasks before the failing one, and
   * a node no task writes (the raw input) is never changed.
   */
  lemma {:induction false} SubmitWrites(tasks: seq<TaskConfig>, nodes: map<string, Data>, multiplier: nat -> int)
    ensures var out := Submit(tasks, nodes, multiplier);
      && (out.Completed? ==> out.Nodes().Keys == nodes.Keys + Outputs(tasks))
      && (out.Failed? ==> nodes.Keys <= out.Nodes().Keys <= nodes.Keys + Outputs(tasks))
      && (out.Failed? ==> exists t :: t in tasks && t.id == out.failure.task)
      && forall n :: n in nodes && n !in Outputs(tasks) ==> n in out.Nodes() && out.Nodes()[n] == nodes[n]
  {
    if tasks != [] {
      var t := tasks[0];
      assert forall x :: x in Outputs(tasks) <==> x == t.output || x in Outputs(tasks[1..]) by {
        assert tasks == [t] + tasks[1..];
      }
      assert t in tasks;
      match Execute(t, nodes, multiplier)
      case Err(e) =>
      case Ok(d) =>
        SubmitWrites(tasks[1..], nodes[t.output := d], multiplier);
        var out := Submit(tasks[1..], nodes[t.output := d], multiplier);
        if out.Failed? {
          var u :| u in tasks[1..] && u.id == out.failure.task;
          assert u in tasks;
        }
    }
  }

  /** The pipeline fails exactly when cleaning or analysis fails, and the
    * failure names the stage that raised. */
  lemma PipelineFailure(raw: RawFrame, multiplier: nat -> int)
    ensures Clean(raw, multiplier).Err? ==>
      Pipeline(raw, multiplier) == Failed(StageFailure("clean_task", Clean(raw, multiplier).error), map["raw_data" := RawData(raw)])
    ensures Clean(raw, multiplier).Ok? && Analyze(Clean(raw, multiplier).value).Err? ==>
      Pipeline(raw, multiplier) == Failed(
        StageFailure("analyze_task", MissingColumn(ProductCol)),
        map["raw_data" := RawData(raw), "cleaned_data" := CleanedData(Clean(raw, multiplier).value)])
    ensures Pipeline(raw, multiplier).Completed? <==>
      Clean(raw, multiplier).Ok? && ProductCol in raw.columns
  {
    PipelineSteps(raw, multiplier);
  }

  /** Submitting the scenario, one task at a time. */
  lemma PipelineSteps(raw: RawFrame, multiplier: nat -> int)
    ensures var n0 := map["raw_data" := RawData(raw)];
      match Clean(raw, multiplier)
      case Err(e) => Pipeline(raw, multiplier) == Failed(StageFailure("clean_task", e), n0)
      case Ok(c) =>
        var n1 := n0["cleaned_data" := CleanedData(c)];
        && c.columns == raw.columns
        && match Analyze(c)
           case Err(e) => e == MissingColumn(ProductCol) && Pipeline(raw, multiplier) == Failed(StageFailure("analyze_task", e), n1)
           case Ok(a) => Pipeline(raw, multiplier) == Completed(n1["analysis_data" := AnalysisData(a)]["summary_data" := SummaryData(Summarize(a))])
  {
    var n0 := map["raw_data" := RawData(raw)];
    var tasks := AnalysisScenario;
    assert tasks[1..] == [AnalyzeTask, SummaryTask];
    assert tasks[1..][1..] == [SummaryTask];
    ExecuteClean(raw, n0, multiplier);
    match Clean(raw, multiplier)
    case Err(e) =>
    case Ok(c) =>
      CleanOutput(raw, multiplier);
      var n1 := n0["cleaned_data" := CleanedData(c)];
      assert Pipeline(raw, multiplier) == Submit([AnalyzeTask, SummaryTask], n1, multiplier);
      ExecuteAnalyze(c, n1, multiplier);
      AnalyzeFailure(c);
      match Analyze(c)
      case Err(e) =>
      case Ok(a) =>
        var n2 := n1["analysis_data" := AnalysisData(a)];
        assert Pipeline(raw, multiplier) == Submit([SummaryTask], n2, multiplier);
        ExecuteSummary(a, n2, multiplier);
        assert [SummaryTask][1..] == [];
        var n3 := n2["summary_data" := SummaryData(Summarize(a))];
        assert Submit([SummaryTask], n2, multiplier) == Submit([], n3, multiplier);
  }

  lemma ExecuteClean(raw: RawFrame, nodes: map<string, Data>, multiplier: nat -> int)
    requires "raw_data" in nodes && nodes["raw_data"] == RawData(raw)
    ensures Execute(CleanTask, nodes, multiplier) ==
      match Clean(raw, multiplier)
      case Ok(c) => Ok(CleanedData(c))
      case Err(e) => Err(e)
  {
  }

  lemma ExecuteAnalyze(c: CleanFrame, nodes: map<string, Data>, multiplier: nat -> int)
    requires "cleaned_data" in nodes && nodes["cleaned_data"] == CleanedData(c)
    ensures Execute(AnalyzeTask, nodes, multiplier) ==
      match Analyze(c)
      case Ok(a) => Ok(AnalysisData(a))
      case Err(e) => Err(e)
  {
  }

  lemma ExecuteSummary(a: seq<Aggregate>, nodes: map<string, Data>, multiplier: nat -> int)
    requires "analysis_data" in nodes && nodes["analysis_data"] == AnalysisData(a)
    ensures Execute(SummaryTask, nodes, multiplier) == Ok(SummaryData(Summarize(a)))
  {
  }

  /**
   * The stages compose in the declared order: a completed run holds the
   * raw table, its cleaned table, the analysis of exactly that cleaned
   * table, and the summary of exactly that analysis.
   */
  lemma PipelineComposes(raw: RawFrame, multiplier: nat -> int)
    requires Pipeline(raw, multiplier).Completed?
    ensures Clean(raw, multiplier).Ok? && Analyze(Clean(raw, multiplier).value).Ok?
    ensures var cleaned := Clean(raw, multiplier).value;
            var analysis := Analyze(cleaned).value;
      Pipeline(raw, multiplier).nodes == map[
        "raw_data" := RawData(raw),
        "cleaned_data" := CleanedData(cleaned),
        "analysis_data" := AnalysisData(analysis),
        "summary_data" := SummaryData(Summarize(analysis))]
  {
    PipelineSteps(raw, multiplier);
  }

  lemma {:induction false} SalesSumsAgree(recs: seq<Record>, kept: seq<RawRow>)
    requires |recs| == |kept|
    requires forall i :: 0 <= i < |recs| ==> kept[i].sales == Some(recs[i].sales)
    ensures SumBy(recs, SalesOf) == SalesColumnSum(kept)
  {
    if recs != [] {
      SalesSumsAgree(recs[1..], kept[1..]);
    }
  }

  /**
   * End to end: the `Total Sales` cell of a completed run reads back as the
   * sum of `Sales` over exactly the raw rows that cleaning kept.
   */
  lemma PipelineTotalSales(raw: RawFrame, multiplier: nat -> int)
    requires Pipeline(raw, multiplier).Completed?
    ensures "summary_data" in Pipeline(raw, multiplier).nodes
    ensures var summary := Pipeline(raw, multiplier).nodes["summary_data"];
      && summary.SummaryData? && |summary.summary| == 4
      && summary.summary[0].metric == "Total Sales"
      && summary.summary[0].value.Str?
      && summary.summary[0].value.text == FormatThousands(SalesColumnSum(DropNA(raw.columns, raw.rows)))
      && ParseThousands(summary.summary[0].value.text)
         == Some(SalesColumnSum(DropNA(raw.columns, raw.rows)))
      && ThousandsShaped(summary.summary[0].value.text, SalesColumnSum(DropNA(raw.columns, raw.rows)))
  {
    PipelineComposes(raw, multiplier);
    CleanOutput(raw, multiplier);
    var cleaned := Clean(raw, multiplier).value;
    var analysis := Analyze(cleaned).value;
    var recs := RecordsOf(cleaned);
    var kept := DropNA(raw.columns, raw.rows);
    AnalyzeSumsAddUp(cleaned);
    SalesSumsAgree(recs, kept);
    SummaryMetrics(analysis);
    SummaryTotalSales(analysis);
  }

  /**
   * Only the revenue columns depend on the random draw: two runs on the
   * same raw table agree on completion and on the failure, and a completed
   * pair agrees on the cleaned columns and row count, on the analysis keys,
   * `Sales_sum` and `Sales_mean` row by row, and on `Total Sales`,
   * `Average Daily Sales` and `Number of Products`.
   */
  lemma PipelineStructureIgnoresDraw(raw: RawFrame, m1: nat -> int, m2: nat -> int)
    ensures Pipeline(raw, m1).Completed? <==> Pipeline(raw, m2).Completed?
    ensures Pipeline(raw, m1).Failed? ==> Pipeline(raw, m1).failure == Pipeline(raw, m2).failure
    ensures Pipeline(raw, m1).Completed? ==>
      && Clean(raw, m1).Ok? && Clean(raw, m2).Ok?
      && Analyze(Clean(raw, m1).value).Ok? && Analyze(Clean(raw, m2).value).Ok?
    ensures Pipeline(raw, m1).Completed? ==>
      var c1, c2 := Clean(raw, m1).value, Clean(raw, m2).value;
      var a1, a2 := Analyze(c1).value, Analyze(c2).value;
      && c1.columns == c2.columns && |c1.rows| == |c2.rows|
      && |a1| == |a2|
      && (forall i :: 0 <= i < |a1| ==>
            && AggregateKey(a1[i]) == AggregateKey(a2[i])
            && a1[i].salesSum == a2[i].salesSum
            && a1[i].salesMean == a2[i].salesMean)
      && Summarize(a1)[0] == Summarize(a2)[0]
      && Summarize(a1)[2] == Summarize(a2)[2]
      && Summarize(a1)[3] == Summarize(a2)[3]
  {
    CleanStructureIgnoresDraw(raw, m1, m2);
    PipelineFailure(raw, m1);
    PipelineFailure(raw, m2);
    if Clean(raw, m1).Ok? {
      var c1, c2 := Clean(raw, m1).value, Clean(raw, m2).value;
      AnalyzeIgnoresRevenue(c1, c2);
      if Analyze(c1).Ok? {
        var a1, a2 := Analyze(c1).value, Analyze(c2).value;
        forall i | 0 <= i < |a1|
          ensures && AggregateKey(a1[i]) == AggregateKey(a2[i])
                  && a1[i].salesSum == a2[i].salesSum
                  && a1[i].salesMean == a2[i].salesMean
        {
          assert WithoutRevenue(a1[i]) == WithoutRevenue(a2[i]);
        }
        SummaryIgnoresRevenue(a1, a2);
      }
    }
  }

  /** End to end: `Number of Products` counts the distinct products among
    * the cleaned rows. */
  lemma PipelineProductCount(raw: RawFrame, multiplier: nat -> int)
    requires Pipeline(raw, multiplier).Completed?
    ensures Clean(raw, multiplier).Ok? && Analyze(Clean(raw, multiplier).value).Ok?
    ensures var cleaned := Clean(raw, multiplier).value;
      Summarize(Analyze(cleaned).value)[3] ==
        SummaryRow("Number of Products", Int(|set r | r in RecordsOf(cleaned) :: r.product|))
  {
    PipelineComposes(raw, multiplier);
    var cleaned := Clean(raw, multiplier).value;
    AnalyzeProducts(cleaned);
    SummaryProductCount(Analyze(cleaned).value);
  }

  /** Without a `Date` column the run stops at the clean task: nothing is
    * cleaned, analysed or summarised. */
  lemma PipelineWithoutDate(raw: RawFrame, multiplier: nat -> int)
    requires DateCol !in raw.columns
    ensures Pipeline(raw, multiplier) ==
      Failed(StageFailure("clean_task", MissingColumn(DateCol)), map["raw_data" := RawData(raw)])
    ensures "cleaned_data" !in Pipeline(raw, multiplier).Nodes()
    ensures "analysis_data" !in Pipeline(raw, multiplier).Nodes()
    ensures "summary_data" !in Pipeline(raw, multiplier).Nodes()
  {
    CleanFailure(raw, multiplier);
    PipelineFailure(raw, multiplier);
  }

  /** Three January days of one product, as a raw table. */
  function ExampleRaw(): RawFrame
  {
    Frame({DateCol, ProductCol, SalesCol, RegionCol}, [
      RawRow(Some(Dates.Date(2024, 1, 1)), Some("Widget A"), Some(100), Some("North")),
      RawRow(Some(Dates.Date(2024, 1, 2)), Some("Widget A"), Some(200), Some("South")),
      RawRow(Some(Dates.Date(2024, 1, 3)), Some("Widget A"), Some(300), Some("East"))])
  }

  /**
   * The three rows all get the key "2024-01", form a single group whose
   * `Sales_sum` is 600 and `Sales_mean` 200, and the summary's
   * `Total Sales` is "600", whatever the random draw. (PipelineComposes
   * places these tables in the run's data nodes.)
   */
  lemma PipelineExample(raw: RawFrame, multiplier: nat -> int)
    requires raw == ExampleRaw()
    ensures Pipeline(raw, multiplier).Completed?
    ensures Clean(raw, multiplier).Ok? && Analyze(Clean(raw, multiplier).value).Ok?
    ensures var cleaned := Clean(raw, multiplier).value;
            var analysis := Analyze(cleaned).value;
      && |cleaned.rows| == 3
      && (forall i :: 0 <= i < 3 ==> cleaned.rows[i].month == "2024-01")
      && |analysis| == 1
      && analysis[0].month == "2024-01" && analysis[0].product == "Widget A"
      && analysis[0].salesSum == 600 && analysis[0].salesMean == 200.0
      && Summarize(analysis)[0] == SummaryRow("Total Sales", Str("600"))
  {
    ExampleClean(raw, multiplier);
    var cleaned := Clean(raw, multiplier).value;
    ExampleAnalyze(cleaned);
    ExampleSummary(Analyze(cleaned).value);
    CleanOutput(raw, multiplier);
    PipelineFailure(raw, multiplier);
  }

  lemma ExampleSummary(analysis: seq<Aggregate>)
    requires |analysis| == 1 && analysis[0].salesSum == 600
    ensures Summarize(analysis)[0] == SummaryRow("Total Sales", Str("600"))
  {
    assert SalesSumTotal(analysis) == 600;
    HundredsExample();
  }

  lemma ExampleClean(raw: RawFrame, multiplier: nat -> int)
    requires raw == ExampleRaw()
    ensures Clean(raw, multiplier).Ok?
    ensures var c := Clean(raw, multiplier).value;
      && ProductCol in c.columns && |c.rows| == 3
      && (forall i :: 0 <= i < 3 ==> c.rows[i].month == "2024-01" && c.rows[i].product == Some("Widget A"))
      && c.rows[0].sales == 100 && c.rows[1].sales == 200 && c.rows[2].sales == 300
  {
    ExampleKept(raw);
    var rows := raw.rows;
    assert forall i :: 0 <= i < |rows| ==> rows[i] in rows && Ready(rows[i]);
    assert Clean(raw, multiplier) == Ok(Cleaned(raw.columns, Annotate(rows, multiplier)));
    ExampleAnnotated(rows, multiplier);
  }

  /** The example rows with their derived columns. */
  lemma ExampleAnnotated(rows: seq<RawRow>, multiplier: nat -> int)
    requires rows == ExampleRaw().rows
    requires forall i :: 0 <= i < |rows| ==> Ready(rows[i])
    ensures var c := Annotate(rows, multiplier);
      && |c| == 3
      && (forall i :: 0 <= i < 3 ==> c[i].month == "2024-01" && c[i].product == Some("Widget A"))
      && c[0].sales == 100 && c[1].sales == 200 && c[2].sales == 300
  {
    var c := Annotate(rows, multiplier);
    forall i | 0 <= i < 3
      ensures c[i].month == "2024-01" && c[i].product == Some("Widget A")
    {
      assert c[i] == Extend(rows[i], multiplier(i));
      Dates.MonthKeyExample(rows[i].date.value.day);
    }
  }

  /** Every example row is complete and dated on a day that exists. */
  lemma ExampleKept(raw: RawFrame)
    requires raw == ExampleRaw()
    ensures DropNA(raw.columns, raw.rows) == raw.rows
    ensures FirstInvalidDate(raw.rows) == None
  {
    assert forall r :: r in raw.rows ==> Complete(raw.columns, r);
    DropNANoMissing(raw.columns, raw.rows);
    assert forall r :: r in raw.rows ==> r.date.Some? && Dates.ValidDate(r.date.value);
  }


  lemma ExampleAnalyze(c: CleanFrame)
    requires ProductCol in c.columns && |c.rows| == 3
    requires forall i :: 0 <= i < 3 ==> c.rows[i].month == "2024-01" && c.rows[i].product == Some("Widget A")
    requires c.rows[0].sales == 100 && c.rows[1].sales == 200 && c.rows[2].sales == 300
    ensures Analyze(c).Ok? && |Analyze(c).value| == 1
    ensures var a := Analyze(c).value[0];
      a.month == "2024-01" && a.product == "Widget A" && a.salesSum == 600 && a.salesMean == 200.0
  {
    var recs := RecordsOf(c);
    var k := Key("2024-01", "Widget A");
    assert forall i :: 0 <= i < 3 ==> KeyOf(recs[i]) == k;
    assert recs[2..][1..] == [];
    assert recs[1..][1..] == recs[2..];
    assert GroupKeys(recs[2..]) == [k];
    assert GroupKeys(recs[1..]) == [k];
    assert GroupKeys(recs) == [k];
    assert Members(recs, k) == recs by {
      assert Members(recs[2..], k) == recs[2..];
      assert Members(recs[1..], k) == recs[1..];
    }
    assert SumBy(recs, SalesOf) == 600 by {
      assert SumBy(recs[2..], SalesOf) == 300;
      assert SumBy(recs[1..], SalesOf) == 500;
    }
    assert Analyze(c).value == [Aggregated(recs, k)];
    assert Mean(600, 3) == 200.0;
  }
}
