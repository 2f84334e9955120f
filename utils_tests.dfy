/** A worked example of the frames `reports2string` builds from two per-rank reports. */
module UtilsScenarios {
  import opened Wrappers
  import opened Utils

  /** A report row with one metric and its support. */
  function Row(name: string, precision: int, support: int): (string, Performance<int>) {
    (name, [("precision", precision), ("support", support)])
  }

  lemma RowFacts(name: string, precision: int, support: int)
    ensures DistinctNames(Row(name, precision, support).1)
    ensures Lookup(Row(name, precision, support).1, Support) == Some(support)
    ensures Lookup(Row(name, precision, support).1, "precision") == Some(precision)
    ensures MetricSet(Row(name, precision, support).1) == {"precision"}
  {
    var perf := Row(name, precision, support).1;
    assert perf[..1] == [("precision", precision)] && perf[..1][..0] == [];
    assert perf[1..] == [("support", support)];
    assert MetricSet(perf[..1]) == {"precision"};
  }

  /** The report for rank `top`: one class row and the micro average, each with support 5. */
  function ExampleReport(top: nat): Report<int> {
    [Row("one", 2 * top + 1, 5), Row("micro avg", 2 * top + 2, 5)]
  }

  function ExampleReports(): seq<Report<int>> {
    [ExampleReport(0), ExampleReport(1)]
  }

  /** The frame of one example report: three rows with the blank one in the middle. */
  lemma ExampleFrame(top: nat, isLast: bool, fmt: (int, int) -> string)
    ensures BuildFrame(top, isLast, ExampleReport(top), 2, fmt).Success?
    ensures var f := BuildFrame(top, isLast, ExampleReport(top), 2, fmt).value;
            f.labels == ["one", "", "micro avg"] &&
            f.columns.Keys == {MetricKey(top, "precision")} + (if isLast then {SupportKey} else {})
  {
    var report := ExampleReport(top);
    RowFacts("one", 2 * top + 1, 5);
    RowFacts("micro avg", 2 * top + 2, 5);
    assert report[..1] == [report[0]] && report[..1][..0] == [];
    FrameOutcome(top, isLast, report, 2, fmt);
    FrameLabels(top, isLast, report, 2, fmt);
    assert Names(report) == ["one", "micro avg"];
    assert Names(report)[..1] + [""] + Names(report)[1..] == ["one", "", "micro avg"];
    assert ReportMetrics(report[..1]) == ReportMetrics(report[..1][..0]) + MetricSet(report[0].1);
    assert ReportMetrics(report) == {"precision"};
    FrameKeys(top, isLast, report, 2, fmt);
    assert MetricKeys(top, {"precision"}) == {MetricKey(top, "precision")};
  }

  /** The cells of that frame: the formatted precisions around the blank, and the raw support. */
  lemma ExampleCells(top: nat, isLast: bool, fmt: (int, int) -> string)
    ensures BuildFrame(top, isLast, ExampleReport(top), 2, fmt).Success?
    ensures var f := BuildFrame(top, isLast, ExampleReport(top), 2, fmt).value;
            MetricKey(top, "precision") in f.columns &&
            f.columns[MetricKey(top, "precision")] == [Text(fmt(2 * top + 1, 2)), Text(""), Text(fmt(2 * top + 2, 2))] &&
            (isLast ==> SupportKey in f.columns && f.columns[SupportKey] == [Raw(5), Text(""), Raw(5)])
  {
    var report := ExampleReport(top);
    RowFacts("one", 2 * top + 1, 5);
    RowFacts("micro avg", 2 * top + 2, 5);
    ExampleFrame(top, isLast, fmt);
    var f := BuildFrame(top, isLast, report, 2, fmt).value;
    FrameTable(top, isLast, report, 2, fmt);
    assert RowOf(report, 0) == 0 && RowOf(report, 1) == 2;
    var column := f.columns[MetricKey(top, "precision")];
    assert |column| == 3 && column[0] == Text(fmt(2 * top + 1, 2)) && column[1] == Text("") && column[2] == Text(fmt(2 * top + 2, 2));
    if isLast {
      var support := f.columns[SupportKey];
      assert |support| == 3 && support[0] == Raw(5) && support[1] == Text("") && support[2] == Raw(5);
    }
  }

  /**
    Rank 1 gets the column ("Top 1", "precision", ""), rank 2 the column
    ("Top 2", "precision", "") and the one support column; both frames have
    a blank row before "micro avg", and support keeps its raw value.
  */
  lemma TwoRankScenario(fmt: (int, int) -> string)
    ensures BuildFrames(ExampleReports(), 2, 2, fmt).Success?
    ensures var frames := BuildFrames(ExampleReports(), 2, 2, fmt).value;
            |frames| == 2 &&
            frames[0].labels == ["one", "", "micro avg"] && frames[1].labels == ["one", "", "micro avg"] &&
            frames[0].columns.Keys == {("Top 1", "precision", "")} &&
            frames[1].columns.Keys == {("Top 2", "precision", ""), ("", "support", "")} &&
            frames[0].columns[("Top 1", "precision", "")] == [Text(fmt(1, 2)), Text(""), Text(fmt(2, 2))] &&
            frames[1].columns[("Top 2", "precision", "")] == [Text(fmt(3, 2)), Text(""), Text(fmt(4, 2))] &&
            frames[1].columns[("", "support", "")] == [Raw(5), Text(""), Raw(5)]
  {
    var reports := ExampleReports();
    HeaderKeys();
    RowFacts("one", 3, 5);
    RowFacts("micro avg", 4, 5);
    FramesOutcome(reports, 2, fmt);
    FramesShape(reports, 2, 2, fmt);
    var frames := BuildFrames(reports, 2, 2, fmt).value;
    assert frames[0] == BuildFrame(0, false, ExampleReport(0), 2, fmt).value;
    assert frames[1] == BuildFrame(1, true, ExampleReport(1), 2, fmt).value;
    ExampleFrame(0, false, fmt);
    ExampleFrame(1, true, fmt);
    ExampleCells(0, false, fmt);
    ExampleCells(1, true, fmt);
  }

  lemma HeaderKeys()
    ensures MetricKey(0, "precision") == ("Top 1", "precision", "")
    ensures MetricKey(1, "precision") == ("Top 2", "precision", "")
  {
    assert TopHeader(0) == "Top 1" && TopHeader(1) == "Top 2";
  }

  /** A last report whose second row lacks 'support' stops with the KeyError for that row. */
  lemma MissingSupportScenario(fmt: (int, int) -> string)
    ensures BuildFrames([[Row("one", 1, 5), ("two", [("precision", 2)])]], 1, 2, fmt) == Failure(MissingSupport("two"))
  {
    var report: Report<int> := [Row("one", 1, 5), ("two", [("precision", 2)])];
    assert report[..1] == [report[0]] && report[..1][..0] == [];
    FrameOutcome(0, true, report, 2, fmt);
  }
}
