/**
  Column assembly of `reports2string` (toppred/utils.py).

  Each per-rank classification report is an ordered dictionary from a row
  label (a class name or an aggregate such as "micro avg") to an ordered
  dictionary of metrics. For every report the source builds a list of row
  labels and an insertion-ordered dictionary of columns, which it hands to
  `pandas.DataFrame`; the frames are then concatenated side by side and
  rendered. The model stops at the frames; fixed-point number formatting and
  the pandas rendering are parameters.
*/
module Utils {
  import opened Wrappers

  /** A column name: the three levels of the pandas MultiIndex. */
  type Key = (string, string, string)

  const MicroAvg: string := "micro avg"
  const Support: string := "support"

  /** The one column that holds support values, `('', 'support', '')`. */
  const SupportKey: Key := ("", "support", "")

  /** A table cell: a formatted or padding string, or a raw support value. */
  datatype Cell<V> = Text(text: string) | Raw(value: V)

  /** A dictionary as the ordered list of its (key, value) items. */
  type Performance<V> = seq<(string, V)>
  type Report<V> = seq<(string, Performance<V>)>

  /**
    What `pd.DataFrame(metrics, index=labels)` receives: the row labels, the
    column names in insertion order, and the columns.
  */
  datatype Frame<V> = Frame(labels: seq<string>, keys: seq<Key>, columns: map<Key, seq<Cell<V>>>)

  /** The exceptions `reports2string` can raise before rendering. */
  datatype MergeError =
    | MissingSupport(rowLabel: string)   // KeyError: performance['support'] in the last report
    | NothingToConcatenate            // pd.concat of an empty list

  // ---------------------------------------------------------------------------
  // Decimal rank numbers: the "Top {top+1}" header

  function DigitChar(d: nat): char
    requires d < 10
  {
    ('0' as int + d) as char
  }

  function DigitValue(c: char): int {
    c as int - '0' as int
  }

  /** `str(n)` for a natural number. */
  function DecimalString(n: nat): (s: string)
    ensures |s| > 0
    ensures forall i :: 0 <= i < |s| ==> '0' <= s[i] <= '9'
  {
    if n < 10 then [DigitChar(n)] else DecimalString(n / 10) + [DigitChar(n % 10)]
  }

  /** The value of a string of decimal digits, read left to right. */
  function DecimalValue(s: string): int {
    if s == [] then 0 else DecimalValue(s[..|s| - 1]) * 10 + DigitValue(s[|s| - 1])
  }

  lemma {:induction false} DecimalRoundTrip(n: nat)
    ensures DecimalValue(DecimalString(n)) == n
  {
    if n >= 10 {
      var s := DecimalString(n);
      assert s[..|s| - 1] == DecimalString(n / 10);
      DecimalRoundTrip(n / 10);
    }
  }

  function TopHeader(top: nat): string {
    "Top " + DecimalString(top + 1)
  }

  /** The column name of a non-support metric of the report for rank `top`. */
  function MetricKey(top: nat, metric: string): (k: Key)
    ensures k != SupportKey
  {
    (TopHeader(top), metric, "")
  }

  /** Different ranks or different metrics never share a column name. */
  lemma MetricKeyInjective(t1: nat, m1: string, t2: nat, m2: string)
    ensures MetricKey(t1, m1) == MetricKey(t2, m2) <==> t1 == t2 && m1 == m2
  {
    if MetricKey(t1, m1) == MetricKey(t2, m2) {
      assert TopHeader(t1)[4..] == DecimalString(t1 + 1);
      assert TopHeader(t2)[4..] == DecimalString(t2 + 1);
      DecimalRoundTrip(t1 + 1);
      DecimalRoundTrip(t2 + 1);
    }
  }

  function MetricKeys(top: nat, metrics: set<string>): set<Key> {
    set m | m in metrics :: MetricKey(top, m)
  }

  lemma InMetricKeys(top: nat, metrics: set<string>, k: Key)
    ensures k in MetricKeys(top, metrics) <==> k.1 in metrics && k == MetricKey(top, k.1)
  {
  }

  // ---------------------------------------------------------------------------
  // Ordered dictionaries

  ghost predicate Distinct<T>(s: seq<T>) {
    forall i, j :: 0 <= i < j < |s| ==> s[i] != s[j]
  }

  /** A dictionary has each key once. */
  predicate DistinctNames<T>(items: seq<(string, T)>) {
    forall i, j :: 0 <= i < j < |items| ==> items[i].0 != items[j].0
  }

  function Names<T>(items: seq<(string, T)>): (r: seq<string>)
    ensures |r| == |items| && forall i :: 0 <= i < |items| ==> r[i] == items[i].0
  {
    seq(|items|, i requires 0 <= i < |items| => items[i].0)
  }

  /** `d[name]`, None when the key is absent. */
  function Lookup<V>(items: seq<(string, V)>, name: string): (r: Option<V>)
  {
    if items == [] then None
    else if items[0].0 == name then Some(items[0].1)
    else Lookup(items[1..], name)
  }

  lemma {:induction false} LookupAt<V>(items: seq<(string, V)>, i: nat)
    requires DistinctNames(items) && i < |items|
    ensures Lookup(items, items[i].0) == Some(items[i].1)
  {
    if i > 0 {
      LookupAt(items[1..], i - 1);
    }
  }

  lemma {:induction false} LookupAbsent<V>(items: seq<(string, V)>, name: string)
    ensures Lookup(items, name).None? <==> forall i :: 0 <= i < |items| ==> items[i].0 != name
  {
    if items != [] {
      LookupAbsent(items[1..], name);
      assert forall i :: 1 <= i < |items| ==> items[i] == items[1..][i - 1];
    }
  }

  /** The names of a row's metrics other than support. */
  function MetricSet<V>(perf: Performance<V>): (r: set<string>)
    ensures Support !in r
  {
    if perf == [] then {}
    else MetricSet(perf[..|perf| - 1]) + (if perf[|perf| - 1].0 != Support then {perf[|perf| - 1].0} else {})
  }

  lemma {:induction false} MetricSetMembers<V>(perf: Performance<V>, m: string)
    ensures m in MetricSet(perf) <==> m != Support && exists i :: 0 <= i < |perf| && perf[i].0 == m
  {
    if perf != [] {
      var init := perf[..|perf| - 1];
      MetricSetMembers(init, m);
      if exists i :: 0 <= i < |init| && init[i].0 == m {
        var i :| 0 <= i < |init| && init[i].0 == m;
        assert perf[i].0 == m;
      }
      if exists i :: 0 <= i < |perf| && perf[i].0 == m {
        var i :| 0 <= i < |perf| && perf[i].0 == m;
        if i < |init| {
          assert init[i].0 == m;
        }
      }
    }
  }

  /** The metric names of every row of a report. */
  function ReportMetrics<V>(report: Report<V>): set<string>
  {
    if report == [] then {}
    else ReportMetrics(report[..|report| - 1]) + MetricSet(report[|report| - 1].1)
  }

  // ---------------------------------------------------------------------------
  // The row-by-row construction, as functions of the processed prefix

  /** The column names are the map's keys, each once, in insertion order. */
  ghost predicate WellFormed<V>(f: Frame<V>) {
    Distinct(f.keys) && forall k :: k in f.columns <==> k in f.keys
  }

  /** `for key in metrics: metrics[key].append('')` */
  function Pad<V>(columns: map<Key, seq<Cell<V>>>): map<Key, seq<Cell<V>>> {
    map k | k in columns :: columns[k] + [Text("")]
  }

  /** Create the column on first sight, then append the cell. */
  function Put<V>(f: Frame<V>, key: Key, cell: Cell<V>): Frame<V> {
    if key in f.columns then f.(columns := f.columns[key := f.columns[key] + [cell]])
    else f.(keys := f.keys + [key], columns := f.columns[key := [cell]])
  }

  /** The inner loop over a row's metrics: every non-support value, formatted. */
  function PutMetrics<V>(f: Frame<V>, top: nat, perf: Performance<V>, digits: int, fmt: (V, int) -> string): Frame<V>
  {
    if perf == [] then f
    else
      var g := PutMetrics(f, top, perf[..|perf| - 1], digits, fmt);
      var (metric, value) := perf[|perf| - 1];
      if metric != Support then Put(g, MetricKey(top, metric), Text(fmt(value, digits))) else g
  }

  /** The blank row before "micro avg" (toppred/utils.py:36-39), then the row's own label. */
  function OpenRow<V>(f: Frame<V>, rowLabel: string): Frame<V> {
    var padded := if rowLabel == MicroAvg then f.(labels := f.labels + [""], columns := Pad(f.columns)) else f;
    padded.(labels := padded.labels + [rowLabel])
  }

  /** One row of report `top`: its label, its metrics, and support in the last report. */
  function AddRow<V>(f: Frame<V>, top: nat, isLast: bool, rowLabel: string, perf: Performance<V>,
                     digits: int, fmt: (V, int) -> string): Result<Frame<V>, MergeError>
  {
    var g := PutMetrics(OpenRow(f, rowLabel), top, perf, digits, fmt);
    if !isLast then Success(g)
    else match Lookup(perf, Support)
      case None => Failure(MissingSupport(rowLabel))
      case Some(s) => Success(Put(g, SupportKey, Raw(s)))
  }

  /** The frame built from report `top`; `isLast` says whether it is the last report. */
  function BuildFrame<V>(top: nat, isLast: bool, report: Report<V>, digits: int, fmt: (V, int) -> string): Result<Frame<V>, MergeError>
  {
    if report == [] then Success(Frame([], [], map[]))
    else match BuildFrame(top, isLast, report[..|report| - 1], digits, fmt)
      case Failure(e) => Failure(e)
      case Success(f) => AddRow(f, top, isLast, report[|report| - 1].0, report[|report| - 1].1, digits, fmt)
  }

  /** The frames of the first `count` reports. */
  function BuildFrames<V>(reports: seq<Report<V>>, count: nat, digits: int, fmt: (V, int) -> string): Result<seq<Frame<V>>, MergeError>
    requires count <= |reports|
  {
    if count == 0 then Success([])
    else match BuildFrames(reports, count - 1, digits, fmt)
      case Failure(e) => Failure(e)
      case Success(frames) =>
        match BuildFrame(count - 1, count == |reports|, reports[count - 1], digits, fmt)
        case Failure(e) => Failure(e)
        case Success(f) => Success(frames + [f])
  }

  // ---------------------------------------------------------------------------
  // The source's loops

  /** `for key in metrics: metrics[key].append('')` (toppred/utils.py:38-39), over the keys in insertion order. */
  method PadColumns<V>(keys: seq<Key>, metrics: map<Key, seq<Cell<V>>>) returns (padded: map<Key, seq<Cell<V>>>)
    requires WellFormed(Frame([], keys, metrics))
    ensures padded == Pad(metrics)
  {
    padded := metrics;
    for j := 0 to |keys|
      invariant padded.Keys == metrics.Keys
      invariant forall k :: k in metrics ==> padded[k] == if k in keys[..j] then metrics[k] + [Text("")] else metrics[k]
    {
      assert keys[..j + 1] == keys[..j] + [keys[j]];
      padded := padded[keys[j] := padded[keys[j]] + [Text("")]];
    }
    assert keys[..|keys|] == keys;
  }

  /**
    The loop over one row's metrics (toppred/utils.py:44-57): every metric but
    support is formatted and appended to its column, which is created on first
    sight.
  */
  method AppendMetrics<V>(labels: seq<string>, keys: seq<Key>, metrics: map<Key, seq<Cell<V>>>, top: nat,
                          performance: Performance<V>, digits: int, fmt: (V, int) -> string)
    returns (keys': seq<Key>, metrics': map<Key, seq<Cell<V>>>)
    ensures Frame(labels, keys', metrics') == PutMetrics(Frame(labels, keys, metrics), top, performance, digits, fmt)
  {
    keys', metrics' := keys, metrics;
    for p := 0 to |performance|
      invariant PutMetrics(Frame(labels, keys, metrics), top, performance[..p], digits, fmt) == Frame(labels, keys', metrics')
    {
      assert performance[..p + 1][..p] == performance[..p];
      var (metric, value) := performance[p];
      ghost var before := Frame(labels, keys', metrics');
      if metric != Support {
        var key := MetricKey(top, metric);
        if key !in metrics' {
          metrics' := metrics'[key := []];
          keys' := keys' + [key];
        }
        var cell := Text(fmt(value, digits));
        assert metrics'[key] + [cell] == if key in before.columns then before.columns[key] + [cell] else [cell];
        metrics' := metrics'[key := metrics'[key] + [cell]];
        assert Frame(labels, keys', metrics') == Put(before, key, cell);
      }
    }
    assert performance[..|performance|] == performance;
  }

  /**
    The loop over the rows of report `top` (toppred/utils.py:29-63): the frame
    handed to `pd.DataFrame`, or the KeyError of a last-report row without
    'support'.
  */
  method ReportFrame<V>(top: nat, isLast: bool, report: Report<V>, digits: int, fmt: (V, int) -> string)
    returns (r: Result<Frame<V>, MergeError>)
    ensures r == BuildFrame(top, isLast, report, digits, fmt)
  {
    var labels: seq<string> := [];
    var keys: seq<Key> := [];
    var metrics: map<Key, seq<Cell<V>>> := map[];
    for e := 0 to |report|
      invariant BuildFrame(top, isLast, report[..e], digits, fmt) == Success(Frame(labels, keys, metrics))
    {
      assert report[..e + 1][..e] == report[..e];
      BuildFrameWellFormed(top, isLast, report[..e], digits, fmt);
      var (rowLabel, performance) := report[e];
      if rowLabel == MicroAvg {
        labels := labels + [""];
        metrics := PadColumns(keys, metrics);
      }
      labels := labels + [rowLabel];
      keys, metrics := AppendMetrics(labels, keys, metrics, top, performance, digits, fmt);
      if isLast {
        var support := Lookup(performance, Support);
        if support.None? {
          BuildFrameFailureSticks(top, isLast, report, e + 1, digits, fmt);
          return Failure(MissingSupport(rowLabel));
        }
        ghost var before := Frame(labels, keys, metrics);
        if SupportKey !in metrics {
          metrics := metrics[SupportKey := []];
          keys := keys + [SupportKey];
        }
        var cell := Raw(support.value);
        assert metrics[SupportKey] + [cell] == if SupportKey in before.columns then before.columns[SupportKey] + [cell] else [cell];
        metrics := metrics[SupportKey := metrics[SupportKey] + [cell]];
        assert Frame(labels, keys, metrics) == Put(before, SupportKey, cell);
      }
    }
    assert report[..|report|] == report;
    r := Success(Frame(labels, keys, metrics));
  }

  /**
    `reports2string` up to the list of frames (toppred/utils.py:24-63): one
    frame per report, in report order; only the last report gets support.
  */
  method ReportsToFrames<V>(reports: seq<Report<V>>, digits: int, fmt: (V, int) -> string)
    returns (r: Result<seq<Frame<V>>, MergeError>)
    ensures r == BuildFrames(reports, |reports|, digits, fmt)
    ensures r.Success? ==>
              |r.value| == |reports| &&
              forall k :: 0 <= k < |reports| ==> BuildFrame(k, k == |reports| - 1, reports[k], digits, fmt) == Success(r.value[k])
  {
    var dataframes: seq<Frame<V>> := [];
    for top := 0 to |reports|
      invariant BuildFrames(reports, top, digits, fmt) == Success(dataframes)
    {
      var frame := ReportFrame(top, top == |reports| - 1, reports[top], digits, fmt);
      if frame.Failure? {
        BuildFramesFailureSticks(reports, top + 1, |reports|, digits, fmt);
        return Failure(frame.error);
      }
      dataframes := dataframes + [frame.value];
    }
    r := Success(dataframes);
    FramesShape(reports, |reports|, digits, fmt);
  }

  /**
    `reports2string` (toppred/utils.py:6-76) with the pandas rendering of the
    concatenated frames given as `render`.
  */
  method ReportsToString<V>(reports: seq<Report<V>>, digits: int, fmt: (V, int) -> string, render: seq<Frame<V>> -> string)
    returns (r: Result<string, MergeError>)
    ensures reports == [] ==> r == Failure(NothingToConcatenate)
    ensures reports != [] ==> (r.Success? <==> AllSupported(reports[|reports| - 1]))
    ensures r.Failure? && reports != [] ==>
              (exists e :: 0 <= e < |Last(reports)| && r.error == MissingSupport(Last(reports)[e].0))
    ensures r.Success? ==>
              (BuildFrames(reports, |reports|, digits, fmt).Success? &&
               r.value == "\n" + render(BuildFrames(reports, |reports|, digits, fmt).value) + "\n")
  {
    var frames := ReportsToFrames(reports, digits, fmt);
    FramesOutcome(reports, digits, fmt);
    if frames.Failure? {
      return Failure(frames.error);
    }
    if frames.value == [] {
      return Failure(NothingToConcatenate);
    }
    r := Success("\n" + render(frames.value) + "\n");
  }

  // ---------------------------------------------------------------------------
  // Well-formedness and errors

  lemma PutWellFormed<V>(f: Frame<V>, key: Key, cell: Cell<V>)
    requires WellFormed(f)
    ensures WellFormed(Put(f, key, cell)) && Put(f, key, cell).labels == f.labels
  {
  }

  lemma {:induction false} PutMetricsWellFormed<V>(f: Frame<V>, top: nat, perf: Performance<V>, digits: int, fmt: (V, int) -> string)
    requires WellFormed(f)
    ensures WellFormed(PutMetrics(f, top, perf, digits, fmt))
  {
    if perf != [] {
      PutMetricsWellFormed(f, top, perf[..|perf| - 1], digits, fmt);
      var g := PutMetrics(f, top, perf[..|perf| - 1], digits, fmt);
      PutWellFormed(g, MetricKey(top, perf[|perf| - 1].0), Text(fmt(perf[|perf| - 1].1, digits)));
    }
  }

  lemma {:induction false} BuildFrameWellFormed<V>(top: nat, isLast: bool, report: Report<V>, digits: int, fmt: (V, int) -> string)
    ensures BuildFrame(top, isLast, report, digits, fmt).Success? ==> WellFormed(BuildFrame(top, isLast, report, digits, fmt).value)
  {
    if report != [] {
      var init := report[..|report| - 1];
      BuildFrameWellFormed(top, isLast, init, digits, fmt);
      var prev := BuildFrame(top, isLast, init, digits, fmt);
      if prev.Success? {
        var f := prev.value;
        var (rowLabel, perf) := report[|report| - 1];
        assert WellFormed(OpenRow(f, rowLabel));
        PutMetricsWellFormed(OpenRow(f, rowLabel), top, perf, digits, fmt);
        var g := PutMetrics(OpenRow(f, rowLabel), top, perf, digits, fmt);
        if isLast && Lookup(perf, Support).Some? {
          PutWellFormed(g, SupportKey, Raw(Lookup(perf, Support).value));
        }
      }
    }
  }

  /** An exception on some row ends the whole report with that exception. */
  lemma {:induction false} BuildFrameFailureSticks<V>(top: nat, isLast: bool, report: Report<V>, n: nat, digits: int, fmt: (V, int) -> string)
    requires n <= |report| && BuildFrame(top, isLast, report[..n], digits, fmt).Failure?
    ensures BuildFrame(top, isLast, report, digits, fmt) == BuildFrame(top, isLast, report[..n], digits, fmt)
  {
    if n < |report| {
      assert report[..|report| - 1][..n] == report[..n];
      BuildFrameFailureSticks(top, isLast, report[..|report| - 1], n, digits, fmt);
    } else {
      assert report[..n] == report;
    }
  }

  lemma {:induction false} BuildFramesFailureSticks<V>(reports: seq<Report<V>>, n: nat, count: nat, digits: int, fmt: (V, int) -> string)
    requires n <= count <= |reports| && BuildFrames(reports, n, digits, fmt).Failure?
    ensures BuildFrames(reports, count, digits, fmt) == BuildFrames(reports, n, digits, fmt)
  {
    if n < count {
      BuildFramesFailureSticks(reports, n, count - 1, digits, fmt);
    }
  }

  function Last<T>(s: seq<T>): T
    requires s != []
  {
    s[|s| - 1]
  }

  /** Every row of the report has a 'support' entry. */
  predicate AllSupported<V>(report: Report<V>) {
    forall e :: 0 <= e < |report| ==> Lookup(report[e].1, Support).Some?
  }

  /**
    A report other than the last cannot fail; the last one fails exactly when
    a row lacks 'support', and then with the rowLabel of the first such row.
  */
  lemma {:induction false} FrameOutcome<V>(top: nat, isLast: bool, report: Report<V>, digits: int, fmt: (V, int) -> string)
    ensures !isLast ==> BuildFrame(top, isLast, report, digits, fmt).Success?
    ensures isLast ==> (BuildFrame(top, isLast, report, digits, fmt).Success? <==> AllSupported(report))
    ensures BuildFrame(top, isLast, report, digits, fmt).Failure? ==>
              exists e :: 0 <= e < |report| && AllSupported(report[..e]) && Lookup(report[e].1, Support).None? &&
                BuildFrame(top, isLast, report, digits, fmt).error == MissingSupport(report[e].0)
  {
    if report != [] {
      var init := report[..|report| - 1];
      FrameOutcome(top, isLast, init, digits, fmt);
      assert forall e :: 0 <= e < |init| ==> init[e] == report[e];
      var r := BuildFrame(top, isLast, report, digits, fmt);
      if BuildFrame(top, isLast, init, digits, fmt).Failure? {
        var e :| 0 <= e < |init| && AllSupported(init[..e]) && Lookup(init[e].1, Support).None? &&
                 BuildFrame(top, isLast, init, digits, fmt).error == MissingSupport(init[e].0);
        assert init[..e] == report[..e];
      } else if r.Failure? {
        assert init == report[..|report| - 1];
      }
    }
  }

  /**
    The frames of all reports: exactly one per report, in report order, and
    the only possible error is the last report's missing 'support'.
  */
  lemma {:induction false} FramesShape<V>(reports: seq<Report<V>>, count: nat, digits: int, fmt: (V, int) -> string)
    requires count <= |reports|
    ensures BuildFrames(reports, count, digits, fmt).Success? ==>
              var frames := BuildFrames(reports, count, digits, fmt).value;
              |frames| == count &&
              forall k :: 0 <= k < count ==>
                BuildFrame(k, k == |reports| - 1, reports[k], digits, fmt) == Success(frames[k])
  {
    if count > 0 {
      FramesShape(reports, count - 1, digits, fmt);
      if BuildFrames(reports, count, digits, fmt).Success? {
        var prev := BuildFrames(reports, count - 1, digits, fmt);
        var f := BuildFrame(count - 1, count == |reports|, reports[count - 1], digits, fmt);
        assert prev.Success? && f.Success?;
        assert BuildFrames(reports, count, digits, fmt).value == prev.value + [f.value];
      }
    }
  }

  lemma FramesOutcome<V>(reports: seq<Report<V>>, digits: int, fmt: (V, int) -> string)
    ensures reports == [] ==> BuildFrames(reports, |reports|, digits, fmt) == Success([])
    ensures reports != [] ==>
              (BuildFrames(reports, |reports|, digits, fmt).Success? <==> AllSupported(reports[|reports| - 1]))
    ensures reports != [] && BuildFrames(reports, |reports|, digits, fmt).Failure? ==>
              exists e :: 0 <= e < |Last(reports)| &&
                BuildFrames(reports, |reports|, digits, fmt).error == MissingSupport(Last(reports)[e].0)
  {
    if reports != [] {
      var n := |reports|;
      FramesPrefixSucceed(reports, n - 1, digits, fmt);
      FrameOutcome(n - 1, true, reports[n - 1], digits, fmt);
      assert Last(reports) == reports[n - 1];
    }
  }

  lemma {:induction false} FramesPrefixSucceed<V>(reports: seq<Report<V>>, count: nat, digits: int, fmt: (V, int) -> string)
    requires count < |reports|
    ensures BuildFrames(reports, count, digits, fmt).Success?
  {
    if count > 0 {
      FramesPrefixSucceed(reports, count - 1, digits, fmt);
      FrameOutcome(count - 1, false, reports[count - 1], digits, fmt);
    }
  }

  // ---------------------------------------------------------------------------
  // Labels, column names and cells of one frame

  /** The cells of column `k` after the optional blank row, or nothing when the column does not exist yet. */
  function PaddedColumn<V>(columns: map<Key, seq<Cell<V>>>, k: Key, blank: bool): seq<Cell<V>> {
    if k !in columns then [] else if blank then columns[k] + [Text("")] else columns[k]
  }

  function Existing<V>(columns: map<Key, seq<Cell<V>>>, k: Key): seq<Cell<V>> {
    if k in columns then columns[k] else []
  }

  lemma MetricKeysUnion(top: nat, a: set<string>, b: set<string>)
    ensures MetricKeys(top, a + b) == MetricKeys(top, a) + MetricKeys(top, b)
  {
    forall k | k in MetricKeys(top, a + b)
      ensures k in MetricKeys(top, a) + MetricKeys(top, b)
    {
      InMetricKeys(top, a + b, k);
      InMetricKeys(top, a, k);
      InMetricKeys(top, b, k);
    }
  }

  /** The metric loop keeps the row labels and adds one column per metric name it has not seen. */
  lemma {:induction false} PutMetricsKeys<V>(f: Frame<V>, top: nat, perf: Performance<V>, digits: int, fmt: (V, int) -> string)
    ensures PutMetrics(f, top, perf, digits, fmt).labels == f.labels
    ensures PutMetrics(f, top, perf, digits, fmt).columns.Keys == f.columns.Keys + MetricKeys(top, MetricSet(perf))
  {
    if perf != [] {
      var init := perf[..|perf| - 1];
      var (metric, value) := perf[|perf| - 1];
      PutMetricsKeys(f, top, init, digits, fmt);
      MetricKeysUnion(top, MetricSet(init), if metric != Support then {metric} else {});
      assert MetricKeys(top, if metric != Support then {metric} else {}) ==
             if metric != Support then {MetricKey(top, metric)} else {};
    }
  }

  /** What the metric loop of one row does to the columns. */
  lemma {:induction false} PutMetricsEffect<V>(f: Frame<V>, top: nat, perf: Performance<V>, digits: int, fmt: (V, int) -> string)
    requires DistinctNames(perf)
    ensures PutMetrics(f, top, perf, digits, fmt).labels == f.labels
    ensures PutMetrics(f, top, perf, digits, fmt).columns.Keys == f.columns.Keys + MetricKeys(top, MetricSet(perf))
    ensures forall k :: k !in MetricKeys(top, MetricSet(perf)) ==>
              Existing(PutMetrics(f, top, perf, digits, fmt).columns, k) == Existing(f.columns, k)
    ensures forall i :: 0 <= i < |perf| && perf[i].0 != Support ==>
              Existing(PutMetrics(f, top, perf, digits, fmt).columns, MetricKey(top, perf[i].0)) ==
                Existing(f.columns, MetricKey(top, perf[i].0)) + [Text(fmt(perf[i].1, digits))]
  {
    if perf != [] {
      var init := perf[..|perf| - 1];
      var (metric, value) := perf[|perf| - 1];
      PutMetricsKeys(f, top, perf, digits, fmt);
      PutMetricsEffect(f, top, init, digits, fmt);
      var g := PutMetrics(f, top, init, digits, fmt);
      MetricSetMembers(init, metric);
      assert forall i :: 0 <= i < |init| ==> init[i] == perf[i];
      forall k | k in MetricKeys(top, MetricSet(perf))
        ensures k in MetricKeys(top, MetricSet(init)) || (metric != Support && k == MetricKey(top, metric))
      {
        InMetricKeys(top, MetricSet(perf), k);
        InMetricKeys(top, MetricSet(init), k);
      }
      forall k | k in MetricKeys(top, MetricSet(init))
        ensures k in MetricKeys(top, MetricSet(perf))
      {
        InMetricKeys(top, MetricSet(perf), k);
        InMetricKeys(top, MetricSet(init), k);
      }
      if metric != Support {
        assert MetricKey(top, metric) in MetricKeys(top, MetricSet(perf));
        forall i | 0 <= i < |init| && init[i].0 != Support
          ensures MetricKey(top, init[i].0) != MetricKey(top, metric)
        {
          assert init[i].0 == perf[i].0 != perf[|perf| - 1].0;
        }
        InMetricKeys(top, MetricSet(init), MetricKey(top, metric));
      }
    }
  }

  lemma OpenRowEffect<V>(f: Frame<V>, rowLabel: string)
    ensures OpenRow(f, rowLabel).labels == f.labels + (if rowLabel == MicroAvg then ["", rowLabel] else [rowLabel])
    ensures OpenRow(f, rowLabel).columns.Keys == f.columns.Keys
    ensures forall k :: Existing(OpenRow(f, rowLabel).columns, k) == PaddedColumn(f.columns, k, rowLabel == MicroAvg)
  {
  }

  /**
    What one row does to the frame: the labels gain the optional blank and the
    row's label, the column names gain the row's metric keys (and support in the
    last report), every column gains the optional blank cell, and each metric
    (and support) column then gains the row's own cell.
  */
  ghost predicate RowEffect<V>(f: Frame<V>, top: nat, isLast: bool, rowLabel: string, perf: Performance<V>,
                               digits: int, fmt: (V, int) -> string, h: Frame<V>)
  {
    h.labels == f.labels + (if rowLabel == MicroAvg then ["", rowLabel] else [rowLabel]) &&
    h.columns.Keys == f.columns.Keys + MetricKeys(top, MetricSet(perf)) + (if isLast then {SupportKey} else {}) &&
    (forall k :: k in f.columns && k !in MetricKeys(top, MetricSet(perf)) && k != SupportKey ==>
       h.columns[k] == PaddedColumn(f.columns, k, rowLabel == MicroAvg)) &&
    (forall m :: m in MetricSet(perf) ==>
       Lookup(perf, m).Some? &&
       h.columns[MetricKey(top, m)] ==
         PaddedColumn(f.columns, MetricKey(top, m), rowLabel == MicroAvg) + [Text(fmt(Lookup(perf, m).value, digits))]) &&
    (isLast ==>
       Lookup(perf, Support).Some? &&
       h.columns[SupportKey] == PaddedColumn(f.columns, SupportKey, rowLabel == MicroAvg) + [Raw(Lookup(perf, Support).value)])
  }

  lemma AddRowEffect<V>(f: Frame<V>, top: nat, isLast: bool, rowLabel: string, perf: Performance<V>,
                        digits: int, fmt: (V, int) -> string, h: Frame<V>)
    requires DistinctNames(perf) && AddRow(f, top, isLast, rowLabel, perf, digits, fmt) == Success(h)
    ensures RowEffect(f, top, isLast, rowLabel, perf, digits, fmt, h)
  {
    var f2 := OpenRow(f, rowLabel);
    OpenRowEffect(f, rowLabel);
    PutMetricsEffect(f2, top, perf, digits, fmt);
    var g := PutMetrics(f2, top, perf, digits, fmt);
    assert SupportKey !in MetricKeys(top, MetricSet(perf));
    forall m | m in MetricSet(perf)
      ensures Lookup(perf, m).Some? && MetricKey(top, m) in g.columns &&
              g.columns[MetricKey(top, m)] == PaddedColumn(f.columns, MetricKey(top, m), rowLabel == MicroAvg) + [Text(fmt(Lookup(perf, m).value, digits))]
    {
      MetricSetMembers(perf, m);
      var i :| 0 <= i < |perf| && perf[i].0 == m;
      LookupAt(perf, i);
      assert MetricKey(top, m) in MetricKeys(top, MetricSet(perf));
    }
    forall k | k in f.columns && k !in MetricKeys(top, MetricSet(perf))
      ensures g.columns[k] == PaddedColumn(f.columns, k, rowLabel == MicroAvg)
    {
      assert Existing(g.columns, k) == Existing(f2.columns, k);
    }
    if isLast {
      assert h == Put(g, SupportKey, Raw(Lookup(perf, Support).value));
      assert Existing(g.columns, SupportKey) == PaddedColumn(f.columns, SupportKey, rowLabel == MicroAvg);
    } else {
      assert h == g;
    }
  }

  /** The position of row e of the report among the frame's row labels: one lower once the blank row is passed. */
  function RowOf<V>(report: Report<V>, e: nat): nat
    requires e < |report|
  {
    if MicroWithin(report, e) then e + 1 else e
  }

  /** Every row of the report has the same metric names. */
  predicate UniformMetrics<V>(report: Report<V>) {
    forall e :: 0 <= e < |report| ==> MetricSet(report[e].1) == MetricSet(report[0].1)
  }

  /** Report rows before and including e contain "micro avg". */
  predicate MicroWithin<V>(report: Report<V>, e: int)
    requires e < |report|
  {
    exists j :: 0 <= j <= e && report[j].0 == MicroAvg
  }

  /**
    The frame's columns: one per metric of `metrics` and, for the last report,
    the support column, each as long as the row labels, which number one more
    than the report's rows when a blank row was inserted.
  */
  ghost predicate TableShape<V>(top: nat, isLast: bool, report: Report<V>, metrics: set<string>, f: Frame<V>) {
    f.columns.Keys == MetricKeys(top, metrics) + (if isLast then {SupportKey} else {}) &&
    (forall k :: k in f.columns ==> |f.columns[k]| == |f.labels|) &&
    |f.labels| == |report| + (if MicroWithin(report, |report| - 1) then 1 else 0)
  }

  /** Row e of the report sits at RowOf(report, e), with its label, its formatted metrics and its raw support. */
  ghost predicate TableRows<V>(top: nat, isLast: bool, report: Report<V>, metrics: set<string>, f: Frame<V>,
                               digits: int, fmt: (V, int) -> string)
  {
    forall e :: 0 <= e < |report| ==>
      RowOf(report, e) < |f.labels| && f.labels[RowOf(report, e)] == report[e].0 &&
      (forall m :: m in metrics ==>
         Lookup(report[e].1, m).Some? && MetricKey(top, m) in f.columns && RowOf(report, e) < |f.columns[MetricKey(top, m)]| &&
         f.columns[MetricKey(top, m)][RowOf(report, e)] == Text(fmt(Lookup(report[e].1, m).value, digits))) &&
      (isLast ==>
         Lookup(report[e].1, Support).Some? && SupportKey in f.columns && RowOf(report, e) < |f.columns[SupportKey]| &&
         f.columns[SupportKey][RowOf(report, e)] == Raw(Lookup(report[e].1, Support).value))
  }

  /** The row just above "micro avg" is blank in the labels and in every column. */
  ghost predicate TableBlank<V>(report: Report<V>, f: Frame<V>) {
    forall j :: 0 <= j < |report| && report[j].0 == MicroAvg ==>
      j < |f.labels| && f.labels[j] == "" &&
      forall k :: k in f.columns ==> j < |f.columns[k]| && f.columns[k][j] == Text("")
  }

  ghost predicate IsTable<V>(top: nat, isLast: bool, report: Report<V>, metrics: set<string>, f: Frame<V>,
                             digits: int, fmt: (V, int) -> string)
  {
    TableShape(top, isLast, report, metrics, f) && TableRows(top, isLast, report, metrics, f, digits, fmt) && TableBlank(report, f)
  }

  lemma TableBase<V>(top: nat, isLast: bool, report: Report<V>, digits: int, fmt: (V, int) -> string)
    requires |report| == 1 && report[0].0 != MicroAvg && DistinctNames(report[0].1)
    requires BuildFrame(top, isLast, report, digits, fmt).Success?
    ensures IsTable(top, isLast, report, MetricSet(report[0].1), BuildFrame(top, isLast, report, digits, fmt).value, digits, fmt)
  {
    assert report[..0] == [];
    var (rowLabel, perf) := report[0];
    var empty: Frame<V> := Frame([], [], map[]);
    var h := BuildFrame(top, isLast, report, digits, fmt).value;
    AddRowEffect(empty, top, isLast, rowLabel, perf, digits, fmt, h);
    assert RowOf(report, 0) == 0;
    forall k | k in h.columns
      ensures |h.columns[k]| == 1
    {
      if k != SupportKey {
        InMetricKeys(top, MetricSet(perf), k);
      }
    }
  }

  /** One further row appends the same number of cells to the labels and to every column. */
  lemma StepCells<V>(top: nat, isLast: bool, init: Report<V>, ms: set<string>, f: Frame<V>,
                     rowLabel: string, perf: Performance<V>, digits: int, fmt: (V, int) -> string, h: Frame<V>)
    requires TableShape(top, isLast, init, ms, f)
    requires MetricSet(perf) == ms && RowEffect(f, top, isLast, rowLabel, perf, digits, fmt, h)
    ensures h.labels == f.labels + (if rowLabel == MicroAvg then ["", rowLabel] else [rowLabel])
    ensures h.columns.Keys == f.columns.Keys
    ensures forall k :: k in h.columns ==>
              |h.columns[k]| == |h.labels| && h.columns[k][..|f.labels|] == f.columns[k] &&
              (rowLabel == MicroAvg ==> h.columns[k][|f.labels|] == Text(""))
    ensures forall m :: m in ms ==>
              Lookup(perf, m).Some? &&
              h.columns[MetricKey(top, m)][|h.labels| - 1] == Text(fmt(Lookup(perf, m).value, digits))
    ensures isLast ==>
              Lookup(perf, Support).Some? && h.columns[SupportKey][|h.labels| - 1] == Raw(Lookup(perf, Support).value)
  {
    var extra := MetricKeys(top, ms) + (if isLast then {SupportKey} else {});
    assert h.columns.Keys == f.columns.Keys + extra;
    UnionAbsorbs(f.columns.Keys, extra);
    StepColumns(top, isLast, ms, f.columns, rowLabel == MicroAvg, perf, digits, fmt, h.columns);
    assert |h.labels| == |f.labels| + (if rowLabel == MicroAvg then 2 else 1);
    forall m | m in ms
      ensures h.columns[MetricKey(top, m)][|h.labels| - 1] == Text(fmt(Lookup(perf, m).value, digits))
    {
      var k := MetricKey(top, m);
      AppendedCells(f.columns[k], rowLabel == MicroAvg, Text(fmt(Lookup(perf, m).value, digits)), h.columns[k]);
    }
    if isLast {
      AppendedCells(f.columns[SupportKey], rowLabel == MicroAvg, Raw(Lookup(perf, Support).value), h.columns[SupportKey]);
    }
  }

  lemma UnionAbsorbs<T>(a: set<T>, b: set<T>)
    requires b <= a
    ensures a + b == a
  {
  }

  /** Every column of a table grows by the optional blank cell and the row's own cell. */
  lemma StepColumns<V>(top: nat, isLast: bool, ms: set<string>, before: map<Key, seq<Cell<V>>>, blank: bool,
                       perf: Performance<V>, digits: int, fmt: (V, int) -> string, after: map<Key, seq<Cell<V>>>)
    requires before.Keys == MetricKeys(top, ms) + (if isLast then {SupportKey} else {})
    requires after.Keys == before.Keys
    requires forall m :: m in ms ==>
               Lookup(perf, m).Some? &&
               after[MetricKey(top, m)] == PaddedColumn(before, MetricKey(top, m), blank) + [Text(fmt(Lookup(perf, m).value, digits))]
    requires isLast ==>
               Lookup(perf, Support).Some? && after[SupportKey] == PaddedColumn(before, SupportKey, blank) + [Raw(Lookup(perf, Support).value)]
    ensures forall k :: k in after ==>
              |after[k]| == |before[k]| + (if blank then 2 else 1) && after[k][..|before[k]|] == before[k] &&
              (blank ==> after[k][|before[k]|] == Text(""))
  {
    forall k | k in after
      ensures |after[k]| == |before[k]| + (if blank then 2 else 1) && after[k][..|before[k]|] == before[k] &&
              (blank ==> after[k][|before[k]|] == Text(""))
    {
      if k == SupportKey {
        AppendedCells(before[k], blank, Raw(Lookup(perf, Support).value), after[k]);
      } else {
        InMetricKeys(top, ms, k);
        AppendedCells(before[k], blank, Text(fmt(Lookup(perf, k.1).value, digits)), after[k]);
      }
    }
  }

  /** A column after one row: the old cells, the optional blank cell, then the row's own cell. */
  lemma AppendedCells<V>(column: seq<Cell<V>>, blank: bool, c: Cell<V>, out: seq<Cell<V>>)
    requires out == (if blank then column + [Text("")] else column) + [c]
    ensures |out| == |column| + (if blank then 2 else 1) && out[..|column|] == column
    ensures blank ==> out[|column|] == Text("")
    ensures out[|out| - 1] == c
  {
    assert out[..|column|] == column;
  }

  /** Where the rows of a report extended by one row land. */
  lemma StepRows<V>(report: Report<V>)
    requires |report| >= 2 && DistinctNames(report)
    ensures forall e :: 0 <= e < |report| - 1 ==> RowOf(report, e) == RowOf(report[..|report| - 1], e)
    ensures var n := |report|;
            RowOf(report, n - 1) ==
              n - 1 + (if MicroWithin(report[..n - 1], n - 2) then 1 else 0) + (if report[n - 1].0 == MicroAvg then 1 else 0)
    ensures MicroWithin(report, |report| - 1) <==>
              MicroWithin(report[..|report| - 1], |report| - 2) || report[|report| - 1].0 == MicroAvg
    ensures report[|report| - 1].0 == MicroAvg ==> !MicroWithin(report[..|report| - 1], |report| - 2)
  {
    var n := |report|;
    var init := report[..n - 1];
    assert forall j :: 0 <= j < n - 1 ==> init[j] == report[j];
  }

  lemma TableStep<V>(top: nat, isLast: bool, report: Report<V>, ms: set<string>, f: Frame<V>,
                     digits: int, fmt: (V, int) -> string)
    requires |report| >= 2 && IsTable(top, isLast, report[..|report| - 1], ms, f, digits, fmt)
    requires DistinctNames(report) && DistinctNames(Last(report).1) && MetricSet(Last(report).1) == ms
    requires AddRow(f, top, isLast, Last(report).0, Last(report).1, digits, fmt).Success?
    ensures IsTable(top, isLast, report, ms, AddRow(f, top, isLast, Last(report).0, Last(report).1, digits, fmt).value, digits, fmt)
  {
    var n := |report|;
    var init := report[..n - 1];
    var (rowLabel, perf) := report[n - 1];
    var h := AddRow(f, top, isLast, rowLabel, perf, digits, fmt).value;
    AddRowEffect(f, top, isLast, rowLabel, perf, digits, fmt, h);
    StepCells(top, isLast, init, ms, f, rowLabel, perf, digits, fmt, h);
    StepRows(report);
    assert forall j :: 0 <= j < n - 1 ==> init[j] == report[j];
    assert TableShape(top, isLast, report, ms, h);
    TableRowsStep(top, isLast, report, ms, f, h, digits, fmt);
    TableBlankStep(report, f, h);
  }

  lemma TableRowsStep<V>(top: nat, isLast: bool, report: Report<V>, ms: set<string>, f: Frame<V>, h: Frame<V>,
                         digits: int, fmt: (V, int) -> string)
    requires |report| >= 2 && TableShape(top, isLast, report[..|report| - 1], ms, f)
    requires TableRows(top, isLast, report[..|report| - 1], ms, f, digits, fmt)
    requires forall e :: 0 <= e < |report| - 1 ==> RowOf(report, e) == RowOf(report[..|report| - 1], e)
    requires RowOf(report, |report| - 1) == |f.labels| + (if Last(report).0 == MicroAvg then 1 else 0)
    requires h.labels == f.labels + (if Last(report).0 == MicroAvg then [""] else []) + [Last(report).0]
    requires h.columns.Keys == f.columns.Keys
    requires forall k :: k in h.columns ==>
               |h.columns[k]| == |h.labels| && h.columns[k][..|f.labels|] == f.columns[k]
    requires forall m :: m in ms ==>
               Lookup(Last(report).1, m).Some? &&
               h.columns[MetricKey(top, m)][RowOf(report, |report| - 1)] == Text(fmt(Lookup(Last(report).1, m).value, digits))
    requires isLast ==>
               Lookup(Last(report).1, Support).Some? &&
               h.columns[SupportKey][RowOf(report, |report| - 1)] == Raw(Lookup(Last(report).1, Support).value)
    ensures TableRows(top, isLast, report, ms, h, digits, fmt)
  {
    var init := report[..|report| - 1];
    forall e | 0 <= e < |report| - 1
      ensures RowOf(report, e) < |f.labels| && init[e] == report[e]
    {
    }
  }

  lemma TableBlankStep<V>(report: Report<V>, f: Frame<V>, h: Frame<V>)
    requires |report| >= 2 && TableBlank(report[..|report| - 1], f)
    requires Last(report).0 == MicroAvg ==> |f.labels| == |report| - 1
    requires h.labels == f.labels + (if Last(report).0 == MicroAvg then [""] else []) + [Last(report).0]
    requires h.columns.Keys == f.columns.Keys
    requires forall k :: k in h.columns ==>
               |h.columns[k]| == |h.labels| && h.columns[k][..|f.labels|] == f.columns[k] &&
               (Last(report).0 == MicroAvg ==> h.columns[k][|f.labels|] == Text(""))
    ensures TableBlank(report, h)
  {
    var init := report[..|report| - 1];
    assert forall j :: 0 <= j < |report| - 1 ==> init[j] == report[j];
    forall j | 0 <= j < |report| - 1 && report[j].0 == MicroAvg
      ensures j < |f.labels|
    {
      assert init[j].0 == MicroAvg;
    }
  }

  /**
    Under the shape classification reports always have (every row carries the
    same metric names, and the first row is not "micro avg"), the frame is a
    rectangular table: see IsTable.
  */
  lemma {:induction false} FrameTable<V>(top: nat, isLast: bool, report: Report<V>, digits: int, fmt: (V, int) -> string)
    requires report != [] && report[0].0 != MicroAvg && UniformMetrics(report)
    requires DistinctNames(report) && forall e :: 0 <= e < |report| ==> DistinctNames(report[e].1)
    requires BuildFrame(top, isLast, report, digits, fmt).Success?
    ensures IsTable(top, isLast, report, MetricSet(report[0].1), BuildFrame(top, isLast, report, digits, fmt).value, digits, fmt)
  {
    if |report| == 1 {
      TableBase(top, isLast, report, digits, fmt);
    } else {
      var init := report[..|report| - 1];
      assert forall j :: 0 <= j < |init| ==> init[j] == report[j];
      FrameTable(top, isLast, init, digits, fmt);
      TableStep(top, isLast, report, MetricSet(report[0].1), BuildFrame(top, isLast, init, digits, fmt).value, digits, fmt);
    }
  }

  // ---------------------------------------------------------------------------
  // Labels and column names in general

  lemma AddRowLabelsKeys<V>(f: Frame<V>, top: nat, isLast: bool, rowLabel: string, perf: Performance<V>,
                            digits: int, fmt: (V, int) -> string, h: Frame<V>)
    requires AddRow(f, top, isLast, rowLabel, perf, digits, fmt) == Success(h)
    ensures h.labels == f.labels + (if rowLabel == MicroAvg then ["", rowLabel] else [rowLabel])
    ensures h.columns.Keys == f.columns.Keys + MetricKeys(top, MetricSet(perf)) + (if isLast then {SupportKey} else {})
  {
    OpenRowEffect(f, rowLabel);
    PutMetricsKeys(OpenRow(f, rowLabel), top, perf, digits, fmt);
  }

  /** `labels` is `names` with one blank inserted immediately before "micro avg", if that occurs. */
  ghost predicate BlankBeforeMicro(labels: seq<string>, names: seq<string>) {
    ((forall j :: 0 <= j < |names| ==> names[j] != MicroAvg) ==> labels == names) &&
    (forall m :: 0 <= m < |names| && names[m] == MicroAvg ==> labels == names[..m] + [""] + names[m..])
  }

  lemma BlankStep(labels: seq<string>, names: seq<string>, x: string)
    requires BlankBeforeMicro(labels, names)
    requires x == MicroAvg ==> forall j :: 0 <= j < |names| ==> names[j] != MicroAvg
    ensures BlankBeforeMicro(labels + (if x == MicroAvg then ["", x] else [x]), names + [x])
  {
    var names' := names + [x];
    var labels' := labels + (if x == MicroAvg then ["", x] else [x]);
    forall m | 0 <= m < |names'| && names'[m] == MicroAvg
      ensures labels' == names'[..m] + [""] + names'[m..]
    {
      if m < |names| {
        assert names'[..m] == names[..m];
        assert names'[m..] == names[m..] + [x];
      } else {
        assert names'[..m] == names && names'[m..] == [x];
      }
    }
    if forall j :: 0 <= j < |names'| ==> names'[j] != MicroAvg {
      assert forall j :: 0 <= j < |names| ==> names[j] == names'[j];
      assert names'[|names|] == x != MicroAvg;
      assert labels == names;
    }
  }

  /**
    The row labels of a frame are the report's keys in order, with one blank
    label inserted immediately before "micro avg" and nowhere else.
  */
  lemma {:induction false} FrameLabels<V>(top: nat, isLast: bool, report: Report<V>, digits: int, fmt: (V, int) -> string)
    requires DistinctNames(report) && BuildFrame(top, isLast, report, digits, fmt).Success?
    ensures (forall j :: 0 <= j < |report| ==> report[j].0 != MicroAvg) ==>
              BuildFrame(top, isLast, report, digits, fmt).value.labels == Names(report)
    ensures forall m :: 0 <= m < |report| && report[m].0 == MicroAvg ==>
              BuildFrame(top, isLast, report, digits, fmt).value.labels == Names(report)[..m] + [""] + Names(report)[m..]
  {
    FrameLabelsBlank(top, isLast, report, digits, fmt);
    var names := Names(report);
    assert forall j :: 0 <= j < |report| ==> names[j] == report[j].0;
  }

  lemma {:induction false} FrameLabelsBlank<V>(top: nat, isLast: bool, report: Report<V>, digits: int, fmt: (V, int) -> string)
    requires DistinctNames(report) && BuildFrame(top, isLast, report, digits, fmt).Success?
    ensures BlankBeforeMicro(BuildFrame(top, isLast, report, digits, fmt).value.labels, Names(report))
  {
    if report != [] {
      var n := |report|;
      var init := report[..n - 1];
      var (rowLabel, perf) := report[n - 1];
      assert forall j :: 0 <= j < n - 1 ==> init[j] == report[j];
      FrameLabelsBlank(top, isLast, init, digits, fmt);
      var f := BuildFrame(top, isLast, init, digits, fmt).value;
      AddRowLabelsKeys(f, top, isLast, rowLabel, perf, digits, fmt, BuildFrame(top, isLast, report, digits, fmt).value);
      assert Names(report) == Names(init) + [rowLabel];
      BlankStep(f.labels, Names(init), rowLabel);
    }
  }

  lemma {:induction false} SupportNotAMetric<V>(report: Report<V>)
    ensures Support !in ReportMetrics(report)
  {
    if report != [] {
      SupportNotAMetric(report[..|report| - 1]);
      MetricSetMembers(report[|report| - 1].1, Support);
    }
  }

  /**
    The columns of a frame: one `("Top k+1", metric, "")` per metric name other
    than support met in the report, and `("", "support", "")` exactly when
    this is the last report and it has a row.
  */
  lemma {:induction false} FrameKeys<V>(top: nat, isLast: bool, report: Report<V>, digits: int, fmt: (V, int) -> string)
    requires BuildFrame(top, isLast, report, digits, fmt).Success?
    ensures BuildFrame(top, isLast, report, digits, fmt).value.columns.Keys ==
              MetricKeys(top, ReportMetrics(report)) + (if isLast && report != [] then {SupportKey} else {})
    ensures Support !in ReportMetrics(report)
  {
    SupportNotAMetric(report);
    if report != [] {
      var init := report[..|report| - 1];
      FrameKeys(top, isLast, init, digits, fmt);
      var f := BuildFrame(top, isLast, init, digits, fmt).value;
      AddRowLabelsKeys(f, top, isLast, report[|report| - 1].0, report[|report| - 1].1, digits, fmt,
                       BuildFrame(top, isLast, report, digits, fmt).value);
      MetricKeysUnion(top, ReportMetrics(init), MetricSet(report[|report| - 1].1));
    }
  }

  /**
    Across the frames of all reports: only the last frame has the support
    column, and no column name occurs in two frames, so the concatenated table
    has every column once.
  */
  lemma FramesColumns<V>(reports: seq<Report<V>>, digits: int, fmt: (V, int) -> string)
    requires BuildFrames(reports, |reports|, digits, fmt).Success?
    ensures var frames := BuildFrames(reports, |reports|, digits, fmt).value;
            |frames| == |reports| &&
            (forall k :: 0 <= k < |frames| ==> (SupportKey in frames[k].columns <==> k == |frames| - 1 && reports[k] != [])) &&
            (forall k1, k2, key :: 0 <= k1 < k2 < |frames| && key in frames[k1].columns ==> key !in frames[k2].columns)
  {
    var frames := BuildFrames(reports, |reports|, digits, fmt).value;
    FramesShape(reports, |reports|, digits, fmt);
    forall k | 0 <= k < |frames|
      ensures frames[k].columns.Keys ==
                MetricKeys(k, ReportMetrics(reports[k])) + (if k == |reports| - 1 && reports[k] != [] then {SupportKey} else {})
    {
      FrameKeys(k, k == |reports| - 1, reports[k], digits, fmt);
    }
    forall k1, k2, key | 0 <= k1 < k2 < |frames| && key in frames[k1].columns
      ensures key !in frames[k2].columns
    {
      InMetricKeys(k1, ReportMetrics(reports[k1]), key);
      InMetricKeys(k2, ReportMetrics(reports[k2]), key);
      MetricKeyInjective(k1, key.1, k2, key.1);
    }
  }
}
