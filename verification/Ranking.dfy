/** results-data/validate_corpus.py: which result bundles may be ranked (`exclusion_reason`). */
module Ranking {
  import opened Wrappers
  import opened RepoPaths
  import opened Timings

  /** The `status` of an execution row: no such key, null, or a text. */
  datatype Status = Missing | Null | Text(text: string)

  /** A row of `queries`; `skip` has the executed and skipped totals of its skip summary, when both are integers. */
  datatype RawRow = RawRow(query: string, duration: Num, status: Status, runType: Option<string>,
                           skip: Option<(int, int)>)

  const PASS_STATUSES: set<string> := {"SUCCESS", "PASS", "pass", "success"}

  predicate Passed(status: Status) {
    match status
    case Missing => true
    case Null => false
    case Text(s) => s in PASS_STATUSES
  }

  predicate Executes(runType: Option<string>) {
    runType in {None, MEASUREMENT, WARMUP}
  }

  /** The rows that count as executions. */
  function Executions(raw: seq<RawRow>): seq<Row> {
    if raw == [] then []
    else
      var r := raw[|raw| - 1];
      Executions(raw[..|raw| - 1]) +
      if Executes(r.runType) then [Row(r.query, r.duration, Passed(r.status), r.runType)] else []
  }

  /** `_query_timings`. */
  method QueryTimings(raw: seq<RawRow>) returns (rows: seq<Row>)
    ensures rows == Executions(raw)
  {
    rows := [];
    for i := 0 to |raw|
      invariant rows == Executions(raw[..i])
    {
      var r := raw[i];
      TakeNext(raw, i);
      assert raw[..i + 1][..i] == raw[..i];
      if Executes(r.runType) {
        rows := rows + [Row(r.query, r.duration, Passed(r.status), r.runType)];
      }
    }
    TakeAll(raw);
  }

  // ---- failed queries ----

  /** The query counters of a summary, where they are integers. */
  datatype Summary = Summary(failed: Option<int>, total: Option<int>, passed: Option<int>, skipped: Option<int>)

  predicate IsMeasurement(runType: Option<string>) {
    runType.None? || runType.value == "" || Lower(Strip(runType.value)) == "measurement"
  }

  /** `_query_row_failed`. */
  predicate RowFailed(r: RawRow) {
    IsMeasurement(r.runType) && r.status.Text? && Upper(r.status.text) !in {"SUCCESS", "SKIPPED"}
  }

  /** `failed_query_count`. */
  function FailedQueryCount(summary: Option<Summary>, raw: seq<RawRow>): int {
    if summary.Some? && summary.value.failed.Some? && summary.value.failed.value > 0 then summary.value.failed.value
    else if summary.Some? && Shortfall(summary.value) > 0 then Shortfall(summary.value)
    else |Filter(raw, (r: RawRow) => RowFailed(r))|
  }

  /** Queries that neither passed nor were skipped, by the summary's own totals. */
  function Shortfall(s: Summary): int {
    if s.total.Some? && s.passed.Some? then
      s.total.value - s.passed.value - (if s.skipped.Some? then s.skipped.value else 0)
    else 0
  }

  /** The count is zero exactly when no source of evidence shows a failure. */
  lemma NoFailuresIff(summary: Option<Summary>, raw: seq<RawRow>)
    ensures FailedQueryCount(summary, raw) >= 0
    ensures FailedQueryCount(summary, raw) == 0 <==>
            (summary.Some? ==> (summary.value.failed.Some? ==> summary.value.failed.value <= 0) &&
                               Shortfall(summary.value) <= 0) &&
            forall r :: r in raw ==> !RowFailed(r)
  {
    var failures := Filter(raw, (r: RawRow) => RowFailed(r));
    if failures != [] {
      assert failures[0] in failures;
    }
    if r :| r in raw && RowFailed(r) {
      assert r in failures;
    }
  }

  lemma UpperWords()
    ensures Upper("SUCCESS") == "SUCCESS" && Upper("success") == "SUCCESS"
    ensures Upper("PASS") == "PASS" && Upper("pass") == "PASS"
  {
    UpperSplit("SUC", "CESS");
    UpperSplit("suc", "cess");
    assert "SUC" + "CESS" == "SUCCESS" && "suc" + "cess" == "success";
  }

  lemma {:induction false} UpperSplit(a: string, b: string)
    ensures Upper(a + b) == Upper(a) + Upper(b)
  {
    if a == "" {
      assert a + b == b;
    } else {
      assert (a + b)[1..] == a[1..] + b;
      UpperSplit(a[1..], b);
    }
  }

  /**
   * The two status lists differ: a row counts as passed where samples are collected, and as
   * failed where failures are counted, exactly when it is a measurement with status PASS or pass.
   */
  lemma PassCountsAsFailed(r: RawRow)
    ensures Passed(r.status) && RowFailed(r) <==>
            IsMeasurement(r.runType) && (r.status == Text("PASS") || r.status == Text("pass"))
  {
    UpperWords();
    assert |"PASS"| == 4 && |"SUCCESS"| == 7 && |"SKIPPED"| == 7;
  }

  // ---- logical queries ----

  /** The total of a skip summary, where it is positive. */
  function SkipTotal(r: RawRow): Option<int> {
    if r.skip.Some? && r.skip.value.0 + r.skip.value.1 > 0 then Some(r.skip.value.0 + r.skip.value.1) else None
  }

  predicate HasSkipTotals(raw: seq<RawRow>) {
    exists r :: r in raw && SkipTotal(r).Some?
  }

  function LargestSkip(raw: seq<RawRow>): Option<int> {
    if raw == [] then None
    else
      var best, total := LargestSkip(raw[..|raw| - 1]), SkipTotal(raw[|raw| - 1]);
      if total.Some? && (best.None? || total.value > best.value) then total else best
  }

  ghost predicate IsLargestSkip(raw: seq<RawRow>, n: int) {
    && (exists r :: r in raw && SkipTotal(r) == Some(n))
    && (forall r :: r in raw && SkipTotal(r).Some? ==> SkipTotal(r).value <= n)
  }

  lemma {:induction false} LargestSkipIs(raw: seq<RawRow>)
    ensures LargestSkip(raw).Some? <==> HasSkipTotals(raw)
    ensures LargestSkip(raw).Some? ==> IsLargestSkip(raw, LargestSkip(raw).value)
  {
    if raw != [] {
      var init, last := raw[..|raw| - 1], raw[|raw| - 1];
      LargestSkipIs(init);
      assert forall r :: r in raw <==> r in init || r == last;
    }
  }

  /** The loop over the skip summaries. */
  method BestSkipTotal(raw: seq<RawRow>) returns (best: Option<int>)
    ensures best == LargestSkip(raw)
    ensures best.Some? <==> HasSkipTotals(raw)
    ensures best.Some? ==> IsLargestSkip(raw, best.value)
  {
    best := None;
    for i := 0 to |raw|
      invariant best == LargestSkip(raw[..i])
    {
      assert raw[..i + 1][..i] == raw[..i];
      var total := SkipTotal(raw[i]);
      if total.Some? && (best.None? || total.value > best.value) {
        best := total;
      }
    }
    TakeAll(raw);
    LargestSkipIs(raw);
  }

  /** Some displayed query was executed more than once. */
  predicate HasRepeats(display: seq<Shown>) {
    exists s :: s in display && s.samples > 1
  }

  /** The count of a known benchmark settles the matter: every observed query fits in whole runs of it. */
  predicate FitsKnown(observed: int, total: int, known: Option<nat>) {
    known.Some? && 0 < known.value && observed <= known.value && total % known.value == 0
  }

  /** The logical query count: skip totals first, then whole runs of a query set, then the recorded total. */
  function LogicalCount(raw: seq<RawRow>, display: seq<Shown>, total: int, known: Option<nat>): int {
    var observed := |NamedQueries(display)|;
    if LargestSkip(raw).Some? then LargestSkip(raw).value
    else if 0 < observed < total then
      if FitsKnown(observed, total, known) then known.value
      else if total % observed == 0 && HasRepeats(display) then observed
      else total
    else if total == 0 then observed
    else total
  }

  /**
   * What a logical query count is: the largest skip total, if there is one; else a divisor of
   * the summary's query total; and without a total the number of displayed queries with a name.
   */
  ghost predicate IsLogicalCount(raw: seq<RawRow>, display: seq<Shown>, total: int, count: int) {
    if HasSkipTotals(raw) then IsLargestSkip(raw, count)
    else if total > 0 then 0 < count <= total && total % count == 0
    else if total == 0 then count == |NamedQueries(display)|
    else count == total
  }

  lemma LogicalCountIs(raw: seq<RawRow>, display: seq<Shown>, total: int, known: Option<nat>)
    ensures IsLogicalCount(raw, display, total, LogicalCount(raw, display, total, known))
  {
    LargestSkipIs(raw);
    var observed := |NamedQueries(display)|;
    if 0 < observed < total && FitsKnown(observed, total, known) {
      DivisorIsSmall(total, known.value);
    }
  }

  /**
   * Without skip totals the count is below the recorded total exactly when the total is made of
   * several whole runs of the known query set, or of the observed queries, some executed twice.
   */
  lemma BelowTotalIff(raw: seq<RawRow>, display: seq<Shown>, total: int, known: Option<nat>)
    requires !HasSkipTotals(raw) && total > 0
    ensures var observed := |NamedQueries(display)|;
            LogicalCount(raw, display, total, known) < total <==>
            0 < observed < total &&
            if FitsKnown(observed, total, known) then known.value != total
            else total % observed == 0 && HasRepeats(display)
  {
    LargestSkipIs(raw);
    var observed := |NamedQueries(display)|;
    if 0 < observed < total && FitsKnown(observed, total, known) {
      DivisorIsSmall(total, known.value);
    }
  }

  /** Running a complete query set several times does not raise the count above its size. */
  lemma RunsDoNotAdd(raw: seq<RawRow>, display: seq<Shown>, runs: nat, known: Option<nat>)
    requires !HasSkipTotals(raw) && runs >= 1 && NamedQueries(display) != {}
    requires known.None? || known.value == |NamedQueries(display)|
    requires runs > 1 ==> HasRepeats(display)
    ensures LogicalCount(raw, display, runs * |NamedQueries(display)|, known) == |NamedQueries(display)|
  {
    LargestSkipIs(raw);
    MultipleIsDivisible(runs, |NamedQueries(display)|);
  }

  lemma MultipleIsDivisible(runs: nat, n: nat)
    requires n > 0
    ensures (runs * n) % n == 0
    ensures runs > 1 ==> runs * n > n
  {
    var x := runs * n;
    assert (runs - x / n) * n == x % n;
    Multiples(runs - x / n, n);
    if runs > 1 {
      assert runs * n == (runs - 1) * n + n && (runs - 1) * n > 0;
    }
  }

  lemma Multiples(k: int, n: nat)
    ensures k >= 1 ==> k * n >= n
    ensures k <= 0 ==> k * n <= 0
  {
    if k >= 1 {
      assert k * n == (k - 1) * n + n;
    }
  }

  /** `_logical_query_count`; `known` is the count of a known benchmark. */
  method LogicalQueryCount(raw: seq<RawRow>, display: seq<Shown>, total: int, known: Option<nat>)
    returns (count: int)
    ensures count == LogicalCount(raw, display, total, known)
    ensures IsLogicalCount(raw, display, total, count)
  {
    LogicalCountIs(raw, display, total, known);
    var best := BestSkipTotal(raw);
    if best.Some? {
      return best.value;
    }
    var observed: int := |NamedQueries(display)|;
    if observed <= 0 {
      return total;
    }
    if total <= observed {
      return if total == 0 then observed else total;
    }
    if known.Some? && known.value > 0 && observed <= known.value && total % known.value == 0 {
      return known.value;
    }
    if total % observed == 0 && exists s :: s in display && s.samples > 1 {
      return observed;
    }
    return total;
  }

  function NamedQueries(display: seq<Shown>): set<string> {
    set s | s in display && s.query != "" :: s.query
  }

  lemma DivisorIsSmall(total: int, d: int)
    requires total > 0 && d > 0 && total % d == 0
    ensures d <= total
  {
  }

  // ---- the gates ----

  /** `summary.validation`: neither text nor object, or its normalised text. */
  datatype Recorded = NotRecorded | Record(text: Option<string>)

  const NOT_CLEAN: set<string> := {"failed", "interrupted", "partial", "error", "not_run", "not_validated", "uncertain",
                                   "unknown"}

  /** Where the primary metric comes from: a recorded score, or the geometric mean of the medians. */
  datatype Primary = Score(value: Option<Num>) | GeometricMean

  /** What `exclusion_reason` reads of a bundle. */
  datatype Bundle = Bundle(compliance: Option<string>, summary: Option<Summary>, summaryMalformed: bool,
                           recorded: Recorded, queryValidationFailed: bool, translation: Option<string>,
                           tuningMode: Option<string>, tuningStatus: Option<string>, rows: seq<RawRow>,
                           summaryTotal: int, knownCount: Option<nat>, primary: Primary)

  predicate Official(b: Bundle) {
    b.compliance !in {Some("unofficial_nonstandard"), Some("unofficial_subscale")}
  }

  /** `bundle_validation_status`. */
  function ValidationStatus(b: Bundle): Option<string> {
    var failed := FailedQueryCount(b.summary, b.rows) != 0;
    if b.summaryMalformed then None
    else
      match b.recorded
      case NotRecorded => if failed then Some("partial") else None
      case Record(status) =>
        if status !in {None, Some("passed")} then status
        else if failed then Some("partial")
        else if !b.queryValidationFailed && b.translation in {Some("fallback"), Some("failed")} then Some("uncertain")
        else status
  }

  predicate ValidationClean(b: Bundle) {
    ValidationStatus(b).Some? ==> ValidationStatus(b).value !in NOT_CLEAN
  }

  /** `_tuning_applied`. */
  predicate TuningApplied(b: Bundle) {
    b.tuningMode == Some("custom") ==> b.tuningStatus in {Some("applied_unverified"), Some("applied_verified")}
  }

  predicate AboveZero(value: Option<Num>) {
    value.Some? && Less(Finite(0.0), value.value)
  }

  /**
   * `_primary_metric_reason` gives no reason. The geometric mean of the medians above zero is
   * finite and positive exactly when there is one and none of them is infinite.
   */
  predicate MetricPositive(primary: Primary, display: seq<Shown>) {
    match primary
    case Score(value) => AboveZero(value) && value.value.Finite?
    case GeometricMean =>
      && (exists s :: s in display && AboveZero(s.median))
      && (forall s :: s in display && AboveZero(s.median) ==> s.median.value.Finite?)
  }

  datatype Reason = Unofficial | FailedQueries | NotClean | NotTuned | Timing(exclusion: Exclusion) | NoMetric

  lemma {:induction false} SomeValid(display: seq<Shown>) returns (i: nat)
    requires ValidCount(display) >= 1
    ensures i < |display| && IsValid(display[i])
    ensures ValidCount(display[..i]) == ValidCount(display) - 1
  {
    var last := |display| - 1;
    if IsValid(display[last]) {
      i := last;
    } else {
      i := SomeValid(display[..last]);
      assert display[..last][..i] == display[..i];
    }
  }

  /** Two different queries with positive finite medians. */
  ghost predicate HasTwoValidQueries(display: seq<Shown>) {
    exists i, j :: 0 <= i < j < |display| && IsValid(display[i]) && IsValid(display[j]) &&
                   display[i].query != display[j].query
  }

  lemma TwoValid(display: seq<Shown>)
    requires DistinctQueries(display) && ValidCount(display) >= 2
    ensures HasTwoValidQueries(display)
  {
    var j := SomeValid(display);
    var i := SomeValid(display[..j]);
  }

  ghost function DisplayOf(b: Bundle): seq<Shown> {
    Display(Executions(b.rows), Queries(Executions(b.rows)))
  }

  /** Every gate of `exclusion_reason` that does not read the logical query count is passed. */
  ghost predicate GatesPass(b: Bundle) {
    && Official(b) && FailedQueryCount(b.summary, b.rows) == 0 && ValidationClean(b) && TuningApplied(b)
    && ValidCount(DisplayOf(b)) >= 2 && MetricPositive(b.primary, DisplayOf(b))
  }

  /** The valid timings cover half of a positive logical query count. */
  ghost predicate CoversHalf(b: Bundle, logical: int) {
    logical <= 0 || 2 * ValidCount(DisplayOf(b)) >= logical
  }

  /** The logical query count of a bundle. */
  ghost function LogicalOf(b: Bundle): int {
    LogicalCount(b.rows, DisplayOf(b), b.summaryTotal, b.knownCount)
  }

  /** The gates before the timings are passed. */
  ghost predicate ReachesTimings(b: Bundle) {
    Official(b) && FailedQueryCount(b.summary, b.rows) == 0 && ValidationClean(b) && TuningApplied(b)
  }

  /** `exclusion_reason`: the gates in the order they are tried. */
  method ExclusionReason(b: Bundle) returns (r: Option<Reason>)
    ensures r == Some(Unofficial) <==> !Official(b)
    ensures r == Some(FailedQueries) <==> Official(b) && FailedQueryCount(b.summary, b.rows) != 0
    ensures r == Some(NotClean) <==>
            Official(b) && FailedQueryCount(b.summary, b.rows) == 0 && !ValidationClean(b)
    ensures r == Some(NotTuned) <==>
            Official(b) && FailedQueryCount(b.summary, b.rows) == 0 && ValidationClean(b) && !TuningApplied(b)
    ensures r == Some(Timing(TooFewValid)) <==> ReachesTimings(b) && ValidCount(DisplayOf(b)) == 1
    ensures r == Some(Timing(TooLittleCoverage)) <==>
            ReachesTimings(b) && ValidCount(DisplayOf(b)) >= 2 && !CoversHalf(b, LogicalOf(b))
    ensures r == Some(NoMetric) <==>
            ReachesTimings(b) && ValidCount(DisplayOf(b)) >= 2 && CoversHalf(b, LogicalOf(b)) &&
            !MetricPositive(b.primary, DisplayOf(b))
    ensures r.None? <==> GatesPass(b) && CoversHalf(b, LogicalOf(b))
  {
    if !Official(b) {
      return Some(Unofficial);
    }
    if FailedQueryCount(b.summary, b.rows) != 0 {
      return Some(FailedQueries);
    }
    if !ValidationClean(b) {
      return Some(NotClean);
    }
    if !TuningApplied(b) {
      return Some(NotTuned);
    }
    var rows := QueryTimings(b.rows);
    var display := DisplayTimings(rows);
    QueriesAreDistinct(rows);
    DisplayIsDistinct(rows, Queries(rows));
    var logical := LogicalQueryCount(b.rows, display, b.summaryTotal, b.knownCount);
    var exclusion := TimingExclusion(display, logical);
    if exclusion.Some? {
      return Some(Timing(exclusion.value));
    }
    if !MetricPositive(b.primary, display) {
      return Some(NoMetric);
    }
    return None;
  }

  /**
   * `bundle_rankable`: a bundle is rankable if and only if it passes every gate and its valid
   * timings cover half of its logical query count. It then has no failed row and no failure in
   * its summary, and two different queries with positive finite medians.
   */
  method BundleRankable(b: Bundle) returns (rankable: bool)
    ensures rankable <==> GatesPass(b) && CoversHalf(b, LogicalOf(b))
    ensures rankable ==> HasTwoValidQueries(DisplayOf(b))
    ensures rankable ==> forall r :: r in b.rows ==> !RowFailed(r)
    ensures rankable ==> b.summary.Some? ==> Shortfall(b.summary.value) <= 0
  {
    var reason := ExclusionReason(b);
    NoFailuresIff(b.summary, b.rows);
    if reason.None? {
      DisplayTwo(b);
    }
    return reason.None?;
  }

  lemma DisplayTwo(b: Bundle)
    requires ValidCount(DisplayOf(b)) >= 2
    ensures HasTwoValidQueries(DisplayOf(b))
  {
    QueriesAreDistinct(Executions(b.rows));
    DisplayIsDistinct(Executions(b.rows), Queries(Executions(b.rows)));
    TwoValid(DisplayOf(b));
  }
}
