/**
 * results-data/validate_corpus.py: per-query timings of a bundle (`_display_timings`) and their
 * accounting (`_timing_exclusion`).
 */
module Timings {
  import opened Wrappers
  import opened RepoPaths

  /** A float: a finite number, an infinity, or not a number. */
  datatype Num = Finite(value: real) | PlusInfinity | MinusInfinity | NotANumber

  /** One execution row; a row without a run type is a legacy row. */
  datatype Row = Row(query: string, duration: Num, passed: bool, runType: Option<string>)

  /** One displayed query: its median, if any execution passed, and the number of samples. */
  datatype Shown = Shown(query: string, median: Option<Num>, samples: nat)

  const MEASUREMENT: Option<string> := Some("measurement")
  const WARMUP: Option<string> := Some("warmup")

  // ---- specification ----

  /** The durations of the passing rows of a query with a run type, in order. */
  function Durations(rows: seq<Row>, query: string, runType: Option<string>): seq<Num> {
    if rows == [] then []
    else
      var r := rows[|rows| - 1];
      Durations(rows[..|rows| - 1], query, runType) +
      if r.query == query && r.passed && r.runType == runType then [r.duration] else []
  }

  /** Measurements, or legacy rows when there is no measurement. */
  function Samples(rows: seq<Row>, query: string): seq<Num> {
    var measured := Durations(rows, query, MEASUREMENT);
    if measured != [] then measured else Durations(rows, query, None)
  }

  /** The query ids in order of first appearance. */
  function Queries(rows: seq<Row>): seq<string> {
    if rows == [] then []
    else
      var earlier, q := Queries(rows[..|rows| - 1]), rows[|rows| - 1].query;
      if q in earlier then earlier else earlier + [q]
  }

  // ---- the median ----

  /** `a < b`; false when one of them is not a number. */
  predicate Less(a: Num, b: Num) {
    match (a, b)
    case (Finite(x), Finite(y)) => x < y
    case (MinusInfinity, MinusInfinity) => false
    case (MinusInfinity, NotANumber) => false
    case (MinusInfinity, _) => true
    case (PlusInfinity, _) => false
    case (NotANumber, _) => false
    case (Finite(_), PlusInfinity) => true
    case (Finite(_), _) => false
  }

  function Insert(x: Num, s: seq<Num>): seq<Num> {
    if s == [] || Less(x, s[0]) then [x] + s else [s[0]] + Insert(x, s[1..])
  }

  /** `sorted(s)`. */
  function Sorted(s: seq<Num>): seq<Num> {
    if s == [] then [] else Insert(s[|s| - 1], Sorted(s[..|s| - 1]))
  }

  /** `(a + b) / 2.0`. */
  function Halfway(a: Num, b: Num): Num {
    match (a, b)
    case (Finite(x), Finite(y)) => Finite((x + y) / 2.0)
    case (NotANumber, _) => NotANumber
    case (_, NotANumber) => NotANumber
    case (PlusInfinity, MinusInfinity) => NotANumber
    case (MinusInfinity, PlusInfinity) => NotANumber
    case (Finite(_), infinity) => infinity
    case (infinity, _) => infinity
  }

  lemma {:induction false} SortedSize(s: seq<Num>)
    ensures |Sorted(s)| == |s|
  {
    if s != [] {
      SortedSize(s[..|s| - 1]);
      InsertKeeps(s[|s| - 1], Sorted(s[..|s| - 1]));
    }
  }

  lemma {:induction false} InsertKeeps(x: Num, s: seq<Num>)
    ensures multiset(Insert(x, s)) == multiset(s) + multiset{x} && |Insert(x, s)| == |s| + 1
  {
    if s != [] && !Less(x, s[0]) {
      InsertKeeps(x, s[1..]);
      assert s == [s[0]] + s[1..];
    }
  }

  /** The median of a non-empty list of durations. */
  function Median(samples: seq<Num>): Num
    requires samples != []
  {
    SortedSize(samples);
    var candidates, middle := Sorted(samples), |samples| / 2;
    if |samples| % 2 == 1 then candidates[middle] else Halfway(candidates[middle - 1], candidates[middle])
  }

  function Show(rows: seq<Row>, query: string): Shown {
    var samples := Samples(rows, query);
    Shown(query, if samples == [] then None else Some(Median(samples)), |samples|)
  }

  function Display(rows: seq<Row>, queries: seq<string>): seq<Shown> {
    if queries == [] then []
    else
      Display(rows, queries[..|queries| - 1]) + [Show(rows, queries[|queries| - 1])]
  }

  // ---- the code ----

  /** `_display_timings`. */
  method DisplayTimings(rows: seq<Row>) returns (display: seq<Shown>)
    ensures display == Display(rows, Queries(rows))
  {
    var order: seq<string> := [];
    var grouped: map<string, seq<Row>> := map[];
    for i := 0 to |rows|
      invariant order == Queries(rows[..i]) && forall q :: q in order <==> q in grouped
      invariant forall q :: q in grouped ==> grouped[q] == RowsOf(rows[..i], q)
      invariant forall q :: q !in grouped ==> RowsOf(rows[..i], q) == []
    {
      var r := rows[i];
      TakeNext(rows, i);
      assert rows[..i + 1][..i] == rows[..i];
      if r.query in grouped {
        grouped := grouped[r.query := grouped[r.query] + [r]];
      } else {
        order := order + [r.query];
        grouped := grouped[r.query := [r]];
      }
    }
    TakeAll(rows);
    display := [];
    for k := 0 to |order|
      invariant display == Display(rows, order[..k])
    {
      var query := order[k];
      TakeNext(order, k);
      assert order[..k + 1][..k] == order[..k];
      assert query in grouped;
      var measured := Durations(grouped[query], query, MEASUREMENT);
      var legacy := Durations(grouped[query], query, None);
      DurationsOfGroup(rows, query, MEASUREMENT);
      DurationsOfGroup(rows, query, None);
      var candidates := if measured != [] then measured else legacy;
      display := display + [if candidates == [] then Shown(query, None, 0)
                            else Shown(query, Some(Median(candidates)), |candidates|)];
    }
    TakeAll(order);
  }

  function RowsOf(rows: seq<Row>, query: string): seq<Row> {
    if rows == [] then []
    else RowsOf(rows[..|rows| - 1], query) + if rows[|rows| - 1].query == query then [rows[|rows| - 1]] else []
  }

  /** Grouping by query loses no sample. */
  lemma {:induction false} DurationsOfGroup(rows: seq<Row>, query: string, runType: Option<string>)
    ensures Durations(RowsOf(rows, query), query, runType) == Durations(rows, query, runType)
  {
    if rows != [] {
      var init, r := rows[..|rows| - 1], rows[|rows| - 1];
      DurationsOfGroup(init, query, runType);
      if r.query == query {
        assert (RowsOf(init, query) + [r])[..|RowsOf(init, query)|] == RowsOf(init, query);
      } else {
        assert RowsOf(rows, query) == RowsOf(init, query);
      }
    }
  }

  // ---- what the median is ----

  ghost predicate NoNaN(s: seq<Num>) {
    NotANumber !in s
  }

  ghost predicate InOrder(s: seq<Num>) {
    forall i, j :: 0 <= i < j < |s| ==> !Less(s[j], s[i])
  }

  lemma {:induction false} InsertInOrder(x: Num, s: seq<Num>)
    requires InOrder(s) && NoNaN(s) && x != NotANumber
    ensures InOrder(Insert(x, s))
  {
    if s != [] && !Less(x, s[0]) {
      assert s == [s[0]] + s[1..];
      InsertInOrder(x, s[1..]);
      InsertKeeps(x, s[1..]);
      InsertMembers(x, s[1..]);
      InFront(s[0], Insert(x, s[1..]));
    } else if s != [] {
      InFront(x, s);
    }
  }

  lemma InsertMembers(x: Num, s: seq<Num>)
    requires multiset(Insert(x, s)) == multiset(s) + multiset{x}
    ensures forall y :: y in Insert(x, s) ==> y == x || y in s
  {
    assert forall y :: y in Insert(x, s) ==> y in multiset(Insert(x, s));
  }

  lemma InFront(x: Num, s: seq<Num>)
    requires InOrder(s) && forall y :: y in s ==> !Less(y, x)
    ensures InOrder([x] + s)
  {
    assert forall i :: 0 <= i < |s| ==> s[i] in s;
  }

  /** `sorted` returns the same numbers in order. */
  lemma {:induction false} SortedIsOrdered(s: seq<Num>)
    requires NoNaN(s)
    ensures multiset(Sorted(s)) == multiset(s) && InOrder(Sorted(s)) && NoNaN(Sorted(s))
  {
    if s != [] {
      var init, x := s[..|s| - 1], s[|s| - 1];
      assert s == init + [x] && x in s;
      SortedIsOrdered(init);
      InsertKeeps(x, Sorted(init));
      InsertInOrder(x, Sorted(init));
      assert NotANumber !in multiset(s);
      assert forall y :: y in Sorted(s) <==> y in multiset(Sorted(s));
    }
  }

  lemma SameHead(a: seq<Num>, b: seq<Num>)
    requires InOrder(a) && InOrder(b) && NoNaN(a) && multiset(a) == multiset(b) && a != []
    ensures b != [] && a[0] == b[0]
  {
    assert |multiset(a)| == |multiset(b)|;
    assert a[0] in multiset(b) && b[0] in multiset(a);
    var i :| 0 <= i < |a| && a[i] == b[0];
    var j :| 0 <= j < |b| && b[j] == a[0];
  }

  lemma SameTail(a: seq<Num>, b: seq<Num>)
    requires a != [] && b != [] && a[0] == b[0] && multiset(a) == multiset(b)
    ensures multiset(a[1..]) == multiset(b[1..])
  {
    assert a == [a[0]] + a[1..] && b == [b[0]] + b[1..];
    assert multiset(a[1..]) == multiset(a) - multiset{a[0]};
    assert multiset(b[1..]) == multiset(b) - multiset{b[0]};
  }

  /** Two ordered lists of the same numbers are the same list. */
  lemma {:induction false} OrderedIsUnique(a: seq<Num>, b: seq<Num>)
    requires InOrder(a) && InOrder(b) && NoNaN(a) && multiset(a) == multiset(b)
    ensures a == b
  {
    if a == [] {
      assert |multiset(b)| == 0;
    } else {
      SameHead(a, b);
      SameTail(a, b);
      assert forall x :: x in a[1..] ==> x in a;
      OrderedIsUnique(a[1..], b[1..]);
      assert a == [a[0]] + a[1..] && b == [b[0]] + b[1..];
    }
  }

  lemma SameMembers(a: seq<Num>, b: seq<Num>)
    requires multiset(a) == multiset(b)
    ensures |a| == |b| && forall x :: x in a <==> x in b
  {
    assert |multiset(a)| == |multiset(b)|;
    forall x
      ensures x in a <==> x in b
    {
      assert x in a <==> x in multiset(a);
      assert x in b <==> x in multiset(b);
    }
  }

  lemma MedianOfSorted(a: seq<Num>, b: seq<Num>)
    requires a != [] && |a| == |b| && Sorted(a) == Sorted(b)
    ensures Median(a) == Median(b)
  {
  }

  /** The order in which executions are recorded does not matter to the median. */
  lemma MedianIgnoresOrder(a: seq<Num>, b: seq<Num>)
    requires a != [] && NoNaN(a) && multiset(a) == multiset(b)
    ensures b != [] && Median(a) == Median(b)
  {
    SameMembers(a, b);
    assert NoNaN(b);
    assert Sorted(a) == Sorted(b) by {
      SortedIsOrdered(a);
      SortedIsOrdered(b);
      OrderedIsUnique(Sorted(a), Sorted(b));
    }
    MedianOfSorted(a, b);
  }

  lemma OrderedValues(s: seq<Num>, i: nat, j: nat)
    requires InOrder(s) && i <= j < |s| && s[i].Finite? && s[j].Finite?
    ensures s[i].value <= s[j].value
  {
    assert i < j ==> !Less(s[j], s[i]);
  }

  lemma SortedFinite(samples: seq<Num>, j: nat)
    requires j < |samples| && forall x :: x in samples ==> x.Finite?
    ensures |Sorted(samples)| == |samples| && Sorted(samples)[j].Finite? && InOrder(Sorted(samples))
  {
    SortedIsOrdered(samples);
    SortedSize(samples);
    SameMembers(Sorted(samples), samples);
    assert Sorted(samples)[j] in Sorted(samples);
  }

  lemma MedianIsMiddle(samples: seq<Num>)
    requires samples != [] && |Sorted(samples)| == |samples|
    requires var s := Sorted(samples); s[(|s| - 1) / 2].Finite? && s[|s| / 2].Finite? &&
                                       s[(|s| - 1) / 2].value <= s[|s| / 2].value
    ensures var s, m := Sorted(samples), Median(samples);
            m.Finite? && s[(|s| - 1) / 2].value <= m.value <= s[|s| / 2].value
  {
    var n := |samples|;
    if n % 2 == 1 {
      assert (n - 1) / 2 == n / 2;
    } else {
      assert (n - 1) / 2 == n / 2 - 1;
    }
  }

  /** The middle of the sorted list lies around the median. */
  lemma AroundMedian(samples: seq<Num>)
    requires samples != [] && forall x :: x in samples ==> x.Finite?
    ensures var s, low, high := Sorted(samples), (|samples| - 1) / 2, |samples| / 2;
            && |s| == |samples| && s[low].Finite? && s[high].Finite? && Median(samples).Finite?
            && s[low].value <= Median(samples).value <= s[high].value
  {
    var high, low := |samples| / 2, (|samples| - 1) / 2;
    SortedFinite(samples, low);
    SortedFinite(samples, high);
    OrderedValues(Sorted(samples), low, high);
    MedianIsMiddle(samples);
  }

  /** In the sorted list, the lower half is at or below the median and the upper half at or above. */
  lemma MedianSplits(samples: seq<Num>, j: nat)
    requires (forall x :: x in samples ==> x.Finite?) && j < |samples|
    ensures |Sorted(samples)| == |samples| && Median(samples).Finite? && Sorted(samples)[j].Finite?
    ensures j <= (|samples| - 1) / 2 ==> Sorted(samples)[j].value <= Median(samples).value
    ensures j >= |samples| / 2 ==> Median(samples).value <= Sorted(samples)[j].value
  {
    AroundMedian(samples);
    SortedFinite(samples, j);
    if j <= (|samples| - 1) / 2 {
      OrderedValues(Sorted(samples), j, (|samples| - 1) / 2);
    }
    if j >= |samples| / 2 {
      OrderedValues(Sorted(samples), |samples| / 2, j);
    }
  }

  // ---- warmups and legacy rows ----

  /** The rows that do not have the given run type. */
  function Without(rows: seq<Row>, dropped: Option<string>): seq<Row> {
    if rows == [] then []
    else
      Without(rows[..|rows| - 1], dropped) +
      if rows[|rows| - 1].runType == dropped then [] else [rows[|rows| - 1]]
  }

  lemma {:induction false} OtherTypesStay(rows: seq<Row>, dropped: Option<string>, query: string,
                                          runType: Option<string>)
    requires runType != dropped
    ensures Durations(Without(rows, dropped), query, runType) == Durations(rows, query, runType)
  {
    if rows != [] {
      var init, r := rows[..|rows| - 1], rows[|rows| - 1];
      OtherTypesStay(init, dropped, query, runType);
      if r.runType != dropped {
        assert (Without(init, dropped) + [r])[..|Without(init, dropped)|] == Without(init, dropped);
      } else {
        assert Without(rows, dropped) == Without(init, dropped);
      }
    }
  }

  /** Adding or removing warmup rows anywhere leaves the entry of every query unchanged. */
  lemma WarmupsNeverChangeAMedian(a: seq<Row>, b: seq<Row>, query: string)
    requires Without(a, WARMUP) == Without(b, WARMUP)
    ensures Show(a, query) == Show(b, query)
  {
    assert MEASUREMENT.value[0] != WARMUP.value[0];
    OtherTypesStay(a, WARMUP, query, MEASUREMENT);
    OtherTypesStay(b, WARMUP, query, MEASUREMENT);
    OtherTypesStay(a, WARMUP, query, None);
    OtherTypesStay(b, WARMUP, query, None);
  }

  /** Once a query has a passing measurement, legacy rows do not count for it. */
  lemma MeasurementsDisplaceLegacyRows(a: seq<Row>, b: seq<Row>, query: string)
    requires Without(a, None) == Without(b, None)
    requires exists r :: r in a && r.query == query && r.passed && r.runType == MEASUREMENT
    ensures Show(a, query) == Show(b, query)
  {
    var r :| r in a && r.query == query && r.passed && r.runType == MEASUREMENT;
    MeasuredHasSample(a, r);
    OtherTypesStay(a, None, query, MEASUREMENT);
    OtherTypesStay(b, None, query, MEASUREMENT);
  }

  lemma {:induction false} MeasuredHasSample(rows: seq<Row>, r: Row)
    requires r in rows && r.passed
    ensures r.duration in Durations(rows, r.query, r.runType)
  {
    if r != rows[|rows| - 1] {
      MeasuredHasSample(rows[..|rows| - 1], r);
    }
  }

  // ---- accounting ----

  predicate IsValid(s: Shown) {
    s.median.Some? && s.median.value.Finite? && s.median.value.value > 0.0
  }

  predicate IsZero(s: Shown) {
    s.median.Some? && s.median.value.Finite? && s.median.value.value == 0.0
  }

  function CountIf(display: seq<Shown>, p: Shown -> bool): nat {
    if display == [] then 0
    else CountIf(display[..|display| - 1], p) + if p(display[|display| - 1]) then 1 else 0
  }

  function ValidCount(display: seq<Shown>): nat {
    CountIf(display, (s: Shown) => IsValid(s))
  }

  ghost predicate DistinctQueries(display: seq<Shown>) {
    forall i, j :: 0 <= i < j < |display| ==> display[i].query != display[j].query
  }

  lemma {:induction false} DisplayIsDistinct(rows: seq<Row>, queries: seq<string>)
    requires Distinct(queries)
    ensures |Display(rows, queries)| == |queries| && DistinctQueries(Display(rows, queries))
    ensures forall i :: 0 <= i < |queries| ==> Display(rows, queries)[i].query == queries[i]
  {
    if queries != [] {
      DisplayIsDistinct(rows, queries[..|queries| - 1]);
    }
  }

  lemma {:induction false} QueriesAreDistinct(rows: seq<Row>)
    ensures Distinct(Queries(rows))
  {
    if rows != [] {
      QueriesAreDistinct(rows[..|rows| - 1]);
    }
  }

  /** `len({query_id ...})` of a display without repetitions. */
  lemma {:induction false} QuerySetSize(display: seq<Shown>)
    requires DistinctQueries(display)
    ensures |set s | s in display :: s.query| == |display|
  {
    if display != [] {
      var init, last := display[..|display| - 1], display[|display| - 1];
      QuerySetSize(init);
      assert (set s | s in display :: s.query) == (set s | s in init :: s.query) + {last.query} by {
        assert forall s :: s in display <==> s in init || s == last;
      }
      assert last.query !in (set s | s in init :: s.query);
    }
  }

  function Max(a: int, b: int): int {
    if a > b then a else b
  }

  datatype Exclusion = NoQueries | ZeroOnly | MissingTimings | NoValidTiming | TooFewValid | TooLittleCoverage

  function ZeroCount(display: seq<Shown>): nat {
    CountIf(display, (s: Shown) => IsZero(s))
  }

  /** Displayed queries without a usable timing. */
  function UnusableCount(display: seq<Shown>): nat {
    CountIf(display, (s: Shown) => !IsValid(s) && !IsZero(s))
  }

  /** Together with the logical queries that are not displayed. */
  function MissingCount(display: seq<Shown>, logical: int): nat {
    UnusableCount(display) + Max(logical - |display|, 0)
  }

  lemma CountsNext(display: seq<Shown>, i: nat)
    requires i < |display|
    ensures ValidCount(display[..i + 1]) == ValidCount(display[..i]) + if IsValid(display[i]) then 1 else 0
    ensures ZeroCount(display[..i + 1]) == ZeroCount(display[..i]) + if IsZero(display[i]) then 1 else 0
    ensures UnusableCount(display[..i + 1]) ==
            UnusableCount(display[..i]) + if !IsValid(display[i]) && !IsZero(display[i]) then 1 else 0
  {
    assert display[..i + 1][..i] == display[..i];
  }

  /** Every displayed query and every logical query is counted once. */
  lemma {:induction false} CountsAddUp(display: seq<Shown>, logical: int)
    ensures ValidCount(display) + ZeroCount(display) + MissingCount(display, logical) == Max(logical, |display|)
  {
    if display != [] {
      CountsAddUp(display[..|display| - 1], logical);
    }
  }

  /** The counting loop of `_timing_exclusion`. */
  method CountTimings(display: seq<Shown>, logical: int) returns (valid: nat, zero: nat, missing: nat)
    requires DistinctQueries(display)
    ensures valid == ValidCount(display) && zero == ZeroCount(display) && missing == MissingCount(display, logical)
  {
    valid, zero, missing := 0, 0, 0;
    for i := 0 to |display|
      invariant valid == ValidCount(display[..i]) && zero == ZeroCount(display[..i])
      invariant missing == UnusableCount(display[..i])
    {
      CountsNext(display, i);
      if IsValid(display[i]) {
        valid := valid + 1;
      } else if IsZero(display[i]) {
        zero := zero + 1;
      } else {
        missing := missing + 1;
      }
    }
    TakeAll(display);
    QuerySetSize(display);
    missing := missing + Max(logical - |set s | s in display :: s.query|, 0);
  }

  /** `_timing_exclusion`. */
  method TimingExclusion(display: seq<Shown>, logical: int) returns (r: Option<Exclusion>)
    requires DistinctQueries(display)
    ensures r.None? <==> ValidCount(display) >= 2 && (logical <= 0 || 2 * ValidCount(display) >= logical)
    ensures r == Some(TooFewValid) <==> ValidCount(display) == 1
    ensures r == Some(NoQueries) <==> ValidCount(display) == 0 && logical <= 0
    ensures r == Some(ZeroOnly) <==>
            ValidCount(display) == 0 && logical > 0 && ZeroCount(display) == Max(logical, |display|)
    ensures r == Some(MissingTimings) <==> ValidCount(display) == 0 && logical > 0 && ZeroCount(display) == 0
    ensures r == Some(NoValidTiming) <==>
            ValidCount(display) == 0 && logical > 0 && 0 < ZeroCount(display) < Max(logical, |display|)
    ensures r == Some(TooLittleCoverage) <==>
            ValidCount(display) >= 2 && logical > 0 && 2 * ValidCount(display) < logical
  {
    var valid, zero, missing := CountTimings(display, logical);
    CountsAddUp(display, logical);
    if valid <= 0 {
      r := if logical <= 0 then Some(NoQueries)
           else if zero > 0 && missing == 0 then Some(ZeroOnly)
           else if missing > 0 && zero == 0 then Some(MissingTimings)
           else Some(NoValidTiming);
    } else if valid < 2 {
      r := Some(TooFewValid);
    } else if logical > 0 && valid * 2 < logical {
      r := Some(TooLittleCoverage);
    } else {
      r := None;
    }
  }
}
