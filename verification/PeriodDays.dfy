/** How many ranges a plan reads, and the per-date totals of an explicit period. */
module PeriodDays {
  import opened Prelude
  import opened Sorting
  import opened LocalCalendar
  import opened AccountPeriods

  // ----- at most four edge reads

  ghost function Ranges(bs: seq<Boundary>): set<HourRange> {
    set b | b in bs :: b.range
  }

  ghost predicate DistinctRanges(bs: seq<Boundary>) {
    forall i, j :: 0 <= i < j < |bs| ==> bs[i].range != bs[j].range
  }

  lemma {:induction false} AddEdgeRanges(bs: seq<Boundary>, r: HourRange, k: PeriodKey)
    requires DistinctRanges(bs)
    ensures DistinctRanges(AddEdge(bs, r, k))
    ensures Ranges(AddEdge(bs, r, k)) == Ranges(bs) + {r}
  {
    var i := RangeIndex(bs, r);
    var after := AddEdge(bs, r, k);
    forall x | x in Ranges(bs) + {r}
      ensures x in Ranges(after)
    {
      if x == r {
        assert after[i] in after && after[i].range == r;
      } else {
        var b :| b in bs && b.range == x;
        var j :| 0 <= j < |bs| && bs[j] == b;
        assert after[j] in after && after[j].range == x;
      }
    }
    forall x | x in Ranges(after)
      ensures x in Ranges(bs) + {r}
    {
      var b :| b in after && b.range == x;
      var j :| 0 <= j < |after| && after[j] == b;
      if j < |bs| {
        assert bs[j] in bs && bs[j].range == x;
      }
    }
  }

  lemma {:induction false} AddEdgesRanges(bs: seq<Boundary>, edges: seq<HourRange>, k: PeriodKey)
    requires DistinctRanges(bs)
    ensures DistinctRanges(AddEdges(bs, edges, k))
    ensures Ranges(AddEdges(bs, edges, k)) == Ranges(bs) + set r | r in edges
  {
    if edges != [] {
      var front, last := edges[..|edges| - 1], edges[|edges| - 1];
      AddEdgesRanges(bs, front, k);
      AddEdgeRanges(AddEdges(bs, front, k), last, k);
      assert edges == front + [last];
    }
  }

  lemma {:induction false} DistinctCount(bs: seq<Boundary>)
    requires DistinctRanges(bs)
    ensures |bs| == |Ranges(bs)|
  {
    if bs != [] {
      var front, last := bs[..|bs| - 1], bs[|bs| - 1];
      DistinctCount(front);
      assert bs == front + [last];
      assert Ranges(bs) == Ranges(front) + {last.range};
      assert last.range !in Ranges(front);
    }
  }

  lemma {:induction false} FourAtMost<T>(s: set<T>, a: T, b: T, c: T, d: T)
    requires s <= {a, b, c, d}
    ensures |s| <= 4
  {
    assert |{a, b, c, d}| <= 4;
    SubsetSize(s, {a, b, c, d});
  }

  lemma {:induction false} SubsetSize<T>(s: set<T>, t: set<T>)
    requires s <= t
    ensures |s| <= |t|
  {
    assert t == s + (t - s);
  }

  ghost function EdgeSet(edges: seq<HourRange>): set<HourRange> {
    set r | r in edges
  }

  lemma {:induction false} SharedRanges(day: seq<HourRange>, week: seq<HourRange>, month: seq<HourRange>)
    ensures DistinctRanges(SharedEdges(day, week, month))
    ensures Ranges(SharedEdges(day, week, month)) == EdgeSet(day) + EdgeSet(week) + EdgeSet(month)
  {
    var one := AddEdges([], day, Today);
    var two := AddEdges(one, week, Last7Days);
    AddEdgesRanges([], day, Today);
    AddEdgesRanges(one, week, Last7Days);
    AddEdgesRanges(two, month, Last30Days);
  }

  function StartEdge(start: int): HourRange { HourRange(start, CeilDiv(start, 24) * 24) }

  function EndEdge(end: int): HourRange { HourRange(end / 24 * 24, end) }

  ghost predicate HasDays(start: int, end: int) {
    PlanHours(start, end).days.Some?
  }

  /** The edges of a plan: its own start's, and one its end alone decides. */
  lemma {:induction false} EdgesOf(start: int, end: int)
    ensures EdgeSet(PlanHours(start, end).boundaries)
         <= if HasDays(start, end) then {StartEdge(start), EndEdge(end)} else {HourRange(start, end)}
  {
  }

  /** An earlier start with the same end has whole days wherever the later one has. */
  lemma {:induction false} EarlierHasDays(a: int, b: int, end: int)
    requires a <= b && HasDays(b, end)
    ensures HasDays(a, end)
  {
  }

  lemma {:induction false} FourEdges(s1: int, s2: int, s3: int, end: int)
    requires s3 <= s2 <= s1
    ensures exists a, b, c ::
      EdgeSet(PlanHours(s1, end).boundaries) + EdgeSet(PlanHours(s2, end).boundaries)
      + EdgeSet(PlanHours(s3, end).boundaries) <= {a, b, c, EndEdge(end)}
  {
    EdgesOf(s1, end);
    EdgesOf(s2, end);
    EdgesOf(s3, end);
    if HasDays(s1, end) { EarlierHasDays(s2, s1, end); }
    if HasDays(s2, end) { EarlierHasDays(s3, s2, end); }
    var a := if HasDays(s1, end) then StartEdge(s1) else HourRange(s1, end);
    var b := if HasDays(s2, end) then StartEdge(s2) else HourRange(s2, end);
    var c := if HasDays(s3, end) then StartEdge(s3) else HourRange(s3, end);
    var all := EdgeSet(PlanHours(s1, end).boundaries) + EdgeSet(PlanHours(s2, end).boundaries)
      + EdgeSet(PlanHours(s3, end).boundaries);
    assert all <= {a, b, c, EndEdge(end)};
  }

  /** The three periods never ask for more than four runs of hours, each asked once. */
  lemma {:induction false} AtMostFourReads(c: Clock, today: int)
    requires Regular(c)
    ensures DistinctRanges(PlannedBoundaries(c, today)) && |PlannedBoundaries(c, today)| <= 4
  {
    var s1, s2, s3, end :=
      Start(c, today), Start(c, today - 6), Start(c, today - 29), Start(c, today + 1);
    PeriodsNest(c, today);
    var day, week, month :=
      PeriodRange(c, today, Today), PeriodRange(c, today, Last7Days), PeriodRange(c, today, Last30Days);
    assert day == PlanHours(s1, end) && week == PlanHours(s2, end) && month == PlanHours(s3, end);
    FourReads(day.boundaries, week.boundaries, month.boundaries, s1, s2, s3, end);
  }

  lemma {:induction false} FourReads(
    day: seq<HourRange>, week: seq<HourRange>, month: seq<HourRange>, s1: int, s2: int, s3: int, end: int)
    requires s3 <= s2 <= s1
    requires day == PlanHours(s1, end).boundaries
    requires week == PlanHours(s2, end).boundaries
    requires month == PlanHours(s3, end).boundaries
    ensures DistinctRanges(SharedEdges(day, week, month)) && |SharedEdges(day, week, month)| <= 4
  {
    SharedRanges(day, week, month);
    DistinctCount(SharedEdges(day, week, month));
    FourEdges(s1, s2, s3, end);
    var a, b, c :| EdgeSet(day) + EdgeSet(week) + EdgeSet(month) <= {a, b, c, EndEdge(end)};
    FourAtMost(EdgeSet(day) + EdgeSet(week) + EdgeSet(month), a, b, c, EndEdge(end));
  }

  // ----- days[]

  datatype Bucket = Bucket(date: int, indexes: seq<nat>)

  function BucketIndex(buckets: seq<Bucket>, date: int): (i: nat)
    ensures i <= |buckets|
    ensures i < |buckets| ==> buckets[i].date == date
    ensures forall j :: 0 <= j < i ==> buckets[j].date != date
  {
    if buckets == [] then 0
    else if buckets[0].date == date then 0 else 1 + BucketIndex(buckets[1..], date)
  }

  ghost predicate DistinctDates(buckets: seq<Bucket>) {
    forall i, j :: 0 <= i < j < |buckets| ==> buckets[i].date != buckets[j].date
  }

  predicate BucketLeq(a: Bucket, b: Bucket) { a.date <= b.date }

  /** The positions of one date's rows, in order. */
  function IndexesDated<T>(rows: seq<Row<T>>, date: int): seq<nat> {
    if rows == [] then []
    else
      var front, n := IndexesDated(rows[..|rows| - 1], date), |rows| - 1;
      if rows[n].date == date then front + [n] else front
  }

  /** One bucket for each date that has rows, none for any other, each holding exactly its date's rows in order. */
  ghost predicate BucketsHold<T>(buckets: seq<Bucket>, rows: seq<Row<T>>) {
    && DistinctDates(buckets)
    && (forall b :: b in buckets ==> b.indexes != [] && b.indexes == IndexesDated(rows, b.date))
    && (forall r :: r in rows ==> BucketIndex(buckets, r.date) < |buckets|)
  }

  function Filed(buckets: seq<Bucket>, date: int, n: nat): seq<Bucket> {
    var i := BucketIndex(buckets, date);
    if i < |buckets| then buckets[i := Bucket(date, buckets[i].indexes + [n])]
    else buckets + [Bucket(date, [n])]
  }

  lemma {:induction false} IndexesDatedSnoc<T>(rows: seq<Row<T>>, r: Row<T>, date: int)
    ensures IndexesDated(rows + [r], date) ==
            if r.date == date then IndexesDated(rows, date) + [|rows|] else IndexesDated(rows, date)
  {
    assert (rows + [r])[..|rows|] == rows;
  }

  lemma {:induction false} NoneDated<T>(buckets: seq<Bucket>, rows: seq<Row<T>>, date: int)
    requires forall r :: r in rows ==> BucketIndex(buckets, r.date) < |buckets|
    requires BucketIndex(buckets, date) == |buckets|
    ensures IndexesDated(rows, date) == []
  {
    if rows != [] {
      var front, last := rows[..|rows| - 1], rows[|rows| - 1];
      assert rows == front + [last] && last in rows;
      NoneDated(buckets, front, date);
    }
  }

  lemma {:induction false} FiledFinds(buckets: seq<Bucket>, date: int, n: nat, other: int)
    requires other == date || BucketIndex(buckets, other) < |buckets|
    ensures BucketIndex(Filed(buckets, date, n), other) < |Filed(buckets, date, n)|
  {
    var filed := Filed(buckets, date, n);
    var at := if other == date then BucketIndex(buckets, date) else BucketIndex(buckets, other);
    assert filed[at].date == other;
  }

  lemma {:induction false} FiledHolds<T>(buckets: seq<Bucket>, rows: seq<Row<T>>, r: Row<T>, j: nat)
    requires BucketsHold(buckets, rows) && j < |Filed(buckets, r.date, |rows|)|
    ensures var b := Filed(buckets, r.date, |rows|)[j];
            b.indexes != [] && b.indexes == IndexesDated(rows + [r], b.date)
  {
    var b := Filed(buckets, r.date, |rows|)[j];
    IndexesDatedSnoc(rows, r, b.date);
    if j < |buckets| {
      assert buckets[j] in buckets;
    } else {
      NoneDated(buckets, rows, r.date);
    }
  }

  lemma {:induction false} BucketGrows<T>(buckets: seq<Bucket>, rows: seq<Row<T>>, r: Row<T>)
    requires BucketsHold(buckets, rows)
    ensures BucketsHold(Filed(buckets, r.date, |rows|), rows + [r])
  {
    var i, filed := BucketIndex(buckets, r.date), Filed(buckets, r.date, |rows|);
    forall b | b in filed
      ensures b.indexes != [] && b.indexes == IndexesDated(rows + [r], b.date)
    {
      var j :| 0 <= j < |filed| && filed[j] == b;
      FiledHolds(buckets, rows, r, j);
    }
    forall x | x in rows + [r]
      ensures BucketIndex(filed, x.date) < |filed|
    {
      FiledFinds(buckets, r.date, |rows|, x.date);
    }
  }

  lemma {:induction false} BucketStep<T>(buckets: seq<Bucket>, rows: seq<Row<T>>, n: nat)
    requires n < |rows| && BucketsHold(buckets, rows[..n])
    ensures BucketsHold(Filed(buckets, rows[n].date, n), rows[..n + 1])
  {
    BucketGrows(buckets, rows[..n], rows[n]);
    assert rows[..n] + [rows[n]] == rows[..n + 1];
  }

  /** One bucket for each local date that has rows, in date order. */
  method BuildLocalPeriodDays<T>(rows: seq<Row<T>>) returns (days: seq<Bucket>)
    ensures forall i, j :: 0 <= i < j < |days| ==> days[i].date < days[j].date
    ensures BucketsHold(days, rows)
  {
    var buckets := GroupByDate(rows);
    days := Sort(buckets, BucketLeq);
    SortedBuckets(buckets, rows);
  }

  method GroupByDate<T>(rows: seq<Row<T>>) returns (buckets: seq<Bucket>)
    ensures BucketsHold(buckets, rows)
  {
    buckets := [];
    for n := 0 to |rows|
      invariant BucketsHold(buckets, rows[..n])
    {
      BucketStep(buckets, rows, n);
      buckets := FileRow(buckets, rows[n].date, n);
    }
    assert rows[..|rows|] == rows;
  }

  method FileRow(before: seq<Bucket>, date: int, n: nat) returns (buckets: seq<Bucket>)
    ensures buckets == Filed(before, date, n)
  {
    var i := BucketIndex(before, date);
    if i < |before| {
      buckets := before[i := Bucket(date, before[i].indexes + [n])];
    } else {
      buckets := before + [Bucket(date, [n])];
    }
  }

  lemma {:induction false} SortedFinds(buckets: seq<Bucket>, date: int)
    requires BucketIndex(buckets, date) < |buckets|
    ensures BucketIndex(Sort(buckets, BucketLeq), date) < |Sort(buckets, BucketLeq)|
  {
    SortMembers(buckets, BucketLeq);
    assert buckets[BucketIndex(buckets, date)] in Sort(buckets, BucketLeq);
  }

  lemma {:induction false} SortedBuckets<T>(buckets: seq<Bucket>, rows: seq<Row<T>>)
    requires BucketsHold(buckets, rows)
    ensures var days := Sort(buckets, BucketLeq);
      && BucketsHold(days, rows)
      && forall i, j :: 0 <= i < j < |days| ==> days[i].date < days[j].date
  {
    SortMembers(buckets, BucketLeq);
    SortSorts(buckets, BucketLeq);
    SortDistinct(buckets, BucketLeq, (b: Bucket) => b.date);
    forall r | r in rows
      ensures BucketIndex(Sort(buckets, BucketLeq), r.date) < |Sort(buckets, BucketLeq)|
    {
      SortedFinds(buckets, r.date);
    }
  }

  /** What a bucket's rows measure is what its date's rows measure. */
  lemma {:induction false} DatedRowsSum<T>(rows: seq<Row<T>>, more: seq<Row<T>>, measure: Row<T> -> int, date: int)
    ensures SumAt(rows + more, measure, IndexesDated(rows, date)) == SumDated(rows, measure, date)
    ensures Below(IndexesDated(rows, date), |rows|)
  {
    if rows != [] {
      var front, last := rows[..|rows| - 1], rows[|rows| - 1];
      DatedRowsSum(front, [last] + more, measure, date);
      assert rows + more == front + ([last] + more);
      if last.date == date {
        SumAtAppend(rows + more, measure, IndexesDated(front, date), [|front|]);
        SumAtOne(rows + more, measure, |front|);
      }
    }
  }

  // ----- the days of a period add up to the period

  function DaysTotal<T>(rows: seq<Row<T>>, measure: Row<T> -> int, days: seq<Bucket>): int {
    if days == [] then 0
    else DaysTotal(rows, measure, days[..|days| - 1]) + SumAt(rows, measure, days[|days| - 1].indexes)
  }

  function DatesTotal<T>(seen: seq<Row<T>>, measure: Row<T> -> int, days: seq<Bucket>): int {
    if days == [] then 0
    else DatesTotal(seen, measure, days[..|days| - 1]) + SumDated(seen, measure, days[|days| - 1].date)
  }

  lemma {:induction false} TotalsAgree<T>(rows: seq<Row<T>>, measure: Row<T> -> int, days: seq<Bucket>)
    requires forall b :: b in days ==> b.indexes == IndexesDated(rows, b.date)
    ensures DaysTotal(rows, measure, days) == DatesTotal(rows, measure, days)
  {
    if days != [] {
      var front := days[..|days| - 1];
      assert days == front + [days[|days| - 1]];
      TotalsAgree(rows, measure, front);
      DatedRowsSum(rows, [], measure, days[|days| - 1].date);
      assert rows + [] == rows;
    }
  }

  /** Adding one row adds it to one date, when the dates are distinct and name it. */
  lemma {:induction false} DatesTotalSnoc<T>(seen: seq<Row<T>>, measure: Row<T> -> int, days: seq<Bucket>)
    requires seen != [] && DistinctDates(days)
    ensures DatesTotal(seen, measure, days)
         == DatesTotal(seen[..|seen| - 1], measure, days)
            + if BucketIndex(days, seen[|seen| - 1].date) < |days| then measure(seen[|seen| - 1]) else 0
  {
    if days != [] {
      var front, last := days[..|days| - 1], days[|days| - 1];
      DatesTotalSnoc(seen, measure, front);
      BucketIndexSnoc(front, last, seen[|seen| - 1].date);
      assert days == front + [last];
    }
  }

  lemma {:induction false} BucketIndexSnoc(front: seq<Bucket>, last: Bucket, date: int)
    ensures BucketIndex(front + [last], date) < |front| + 1
      <==> BucketIndex(front, date) < |front| || last.date == date
  {
    if front != [] {
      BucketIndexSnoc(front[1..], last, date);
      assert (front + [last])[1..] == front[1..] + [last];
    }
  }

  lemma {:induction false} DatesCoverRows<T>(seen: seq<Row<T>>, measure: Row<T> -> int, days: seq<Bucket>)
    requires DistinctDates(days)
    requires forall r :: r in seen ==> BucketIndex(days, r.date) < |days|
    ensures DatesTotal(seen, measure, days) == SumRows(seen, measure)
  {
    if seen == [] {
      NoRows(measure, days);
    } else {
      var front, last := seen[..|seen| - 1], seen[|seen| - 1];
      assert seen == front + [last];
      assert forall r :: r in front ==> r in seen;
      DatesCoverRows(front, measure, days);
      DatesTotalSnoc(seen, measure, days);
      assert last in seen;
    }
  }

  lemma {:induction false} NoRows<T>(measure: Row<T> -> int, days: seq<Bucket>)
    ensures DatesTotal([], measure, days) == 0
  {
    if days != [] {
      NoRows(measure, days[..|days| - 1]);
    }
  }

  /** Each hour was filed under the window it falls in, and nothing else was answered. */
  ghost predicate LocalDaysAnswered<T>(
    c: Clock, rows: seq<Row<T>>, measure: Row<T> -> int, u: int -> int, from: int, through: int)
    requires Regular(c)
  {
    && (forall r :: r in rows ==> from <= r.date <= through)
    && (forall d :: from <= d <= through ==> SumDated(rows, measure, d) == HourSum(u, Start(c, d), Start(c, d + 1)))
  }

  lemma {:induction false} DatedSums<T>(
    c: Clock, rows: seq<Row<T>>, measure: Row<T> -> int, u: int -> int, from: int, through: int, upper: int)
    requires Regular(c) && through <= upper && LocalDaysAnswered(c, rows, measure, u, from, upper)
    ensures SumWindow(rows, measure, Some(DateWindow(from, through))) == WindowSum(u, Windows(c, from, through))
    decreases through - from
  {
    if from > through {
      SumWindowEmpty(rows, measure, Some(DateWindow(from, through)));
    } else {
      DatedSums(c, rows, measure, u, from, through - 1, upper);
      SumWindowStep(rows, measure, from, through);
      WindowSumSnoc(
        u, Windows(c, from, through - 1), DayWindow(through, Start(c, through), Start(c, through + 1)));
    }
  }

  lemma {:induction false} WindowTakesRows<T>(rows: seq<Row<T>>, measure: Row<T> -> int, window: Option<DateWindow>)
    requires forall r :: r in rows ==> InWindow(window, r.date)
    ensures SumWindow(rows, measure, window) == SumRows(rows, measure)
  {
    if rows != [] {
      assert rows == rows[..|rows| - 1] + [rows[|rows| - 1]];
      WindowTakesRows(rows[..|rows| - 1], measure, window);
    }
  }

  /** The totals of `days[]` add up to every hour of the period, which is the period's own total. */
  lemma {:induction false} DaysAddUpToPeriod<T>(
    c: Clock, from: int, through: int, rows: seq<Row<T>>, measure: Row<T> -> int, u: int -> int, days: seq<Bucket>)
    requires Regular(c)
    requires LocalDaysAnswered(c, rows, measure, u, from, through)
    requires BucketsHold(days, rows)
    ensures DaysTotal(rows, measure, days) == HourSum(u, Start(c, from), Start(c, through + 1))
  {
    TotalsAgree(rows, measure, days);
    DatesCoverRows(rows, measure, days);
    WindowTakesRows(rows, measure, Some(DateWindow(from, through)));
    DatedSums(c, rows, measure, u, from, through, through);
    WindowsTile(c, u, from, through);
  }

  // ----- the period read's own total

  function Flattened<T>(edges: seq<seq<Row<T>>>): seq<Row<T>> {
    if edges == [] then [] else Flattened(edges[..|edges| - 1]) + edges[|edges| - 1]
  }

  /** The rows the period read folds: the rollup of the plan's days and the hours of its edges. */
  ghost predicate PeriodAnswered<T>(
    plan: RangePlan, daily: seq<Row<T>>, edges: seq<seq<Row<T>>>, measure: Row<T> -> int, u: int -> int)
  {
    && (forall r :: r in daily ==> InWindow(plan.days, r.date))
    && RollupComplete(daily, measure, u, plan.days)
    && |edges| == |plan.boundaries|
    && forall i :: 0 <= i < |edges| ==>
         SumRows(edges[i], measure) == HourSum(u, plan.boundaries[i].from, plan.boundaries[i].to)
  }

  lemma {:induction false} SumRowsAppend<T>(a: seq<Row<T>>, b: seq<Row<T>>, measure: Row<T> -> int)
    ensures SumRows(a + b, measure) == SumRows(a, measure) + SumRows(b, measure)
  {
    if b == [] {
      assert a + b == a;
    } else {
      SumRowsAppend(a, b[..|b| - 1], measure);
      assert (a + b)[..|a + b| - 1] == a + b[..|b| - 1];
    }
  }

  lemma {:induction false} EdgesSum<T>(
    ranges: seq<HourRange>, edges: seq<seq<Row<T>>>, measure: Row<T> -> int, u: int -> int)
    requires |edges| == |ranges|
    requires forall i :: 0 <= i < |edges| ==> SumRows(edges[i], measure) == HourSum(u, ranges[i].from, ranges[i].to)
    ensures SumRows(Flattened(edges), measure) == RangeSum(u, ranges)
  {
    if edges != [] {
      EdgesSum(ranges[..|ranges| - 1], edges[..|edges| - 1], measure, u);
      SumRowsAppend(Flattened(edges[..|edges| - 1]), edges[|edges| - 1], measure);
    }
  }

  /** The period's total and the sum of its `days[]`, read from different tables, are one number. */
  lemma {:induction false} DaysMatchPeriod<T>(
    c: Clock, from: int, through: int, daily: seq<Row<T>>, edges: seq<seq<Row<T>>>, rows: seq<Row<T>>,
    measure: Row<T> -> int, u: int -> int, days: seq<Bucket>)
    requires Regular(c)
    requires PeriodAnswered(RangeOf(c, from, through), daily, edges, measure, u)
    requires LocalDaysAnswered(c, rows, measure, u, from, through)
    requires BucketsHold(days, rows)
    ensures SumRows(daily + Flattened(edges), measure) == DaysTotal(rows, measure, days)
  {
    var plan := RangeOf(c, from, through);
    DaysAddUpToPeriod(c, from, through, rows, measure, u, days);
    SumRowsAppend(daily, Flattened(edges), measure);
    WindowTakesRows(daily, measure, plan.days);
    WindowIsRollup(daily, measure, u, plan.days);
    EdgesSum(plan.boundaries, edges, measure, u);
    PlanCoversHours(u, plan.start, plan.end);
  }
}
