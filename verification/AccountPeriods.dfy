/**
 * The three local periods of an Account read: the plan that shares edges between them, the rows
 * each one selects, and the totals those rows add up to.
 */
module AccountPeriods {
  import opened Prelude
  import opened LocalCalendar

  datatype PeriodKey = Today | Last7Days | Last30Days

  function DaysBack(k: PeriodKey): nat {
    match k
    case Today => 0
    case Last7Days => 6
    case Last30Days => 29
  }

  /** An hour range to read, and the periods that fold what it answers. */
  datatype Boundary = Boundary(range: HourRange, periods: seq<PeriodKey>)

  /** One value for each period. */
  datatype PerPeriod<T> = PerPeriod(today: T, last7Days: T, last30Days: T) {
    function Get(k: PeriodKey): T {
      match k
      case Today => today
      case Last7Days => last7Days
      case Last30Days => last30Days
    }

    function With(k: PeriodKey, value: T): PerPeriod<T> {
      match k
      case Today => this.(today := value)
      case Last7Days => this.(last7Days := value)
      case Last30Days => this.(last30Days := value)
    }
  }

  datatype PeriodPlan = PeriodPlan(
    localDate: int, days: PerPeriod<Option<DateWindow>>, boundaries: seq<Boundary>)

  function RangeIndex(bs: seq<Boundary>, r: HourRange): (i: nat)
    ensures i <= |bs|
    ensures i < |bs| ==> bs[i].range == r
    ensures forall j :: 0 <= j < i ==> bs[j].range != r
  {
    if bs == [] then 0 else if bs[0].range == r then 0 else 1 + RangeIndex(bs[1..], r)
  }

  /** An edge already planned is shared; a new one is read on its own. */
  function AddEdge(bs: seq<Boundary>, r: HourRange, k: PeriodKey): seq<Boundary> {
    var i := RangeIndex(bs, r);
    if i < |bs| then bs[i := bs[i].(periods := bs[i].periods + [k])] else bs + [Boundary(r, [k])]
  }

  function AddEdges(bs: seq<Boundary>, edges: seq<HourRange>, k: PeriodKey): seq<Boundary> {
    if edges == [] then bs else AddEdge(AddEdges(bs, edges[..|edges| - 1], k), edges[|edges| - 1], k)
  }

  ghost function PeriodRange(c: Clock, today: int, k: PeriodKey): RangePlan
    requires Regular(c)
  {
    RangeOf(c, today - DaysBack(k), today)
  }

  function SharedEdges(day: seq<HourRange>, week: seq<HourRange>, month: seq<HourRange>): seq<Boundary> {
    AddEdges(AddEdges(AddEdges([], day, Today), week, Last7Days), month, Last30Days)
  }

  ghost function PlannedBoundaries(c: Clock, today: int): seq<Boundary>
    requires Regular(c)
  {
    SharedEdges(
      PeriodRange(c, today, Today).boundaries,
      PeriodRange(c, today, Last7Days).boundaries,
      PeriodRange(c, today, Last30Days).boundaries)
  }

  method ShareEdges(before: seq<Boundary>, edges: seq<HourRange>, k: PeriodKey)
    returns (bs: seq<Boundary>)
    ensures bs == AddEdges(before, edges, k)
  {
    bs := before;
    for n := 0 to |edges|
      invariant bs == AddEdges(before, edges[..n], k)
    {
      assert edges[..n + 1][..n] == edges[..n];
      var i := RangeIndex(bs, edges[n]);
      if i < |bs| {
        bs := bs[i := bs[i].(periods := bs[i].periods + [k])];
      } else {
        bs := bs + [Boundary(edges[n], [k])];
      }
    }
    assert edges[..|edges|] == edges;
  }

  method ShareAll(day: seq<HourRange>, week: seq<HourRange>, month: seq<HourRange>)
    returns (bs: seq<Boundary>)
    ensures bs == SharedEdges(day, week, month)
  {
    bs := ShareEdges([], day, Today);
    bs := ShareEdges(bs, week, Last7Days);
    bs := ShareEdges(bs, month, Last30Days);
  }

  method PlanPeriod(c: Clock, today: int, k: PeriodKey) returns (plan: RangePlan)
    requires Regular(c)
    ensures plan == PeriodRange(c, today, k)
  {
    plan := PlanLocalDateRange(c, today - DaysBack(k), today);
  }

  method PlanLocalPeriods(c: Clock, checkedAt: int) returns (plan: PeriodPlan)
    requires Regular(c)
    ensures plan.localDate == c.wall(checkedAt) / DAY
    ensures forall k :: plan.days.Get(k) == PeriodRange(c, plan.localDate, k).days
    ensures plan.boundaries == PlannedBoundaries(c, plan.localDate)
  {
    var today := c.wall(checkedAt) / DAY;
    var day := PlanPeriod(c, today, Today);
    var week := PlanPeriod(c, today, Last7Days);
    var month := PlanPeriod(c, today, Last30Days);
    var bs := ShareAll(day.boundaries, week.boundaries, month.boundaries);
    plan := PeriodPlan(today, PerPeriod(day.days, week.days, month.days), bs);
  }

  // ----- sharing an edge loses none

  function Occurrences(periods: seq<PeriodKey>, k: PeriodKey): nat {
    if periods == [] then 0
    else Occurrences(periods[..|periods| - 1], k) + if periods[|periods| - 1] == k then 1 else 0
  }

  /** `x` added up `n` times. */
  function Times(n: nat, x: int): int {
    if n == 0 then 0 else Times(n - 1, x) + x
  }

  /** What the boundaries tagged with `k` add up to, a range once for each time it is tagged. */
  function Tagged(bs: seq<Boundary>, k: PeriodKey, weigh: HourRange -> int): int {
    if bs == [] then 0
    else
      Tagged(bs[..|bs| - 1], k, weigh)
      + Times(Occurrences(bs[|bs| - 1].periods, k), weigh(bs[|bs| - 1].range))
  }

  function Weigh(edges: seq<HourRange>, weigh: HourRange -> int): int {
    if edges == [] then 0 else Weigh(edges[..|edges| - 1], weigh) + weigh(edges[|edges| - 1])
  }

  lemma {:induction false} OccurrencesSnoc(periods: seq<PeriodKey>, p: PeriodKey, k: PeriodKey)
    ensures Occurrences(periods + [p], k) == Occurrences(periods, k) + if p == k then 1 else 0
  {
    assert (periods + [p])[..|periods|] == periods;
  }

  lemma {:induction false} TaggedUpdate(bs: seq<Boundary>, i: nat, b: Boundary, k: PeriodKey, weigh: HourRange -> int)
    requires i < |bs|
    ensures Tagged(bs[i := b], k, weigh)
         == Tagged(bs, k, weigh)
            - Times(Occurrences(bs[i].periods, k), weigh(bs[i].range))
            + Times(Occurrences(b.periods, k), weigh(b.range))
  {
    var last := |bs| - 1;
    if i < last {
      TaggedUpdate(bs[..last], i, b, k, weigh);
      assert bs[i := b][..last] == bs[..last][i := b];
    } else {
      assert bs[i := b][..last] == bs[..last];
    }
  }

  lemma {:induction false} TaggedSnoc(bs: seq<Boundary>, b: Boundary, k: PeriodKey, weigh: HourRange -> int)
    ensures Tagged(bs + [b], k, weigh) == Tagged(bs, k, weigh) + Times(Occurrences(b.periods, k), weigh(b.range))
  {
    assert (bs + [b])[..|bs|] == bs;
  }

  /** One more tag counts its range once more. */
  lemma {:induction false} TimesTagged(periods: seq<PeriodKey>, k: PeriodKey, j: PeriodKey, x: int)
    ensures Times(Occurrences(periods + [k], j), x) == Times(Occurrences(periods, j), x) + if k == j then x else 0
  {
    OccurrencesSnoc(periods, k, j);
  }

  lemma {:induction false} AddEdgeTagged(
    bs: seq<Boundary>, r: HourRange, k: PeriodKey, j: PeriodKey, weigh: HourRange -> int)
    ensures Tagged(AddEdge(bs, r, k), j, weigh) == Tagged(bs, j, weigh) + if k == j then weigh(r) else 0
  {
    var i := RangeIndex(bs, r);
    if i < |bs| {
      TaggedUpdate(bs, i, bs[i].(periods := bs[i].periods + [k]), j, weigh);
      TimesTagged(bs[i].periods, k, j, weigh(r));
    } else {
      TaggedSnoc(bs, Boundary(r, [k]), j, weigh);
      TimesTagged([], k, j, weigh(r));
      assert [] + [k] == [k];
    }
  }

  lemma {:induction false} AddEdgesTagged(
    bs: seq<Boundary>, edges: seq<HourRange>, k: PeriodKey, j: PeriodKey, weigh: HourRange -> int)
    ensures Tagged(AddEdges(bs, edges, k), j, weigh)
         == Tagged(bs, j, weigh) + if k == j then Weigh(edges, weigh) else 0
  {
    if edges != [] {
      var front := edges[..|edges| - 1];
      AddEdgesTagged(bs, front, k, j, weigh);
      AddEdgeTagged(AddEdges(bs, front, k), edges[|edges| - 1], k, j, weigh);
    }
  }

  /** Every period is tagged on exactly its own edges, however they are shared. */
  lemma {:induction false} PlannedEdges(c: Clock, today: int, k: PeriodKey, weigh: HourRange -> int)
    requires Regular(c)
    ensures Tagged(PlannedBoundaries(c, today), k, weigh)
         == Weigh(PeriodRange(c, today, k).boundaries, weigh)
  {
    var day, week, month :=
      PeriodRange(c, today, Today).boundaries,
      PeriodRange(c, today, Last7Days).boundaries,
      PeriodRange(c, today, Last30Days).boundaries;
    var one := AddEdges([], day, Today);
    var two := AddEdges(one, week, Last7Days);
    AddEdgesTagged([], day, Today, k, weigh);
    AddEdgesTagged(one, week, Last7Days, k, weigh);
    AddEdgesTagged(two, month, Last30Days, k, weigh);
  }

  // ----- selecting rows

  /** A stored row: the UTC date it is filed under and what it says. */
  datatype Row<T> = Row(date: int, fact: T)

  /** The rows a boundary read answered, and the periods that fold them. */
  datatype BoundaryRows<T> = BoundaryRows(periods: seq<PeriodKey>, rows: seq<Row<T>>)

  predicate InWindow(window: Option<DateWindow>, date: int) {
    window.Some? && window.value.from <= date <= window.value.to
  }

  function DailyIndexes<T>(daily: seq<Row<T>>, window: Option<DateWindow>): seq<nat> {
    if daily == [] then []
    else
      var last := |daily| - 1;
      DailyIndexes(daily[..last], window) + if InWindow(window, daily[last].date) then [last] else []
  }

  function Repeat(n: nat, times: nat): seq<nat> {
    if times == 0 then [] else Repeat(n, times - 1) + [n]
  }

  function RowIndexes(offset: nat, count: nat, times: nat): seq<nat> {
    if count == 0 then [] else RowIndexes(offset, count - 1, times) + Repeat(offset + count - 1, times)
  }

  function RowsBefore<T>(bs: seq<BoundaryRows<T>>): seq<Row<T>> {
    if bs == [] then [] else RowsBefore(bs[..|bs| - 1]) + bs[|bs| - 1].rows
  }

  function BoundaryIndexes<T>(bs: seq<BoundaryRows<T>>, k: PeriodKey, offset: nat): seq<nat> {
    if bs == [] then []
    else
      var front, last := bs[..|bs| - 1], bs[|bs| - 1];
      BoundaryIndexes(front, k, offset)
      + RowIndexes(offset + |RowsBefore(front)|, |last.rows|, Occurrences(last.periods, k))
  }

  /** The rows the read laid out: every daily row, then every boundary row. */
  function AllRows<T>(daily: seq<Row<T>>, bs: seq<BoundaryRows<T>>): seq<Row<T>> {
    daily + RowsBefore(bs)
  }

  function Selected<T>(
    daily: seq<Row<T>>, bs: seq<BoundaryRows<T>>, window: Option<DateWindow>, k: PeriodKey): seq<nat>
  {
    DailyIndexes(daily, window) + BoundaryIndexes(bs, k, |daily|)
  }

  ghost predicate DailyChosen<T>(
    selected: PerPeriod<seq<nat>>, daily: seq<Row<T>>, days: PerPeriod<Option<DateWindow>>)
  {
    forall k :: selected.Get(k) == DailyIndexes(daily, days.Get(k))
  }

  method SelectPeriods<T>(
    daily: seq<Row<T>>, bs: seq<BoundaryRows<T>>, days: PerPeriod<Option<DateWindow>>)
    returns (selected: PerPeriod<seq<nat>>)
    ensures forall k :: selected.Get(k) == Selected(daily, bs, days.Get(k), k)
  {
    selected := SelectDaily(daily, days);
    var offset := |daily|;
    ghost var start := selected;
    for b := 0 to |bs|
      invariant offset == |daily| + |RowsBefore(bs[..b])|
      invariant forall k :: selected.Get(k) == start.Get(k) + BoundaryIndexes(bs[..b], k, |daily|)
    {
      assert bs[..b + 1][..b] == bs[..b];
      var before := selected;
      selected := SelectBoundary(selected, bs[b].periods, offset, |bs[b].rows|);
      forall k
        ensures selected.Get(k) == start.Get(k) + BoundaryIndexes(bs[..b + 1], k, |daily|)
      {
        assert BoundaryIndexes(bs[..b + 1], k, |daily|)
          == BoundaryIndexes(bs[..b], k, |daily|)
             + RowIndexes(offset, |bs[b].rows|, Occurrences(bs[b].periods, k));
      }
      offset := offset + |bs[b].rows|;
    }
    assert bs[..|bs|] == bs;
  }

  method SelectDaily<T>(daily: seq<Row<T>>, days: PerPeriod<Option<DateWindow>>)
    returns (selected: PerPeriod<seq<nat>>)
    ensures DailyChosen(selected, daily, days)
  {
    selected := PerPeriod([], [], []);
    for index := 0 to |daily|
      invariant DailyChosen(selected, daily[..index], days)
    {
      assert daily[..index + 1][..index] == daily[..index];
      var date := daily[index].date;
      if InWindow(days.today, date) {
        selected := selected.With(Today, selected.today + [index]);
      }
      if InWindow(days.last7Days, date) {
        selected := selected.With(Last7Days, selected.last7Days + [index]);
      }
      if InWindow(days.last30Days, date) {
        selected := selected.With(Last30Days, selected.last30Days + [index]);
      }
    }
    assert daily[..|daily|] == daily;
  }

  method SelectBoundary(before: PerPeriod<seq<nat>>, periods: seq<PeriodKey>, offset: nat, count: nat)
    returns (selected: PerPeriod<seq<nat>>)
    ensures forall k :: selected.Get(k) == before.Get(k) + RowIndexes(offset, count, Occurrences(periods, k))
  {
    selected := before;
    for index := 0 to count
      invariant forall k ::
        selected.Get(k) == before.Get(k) + RowIndexes(offset, index, Occurrences(periods, k))
    {
      selected := PushRow(selected, periods, offset + index);
    }
  }

  method PushRow(before: PerPeriod<seq<nat>>, periods: seq<PeriodKey>, row: nat)
    returns (selected: PerPeriod<seq<nat>>)
    ensures forall k :: selected.Get(k) == before.Get(k) + Repeat(row, Occurrences(periods, k))
  {
    selected := before;
    for n := 0 to |periods|
      invariant forall k :: selected.Get(k) == before.Get(k) + Repeat(row, Occurrences(periods[..n], k))
    {
      assert periods[..n + 1][..n] == periods[..n];
      selected := selected.With(periods[n], selected.Get(periods[n]) + [row]);
    }
    assert periods[..|periods|] == periods;
  }

  // ----- what the selected rows add up to

  function MeasureAt<T>(rows: seq<Row<T>>, measure: Row<T> -> int, index: nat): int {
    if index < |rows| then measure(rows[index]) else 0
  }

  function SumAt<T>(rows: seq<Row<T>>, measure: Row<T> -> int, indexes: seq<nat>): int {
    if indexes == [] then 0
    else SumAt(rows, measure, indexes[..|indexes| - 1]) + MeasureAt(rows, measure, indexes[|indexes| - 1])
  }

  function SumRows<T>(rows: seq<Row<T>>, measure: Row<T> -> int): int {
    if rows == [] then 0 else SumRows(rows[..|rows| - 1], measure) + measure(rows[|rows| - 1])
  }

  /** The rows filed under one date. */
  function SumDated<T>(rows: seq<Row<T>>, measure: Row<T> -> int, date: int): int {
    if rows == [] then 0
    else
      SumDated(rows[..|rows| - 1], measure, date)
      + if rows[|rows| - 1].date == date then measure(rows[|rows| - 1]) else 0
  }

  function SumWindow<T>(rows: seq<Row<T>>, measure: Row<T> -> int, window: Option<DateWindow>): int {
    if rows == [] then 0
    else
      SumWindow(rows[..|rows| - 1], measure, window)
      + if InWindow(window, rows[|rows| - 1].date) then measure(rows[|rows| - 1]) else 0
  }

  /** Below `bound`, every index stays inside the rows it was made for. */
  ghost predicate Below(indexes: seq<nat>, bound: nat) {
    forall i :: 0 <= i < |indexes| ==> indexes[i] < bound
  }

  lemma {:induction false} SumAtAppend<T>(rows: seq<Row<T>>, measure: Row<T> -> int, a: seq<nat>, b: seq<nat>)
    ensures SumAt(rows, measure, a + b) == SumAt(rows, measure, a) + SumAt(rows, measure, b)
  {
    if b == [] {
      assert a + b == a;
    } else {
      SumAtAppend(rows, measure, a, b[..|b| - 1]);
      assert (a + b)[..|a + b| - 1] == a + b[..|b| - 1];
    }
  }

  lemma {:induction false} SumAtLonger<T>(rows: seq<Row<T>>, more: seq<Row<T>>, measure: Row<T> -> int, a: seq<nat>)
    requires Below(a, |rows|)
    ensures SumAt(rows + more, measure, a) == SumAt(rows, measure, a)
  {
    if a != [] {
      SumAtLonger(rows, more, measure, a[..|a| - 1]);
    }
  }

  lemma {:induction false} BelowAppend(a: seq<nat>, b: seq<nat>, small: nat, bound: nat)
    requires Below(a, small) && Below(b, bound) && small <= bound
    ensures Below(a + b, bound)
  {
  }

  lemma {:induction false} DailyIndexesBelow<T>(daily: seq<Row<T>>, window: Option<DateWindow>)
    ensures Below(DailyIndexes(daily, window), |daily|)
  {
    if daily != [] {
      DailyIndexesBelow(daily[..|daily| - 1], window);
    }
  }

  lemma {:induction false} SumAtOne<T>(rows: seq<Row<T>>, measure: Row<T> -> int, index: nat)
    ensures SumAt(rows, measure, [index]) == MeasureAt(rows, measure, index)
  {
    assert [index][..0] == [];
  }

  lemma {:induction false} DailyIndexesSum<T>(daily: seq<Row<T>>, measure: Row<T> -> int, window: Option<DateWindow>)
    ensures SumAt(daily, measure, DailyIndexes(daily, window)) == SumWindow(daily, measure, window)
  {
    if daily != [] {
      var front, last := daily[..|daily| - 1], |daily| - 1;
      var indexes := DailyIndexes(front, window);
      DailyIndexesSum(front, measure, window);
      DailyIndexesBelow(front, window);
      SumAtLonger(front, [daily[last]], measure, indexes);
      assert daily == front + [daily[last]];
      SumAtOne(daily, measure, last);
      SumAtAppend(daily, measure, indexes, if InWindow(window, daily[last].date) then [last] else []);
    }
  }

  lemma {:induction false} RepeatSum<T>(rows: seq<Row<T>>, measure: Row<T> -> int, n: nat, times: nat)
    ensures Below(Repeat(n, times), n + 1)
    ensures SumAt(rows, measure, Repeat(n, times)) == Times(times, MeasureAt(rows, measure, n))
  {
    if times > 0 {
      RepeatSum(rows, measure, n, times - 1);
      var front := Repeat(n, times - 1);
      assert (front + [n])[..|front|] == front;
    }
  }

  lemma {:induction false} RowIndexesBelow(offset: nat, count: nat, times: nat)
    ensures Below(RowIndexes(offset, count, times), offset + count)
  {
    if count > 0 {
      RowIndexesBelow(offset, count - 1, times);
      RepeatBelow(offset + count - 1, times);
    }
  }

  lemma {:induction false} RepeatBelow(n: nat, times: nat)
    ensures Below(Repeat(n, times), n + 1)
  {
    if times > 0 {
      RepeatBelow(n, times - 1);
    }
  }

  lemma {:induction false} RowIndexesSum<T>(
    before: seq<Row<T>>, rows: seq<Row<T>>, measure: Row<T> -> int, count: nat, times: nat)
    requires count <= |rows|
    ensures SumAt(before + rows, measure, RowIndexes(|before|, count, times))
         == Times(times, SumRows(rows[..count], measure))
  {
    if count == 0 {
      TimesZero(times);
    } else {
      RowIndexesSum(before, rows, measure, count - 1, times);
      var all, n := before + rows, |before| + count - 1;
      RepeatSum(all, measure, n, times);
      SumAtAppend(all, measure, RowIndexes(|before|, count - 1, times), Repeat(n, times));
      SumRowsSnoc(rows, measure, count);
      assert MeasureAt(all, measure, n) == measure(rows[count - 1]);
      Distribute(times, SumRows(rows[..count - 1], measure), measure(rows[count - 1]));
    }
  }

  lemma {:induction false} SumRowsSnoc<T>(rows: seq<Row<T>>, measure: Row<T> -> int, count: nat)
    requires 0 < count <= |rows|
    ensures SumRows(rows[..count], measure) == SumRows(rows[..count - 1], measure) + measure(rows[count - 1])
  {
    assert rows[..count][..count - 1] == rows[..count - 1];
  }

  lemma {:induction false} Distribute(n: nat, a: int, b: int)
    ensures Times(n, a + b) == Times(n, a) + Times(n, b)
  {
    if n > 0 {
      Distribute(n - 1, a, b);
    }
  }

  lemma {:induction false} TimesZero(n: nat)
    ensures Times(n, 0) == 0
  {
    if n > 0 {
      TimesZero(n - 1);
    }
  }

  /** What the boundary reads answered, weighed once for each time a period is tagged on one. */
  function TaggedRows<T>(bs: seq<BoundaryRows<T>>, k: PeriodKey, measure: Row<T> -> int): int {
    if bs == [] then 0
    else
      TaggedRows(bs[..|bs| - 1], k, measure)
      + Times(Occurrences(bs[|bs| - 1].periods, k), SumRows(bs[|bs| - 1].rows, measure))
  }

  lemma {:induction false} BoundaryIndexesBelow<T>(daily: seq<Row<T>>, bs: seq<BoundaryRows<T>>, k: PeriodKey)
    ensures Below(BoundaryIndexes(bs, k, |daily|), |daily| + |RowsBefore(bs)|)
  {
    if bs != [] {
      var front, last := bs[..|bs| - 1], bs[|bs| - 1];
      BoundaryIndexesBelow(daily, front, k);
      RowIndexesBelow(|daily| + |RowsBefore(front)|, |last.rows|, Occurrences(last.periods, k));
    }
  }

  lemma {:induction false} AllRowsLast<T>(daily: seq<Row<T>>, bs: seq<BoundaryRows<T>>)
    requires bs != []
    ensures AllRows(daily, bs) == AllRows(daily, bs[..|bs| - 1]) + bs[|bs| - 1].rows
  {
  }

  lemma {:induction false} BoundaryIndexesSum<T>(
    daily: seq<Row<T>>, bs: seq<BoundaryRows<T>>, k: PeriodKey, measure: Row<T> -> int)
    ensures SumAt(AllRows(daily, bs), measure, BoundaryIndexes(bs, k, |daily|)) == TaggedRows(bs, k, measure)
  {
    if bs != [] {
      var front, last := bs[..|bs| - 1], bs[|bs| - 1];
      BoundaryIndexesSum(daily, front, k, measure);
      BoundaryIndexesBelow(daily, front, k);
      var before, times := AllRows(daily, front), Occurrences(last.periods, k);
      AllRowsLast(daily, bs);
      assert |before| == |daily| + |RowsBefore(front)|;
      assert BoundaryIndexes(bs, k, |daily|) ==
             BoundaryIndexes(front, k, |daily|) + RowIndexes(|before|, |last.rows|, times);
      BoundaryStep(before, last.rows, BoundaryIndexes(front, k, |daily|), measure, times);
    }
  }

  lemma {:induction false} BoundaryStep<T>(
    before: seq<Row<T>>, rows: seq<Row<T>>, indexes: seq<nat>, measure: Row<T> -> int, times: nat)
    requires Below(indexes, |before|)
    ensures SumAt(before + rows, measure, indexes + RowIndexes(|before|, |rows|, times))
         == SumAt(before, measure, indexes) + Times(times, SumRows(rows, measure))
  {
    SumAtLonger(before, rows, measure, indexes);
    RowIndexesSum(before, rows, measure, |rows|, times);
    assert rows[..|rows|] == rows;
    SumAtAppend(before + rows, measure, indexes, RowIndexes(|before|, |rows|, times));
  }

  // ----- the theorem

  /** The rollup of every UTC day in the window is in hand, and adds up to the day's hours. */
  ghost predicate RollupComplete<T>(
    daily: seq<Row<T>>, measure: Row<T> -> int, u: int -> int, window: Option<DateWindow>)
  {
    forall d :: InWindow(window, d) ==> SumDated(daily, measure, d) == DayTotal(u, d)
  }

  /** Each boundary read answered the hours of its range, and carries its periods. */
  ghost predicate BoundariesAnswered<T>(
    plan: seq<Boundary>, bs: seq<BoundaryRows<T>>, measure: Row<T> -> int, u: int -> int)
  {
    |plan| == |bs| && forall i :: 0 <= i < |bs| ==>
      bs[i].periods == plan[i].periods
      && SumRows(bs[i].rows, measure) == HourSum(u, plan[i].range.from, plan[i].range.to)
  }

  lemma {:induction false} SumWindowStep<T>(rows: seq<Row<T>>, measure: Row<T> -> int, from: int, through: int)
    requires from <= through
    ensures SumWindow(rows, measure, Some(DateWindow(from, through)))
         == SumWindow(rows, measure, Some(DateWindow(from, through - 1))) + SumDated(rows, measure, through)
  {
    if rows != [] {
      SumWindowStep(rows[..|rows| - 1], measure, from, through);
    }
  }

  lemma {:induction false} SumWindowEmpty<T>(rows: seq<Row<T>>, measure: Row<T> -> int, window: Option<DateWindow>)
    requires window.None? || window.value.from > window.value.to
    ensures SumWindow(rows, measure, window) == 0
  {
    if rows != [] {
      SumWindowEmpty(rows[..|rows| - 1], measure, window);
    }
  }

  lemma {:induction false} RollupSum<T>(
    daily: seq<Row<T>>, measure: Row<T> -> int, u: int -> int, from: int, through: int)
    requires RollupComplete(daily, measure, u, Some(DateWindow(from, through)))
    ensures SumWindow(daily, measure, Some(DateWindow(from, through))) == DaySum(u, from, through)
    decreases through - from
  {
    if from > through {
      SumWindowEmpty(daily, measure, Some(DateWindow(from, through)));
    } else {
      assert InWindow(Some(DateWindow(from, through)), through);
      assert forall d :: InWindow(Some(DateWindow(from, through - 1)), d) ==>
        InWindow(Some(DateWindow(from, through)), d);
      RollupSum(daily, measure, u, from, through - 1);
      SumWindowStep(daily, measure, from, through);
    }
  }

  function HoursOf(u: int -> int): HourRange -> int {
    (r: HourRange) => HourSum(u, r.from, r.to)
  }

  lemma {:induction false} AnsweredSum<T>(
    plan: seq<Boundary>, bs: seq<BoundaryRows<T>>, k: PeriodKey, measure: Row<T> -> int, u: int -> int)
    requires BoundariesAnswered(plan, bs, measure, u)
    ensures TaggedRows(bs, k, measure) == Tagged(plan, k, HoursOf(u))
  {
    if bs != [] {
      AnsweredSum(plan[..|plan| - 1], bs[..|bs| - 1], k, measure, u);
    }
  }

  lemma {:induction false} WeighIsRangeSum(edges: seq<HourRange>, u: int -> int)
    ensures Weigh(edges, HoursOf(u)) == RangeSum(u, edges)
  {
    if edges != [] {
      WeighIsRangeSum(edges[..|edges| - 1], u);
    }
  }

  /**
   * For every clock, every hourly usage and every measure of it, the rows a period selects add up
   * to exactly the hours from its first to the first of tomorrow, each counted once.
   */
  lemma {:induction false} PeriodIsItsHours<T>(
    c: Clock, today: int, k: PeriodKey, daily: seq<Row<T>>, bs: seq<BoundaryRows<T>>,
    measure: Row<T> -> int, u: int -> int)
    requires Regular(c)
    requires RollupComplete(daily, measure, u, PeriodRange(c, today, k).days)
    requires BoundariesAnswered(PlannedBoundaries(c, today), bs, measure, u)
    ensures var chosen := Selected(daily, bs, PeriodRange(c, today, k).days, k);
      && Below(chosen, |AllRows(daily, bs)|)
      && SumAt(AllRows(daily, bs), measure, chosen)
         == HourSum(u, Start(c, today - DaysBack(k)), Start(c, today + 1))
  {
    var range := PeriodRange(c, today, k);
    SelectedSum(daily, bs, range.days, k, measure);
    WindowIsRollup(daily, measure, u, range.days);
    AnsweredSum(PlannedBoundaries(c, today), bs, k, measure, u);
    PlannedEdges(c, today, k, HoursOf(u));
    WeighIsRangeSum(range.boundaries, u);
    PlanCoversHours(u, range.start, range.end);
  }

  lemma {:induction false} SelectedSum<T>(
    daily: seq<Row<T>>, bs: seq<BoundaryRows<T>>, window: Option<DateWindow>, k: PeriodKey, measure: Row<T> -> int)
    ensures Below(Selected(daily, bs, window, k), |AllRows(daily, bs)|)
    ensures SumAt(AllRows(daily, bs), measure, Selected(daily, bs, window, k))
         == SumWindow(daily, measure, window) + TaggedRows(bs, k, measure)
  {
    var a, b := DailyIndexes(daily, window), BoundaryIndexes(bs, k, |daily|);
    DailyIndexesSum(daily, measure, window);
    DailyIndexesBelow(daily, window);
    SumAtLonger(daily, RowsBefore(bs), measure, a);
    BoundaryIndexesSum(daily, bs, k, measure);
    BoundaryIndexesBelow(daily, bs, k);
    BelowAppend(a, b, |daily|, |AllRows(daily, bs)|);
    SumAtAppend(AllRows(daily, bs), measure, a, b);
  }

  lemma {:induction false} WindowIsRollup<T>(
    daily: seq<Row<T>>, measure: Row<T> -> int, u: int -> int, window: Option<DateWindow>)
    requires RollupComplete(daily, measure, u, window)
    ensures SumWindow(daily, measure, window)
         == if window.Some? then DaySum(u, window.value.from, window.value.to) else 0
  {
    if window.Some? {
      RollupSum(daily, measure, u, window.value.from, window.value.to);
    } else {
      SumWindowEmpty(daily, measure, window);
    }
  }

  /** Today is inside the last seven days, and those are inside the last thirty. */
  lemma {:induction false} PeriodsNest(c: Clock, today: int)
    requires Regular(c)
    ensures Start(c, today - 29) <= Start(c, today - 6) <= Start(c, today) <= Start(c, today + 1)
  {
    StartsAdvance(c, today - 29, today - 6);
    StartsAdvance(c, today - 6, today);
    StartsAdvance(c, today, today + 1);
  }
}
