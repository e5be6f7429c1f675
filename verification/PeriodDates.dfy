/**
 * The periods in their own terms: which local dates each one sums, and which UTC days and hours a
 * plan reads.
 */
module PeriodDates {
  import opened Prelude
  import opened LocalCalendar
  import opened AccountPeriods

  // ----- a plan reads whole days and the other hours

  /** A day is planned exactly when all its hours are in the range. */
  lemma {:induction false} PlannedDaysAreWhole(start: int, end: int, day: int)
    ensures InWindow(PlanHours(start, end).days, day) <==> start <= day * 24 && day * 24 + 24 <= end
  {
  }

  /** How many of the ranges hold an hour. */
  function Covering(ranges: seq<HourRange>, hour: int): nat {
    if ranges == [] then 0
    else
      var last := ranges[|ranges| - 1];
      Covering(ranges[..|ranges| - 1], hour) + if last.from <= hour < last.to then 1 else 0
  }

  lemma {:induction false} CoveringAppend(a: seq<HourRange>, b: seq<HourRange>, hour: int)
    ensures Covering(a + b, hour) == Covering(a, hour) + Covering(b, hour)
  {
    if b == [] {
      assert a + b == a;
    } else {
      CoveringAppend(a, b[..|b| - 1], hour);
      assert (a + b)[..|a + b| - 1] == a + b[..|b| - 1];
    }
  }

  lemma {:induction false} CoveringEdge(from: int, to: int, hour: int)
    ensures Covering(if from < to then [HourRange(from, to)] else [], hour) == if from <= hour < to then 1 else 0
  {
    assert [HourRange(from, to)][..0] == [];
  }

  lemma {:induction false} WholeDayHours(start: int, end: int, hour: int)
    ensures CeilDiv(start, 24) * 24 <= hour < end / 24 * 24
      <==> start <= hour / 24 * 24 && hour / 24 * 24 + 24 <= end
  {
  }

  function Edges(start: int, first: int, last: int, end: int): seq<HourRange> {
    (if start < first then [HourRange(start, first)] else []) + (if last < end then [HourRange(last, end)] else [])
  }

  lemma {:induction false} EdgesCover(start: int, first: int, last: int, end: int, hour: int)
    requires start <= first < last <= end
    ensures Covering(Edges(start, first, last, end), hour)
         == if start <= hour < end && !(first <= hour < last) then 1 else 0
  {
    CoveringEdge(start, first, hour);
    CoveringEdge(last, end, hour);
    CoveringAppend(
      if start < first then [HourRange(start, first)] else [],
      if last < end then [HourRange(last, end)] else [], hour);
  }

  lemma {:induction false} EdgesOfPlan(start: int, end: int)
    ensures var first, last := CeilDiv(start, 24) * 24, end / 24 * 24;
      && start <= first && last <= end
      && PlanHours(start, end).boundaries ==
         if first < last then Edges(start, first, last, end) else if start < end then [HourRange(start, end)] else []
  {
  }

  /** An hour of the range is read by one edge when its UTC day is not whole in the range, else by none. */
  lemma {:induction false} PlannedEdgesAreTheRest(start: int, end: int, hour: int)
    ensures Covering(PlanHours(start, end).boundaries, hour)
         == if start <= hour < end && !(start <= hour / 24 * 24 && hour / 24 * 24 + 24 <= end) then 1 else 0
    ensures forall r :: r in PlanHours(start, end).boundaries ==> r.from < r.to
  {
    var first, last := CeilDiv(start, 24) * 24, end / 24 * 24;
    WholeDayHours(start, end, hour);
    EdgesOfPlan(start, end);
    if first < last {
      EdgesCover(start, first, last, end, hour);
    } else {
      CoveringEdge(start, end, hour);
    }
  }

  // ----- a period sums its own dates

  /** The usage of the hours whose own local date lies in `from` to `through`. */
  function OnDates(c: Clock, u: int -> int, from: int, through: int): int -> int {
    (hour: int) => if from <= LocalDate(c, hour) <= through then u(hour) else 0
  }

  /** No hour of those dates lies outside [low, high). */
  ghost predicate Encloses(c: Clock, low: int, high: int, from: int, through: int) {
    forall hour :: from <= LocalDate(c, hour) <= through ==> low <= hour < high
  }

  lemma {:induction false} SameSum(u: int -> int, v: int -> int, low: int, high: int)
    requires forall hour :: low <= hour < high ==> u(hour) == v(hour)
    ensures HourSum(u, low, high) == HourSum(v, low, high)
    decreases high - low
  {
    if low < high {
      SameSum(u, v, low, high - 1);
    }
  }

  lemma {:induction false} NothingSums(v: int -> int, low: int, high: int)
    requires forall hour :: low <= hour < high ==> v(hour) == 0
    ensures HourSum(v, low, high) == 0
    decreases high - low
  {
    if low < high {
      NothingSums(v, low, high - 1);
    }
  }

  lemma {:induction false} DatesAreHours(c: Clock, u: int -> int, from: int, through: int, low: int, high: int)
    requires Regular(c) && from <= through && Encloses(c, low, high, from, through)
    ensures HourSum(OnDates(c, u, from, through), low, high) == HourSum(u, Start(c, from), Start(c, through + 1))
  {
    var v, first, end := OnDates(c, u, from, through), Start(c, from), Start(c, through + 1);
    forall hour
      ensures v(hour) == if first <= hour < end then u(hour) else 0
    {
      StartSplits(c, from, hour);
      StartSplits(c, through + 1, hour);
    }
    StartsAdvance(c, from, through + 1);
    if first == end {
      NothingSums(v, low, high);
    } else {
      InDates(c, from, through, first);
      InDates(c, from, through, end - 1);
      HourSumSplit(v, low, first, high);
      HourSumSplit(v, first, end, high);
      NothingSums(v, low, first);
      NothingSums(v, end, high);
      SameSum(u, v, first, end);
    }
  }

  lemma {:induction false} InDates(c: Clock, from: int, through: int, hour: int)
    requires Regular(c) && Start(c, from) <= hour < Start(c, through + 1)
    ensures from <= LocalDate(c, hour) <= through
  {
    StartSplits(c, from, hour);
    StartSplits(c, through + 1, hour);
  }

  /** What the rows a period selects add up to. */
  ghost function PeriodTotal<T>(
    c: Clock, today: int, k: PeriodKey, daily: seq<Row<T>>, bs: seq<BoundaryRows<T>>, measure: Row<T> -> int): int
    requires Regular(c)
  {
    SumAt(AllRows(daily, bs), measure, Selected(daily, bs, PeriodRange(c, today, k).days, k))
  }

  lemma {:induction false} PeriodTotalIsHours<T>(
    c: Clock, today: int, k: PeriodKey, daily: seq<Row<T>>, bs: seq<BoundaryRows<T>>,
    measure: Row<T> -> int, u: int -> int, end: int)
    requires Regular(c) && end == today + 1
    requires RollupComplete(daily, measure, u, PeriodRange(c, today, k).days)
    requires BoundariesAnswered(PlannedBoundaries(c, today), bs, measure, u)
    ensures PeriodTotal(c, today, k, daily, bs, measure) == HourSum(u, Start(c, today - DaysBack(k)), Start(c, end))
  {
    PeriodIsItsHours(c, today, k, daily, bs, measure, u);
  }

  /**
   * Today's rows add up to the hours that read as today, the seven days' to those that read as
   * today or one of the six dates before, and the thirty days' to today and the 29 before.
   */
  lemma {:induction false} PeriodSumsItsDates<T>(
    c: Clock, today: int, k: PeriodKey, daily: seq<Row<T>>, bs: seq<BoundaryRows<T>>,
    measure: Row<T> -> int, u: int -> int, low: int, high: int)
    requires Regular(c)
    requires RollupComplete(daily, measure, u, PeriodRange(c, today, k).days)
    requires BoundariesAnswered(PlannedBoundaries(c, today), bs, measure, u)
    requires Encloses(c, low, high, today - 29, today)
    ensures var total := PeriodTotal(c, today, k, daily, bs, measure);
      match k
      case Today => total == HourSum(OnDates(c, u, today, today), low, high)
      case Last7Days => total == HourSum(OnDates(c, u, today - 6, today), low, high)
      case Last30Days => total == HourSum(OnDates(c, u, today - 29, today), low, high)
  {
    PeriodTotalIsHours(c, today, k, daily, bs, measure, u, today + 1);
    DatesAreHours(c, u, today - DaysBack(k), today, low, high);
  }

  // ----- clocks that keep one offset

  /** A zone a fixed number of minutes ahead of UTC, or behind it. */
  function FixedOffset(minutes: int): Clock {
    Clock((t: int) => t + 60_000 * minutes)
  }

  /** It reads an hour as the day its shifted minute falls on, and a day starts at the first hour not before it. */
  lemma {:induction false} FixedOffsetDates(minutes: int, date: int, hour: int)
    ensures Regular(FixedOffset(minutes))
    ensures LocalDate(FixedOffset(minutes), hour) == (60 * hour + minutes) / 1_440
    ensures 60 * (Start(FixedOffset(minutes), date) - 1) + minutes < 1_440 * date
            <= 60 * Start(FixedOffset(minutes), date) + minutes
  {
    var c := FixedOffset(minutes);
    FixedOffsetRegular(minutes);
    OffsetDate(minutes, hour);
    StartIs(c, date);
    OffsetDate(minutes, Start(c, date));
    OffsetDate(minutes, Start(c, date) - 1);
  }

  lemma {:induction false} OffsetDate(minutes: int, hour: int)
    ensures LocalDate(FixedOffset(minutes), hour) == (60 * hour + minutes) / 1_440
  {
    var q, r := (60 * hour + minutes) / 1_440, (60 * hour + minutes) % 1_440;
    assert hour * HOUR + 60_000 * minutes == q * DAY + 60_000 * r;
  }

  lemma {:induction false} FixedOffsetRegular(minutes: int)
    ensures Regular(FixedOffset(minutes))
  {
    var c := FixedOffset(minutes);
    forall h
      ensures LocalDate(c, h) <= LocalDate(c, h + 1)
    {
      OffsetDate(minutes, h);
      OffsetDate(minutes, h + 1);
    }
    assert Bounded(c, if minutes < 0 then -60_000 * minutes else 60_000 * minutes);
  }
}
