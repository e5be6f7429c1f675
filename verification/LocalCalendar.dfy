/**
 * The local calendar on the UTC hour grid. An hour is the number of hours since the epoch, a date
 * the number of days, and a zone is what its wall clock reads at an instant in milliseconds.
 */
module LocalCalendar {
  import opened Prelude

  const HOUR := 3_600_000
  const DAY := 86_400_000

  datatype Clock = Clock(wall: int -> int)

  /** The civil date a zone shows at a whole hour. */
  function LocalDate(c: Clock, hour: int): int {
    c.wall(hour * HOUR) / DAY
  }

  ghost predicate Bounded(c: Clock, bound: nat) {
    forall t :: t - bound <= c.wall(t) <= t + bound
  }

  /** On the hour grid the date never goes back, though hours and whole dates may be skipped. */
  ghost predicate Forward(c: Clock) {
    forall h :: LocalDate(c, h) <= LocalDate(c, h + 1)
  }

  ghost predicate Regular(c: Clock) {
    Forward(c) && exists bound :: Bounded(c, bound)
  }

  function CeilDiv(a: int, n: nat): int
    requires n > 0
  {
    -((-a) / n)
  }

  // ----- the first hour of a date

  /** The least hour the zone reads as `date` or later. */
  ghost predicate IsStart(c: Clock, date: int, hour: int) {
    LocalDate(c, hour) >= date && forall h :: h < hour ==> LocalDate(c, h) < date
  }

  lemma {:induction false} DatesAdvance(c: Clock, a: int, b: int)
    requires Forward(c) && a <= b
    ensures LocalDate(c, a) <= LocalDate(c, b)
    decreases b - a
  {
    if a < b {
      DatesAdvance(c, a, b - 1);
      assert LocalDate(c, b - 1) <= LocalDate(c, (b - 1) + 1);
    }
  }

  lemma {:induction false} CrossingIsStart(c: Clock, date: int, hour: int)
    requires Forward(c) && LocalDate(c, hour - 1) < date <= LocalDate(c, hour)
    ensures IsStart(c, date, hour)
  {
    forall h | h < hour
      ensures LocalDate(c, h) < date
    {
      DatesAdvance(c, h, hour - 1);
    }
  }

  lemma {:induction false} OneStart(c: Clock, date: int, a: int, b: int)
    requires IsStart(c, date, a) && IsStart(c, date, b)
    ensures a == b
  {
  }

  /** The first hour from `hour` on that reads as `date` or later. */
  ghost function FirstFrom(c: Clock, bound: nat, date: int, hour: int): (h: int)
    requires Bounded(c, bound)
    ensures LocalDate(c, h) >= date
    ensures LocalDate(c, hour - 1) < date ==> LocalDate(c, h - 1) < date
    decreases date * DAY + bound - hour * HOUR
  {
    assert hour * HOUR - bound <= c.wall(hour * HOUR);
    if LocalDate(c, hour) >= date then hour else FirstFrom(c, bound, date, hour + 1)
  }

  lemma {:induction false} StartExists(c: Clock, date: int)
    requires Regular(c)
    ensures exists hour :: IsStart(c, date, hour)
  {
    var bound: nat :| Bounded(c, bound);
    var low := (date * DAY - bound) / HOUR;
    var t := (low - 1) * HOUR;
    assert c.wall(t) <= t + bound;
    CrossingIsStart(c, date, FirstFrom(c, bound, date, low));
  }

  ghost function Start(c: Clock, date: int): int
    requires Regular(c)
  {
    StartExists(c, date);
    var hour :| IsStart(c, date, hour);
    hour
  }

  lemma {:induction false} StartIs(c: Clock, date: int)
    requires Regular(c)
    ensures IsStart(c, date, Start(c, date))
  {
    StartExists(c, date);
  }

  /**
   * The walk from the guess, down and then up. For any bounded clock it ends where the date is
   * crossed; when the date never goes back, that is the least hour at or after it, whatever the
   * guess was.
   */
  method StartOfLocalHour(c: Clock, date: int) returns (hour: int)
    requires exists bound :: Bounded(c, bound)
    ensures LocalDate(c, hour - 1) < date <= LocalDate(c, hour)
    ensures Regular(c) ==> hour == Start(c, date)
  {
    ghost var bound: nat :| Bounded(c, bound);
    var wall := date * DAY;
    var guess := wall - (c.wall(wall) - wall);
    hour := CeilDiv(wall - (c.wall(guess) - guess), HOUR);
    while LocalDate(c, hour - 1) >= date
      decreases hour * HOUR + bound - date * DAY
    {
      assert c.wall((hour - 1) * HOUR) <= (hour - 1) * HOUR + bound;
      hour := hour - 1;
    }
    while LocalDate(c, hour) < date
      invariant LocalDate(c, hour - 1) < date
      decreases date * DAY + bound - hour * HOUR
    {
      assert hour * HOUR - bound <= c.wall(hour * HOUR);
      hour := hour + 1;
    }
    if Regular(c) {
      CrossingIsStart(c, date, hour);
      StartIs(c, date);
      OneStart(c, date, hour, Start(c, date));
    }
  }

  /** An hour reads as `date` or later exactly from the date's start on. */
  lemma {:induction false} StartSplits(c: Clock, date: int, hour: int)
    requires Regular(c)
    ensures LocalDate(c, hour) >= date <==> Start(c, date) <= hour
  {
    StartIs(c, date);
    if Start(c, date) <= hour {
      DatesAdvance(c, Start(c, date), hour);
    }
  }

  lemma {:induction false} StartsAdvance(c: Clock, a: int, b: int)
    requires Regular(c) && a <= b
    ensures Start(c, a) <= Start(c, b)
  {
    StartIs(c, b);
    StartSplits(c, a, Start(c, b));
  }

  // ----- plans

  /** Hours `from` up to and not including `to`. */
  datatype HourRange = HourRange(from: int, to: int)

  /** Inclusive UTC dates. */
  datatype DateWindow = DateWindow(from: int, to: int)

  datatype RangePlan = RangePlan(
    start: int, end: int, days: Option<DateWindow>, boundaries: seq<HourRange>)

  /** Whole UTC days inside [start, end), and the hours the two edges cut. */
  function PlanHours(start: int, end: int): RangePlan {
    var firstWhole := CeilDiv(start, 24);
    var lastWholeEnd := end / 24;
    if firstWhole < lastWholeEnd then
      RangePlan(
        start, end, Some(DateWindow(firstWhole, lastWholeEnd - 1)),
        (if start < firstWhole * 24 then [HourRange(start, firstWhole * 24)] else [])
        + (if lastWholeEnd * 24 < end then [HourRange(lastWholeEnd * 24, end)] else []))
    else
      RangePlan(start, end, None, if start < end then [HourRange(start, end)] else [])
  }

  ghost function RangeOf(c: Clock, from: int, through: int): RangePlan
    requires Regular(c)
  {
    PlanHours(Start(c, from), Start(c, through + 1))
  }

  method PlanLocalDateRange(c: Clock, from: int, through: int) returns (plan: RangePlan)
    requires Regular(c)
    ensures plan == RangeOf(c, from, through)
  {
    var start := StartOfLocalHour(c, from);
    var end := StartOfLocalHour(c, through + 1);
    var firstWhole := CeilDiv(start, 24);
    var lastWholeEnd := end / 24;
    if firstWhole < lastWholeEnd {
      var boundaries := [];
      if start < firstWhole * 24 { boundaries := boundaries + [HourRange(start, firstWhole * 24)]; }
      if lastWholeEnd * 24 < end { boundaries := boundaries + [HourRange(lastWholeEnd * 24, end)]; }
      return RangePlan(start, end, Some(DateWindow(firstWhole, lastWholeEnd - 1)), boundaries);
    }
    plan := RangePlan(start, end, None, if start < end then [HourRange(start, end)] else []);
  }

  datatype DayWindow = DayWindow(date: int, start: int, end: int)

  ghost function Windows(c: Clock, from: int, through: int): seq<DayWindow>
    requires Regular(c)
    decreases through - from
  {
    if from > through then []
    else Windows(c, from, through - 1) + [DayWindow(through, Start(c, through), Start(c, through + 1))]
  }

  method PlanLocalDayWindows(c: Clock, from: int, through: int) returns (windows: seq<DayWindow>)
    requires Regular(c)
    ensures windows == Windows(c, from, through)
  {
    windows := [];
    var date := from;
    var start := StartOfLocalHour(c, date);
    ghost var done := from - 1;
    while date <= through
      invariant done == date - 1 && from <= date && (date <= through + 1 || date == from)
      invariant start == Start(c, date)
      invariant windows == Windows(c, from, done)
      decreases through - date
    {
      var next := date + 1;
      var end := StartOfLocalHour(c, next);
      WindowsSnoc(c, from, date, done, DayWindow(date, start, end));
      windows := windows + [DayWindow(date, start, end)];
      done := date;
      date := next;
      start := end;
    }
  }

  lemma {:induction false} WindowsSnoc(c: Clock, from: int, date: int, before: int, w: DayWindow)
    requires Regular(c) && from <= date && before == date - 1
    requires w == DayWindow(date, Start(c, date), Start(c, date + 1))
    ensures Windows(c, from, date) == Windows(c, from, before) + [w]
  {
  }

  // ----- sums over hours

  function HourSum(u: int -> int, from: int, until: int): int
    decreases until - from
  {
    if from >= until then 0 else HourSum(u, from, until - 1) + u(until - 1)
  }

  function DayTotal(u: int -> int, day: int): int {
    HourSum(u, day * 24, day * 24 + 24)
  }

  /** The rollup over inclusive UTC dates. */
  function DaySum(u: int -> int, from: int, through: int): int
    decreases through - from
  {
    if from > through then 0 else DaySum(u, from, through - 1) + DayTotal(u, through)
  }

  function RangeSum(u: int -> int, ranges: seq<HourRange>): int {
    if ranges == [] then 0
    else RangeSum(u, ranges[..|ranges| - 1]) + HourSum(u, ranges[|ranges| - 1].from, ranges[|ranges| - 1].to)
  }

  function WindowSum(u: int -> int, windows: seq<DayWindow>): int {
    if windows == [] then 0
    else WindowSum(u, windows[..|windows| - 1]) + HourSum(u, windows[|windows| - 1].start, windows[|windows| - 1].end)
  }

  lemma {:induction false} HourSumSplit(u: int -> int, a: int, b: int, c: int)
    requires a <= b <= c
    ensures HourSum(u, a, c) == HourSum(u, a, b) + HourSum(u, b, c)
    decreases c - b
  {
    if b < c {
      HourSumSplit(u, a, b, c - 1);
    }
  }

  lemma {:induction false} DaySumIsHours(u: int -> int, from: int, through: int)
    requires from <= through + 1
    ensures DaySum(u, from, through) == HourSum(u, from * 24, (through + 1) * 24)
    decreases through - from
  {
    if from <= through {
      DaySumIsHours(u, from, through - 1);
      HourSumSplit(u, from * 24, through * 24, (through + 1) * 24);
    }
  }

  /** Whatever is summed, the days and edges of a plan add up to every hour in it, each once. */
  lemma {:induction false} PlanCoversHours(u: int -> int, start: int, end: int)
    ensures var plan := PlanHours(start, end);
      (if plan.days.Some? then DaySum(u, plan.days.value.from, plan.days.value.to) else 0)
      + RangeSum(u, plan.boundaries)
      == HourSum(u, start, end)
  {
    var plan := PlanHours(start, end);
    var first, last := CeilDiv(start, 24), end / 24;
    if first < last {
      DaySumIsHours(u, first, last - 1);
      HourSumSplit(u, start, first * 24, end);
      HourSumSplit(u, first * 24, last * 24, end);
      RangeSumTwo(u, HourRange(start, first * 24), HourRange(last * 24, end));
      assert plan.boundaries ==
        (if start < first * 24 then [HourRange(start, first * 24)] else [])
        + (if last * 24 < end then [HourRange(last * 24, end)] else []);
    } else if start < end {
      RangeSumOne(u, HourRange(start, end));
    }
  }

  lemma {:induction false} RangeSumOne(u: int -> int, r: HourRange)
    ensures RangeSum(u, [r]) == HourSum(u, r.from, r.to)
  {
    assert [r][..0] == [];
  }

  lemma {:induction false} RangeSumTwo(u: int -> int, r: HourRange, s: HourRange)
    requires r.from <= r.to && s.from <= s.to
    ensures RangeSum(u, (if r.from < r.to then [r] else []) + (if s.from < s.to then [s] else []))
         == HourSum(u, r.from, r.to) + HourSum(u, s.from, s.to)
  {
    RangeSumOne(u, r);
    RangeSumOne(u, s);
    assert [r, s][..1] == [r];
    assert [r] + [s] == [r, s];
    assert [r] + [] == [r] && [] + [s] == [s];
  }

  lemma {:induction false} WindowSumSnoc(u: int -> int, windows: seq<DayWindow>, w: DayWindow)
    ensures WindowSum(u, windows + [w]) == WindowSum(u, windows) + HourSum(u, w.start, w.end)
  {
    assert (windows + [w])[..|windows|] == windows;
  }

  /** The windows share endpoints and no hour, so they add up to the range they tile. */
  lemma {:induction false} WindowsTile(c: Clock, u: int -> int, from: int, through: int)
    requires Regular(c)
    ensures WindowSum(u, Windows(c, from, through))
        == HourSum(u, RangeOf(c, from, through).start, RangeOf(c, from, through).end)
    decreases through - from
  {
    if from > through {
      StartsAdvance(c, through + 1, from);
    } else {
      WindowSumSnoc(u, Windows(c, from, through - 1), DayWindow(through, Start(c, through), Start(c, through + 1)));
      WindowsTile(c, u, from, through - 1);
      StartsAdvance(c, from, through);
      StartsAdvance(c, through, through + 1);
      HourSumSplit(u, Start(c, from), Start(c, through), Start(c, through + 1));
    }
  }

  /** A window holds exactly the hours whose own local date it names. */
  lemma {:induction false} WindowHolds(c: Clock, from: int, through: int, i: nat, hour: int)
    requires Regular(c) && i < |Windows(c, from, through)|
    ensures var w := Windows(c, from, through)[i];
      && w.date == from + i
      && (w.start <= hour < w.end <==> LocalDate(c, hour) == w.date)
    decreases through - from
  {
    WindowCount(c, from, through);
    if i < |Windows(c, from, through)| - 1 {
      WindowHolds(c, from, through - 1, i, hour);
    } else {
      StartSplits(c, through, hour);
      StartSplits(c, through + 1, hour);
    }
  }

  lemma {:induction false} WindowCount(c: Clock, from: int, through: int)
    requires Regular(c)
    ensures |Windows(c, from, through)| == if from > through then 0 else through - from + 1
    decreases through - from
  {
    if from <= through {
      WindowCount(c, from, through - 1);
    }
  }
}
