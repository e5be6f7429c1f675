/** What folding any answers keeps, and when a sample that was not answered is sent again. */
module HistoryTheorems {
  import opened Prelude
  import opened HistoryWire
  import opened HistoryChunker
  import opened HistoryWatermarks

  // ----- the shape of the state

  ghost predicate UniqueResets(uploaded: seq<Point>) {
    forall i, j :: 0 <= i < j < |uploaded| ==> uploaded[i].resetsAt != uploaded[j].resetsAt
  }

  /** One entry a series, and one last-uploaded bucket a reset. */
  ghost predicate Shaped(st: seq<SeriesState>) {
    && (forall i, j :: 0 <= i < j < |st| ==> st[i].key != st[j].key)
    && (forall i :: 0 <= i < |st| ==> UniqueResets(st[i].lastUploaded))
  }

  lemma {:induction false} RememberedAllUnique(uploaded: seq<Point>, points: seq<Point>)
    requires UniqueResets(uploaded)
    ensures UniqueResets(RememberedAll(uploaded, points))
  {
    if points != [] {
      RememberedAllUnique(uploaded, points[..|points| - 1]);
    }
  }

  lemma {:induction false} PutShaped(st: seq<SeriesState>, s: SeriesState)
    requires Shaped(st) && UniqueResets(s.lastUploaded)
    ensures Shaped(Put(st, s))
  {
  }

  lemma {:induction false} FilterShaped(st: seq<SeriesState>, key: Key)
    requires Shaped(st)
    ensures Shaped(Filter(st, NotKey(key)))
    ensures forall i :: 0 <= i < |Filter(st, NotKey(key))| ==> Filter(st, NotKey(key))[i].key != key
  {
    if st != [] {
      var front, last := st[..|st| - 1], st[|st| - 1];
      FilterShaped(front, key);
      FilterMembers(front, NotKey(key));
      var kept := Filter(front, NotKey(key));
      forall i | 0 <= i < |kept|
        ensures kept[i].key != last.key
      {
        assert kept[i] in front;
      }
    }
  }

  lemma {:induction false} TakeSeriesShaped(p: Pass, series: Series, answers: seq<SeriesAnswer>, judge: bool, now: int)
    requires Shaped(p.st)
    ensures Shaped(TakeSeries(p, series, answers, judge, now).st)
  {
    var answered := AnswerFor(answers, series.key);
    FilterShaped(p.st, series.key);
    var s := Stored(p.st, series.key);
    var before := if s.Some? then s.value else Blank(series.key);
    RememberedAllUnique(before.lastUploaded, series.points);
    PutShaped(p.st, Answered(before, series, answered, now));
  }

  lemma {:induction false} TakeChunkShaped(
    p: Pass, chunk: seq<Series>, answers: seq<SeriesAnswer>, judge: bool, now: int)
    requires Shaped(p.st)
    ensures Shaped(TakeChunk(p, chunk, answers, judge, now).st)
  {
    if chunk != [] {
      var front := chunk[..|chunk| - 1];
      TakeChunkShaped(p, front, answers, judge, now);
      TakeSeriesShaped(TakeChunk(p, front, answers, judge, now), chunk[|chunk| - 1], answers, judge, now);
    }
  }

  /** Whatever Relay answers, there stays one entry a series and one bucket a reset. */
  lemma {:induction false} AnswersKeepShape(
    p: Pass, chunks: seq<seq<Series>>, responses: seq<seq<SeriesAnswer>>, judge: bool, now: int)
    requires Shaped(p.st)
    ensures Shaped(TakeAll(p, chunks, responses, judge, now).st)
    decreases |chunks|
  {
    if chunks != [] && responses != [] {
      TakeChunkShaped(p, chunks[0], responses[0], judge, now);
      AnswersKeepShape(TakeChunk(p, chunks[0], responses[0], judge, now), chunks[1..], responses[1..], judge, now);
    }
  }

  // ----- what one series' entry becomes

  lemma {:induction false} StoredAppend(st: seq<SeriesState>, s: SeriesState, key: Key)
    ensures Stored(st + [s], key)
         == if Stored(st, key).Some? then Stored(st, key) else if s.key == key then Some(s) else None
  {
    if st != [] {
      StoredAppend(st[1..], s, key);
      assert (st + [s])[1..] == st[1..] + [s];
    }
  }

  lemma {:induction false} StoredUpdate(st: seq<SeriesState>, i: nat, s: SeriesState, key: Key)
    requires i < |st| && s.key == st[i].key
    ensures StateIndex(st[i := s], key) == StateIndex(st, key)
  {
    if i > 0 {
      StoredUpdate(st[1..], i - 1, s, key);
      assert st[i := s][1..] == st[1..][i - 1 := s];
    } else {
      assert st[0 := s][1..] == st[1..];
    }
  }

  lemma {:induction false} StoredPut(st: seq<SeriesState>, s: SeriesState, key: Key)
    ensures Stored(Put(st, s), key) == if key == s.key then Some(s) else Stored(st, key)
  {
    var i := StateIndex(st, s.key);
    if i < |st| {
      StoredUpdate(st, i, s, key);
    } else {
      StoredAppend(st, s, key);
    }
  }

  lemma {:induction false} StoredFilter(st: seq<SeriesState>, gone: Key, key: Key)
    ensures Stored(Filter(st, NotKey(gone)), key) == if key == gone then None else Stored(st, key)
  {
    if st != [] {
      var front, last := st[..|st| - 1], st[|st| - 1];
      StoredFilter(front, gone, key);
      StoredAppend(front, last, key);
      StoredAppend(Filter(front, NotKey(gone)), last, key);
      assert st == front + [last];
    }
  }

  /** One series' entry after one series of an answer. */
  lemma {:induction false} StoredAfter(
    p: Pass, series: Series, answers: seq<SeriesAnswer>, judge: bool, now: int, key: Key)
    ensures var q := TakeSeries(p, series, answers, judge, now);
      var answered := AnswerFor(answers, series.key);
      var s := Stored(p.st, key);
      if key != series.key || key in p.lost then q.lost - {series.key} == p.lost - {series.key}
        && Stored(q.st, key) == s && (key in q.lost <==> key in p.lost)
      else if judge && IsLost(p.st, series, answered, now) then
        var adopted := AdoptedDuration(
          if s.Some? then s.value.adopted else None,
          if answered.Some? then answered.value.duration else None,
          series.duration);
        && key in q.lost
        && Stored(q.st, key) == if adopted.Some? then Some(SeriesState(key, None, [], None, adopted)) else None
      else
        key !in q.lost
        && Stored(q.st, key)
           == Some(Answered(if s.Some? then s.value else Blank(key), series, answered, now))
  {
    var answered := AnswerFor(answers, series.key);
    var s := Stored(p.st, series.key);
    StoredPut(p.st, Answered(if s.Some? then s.value else Blank(series.key), series, answered, now), key);
    StoredFilter(p.st, series.key, key);
    var adopted := AdoptedDuration(
      if s.Some? then s.value.adopted else None,
      if answered.Some? then answered.value.duration else None,
      series.duration);
    StoredAppend(Filter(p.st, NotKey(series.key)), Blank(series.key).(adopted := adopted), key);
  }

  /** No watermark and no last-uploaded bucket: the next pass backfills this series. */
  ghost predicate Cleared(s: Option<SeriesState>) {
    s.Some? ==> s.value.newest.None? && s.value.lastUploaded == []
  }

  ghost predicate NotBelow(before: Option<int>, after: Option<int>) {
    before.Some? ==> after.Some? && before.value <= after.value
  }

  /** Some last-uploaded bucket of this reset starts at `start` or later. */
  ghost predicate Covers(s: Option<SeriesState>, resetsAt: int, start: int) {
    s.Some? && exists q :: q in s.value.lastUploaded && q.resetsAt == resetsAt && q.bucketStart >= start
  }

  lemma {:induction false} RememberedCovers(uploaded: seq<Point>, points: seq<Point>, resetsAt: int, start: int)
    requires
      || (exists q :: q in uploaded && q.resetsAt == resetsAt && q.bucketStart >= start)
      || (exists q :: q in points && q.resetsAt == resetsAt && q.bucketStart >= start)
    ensures exists q :: q in RememberedAll(uploaded, points) && q.resetsAt == resetsAt && q.bucketStart >= start
  {
    if points != [] {
      var front, last := points[..|points| - 1], points[|points| - 1];
      var before := RememberedAll(uploaded, front);
      var i := ResetIndex(before, last.resetsAt);
      if last.resetsAt == resetsAt && last.bucketStart >= start {
        var after := Remembered(before, last);
        assert after[i].resetsAt == resetsAt && after[i].bucketStart >= start;
        assert after[i] in after;
      } else {
        assert points == front + [last];
        RememberedCovers(uploaded, front, resetsAt, start);
        var q :| q in before && q.resetsAt == resetsAt && q.bucketStart >= start;
        var j :| 0 <= j < |before| && before[j] == q;
        var after := Remembered(before, last);
        assert after[j] == q;
        assert after[j] in after;
      }
    }
  }

  /** What is true of a series' entry part-way through a pass, given how the pass began. */
  ghost predicate Progress(before: Option<SeriesState>, p: Pass, key: Key) {
    var now := Stored(p.st, key);
    if key in p.lost then Cleared(now)
    else
      && NotBelow(if before.Some? then before.value.newest else None, if now.Some? then now.value.newest else None)
      && (before.Some? ==> forall u :: u in before.value.lastUploaded ==> Covers(now, u.resetsAt, u.bucketStart))
  }

  lemma {:induction false} AnsweredCovers(
    s: SeriesState, series: Series, answered: Option<SeriesAnswer>, now: int, resetsAt: int, start: int)
    requires Covers(Some(s), resetsAt, start)
    ensures Covers(Some(Answered(s, series, answered, now)), resetsAt, start)
  {
    RememberedCovers(s.lastUploaded, series.points, resetsAt, start);
  }

  lemma {:induction false} TakeSeriesProgress(
    before: Option<SeriesState>, p: Pass, series: Series, answers: seq<SeriesAnswer>, judge: bool, now: int, key: Key)
    requires Progress(before, p, key)
    ensures Progress(before, TakeSeries(p, series, answers, judge, now), key)
  {
    StoredAfter(p, series, answers, judge, now, key);
    var s := Stored(p.st, key);
    var answered := AnswerFor(answers, series.key);
    if key == series.key && key !in p.lost && !(judge && IsLost(p.st, series, answered, now)) {
      if before.Some? {
        forall u | u in before.value.lastUploaded
          ensures Covers(
            Some(Answered(if s.Some? then s.value else Blank(key), series, answered, now)), u.resetsAt, u.bucketStart)
        {
          AnsweredCovers(s.value, series, answered, now, u.resetsAt, u.bucketStart);
        }
      }
    }
  }

  lemma {:induction false} TakeChunkProgress(
    before: Option<SeriesState>, p: Pass, chunk: seq<Series>, answers: seq<SeriesAnswer>, judge: bool, now: int,
        key: Key)
    requires Progress(before, p, key)
    ensures Progress(before, TakeChunk(p, chunk, answers, judge, now), key)
  {
    if chunk != [] {
      var front := chunk[..|chunk| - 1];
      TakeChunkProgress(before, p, front, answers, judge, now, key);
      TakeSeriesProgress(before, TakeChunk(p, front, answers, judge, now), chunk[|chunk| - 1], answers, judge, now,
          key);
    }
  }

  lemma {:induction false} TakeAllProgress(
    before: Option<SeriesState>, p: Pass, chunks: seq<seq<Series>>, responses: seq<seq<SeriesAnswer>>,
    judge: bool, now: int, key: Key)
    requires Progress(before, p, key)
    ensures Progress(before, TakeAll(p, chunks, responses, judge, now), key)
    decreases |chunks|
  {
    if chunks != [] && responses != [] {
      TakeChunkProgress(before, p, chunks[0], responses[0], judge, now, key);
      TakeAllProgress(
        before, TakeChunk(p, chunks[0], responses[0], judge, now), chunks[1..], responses[1..], judge, now, key);
    }
  }

  /**
   * A series' watermark never goes down, and no reset's last-uploaded bucket goes back, unless the
   * series is judged lost; then it ends with neither.
   */
  lemma {:induction false} WatermarkNeverDecreases(
    st: seq<SeriesState>, chunks: seq<seq<Series>>, responses: seq<seq<SeriesAnswer>>,
    judge: bool, now: int, key: Key)
    ensures var after := TakeAll(Pass(st, {}), chunks, responses, judge, now);
      if key in after.lost then judge && Cleared(Stored(after.st, key))
      else
        && NotBelow(Watermark(st, key), Watermark(after.st, key))
        && (Stored(st, key).Some? ==> forall u :: u in Stored(st, key).value.lastUploaded ==>
              Covers(Stored(after.st, key), u.resetsAt, u.bucketStart))
  {
    var before := Stored(st, key);
    if before.Some? {
      forall u | u in before.value.lastUploaded
        ensures Covers(before, u.resetsAt, u.bucketStart)
      {
      }
    }
    TakeAllProgress(before, Pass(st, {}), chunks, responses, judge, now, key);
    UnjudgedLosesNothing(Pass(st, {}), chunks, responses, judge, now);
  }

  lemma {:induction false} UnjudgedChunk(p: Pass, chunk: seq<Series>, answers: seq<SeriesAnswer>, judge: bool, now: int)
    ensures !judge ==> TakeChunk(p, chunk, answers, judge, now).lost == p.lost
  {
    if chunk != [] {
      UnjudgedChunk(p, chunk[..|chunk| - 1], answers, judge, now);
    }
  }

  lemma {:induction false} UnjudgedLosesNothing(
    p: Pass, chunks: seq<seq<Series>>, responses: seq<seq<SeriesAnswer>>, judge: bool, now: int)
    ensures !judge ==> TakeAll(p, chunks, responses, judge, now).lost == p.lost
    decreases |chunks|
  {
    if chunks != [] && responses != [] {
      UnjudgedChunk(p, chunks[0], responses[0], judge, now);
      UnjudgedLosesNothing(
        TakeChunk(p, chunks[0], responses[0], judge, now), chunks[1..], responses[1..], judge, now);
    }
  }

  // ----- how far a watermark can go

  ghost predicate AtMost(w: Option<int>, bound: int) {
    w.Some? ==> w.value <= bound
  }

  /** Every point this chunk sends for `key`, and what its answer names, is no later than `bound`. */
  ghost predicate ChunkWithin(chunk: seq<Series>, answers: seq<SeriesAnswer>, key: Key, bound: int) {
    && (forall s, q :: s in chunk && s.key == key && q in s.points ==> q.bucketStart <= bound)
    && (AnswerFor(answers, key).Some? ==> AtMost(AnswerFor(answers, key).value.newest, bound))
  }

  lemma {:induction false} TakeChunkAtMost(
    p: Pass, chunk: seq<Series>, answers: seq<SeriesAnswer>, judge: bool, now: int, key: Key, bound: int)
    requires AtMost(Watermark(p.st, key), bound) && ChunkWithin(chunk, answers, key, bound)
    ensures AtMost(Watermark(TakeChunk(p, chunk, answers, judge, now).st, key), bound)
  {
    if chunk != [] {
      var front, last := chunk[..|chunk| - 1], chunk[|chunk| - 1];
      assert last in chunk && forall s :: s in front ==> s in chunk;
      TakeChunkAtMost(p, front, answers, judge, now, key, bound);
      TakeSeriesAtMost(TakeChunk(p, front, answers, judge, now), last, answers, judge, now, key, bound);
    }
  }

  lemma {:induction false} TakeSeriesAtMost(
    p: Pass, series: Series, answers: seq<SeriesAnswer>, judge: bool, now: int, key: Key, bound: int)
    requires AtMost(Watermark(p.st, key), bound) && ChunkWithin([series], answers, key, bound)
    ensures AtMost(Watermark(TakeSeries(p, series, answers, judge, now).st, key), bound)
  {
    StoredAfter(p, series, answers, judge, now, key);
    assert series in [series];
  }

  lemma {:induction false} TakeAllAtMost(
    p: Pass, chunks: seq<seq<Series>>, responses: seq<seq<SeriesAnswer>>, judge: bool, now: int,
    key: Key, bound: int)
    requires AtMost(Watermark(p.st, key), bound)
    requires forall i :: 0 <= i < |chunks| && i < |responses| ==> ChunkWithin(chunks[i], responses[i], key, bound)
    ensures AtMost(Watermark(TakeAll(p, chunks, responses, judge, now).st, key), bound)
    decreases |chunks|
  {
    if chunks != [] && responses != [] {
      TakeChunkAtMost(p, chunks[0], responses[0], judge, now, key, bound);
      assert forall i :: 0 <= i < |chunks[1..]| && i < |responses[1..]| ==>
        chunks[1..][i] == chunks[i + 1] && responses[1..][i] == responses[i + 1];
      TakeAllAtMost(
        TakeChunk(p, chunks[0], responses[0], judge, now), chunks[1..], responses[1..], judge, now, key, bound);
    }
  }

  // ----- samples that were not answered

  /** The duration a pass declares: the collector's, or a shorter one another device set. */
  function Declared(collected: int, st: seq<SeriesState>, key: Key): int {
    var s := Stored(st, key);
    if s.Some? && s.value.adopted.Some? then Min(collected, s.value.adopted.value) else collected
  }

  /** The filter that decides whether a pass looks at a sample. */
  predicate Relevant(st: seq<SeriesState>, key: Key, backfill: bool, duration: int, observedAt: int) {
    backfill || Watermark(st, key).None?
    || Floor(observedAt, BucketSeconds(duration)) >= Watermark(st, key).value
  }

  /** The newest bucket an answer names for a series. */
  function Named(answers: seq<SeriesAnswer>, key: Key): Option<int> {
    var a := AnswerFor(answers, key);
    if a.Some? then a.value.newest else None
  }

  /** Some answered chunk sent a point of this series at `start` or later. */
  ghost predicate SentBy(sent: seq<seq<Series>>, answered: nat, key: Key, start: int) {
    exists j, s: Series, q: Point ::
      0 <= j < |sent| && j < answered && s in sent[j] && s.key == key && q in s.points && start <= q.bucketStart
  }

  /** Relay names no bucket newer than one this pass sent for the series, or the old watermark. */
  ghost predicate NamesNoNewer(
    st: seq<SeriesState>, sent: seq<seq<Series>>, responses: seq<seq<SeriesAnswer>>, key: Key)
  {
    forall i :: 0 <= i < |responses| && i < |sent| && Named(responses[i], key).Some? ==>
      var v := Named(responses[i], key).value;
      (Watermark(st, key).Some? && v <= Watermark(st, key).value) || SentBy(sent, |responses|, key, v)
  }

  /** No answered chunk holds a point of this series later than `start`. */
  ghost predicate AnsweredUpTo(sent: seq<seq<Series>>, answered: nat, key: Key, start: int) {
    forall i, s, q :: 0 <= i < |sent| && i < answered && s in sent[i] && s.key == key && q in s.points ==>
      q.bucketStart <= start
  }

  /**
   * A sample this pass looked at, no later than everything answered, is looked at again by the
   * next pass, as long as the buckets did not grow or the new watermark starts one of the new ones.
   */
  lemma {:induction false} UnansweredSampleStays(
    st: seq<SeriesState>, sent: seq<seq<Series>>, responses: seq<seq<SeriesAnswer>>,
    judge: bool, now: int, key: Key, backfill: bool, duration: int, next: int, observedAt: int)
    requires Relevant(st, key, backfill, duration, observedAt)
    requires NamesNoNewer(st, sent, responses, key)
    requires AnsweredUpTo(sent, |responses|, key, Floor(observedAt, BucketSeconds(duration)))
    requires var w := Watermark(TakeAll(Pass(st, {}), sent, responses, judge, now).st, key);
      || BucketSeconds(next) <= BucketSeconds(duration)
      || (w.Some? ==> w.value % BucketSeconds(next) == 0)
    ensures Relevant(TakeAll(Pass(st, {}), sent, responses, judge, now).st, key, backfill, next, observedAt)
  {
    if !backfill {
      var start := Floor(observedAt, BucketSeconds(duration));
      if Watermark(st, key).None? || start >= Watermark(st, key).value {
        forall i | 0 <= i < |sent| && i < |responses|
          ensures ChunkWithin(sent[i], responses[i], key, start)
        {
        }
        TakeAllAtMost(Pass(st, {}), sent, responses, judge, now, key, start);
        var w := Watermark(TakeAll(Pass(st, {}), sent, responses, judge, now).st, key);
        if w.Some? {
          if BucketSeconds(next) <= BucketSeconds(duration) {
            FinerFloor(observedAt, duration, next);
          } else {
            OnGridPasses(w.value, BucketSeconds(next), observedAt);
          }
        }
      }
    }
  }

  lemma {:induction false} FinerFloor(observedAt: int, duration: int, next: int)
    requires BucketSeconds(next) <= BucketSeconds(duration)
    ensures Floor(observedAt, BucketSeconds(duration)) <= Floor(observedAt, BucketSeconds(next))
  {
    if BucketSeconds(next) < BucketSeconds(duration) {
      var q, r := observedAt / 3_600, observedAt / 900;
      assert 900 * (4 * q) <= observedAt < 900 * (r + 1);
      assert 4 * q <= r;
    }
  }

  lemma {:induction false} OnGridPasses(w: int, size: nat, observedAt: int)
    requires (size == SHORT_BUCKET || size == LONG_BUCKET) && w % size == 0 && w <= observedAt
    ensures w <= Floor(observedAt, size)
  {
    if size == SHORT_BUCKET {
      var k, r := w / 900, observedAt / 900;
      assert 900 * k <= observedAt < 900 * (r + 1);
      assert k <= r;
    } else {
      var k, r := w / 3_600, observedAt / 3_600;
      assert 3_600 * k <= observedAt < 3_600 * (r + 1);
      assert k <= r;
    }
  }

  /** A sample that was admitted and not answered, of a series not lost, that the next pass skips. */
  ghost predicate SkipsSample(
    st: seq<SeriesState>, sent: seq<seq<Series>>, responses: seq<seq<SeriesAnswer>>, key: Key,
    now: int, collected: int, observedAt: int)
  {
    var duration := Declared(collected, st, key);
    var after := TakeAll(Pass(st, {}), sent, responses, true, now);
    && Shaped(st)
    && NamesNoNewer(st, sent, responses, key)
    && Relevant(st, key, false, duration, observedAt)
    && AnsweredUpTo(sent, |responses|, key, Floor(observedAt, BucketSeconds(duration)))
    && key !in after.lost
    && !Relevant(after.st, key, false, Declared(collected, after.st, key), observedAt)
  }

  /**
   * The size does grow: another device's short duration ends when an answer names a longer one,
   * and a sample whose bucket was not answered is then behind the watermark.
   */
  lemma {:induction false} AdoptionEndSkipsSample()
    returns (st: seq<SeriesState>, sent: seq<seq<Series>>, responses: seq<seq<SeriesAnswer>>, key: Key,
      now: int, collected: int, observedAt: int)
    ensures SkipsSample(st, sent, responses, key, now, collected, observedAt)
  {
    key, now, collected, observedAt := Key("p", "f", "w"), 37_000, 604_800, 37_000;
    st := [SeriesState(key, Some(36_000), [], Some(36_000), Some(18_000))];
    var first := Series(key, 18_000, [Point(1, 36_900, 5.0)]);
    var answer := SeriesAnswer(key, Some(36_900), Some(36_000), Some(604_800));
    sent := [[first], [Series(key, 18_000, [Point(2, 36_900, 6.0)])]];
    responses := [[answer]];
    var p := Pass(st, {});
    assert first in sent[0] && first.points[0] in first.points;
    assert Earliest(first.points) == Some(36_900) by { assert Earliest(first.points[1..]) == None; }
    assert !IsLost(st, first, Some(answer), now);
    var taken := TakeSeries(p, first, [answer], true, now);
    assert TakeChunk(p, [first], [answer], true, now) == taken by { assert [first][..0] == []; }
    assert TakeAll(p, sent, responses, true, now) == taken;
    StoredAfter(p, first, [answer], true, now, key);
    assert Floor(37_000, 900) == 36_900 && Floor(37_000, 3_600) == 36_000;
    assert SentBy(sent, 1, key, 36_900);
    assert NamesNoNewer(st, sent, responses, key);
    assert AnsweredUpTo(sent, 1, key, 36_900);
  }

  // ----- which points are sent

  predicate InRange(now: int, duration: int, start: int) {
    now - SpanSeconds(duration) - BucketSeconds(duration) <= start <= now + BucketSeconds(duration)
  }

  function SendablePoint(now: int, duration: int): Point -> bool {
    (p: Point) => InRange(now, duration, p.bucketStart)
  }

  function SendableSeries(s: Series, now: int): Series {
    s.(points := if s.duration > 0 then Filter(s.points, SendablePoint(now, s.duration)) else [])
  }

  /** A chunk without the points Relay would refuse, and without the series that leaves empty. */
  function SendableChunk(chunk: seq<Series>, now: int): seq<Series> {
    if chunk == [] then []
    else
      var s := SendableSeries(chunk[0], now);
      (if s.points == [] then [] else [s]) + SendableChunk(chunk[1..], now)
  }

  function Sendable(chunks: seq<seq<Series>>, now: int): seq<seq<Series>> {
    if chunks == [] then []
    else
      var c := SendableChunk(chunks[0], now);
      (if c == [] then [] else [c]) + Sendable(chunks[1..], now)
  }

  ghost predicate HasPointAt(chunk: seq<Series>, start: int) {
    exists s, p :: s in chunk && p in s.points && p.bucketStart == start
  }

  /** Every point of an earlier chunk is in no later a bucket than every point of a later one. */
  ghost predicate InOrder(chunks: seq<seq<Series>>) {
    chunks == [] || (NotAfter(chunks[0], chunks[1..]) && InOrder(chunks[1..]))
  }

  ghost predicate NotAfter(chunk: seq<Series>, later: seq<seq<Series>>) {
    forall k, a, b :: 0 <= k < |later| && HasPointAt(chunk, a) && HasPointAt(later[k], b) ==> a <= b
  }

  lemma {:induction false} SendableChunkPoint(chunk: seq<Series>, now: int, s: Series, p: Point)
    requires s in SendableChunk(chunk, now) && p in s.points
    ensures exists t :: t in chunk && t.key == s.key && t.duration == s.duration && p in t.points
    ensures InRange(now, s.duration, p.bucketStart)
  {
    var first := SendableSeries(chunk[0], now);
    FilterMembers(chunk[0].points, SendablePoint(now, chunk[0].duration));
    if s == first && first.points != [] {
      assert chunk[0] in chunk;
    } else {
      SendableChunkPoint(chunk[1..], now, s, p);
    }
  }

  /** Every point that is sent is a point that was built, and in range. */
  lemma {:induction false} SendablePoints(chunks: seq<seq<Series>>, now: int, j: nat, s: Series, p: Point)
    requires j < |Sendable(chunks, now)| && s in Sendable(chunks, now)[j] && p in s.points
    ensures exists k, t ::
      0 <= k < |chunks| && t in chunks[k] && t.key == s.key && t.duration == s.duration && p in t.points
    ensures InRange(now, s.duration, p.bucketStart)
  {
    var c, tail := SendableChunk(chunks[0], now), chunks[1..];
    var skipped := if c == [] then 0 else 1;
    if j < skipped {
      SendableChunkPoint(chunks[0], now, s, p);
    } else {
      SendablePoints(tail, now, j - skipped, s, p);
      var k, t: Series :| 0 <= k < |tail| && t in tail[k] && t.key == s.key && t.duration == s.duration
          && p in t.points;
      assert chunks[k + 1] == tail[k];
    }
  }

  lemma {:induction false} SendableHas(chunk: seq<Series>, now: int, start: int)
    requires HasPointAt(SendableChunk(chunk, now), start)
    ensures HasPointAt(chunk, start)
  {
    var s, p :| s in SendableChunk(chunk, now) && p in s.points && p.bucketStart == start;
    SendableChunkPoint(chunk, now, s, p);
  }

  lemma {:induction false} SendableFrom(chunks: seq<seq<Series>>, now: int, j: nat, start: int) returns (k: nat)
    requires j < |Sendable(chunks, now)| && HasPointAt(Sendable(chunks, now)[j], start)
    ensures k < |chunks| && HasPointAt(chunks[k], start)
  {
    var c := SendableChunk(chunks[0], now);
    var skipped := if c == [] then 0 else 1;
    if j < skipped {
      SendableHas(chunks[0], now, start);
      k := 0;
    } else {
      k := SendableFrom(chunks[1..], now, j - skipped, start);
      k := k + 1;
    }
  }

  /** Holding points back keeps the chunks in order. */
  lemma {:induction false} SendableOrder(chunks: seq<seq<Series>>, now: int)
    requires InOrder(chunks)
    ensures InOrder(Sendable(chunks, now))
  {
    if chunks != [] {
      var c, rest := SendableChunk(chunks[0], now), Sendable(chunks[1..], now);
      SendableOrder(chunks[1..], now);
      if c != [] {
        assert ([c] + rest)[1..] == rest;
        forall k, a, b | 0 <= k < |rest| && HasPointAt(c, a) && HasPointAt(rest[k], b)
          ensures a <= b
        {
          SendableHas(chunks[0], now, a);
          var _ := SendableFrom(chunks[1..], now, k, b);
        }
        assert NotAfter(c, rest);
      } else {
        assert Sendable(chunks, now) == rest;
      }
    }
  }

  lemma {:induction false} InOrderPair(chunks: seq<seq<Series>>, i: nat, j: nat, a: int, b: int)
    requires InOrder(chunks) && i < j < |chunks|
    requires HasPointAt(chunks[i], a) && HasPointAt(chunks[j], b)
    ensures a <= b
  {
    if i > 0 {
      InOrderPair(chunks[1..], i - 1, j - 1, a, b);
    } else {
      assert chunks[1..][j - 1] == chunks[j];
    }
  }

  lemma {:induction false} PairwiseInOrder(chunks: seq<seq<Series>>)
    requires forall i, j, a, b ::
      0 <= i < j < |chunks| && HasPointAt(chunks[i], a) && HasPointAt(chunks[j], b) ==> a <= b
    ensures InOrder(chunks)
  {
    if chunks != [] {
      assert forall k :: 0 <= k < |chunks[1..]| ==> chunks[1..][k] == chunks[k + 1];
      PairwiseInOrder(chunks[1..]);
    }
  }

  /** The chunker's own chunks are in order. */
  lemma {:induction false} ChunksInOrder(w: Sizes, series: seq<Series>, maxPoints: Int64, maxBytes: Int64)
    requires OneDuration(Items(series))
    ensures InOrder(Grouped(Greedy(w, Flatten(series), maxPoints, maxBytes)))
  {
    var chunks := Grouped(Greedy(w, Flatten(series), maxPoints, maxBytes));
    ChunkingConserves(w, series, maxPoints, maxBytes);
    forall i, j, a, b |
      0 <= i < j < |chunks| && HasPointAt(chunks[i], a) && HasPointAt(chunks[j], b)
      ensures a <= b
    {
      var x := ItemAt(chunks[i], a);
      var y := ItemAt(chunks[j], b);
    }
    PairwiseInOrder(chunks);
  }

  lemma {:induction false} ItemAt(chunk: seq<Series>, start: int) returns (x: Item)
    requires HasPointAt(chunk, start)
    ensures x in Items(chunk) && x.point.bucketStart == start
  {
    var s, p :| s in chunk && p in s.points && p.bucketStart == start;
    x := Item(s.key, s.duration, p);
    SeriesItemIn(chunk, s, p);
  }

  lemma {:induction false} SeriesItemIn(chunk: seq<Series>, s: Series, p: Point)
    requires s in chunk && p in s.points
    ensures Item(s.key, s.duration, p) in Items(chunk)
  {
    var front, last := chunk[..|chunk| - 1], chunk[|chunk| - 1];
    if s == last {
      var i :| 0 <= i < |s.points| && s.points[i] == p;
      assert SeriesItems(s)[i] == Item(s.key, s.duration, p);
    } else {
      assert chunk == front + [last];
      SeriesItemIn(front, s, p);
    }
  }

  /** A sample whose bucket waits in a chunk that was sent and not answered is not behind an answer. */
  lemma {:induction false} WaitingIsNotBehind(
    chunks: seq<seq<Series>>, now: int, answered: nat, key: Key, j: nat, start: int)
    requires InOrder(chunks)
    requires answered <= j < |Sendable(chunks, now)| && HasPointAt(Sendable(chunks, now)[j], start)
    ensures AnsweredUpTo(Sendable(chunks, now), answered, key, start)
  {
    var sent := Sendable(chunks, now);
    SendableOrder(chunks, now);
    forall i, t: Series, q: Point |
      0 <= i < |sent| && i < answered && t in sent[i] && t.key == key && q in t.points
      ensures q.bucketStart <= start
    {
      assert HasPointAt(sent[i], q.bucketStart);
      InOrderPair(sent, i, j, q.bucketStart, start);
    }
  }

  /** Nor is one that was held back because its bucket is too far ahead of the clock. */
  lemma {:induction false} AheadIsNotBehind(
    chunks: seq<seq<Series>>, now: int, answered: nat, key: Key, duration: int, start: int)
    requires start > now + BucketSeconds(duration)
    requires forall i, s :: 0 <= i < |chunks| && s in chunks[i] && s.key == key ==> s.duration == duration
    ensures AnsweredUpTo(Sendable(chunks, now), answered, key, start)
  {
    var sent := Sendable(chunks, now);
    forall i, t: Series, q: Point |
      0 <= i < |sent| && i < answered && t in sent[i] && t.key == key && q in t.points
      ensures q.bucketStart <= start
    {
      SendablePoints(chunks, now, i, t, q);
    }
  }
}
