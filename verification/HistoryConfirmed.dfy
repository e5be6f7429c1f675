/** Exactly what a pass remembers of the series it sent, and exactly which series it judges lost. */
module HistoryConfirmed {
  import opened Prelude
  import opened HistoryWire
  import opened HistoryWatermarks
  import opened HistoryTheorems
  import opened HistoryChunker

  // ----- what is sent

  /** How long Relay holds a bucket. */
  function HeldSeconds(duration: int): int {
    if duration < 43_200 then 172_800 else if duration > 648_000 then 2_592_000 else 4 * duration
  }

  /** A point in range: not yet swept, give or take a bucket, and at most one bucket ahead. */
  function MaySend(now: int): Item -> bool {
    (x: Item) =>
      var size := if x.duration <= 86_400 then 900 else 3_600;
      x.duration > 0 && now - HeldSeconds(x.duration) - size <= x.point.bucketStart <= now + size
  }

  lemma {:induction false} ItemsCons(first: Series, rest: seq<Series>)
    ensures Items([first] + rest) == SeriesItems(first) + Items(rest)
  {
    var all := [first] + rest;
    if rest == [] {
      assert all[..0] == [] && all == [first];
    } else {
      ItemsCons(first, rest[..|rest| - 1]);
      assert all[..|all| - 1] == [first] + rest[..|rest| - 1];
    }
  }

  lemma {:induction false} SeriesItemsSent(s: Series, now: int)
    ensures SeriesItems(SendableSeries(s, now)) == Filter(SeriesItems(s), MaySend(now))
    decreases |s.points|
  {
    if s.duration <= 0 {
      FilterNone(SeriesItems(s), MaySend(now));
    } else if s.points != [] {
      var last := |s.points| - 1;
      var front := s.(points := s.points[..last]);
      SeriesItemsSent(front, now);
      assert SeriesItems(s) == SeriesItems(front) + [Item(s.key, s.duration, s.points[last])];
      FilterSnoc(SeriesItems(front), Item(s.key, s.duration, s.points[last]), MaySend(now));
    }
  }

  /** Leaving out what is empty leaves out no item. */
  lemma {:induction false} ItemsUnlessEmpty(s: Series, rest: seq<Series>)
    ensures Items((if s.points == [] then [] else [s]) + rest) == SeriesItems(s) + Items(rest)
  {
    if s.points == [] {
      assert [] + rest == rest && SeriesItems(s) == [];
    } else {
      ItemsCons(s, rest);
    }
  }

  lemma {:induction false} ChunkItemsSent(chunk: seq<Series>, now: int)
    ensures Items(SendableChunk(chunk, now)) == Filter(Items(chunk), MaySend(now))
  {
    if chunk != [] {
      var first, rest := chunk[0], chunk[1..];
      ChunkItemsSent(rest, now);
      SeriesItemsSent(first, now);
      ItemsUnlessEmpty(SendableSeries(first, now), SendableChunk(rest, now));
      assert chunk == [first] + rest;
      ItemsCons(first, rest);
      FilterAppend(SeriesItems(first), Items(rest), MaySend(now));
    }
  }

  lemma {:induction false} AllItemsUnlessEmpty(c: seq<Series>, rest: seq<seq<Series>>)
    ensures AllItems((if c == [] then [] else [c]) + rest) == Items(c) + AllItems(rest)
  {
    if c == [] {
      assert [] + rest == rest;
    } else {
      assert ([c] + rest)[1..] == rest;
    }
  }

  /** What is sent is exactly what was built and is in range, in the same order. */
  lemma {:induction false} SentExactly(chunks: seq<seq<Series>>, now: int)
    ensures AllItems(Sendable(chunks, now)) == Filter(AllItems(chunks), MaySend(now))
  {
    if chunks != [] {
      var first, rest := chunks[0], chunks[1..];
      SentExactly(rest, now);
      ChunkItemsSent(first, now);
      AllItemsUnlessEmpty(SendableChunk(first, now), Sendable(rest, now));
      FilterAppend(Items(first), AllItems(rest), MaySend(now));
    }
  }

  // ----- what an answered chunk confirms

  ghost predicate IsLatest(points: seq<Point>, v: int) {
    && (exists q :: q in points && q.bucketStart == v)
    && forall q :: q in points ==> q.bucketStart <= v
  }

  /** The bucket an answer names for a series, or the latest one sent when it names none. */
  ghost predicate Confirms(series: Series, answers: seq<SeriesAnswer>, v: int) {
    if Named(answers, series.key).Some? then Named(answers, series.key) == Some(v) else IsLatest(series.points, v)
  }

  ghost predicate ChunkConfirms(chunk: seq<Series>, answers: seq<SeriesAnswer>, key: Key, v: int) {
    exists s :: s in chunk && s.key == key && Confirms(s, answers, v)
  }

  ghost predicate PassConfirms(chunks: seq<seq<Series>>, responses: seq<seq<SeriesAnswer>>, key: Key, v: int) {
    exists i :: 0 <= i < |chunks| && i < |responses| && ChunkConfirms(chunks[i], responses[i], key, v)
  }

  ghost function ConfirmedBy(chunk: seq<Series>, answers: seq<SeriesAnswer>, key: Key): iset<int> {
    iset v | ChunkConfirms(chunk, answers, key, v)
  }

  ghost function Confirmed(chunks: seq<seq<Series>>, responses: seq<seq<SeriesAnswer>>, key: Key): iset<int> {
    iset v | PassConfirms(chunks, responses, key, v)
  }

  /** `after` is the maximum of `before` and `vs`. */
  ghost predicate IsNewest(before: Option<int>, vs: iset<int>, after: Option<int>) {
    && NotBelow(before, after)
    && (forall v :: v in vs ==> NotBelow(Some(v), after))
    && (after.Some? ==> after == before || after.value in vs)
  }

  lemma {:induction false} OneNewest(before: Option<int>, vs: iset<int>, a: Option<int>, b: Option<int>)
    requires IsNewest(before, vs, a) && IsNewest(before, vs, b)
    ensures a == b
  {
    NewestReaches(before, vs, a, b);
    NewestReaches(before, vs, b, a);
  }

  lemma {:induction false} NewestReaches(before: Option<int>, vs: iset<int>, a: Option<int>, b: Option<int>)
    requires IsNewest(before, vs, a) && IsNewest(before, vs, b)
    ensures NotBelow(a, b)
  {
    if a.Some? && a != before {
      assert a.value in vs;
      assert NotBelow(Some(a.value), b);
    }
  }

  lemma {:induction false} NewestInTurn(
    before: Option<int>, vs: iset<int>, between: Option<int>, ws: iset<int>, after: Option<int>)
    requires IsNewest(before, vs, between) && IsNewest(between, ws, after)
    ensures IsNewest(before, vs + ws, after)
  {
  }

  /** What one series' answer confirms, as the phone works it out. */
  function Confirmation(series: Series, answers: seq<SeriesAnswer>): Option<int> {
    if Named(answers, series.key).Some? then Named(answers, series.key) else Latest(series.points)
  }

  lemma {:induction false} OneConfirms(series: Series, answers: seq<SeriesAnswer>, v: int)
    ensures v in ConfirmedBy([series], answers, series.key) <==> Confirmation(series, answers) == Some(v)
  {
    assert series in [series];
    assert ChunkConfirms([series], answers, series.key, v) <==> Confirms(series, answers, v);
    if Latest(series.points).Some? {
      assert IsLatest(series.points, Latest(series.points).value);
    }
  }

  lemma {:induction false} NewestAfterAnswer(current: Option<int>, series: Series, answers: seq<SeriesAnswer>)
    ensures IsNewest(
              current, ConfirmedBy([series], answers, series.key),
              NewestAfter(current, AnswerFor(answers, series.key), series.points))
  {
    forall v: int
      ensures v in ConfirmedBy([series], answers, series.key) <==> Confirmation(series, answers) == Some(v)
    {
      OneConfirms(series, answers, v);
    }
  }

  lemma {:induction false} NewestAfterSeries(
    p: Pass, series: Series, answers: seq<SeriesAnswer>, judge: bool, now: int, key: Key)
    requires key !in TakeSeries(p, series, answers, judge, now).lost
    ensures key !in p.lost
    ensures IsNewest(
              Watermark(p.st, key), ConfirmedBy([series], answers, key),
              Watermark(TakeSeries(p, series, answers, judge, now).st, key))
  {
    StoredAfter(p, series, answers, judge, now, key);
    NewestAfterAnswer(Watermark(p.st, key), series, answers);
  }

  lemma {:induction false} ConfirmedSnoc(front: seq<Series>, last: Series, answers: seq<SeriesAnswer>, key: Key)
    ensures ConfirmedBy(front + [last], answers, key)
         == ConfirmedBy(front, answers, key) + ConfirmedBy([last], answers, key)
  {
    var all := front + [last];
    assert last in [last] && all[|front|] == last;
    assert forall s :: s in all <==> s in front || s == last;
  }

  lemma {:induction false} NewestAfterChunk(
    p: Pass, chunk: seq<Series>, answers: seq<SeriesAnswer>, judge: bool, now: int, key: Key)
    requires key !in TakeChunk(p, chunk, answers, judge, now).lost
    ensures key !in p.lost
    ensures IsNewest(
              Watermark(p.st, key), ConfirmedBy(chunk, answers, key),
              Watermark(TakeChunk(p, chunk, answers, judge, now).st, key))
  {
    if chunk != [] {
      var front, last := chunk[..|chunk| - 1], chunk[|chunk| - 1];
      var between := TakeChunk(p, front, answers, judge, now);
      NewestAfterSeries(between, last, answers, judge, now, key);
      NewestAfterChunk(p, front, answers, judge, now, key);
      assert chunk == front + [last];
      ConfirmedSnoc(front, last, answers, key);
      NewestInTurn(
        Watermark(p.st, key), ConfirmedBy(front, answers, key), Watermark(between.st, key),
        ConfirmedBy([last], answers, key), Watermark(TakeChunk(p, chunk, answers, judge, now).st, key));
    }
  }

  lemma {:induction false} ConfirmedCons(
    chunks: seq<seq<Series>>, responses: seq<seq<SeriesAnswer>>, key: Key)
    requires chunks != [] && responses != []
    ensures Confirmed(chunks, responses, key)
         == ConfirmedBy(chunks[0], responses[0], key) + Confirmed(chunks[1..], responses[1..], key)
  {
    forall v
      ensures PassConfirms(chunks, responses, key, v)
        <==> ChunkConfirms(chunks[0], responses[0], key, v) || PassConfirms(chunks[1..], responses[1..], key, v)
    {
      if PassConfirms(chunks, responses, key, v) {
        var i :| 0 <= i < |chunks| && i < |responses| && ChunkConfirms(chunks[i], responses[i], key, v);
        if i > 0 {
          assert ChunkConfirms(chunks[1..][i - 1], responses[1..][i - 1], key, v);
        }
      }
      if PassConfirms(chunks[1..], responses[1..], key, v) {
        var i :| 0 <= i < |chunks[1..]| && i < |responses[1..]|
                 && ChunkConfirms(chunks[1..][i], responses[1..][i], key, v);
        assert ChunkConfirms(chunks[i + 1], responses[i + 1], key, v);
      }
    }
  }

  /**
   * A series not lost is left with exactly the maximum of its old watermark and what the answered
   * chunks that send it confirmed.
   */
  lemma {:induction false} WatermarkIsNewest(
    p: Pass, chunks: seq<seq<Series>>, responses: seq<seq<SeriesAnswer>>, judge: bool, now: int, key: Key)
    requires key !in TakeAll(p, chunks, responses, judge, now).lost
    ensures key !in p.lost
    ensures IsNewest(
              Watermark(p.st, key), Confirmed(chunks, responses, key),
              Watermark(TakeAll(p, chunks, responses, judge, now).st, key))
    decreases |chunks|
  {
    if chunks != [] && responses != [] {
      var between := TakeChunk(p, chunks[0], responses[0], judge, now);
      WatermarkIsNewest(between, chunks[1..], responses[1..], judge, now, key);
      NewestAfterChunk(p, chunks[0], responses[0], judge, now, key);
      ConfirmedCons(chunks, responses, key);
      NewestInTurn(
        Watermark(p.st, key), ConfirmedBy(chunks[0], responses[0], key), Watermark(between.st, key),
        Confirmed(chunks[1..], responses[1..], key),
        Watermark(TakeAll(p, chunks, responses, judge, now).st, key));
    }
  }

  // ----- the last uploaded bucket of each reset

  function LastUploaded(st: seq<SeriesState>, key: Key): seq<Point> {
    var s := Stored(st, key);
    if s.Some? then s.value.lastUploaded else []
  }

  /** The points of one series in the order they were sent. */
  function PointsOf(chunk: seq<Series>, key: Key): seq<Point> {
    if chunk == [] then []
    else
      var last := chunk[|chunk| - 1];
      PointsOf(chunk[..|chunk| - 1], key) + if last.key == key then last.points else []
  }

  function AnsweredPoints(chunks: seq<seq<Series>>, responses: seq<seq<SeriesAnswer>>, key: Key): seq<Point>
    decreases |chunks|
  {
    if chunks == [] || responses == [] then []
    else PointsOf(chunks[0], key) + AnsweredPoints(chunks[1..], responses[1..], key)
  }

  lemma {:induction false} RememberedAppend(uploaded: seq<Point>, a: seq<Point>, b: seq<Point>)
    ensures RememberedAll(uploaded, a + b) == RememberedAll(RememberedAll(uploaded, a), b)
  {
    if b == [] {
      assert a + b == a;
    } else {
      RememberedAppend(uploaded, a, b[..|b| - 1]);
      assert (a + b)[..|a + b| - 1] == a + b[..|b| - 1];
    }
  }

  lemma {:induction false} UploadedAfterChunk(
    p: Pass, chunk: seq<Series>, answers: seq<SeriesAnswer>, judge: bool, now: int, key: Key)
    requires key !in TakeChunk(p, chunk, answers, judge, now).lost
    ensures key !in p.lost
    ensures LastUploaded(TakeChunk(p, chunk, answers, judge, now).st, key)
         == RememberedAll(LastUploaded(p.st, key), PointsOf(chunk, key))
  {
    if chunk != [] {
      var front, last := chunk[..|chunk| - 1], chunk[|chunk| - 1];
      StoredAfter(TakeChunk(p, front, answers, judge, now), last, answers, judge, now, key);
      UploadedAfterChunk(p, front, answers, judge, now, key);
      RememberedAppend(LastUploaded(p.st, key), PointsOf(front, key), last.points);
      assert PointsOf(front, key) + [] == PointsOf(front, key);
    }
  }

  lemma {:induction false} UploadedAfterPass(
    p: Pass, chunks: seq<seq<Series>>, responses: seq<seq<SeriesAnswer>>, judge: bool, now: int, key: Key)
    requires key !in TakeAll(p, chunks, responses, judge, now).lost
    ensures key !in p.lost
    ensures LastUploaded(TakeAll(p, chunks, responses, judge, now).st, key)
         == RememberedAll(LastUploaded(p.st, key), AnsweredPoints(chunks, responses, key))
    decreases |chunks|
  {
    if chunks != [] && responses != [] {
      UploadedAfterPass(TakeChunk(p, chunks[0], responses[0], judge, now), chunks[1..], responses[1..], judge, now,
          key);
      UploadedAfterChunk(p, chunks[0], responses[0], judge, now, key);
      RememberedAppend(
        LastUploaded(p.st, key), PointsOf(chunks[0], key), AnsweredPoints(chunks[1..], responses[1..], key));
    }
  }

  /** Position `k` holds the latest bucket of its reset, and the last of those that start together. */
  ghost predicate LastOfLatest(points: seq<Point>, k: int) {
    && 0 <= k < |points|
    && (forall j :: 0 <= j < k && points[j].resetsAt == points[k].resetsAt ==>
          points[j].bucketStart <= points[k].bucketStart)
    && (forall j :: k < j < |points| && points[j].resetsAt == points[k].resetsAt ==>
          points[j].bucketStart < points[k].bucketStart)
  }

  ghost predicate IsLatestOfReset(u: Point, all: seq<Point>) {
    exists k :: LastOfLatest(all, k) && all[k] == u
  }

  ghost predicate HasReset(uploaded: seq<Point>, resetsAt: int) {
    exists u :: u in uploaded && u.resetsAt == resetsAt
  }

  /** One bucket for each reset of `all`: the last of its latest ones. */
  ghost predicate HoldsLatest(uploaded: seq<Point>, all: seq<Point>) {
    && UniqueResets(uploaded)
    && (forall u :: u in uploaded ==> IsLatestOfReset(u, all))
    && (forall x :: x in all ==> HasReset(uploaded, x.resetsAt))
  }

  lemma {:induction false} StartHoldsLatest(uploaded: seq<Point>)
    requires UniqueResets(uploaded)
    ensures HoldsLatest(uploaded, uploaded)
  {
    forall u | u in uploaded
      ensures IsLatestOfReset(u, uploaded)
    {
      var k :| 0 <= k < |uploaded| && uploaded[k] == u;
      assert LastOfLatest(uploaded, k);
    }
  }

  lemma {:induction false} LatestStays(all: seq<Point>, k: int, p: Point)
    requires LastOfLatest(all, k)
    requires all[k].resetsAt == p.resetsAt ==> p.bucketStart < all[k].bucketStart
    ensures IsLatestOfReset(all[k], all + [p])
  {
    assert LastOfLatest(all + [p], k);
  }

  /** Nothing sent for its reset so far starts later. */
  ghost predicate NoneOfResetLater(all: seq<Point>, p: Point) {
    forall x :: x in all && x.resetsAt == p.resetsAt ==> x.bucketStart <= p.bucketStart
  }

  lemma {:induction false} NewestIsLatest(all: seq<Point>, p: Point)
    requires NoneOfResetLater(all, p)
    ensures IsLatestOfReset(p, all + [p])
  {
    assert LastOfLatest(all + [p], |all|);
  }

  lemma {:induction false} LatestBoundsAt(all: seq<Point>, k: int, j: nat)
    requires LastOfLatest(all, k) && j < |all| && all[j].resetsAt == all[k].resetsAt
    ensures all[j].bucketStart <= all[k].bucketStart
  {
  }

  lemma {:induction false} LatestBounds(all: seq<Point>, u: Point, p: Point)
    requires IsLatestOfReset(u, all) && u.resetsAt == p.resetsAt && u.bucketStart <= p.bucketStart
    ensures NoneOfResetLater(all, p)
  {
    var k :| LastOfLatest(all, k) && all[k] == u;
    forall x | x in all && x.resetsAt == p.resetsAt
      ensures x.bucketStart <= p.bucketStart
    {
      var j :| 0 <= j < |all| && all[j] == x;
      LatestBoundsAt(all, k, j);
    }
  }

  lemma {:induction false} NoneOfReset(uploaded: seq<Point>, all: seq<Point>, p: Point)
    requires HoldsLatest(uploaded, all) && ResetIndex(uploaded, p.resetsAt) == |uploaded|
    ensures NoneOfResetLater(all, p)
  {
    forall x | x in all
      ensures x.resetsAt != p.resetsAt
    {
      var u :| u in uploaded && u.resetsAt == x.resetsAt;
      var j :| 0 <= j < |uploaded| && uploaded[j] == u;
    }
  }

  lemma {:induction false} RememberedLatest(uploaded: seq<Point>, all: seq<Point>, p: Point, j: nat)
    requires HoldsLatest(uploaded, all) && j < |Remembered(uploaded, p)|
    ensures IsLatestOfReset(Remembered(uploaded, p)[j], all + [p])
  {
    var i := ResetIndex(uploaded, p.resetsAt);
    if i == |uploaded| {
      NoneOfReset(uploaded, all, p);
    } else {
      assert IsLatestOfReset(uploaded[i], all);
      if p.bucketStart >= uploaded[i].bucketStart {
        LatestBounds(all, uploaded[i], p);
      }
    }
    if j == i && Remembered(uploaded, p)[i] == p && NoneOfResetLater(all, p) {
      NewestIsLatest(all, p);
    } else {
      assert Remembered(uploaded, p)[j] == uploaded[j];
      assert IsLatestOfReset(uploaded[j], all);
      var k :| LastOfLatest(all, k) && all[k] == uploaded[j];
      LatestStays(all, k, p);
    }
  }

  lemma {:induction false} RememberedReset(uploaded: seq<Point>, p: Point, resetsAt: int)
    requires HasReset(uploaded, resetsAt) || resetsAt == p.resetsAt
    ensures HasReset(Remembered(uploaded, p), resetsAt)
  {
    var after, i := Remembered(uploaded, p), ResetIndex(uploaded, p.resetsAt);
    if resetsAt == p.resetsAt {
      assert after[i] in after;
    } else {
      var u :| u in uploaded && u.resetsAt == resetsAt;
      var j :| 0 <= j < |uploaded| && uploaded[j] == u;
      assert after[j] in after;
    }
  }

  lemma {:induction false} RememberedHoldsLatest(uploaded: seq<Point>, all: seq<Point>, p: Point)
    requires HoldsLatest(uploaded, all)
    ensures HoldsLatest(Remembered(uploaded, p), all + [p])
  {
    var after := Remembered(uploaded, p);
    forall u | u in after
      ensures IsLatestOfReset(u, all + [p])
    {
      var j :| 0 <= j < |after| && after[j] == u;
      RememberedLatest(uploaded, all, p, j);
    }
    forall x | x in all + [p]
      ensures HasReset(after, x.resetsAt)
    {
      RememberedReset(uploaded, p, x.resetsAt);
    }
  }

  lemma {:induction false} RememberedAllHoldLatest(uploaded: seq<Point>, points: seq<Point>)
    requires UniqueResets(uploaded)
    ensures HoldsLatest(RememberedAll(uploaded, points), uploaded + points)
  {
    if points == [] {
      StartHoldsLatest(uploaded);
      assert uploaded + points == uploaded;
    } else {
      var front, last := points[..|points| - 1], points[|points| - 1];
      RememberedAllHoldLatest(uploaded, front);
      RememberedHoldsLatest(RememberedAll(uploaded, front), uploaded + front, last);
      assert uploaded + points == (uploaded + front) + [last];
    }
  }

  /**
   * A series not lost is left with one last-uploaded bucket for each reset: the last of the latest
   * among those it had and those the answered chunks sent.
   */
  lemma {:induction false} LastUploadedIsLatest(
    p: Pass, chunks: seq<seq<Series>>, responses: seq<seq<SeriesAnswer>>, judge: bool, now: int, key: Key)
    requires Shaped(p.st) && key !in TakeAll(p, chunks, responses, judge, now).lost
    ensures HoldsLatest(
              LastUploaded(TakeAll(p, chunks, responses, judge, now).st, key),
              LastUploaded(p.st, key) + AnsweredPoints(chunks, responses, key))
  {
    UploadedAfterPass(p, chunks, responses, judge, now, key);
    RememberedAllHoldLatest(LastUploaded(p.st, key), AnsweredPoints(chunks, responses, key));
  }

  // ----- which series are judged lost

  /** Relay must still hold a bucket of this duration, with an hour to spare. */
  predicate MustBeHeld(start: int, duration: int, now: int) {
    start + HeldSeconds(duration) > now + 3_600
  }

  /** Every point is later than `start`. */
  predicate AllLater(points: seq<Point>, start: int) {
    forall q :: q in points ==> start < q.bucketStart
  }

  /**
   * What the answer contradicts: the recorded oldest bucket while Relay must hold it, or else the
   * watermark while Relay must hold it and the chunk sends nothing up to it.
   */
  predicate Contradicts(
    oldest: int, recorded: Option<int>, watermark: Option<int>, points: seq<Point>, duration: int, now: int)
  {
    if recorded.Some? && MustBeHeld(recorded.value, duration, now) then recorded.value < oldest
    else
      && watermark.Some? && MustBeHeld(watermark.value, duration, now)
      && AllLater(points, watermark.value) && watermark.value < oldest
  }

  function RecordedOldest(st: seq<SeriesState>, key: Key): Option<int> {
    var s := Stored(st, key);
    if s.Some? then s.value.oldest else None
  }

  lemma {:induction false} RowsLostMeans(
    recorded: Option<int>, watermark: Option<int>, points: seq<Point>, a: SeriesAnswer, own: int, now: int)
    requires points != []
    ensures RowsLost(recorded, watermark, Earliest(points).value, Some(a), own, now)
      <==>
        && a.oldest.Some?
        && Contradicts(
             a.oldest.value, recorded, watermark, points,
             if a.duration.Some? && a.duration.value < own then a.duration.value else own, now)
  {
    if watermark.Some? {
      assert AllLater(points, watermark.value) <==> Earliest(points).value > watermark.value;
    }
  }

  /**
   * A judged series is lost exactly when it sends points and the answer leaves it out, or names an
   * oldest bucket later than what the phone knows Relay must still hold.
   */
  lemma {:induction false} LostExactly(p: Pass, series: Series, answers: seq<SeriesAnswer>, now: int)
    requires series.key !in p.lost
    ensures series.key in TakeSeries(p, series, answers, true, now).lost
      <==>
        && series.points != []
        && match AnswerFor(answers, series.key)
           case None => true
           case Some(a) =>
             && a.oldest.Some?
             && Contradicts(
                  a.oldest.value, RecordedOldest(p.st, series.key), Watermark(p.st, series.key), series.points,
                  if a.duration.Some? && a.duration.value < series.duration then a.duration.value
                  else series.duration, now)
  {
    var a := AnswerFor(answers, series.key);
    if series.points != [] && a.Some? {
      RowsLostMeans(
        RecordedOldest(p.st, series.key), Watermark(p.st, series.key), series.points, a.value, series.duration, now);
    }
  }

  ghost predicate IsEarliest(points: seq<Point>, v: int) {
    && (exists q :: q in points && q.bucketStart == v)
    && forall q :: q in points ==> v <= q.bucketStart
  }

  /**
   * The oldest bucket recorded of a series not lost: what was recorded, while Relay must hold it and
   * nothing sent is earlier, else the earliest bucket sent.
   */
  lemma {:induction false} RecordedAfterSeries(
    p: Pass, series: Series, answers: seq<SeriesAnswer>, judge: bool, now: int)
    requires series.key !in TakeSeries(p, series, answers, judge, now).lost && series.points != []
    ensures var before := RecordedOldest(p.st, series.key);
      var after := RecordedOldest(TakeSeries(p, series, answers, judge, now).st, series.key);
      && after.Some?
      && if before.Some? && MustBeHeld(before.value, series.duration, now)
            && forall q :: q in series.points ==> before.value <= q.bucketStart
         then after == before
         else IsEarliest(series.points, after.value)
  {
    StoredAfter(p, series, answers, judge, now, series.key);
    assert IsEarliest(series.points, Earliest(series.points).value);
  }

  lemma {:induction false} LostInChunk(
    p: Pass, chunk: seq<Series>, answers: seq<SeriesAnswer>, judge: bool, now: int, key: Key)
    ensures key in p.lost ==> key in TakeChunk(p, chunk, answers, judge, now).lost
    ensures judge && AnswerFor(answers, key).None? && PointsOf(chunk, key) != [] ==>
              key in TakeChunk(p, chunk, answers, judge, now).lost
  {
    if chunk != [] {
      var front, last := chunk[..|chunk| - 1], chunk[|chunk| - 1];
      LostInChunk(p, front, answers, judge, now, key);
      StoredAfter(TakeChunk(p, front, answers, judge, now), last, answers, judge, now, key);
    }
  }

  /** Whatever is remembered, a judged series with points in a chunk whose answer leaves it out is lost. */
  lemma {:induction false} LeftOutIsLost(
    p: Pass, chunks: seq<seq<Series>>, responses: seq<seq<SeriesAnswer>>, now: int, i: nat, key: Key)
    requires i < |chunks| && i < |responses|
    requires PointsOf(chunks[i], key) != [] && forall a :: a in responses[i] ==> a.key != key
    ensures key in TakeAll(p, chunks, responses, true, now).lost
    decreases |chunks|
  {
    var q := TakeChunk(p, chunks[0], responses[0], true, now);
    LostInChunk(p, chunks[0], responses[0], true, now, key);
    if i > 0 {
      LeftOutIsLost(q, chunks[1..], responses[1..], now, i - 1, key);
    } else {
      LostStays(q, chunks[1..], responses[1..], now, key);
    }
  }

  lemma {:induction false} LostStays(
    p: Pass, chunks: seq<seq<Series>>, responses: seq<seq<SeriesAnswer>>, now: int, key: Key)
    requires key in p.lost
    ensures key in TakeAll(p, chunks, responses, true, now).lost
    decreases |chunks|
  {
    if chunks != [] && responses != [] {
      LostInChunk(p, chunks[0], responses[0], true, now, key);
      LostStays(TakeChunk(p, chunks[0], responses[0], true, now), chunks[1..], responses[1..], now, key);
    }
  }
}
