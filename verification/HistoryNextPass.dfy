/** Exactly when the next pass looks again at the samples a pass did not get answered. */
module HistoryNextPass {
  import opened Prelude
  import opened HistoryWire
  import opened HistoryChunker
  import opened HistoryWatermarks
  import opened HistoryTheorems

  // ----- the duration the next pass declares

  function Adopted(st: seq<SeriesState>, key: Key): Option<int> {
    var s := Stored(st, key);
    if s.Some? then s.value.adopted else None
  }

  predicate Sends(chunk: seq<Series>, key: Key) {
    exists s :: s in chunk && s.key == key
  }

  ghost predicate AllDeclare(chunk: seq<Series>, key: Key, duration: int) {
    forall s :: s in chunk && s.key == key ==> s.duration == duration
  }

  function NamedDuration(answers: seq<SeriesAnswer>, key: Key): Option<int> {
    var a := AnswerFor(answers, key);
    if a.Some? then a.value.duration else None
  }

  /** What the last answer that names another duration than the one sent names. */
  function LastWord(sent: seq<seq<Series>>, responses: seq<seq<SeriesAnswer>>, key: Key, duration: int): Option<int>
    decreases |sent|
  {
    if sent == [] || responses == [] then None
    else
      var later, named := LastWord(sent[1..], responses[1..], key, duration), NamedDuration(responses[0], key);
      if later.Some? then later
      else if Sends(sent[0], key) && named != Some(duration) then named
      else None
  }

  /** Lost or not, a series an answer is taken for follows the duration that answer names, when it is shorter. */
  lemma {:induction false} AdoptedAfterSeries(
    p: Pass, series: Series, answers: seq<SeriesAnswer>, judge: bool, now: int, key: Key)
    ensures key in p.lost ==> key in TakeSeries(p, series, answers, judge, now).lost
    ensures Adopted(TakeSeries(p, series, answers, judge, now).st, key) ==
            if series.key == key && key !in p.lost
            then AdoptedDuration(Adopted(p.st, key), NamedDuration(answers, key), series.duration)
            else Adopted(p.st, key)
  {
    StoredAfter(p, series, answers, judge, now, key);
  }

  lemma {:induction false} AdoptedAfterChunk(
    p: Pass, chunk: seq<Series>, answers: seq<SeriesAnswer>, judge: bool, now: int, key: Key, duration: int)
    requires AllDeclare(chunk, key, duration)
    requires key !in TakeChunk(p, chunk, answers, judge, now).lost
    ensures key !in p.lost
    ensures Adopted(TakeChunk(p, chunk, answers, judge, now).st, key) ==
            if Sends(chunk, key) then AdoptedDuration(Adopted(p.st, key), NamedDuration(answers, key), duration)
            else Adopted(p.st, key)
  {
    if chunk != [] {
      var front, last := chunk[..|chunk| - 1], chunk[|chunk| - 1];
      AdoptedAfterSeries(TakeChunk(p, front, answers, judge, now), last, answers, judge, now, key);
      AdoptedAfterChunk(p, front, answers, judge, now, key, duration);
      SendsSnoc(front, last, key);
      assert chunk == front + [last] && last in chunk;
    }
  }

  lemma {:induction false} SendsSnoc(front: seq<Series>, last: Series, key: Key)
    ensures Sends(front + [last], key) <==> Sends(front, key) || last.key == key
  {
    if Sends(front, key) {
      var s :| s in front && s.key == key;
      assert s in front + [last];
    }
    assert last in front + [last];
  }

  /** After a pass a series not lost follows the last answer to name another duration, when that one is shorter. */
  lemma {:induction false} AdoptedAfterPass(
    p: Pass, sent: seq<seq<Series>>, responses: seq<seq<SeriesAnswer>>, judge: bool, now: int, key: Key, duration: int)
    requires forall i :: 0 <= i < |sent| && i < |responses| ==> AllDeclare(sent[i], key, duration)
    requires key !in TakeAll(p, sent, responses, judge, now).lost
    ensures key !in p.lost
    ensures var word := LastWord(sent, responses, key, duration);
      Adopted(TakeAll(p, sent, responses, judge, now).st, key) ==
      if word.None? then Adopted(p.st, key) else if word.value < duration then word else None
    decreases |sent|
  {
    if sent != [] && responses != [] {
      var q := TakeChunk(p, sent[0], responses[0], judge, now);
      forall i | 0 <= i < |sent[1..]| && i < |responses[1..]|
        ensures AllDeclare(sent[1..][i], key, duration)
      {
        assert AllDeclare(sent[i + 1], key, duration);
      }
      AdoptedAfterPass(q, sent[1..], responses[1..], judge, now, key, duration);
      assert AllDeclare(sent[0], key, duration);
      AdoptedAfterChunk(p, sent[0], responses[0], judge, now, key, duration);
    }
  }

  /**
   * The next pass goes from quarter-hour buckets to hour buckets: it collects a duration of more than a
   * day, and none of a day or less is adopted any more.
   */
  predicate HoursReturn(
    st: seq<SeriesState>, sent: seq<seq<Series>>, responses: seq<seq<SeriesAnswer>>, key: Key, duration: int,
    nextCollected: int)
  {
    var word, held := LastWord(sent, responses, key, duration), Adopted(st, key);
    && duration <= 86_400 < nextCollected
    && if word.Some? then word.value > duration else held.Some? ==> held.value > 86_400
  }

  /** The buckets of a series not lost grow exactly then. */
  lemma {:induction false} BucketsGrow(
    st: seq<SeriesState>, sent: seq<seq<Series>>, responses: seq<seq<SeriesAnswer>>, judge: bool, now: int,
    key: Key, duration: int, nextCollected: int)
    requires forall i :: 0 <= i < |sent| && i < |responses| ==> AllDeclare(sent[i], key, duration)
    requires key !in TakeAll(Pass(st, {}), sent, responses, judge, now).lost
    ensures var next := Declared(nextCollected, TakeAll(Pass(st, {}), sent, responses, judge, now).st, key);
      BucketSeconds(next) > BucketSeconds(duration) <==> HoursReturn(st, sent, responses, key, duration, nextCollected)
  {
    AdoptedAfterPass(Pass(st, {}), sent, responses, judge, now, key, duration);
    LastWordDiffers(sent, responses, key, duration);
  }

  lemma {:induction false} LastWordDiffers(
    sent: seq<seq<Series>>, responses: seq<seq<SeriesAnswer>>, key: Key, duration: int)
    ensures LastWord(sent, responses, key, duration) != Some(duration)
    decreases |sent|
  {
    if sent != [] && responses != [] {
      LastWordDiffers(sent[1..], responses[1..], key, duration);
    }
  }

  // ----- the samples the next pass looks at

  /** Every sample this pass looked at, in a bucket no earlier than everything answered, passes the next filter. */
  ghost predicate KeepsSamples(
    st: seq<SeriesState>, sent: seq<seq<Series>>, responses: seq<seq<SeriesAnswer>>, judge: bool, now: int,
    key: Key, duration: int, next: int)
  {
    forall observedAt ::
      Relevant(st, key, false, duration, observedAt)
      && AnsweredUpTo(sent, |responses|, key, Floor(observedAt, BucketSeconds(duration)))
      ==> Relevant(TakeAll(Pass(st, {}), sent, responses, judge, now).st, key, false, next, observedAt)
  }

  /**
   * Whatever duration the next pass declares, a pass that leaves a watermark on its own grid keeps every
   * such sample exactly when buckets do not grow or the watermark starts one of the new size.
   */
  lemma {:induction false} PassKeepsSamples(
    st: seq<SeriesState>, sent: seq<seq<Series>>, responses: seq<seq<SeriesAnswer>>, judge: bool, now: int,
    key: Key, duration: int, next: int, w: int)
    requires NamesNoNewer(st, sent, responses, key)
    requires key !in TakeAll(Pass(st, {}), sent, responses, judge, now).lost
    requires Watermark(TakeAll(Pass(st, {}), sent, responses, judge, now).st, key) == Some(w)
    requires w % BucketSeconds(duration) == 0 && AnsweredUpTo(sent, |responses|, key, w)
    ensures KeepsSamples(st, sent, responses, judge, now, key, duration, next)
      <==> (BucketSeconds(next) <= BucketSeconds(duration) || w % BucketSeconds(next) == 0)
  {
    if BucketSeconds(next) <= BucketSeconds(duration) || w % BucketSeconds(next) == 0 {
      forall observedAt |
        Relevant(st, key, false, duration, observedAt)
        && AnsweredUpTo(sent, |responses|, key, Floor(observedAt, BucketSeconds(duration)))
        ensures Relevant(TakeAll(Pass(st, {}), sent, responses, judge, now).st, key, false, next, observedAt)
      {
        UnansweredSampleStays(st, sent, responses, judge, now, key, false, duration, next, observedAt);
      }
    } else {
      WatermarkNeverDecreases(st, sent, responses, judge, now, key);
      OnGrid(w, BucketSeconds(duration));
      OffGrid(w, BucketSeconds(next));
      assert Relevant(st, key, false, duration, w);
    }
  }

  lemma {:induction false} OnGrid(w: int, size: nat)
    requires (size == SHORT_BUCKET || size == LONG_BUCKET) && w % size == 0
    ensures Floor(w, size) == w
  {
  }

  lemma {:induction false} OffGrid(w: int, size: nat)
    requires (size == SHORT_BUCKET || size == LONG_BUCKET) && w % size != 0
    ensures Floor(w, size) < w
  {
  }

  /**
   * In terms of what a caller can see (the durations collected, the one adopted, and the answers): a pass
   * keeps every such sample exactly unless hour buckets return and the watermark starts no hour.
   */
  lemma {:induction false} SamplesKeptExactly(
    st: seq<SeriesState>, sent: seq<seq<Series>>, responses: seq<seq<SeriesAnswer>>, judge: bool, now: int,
    key: Key, collected: int, nextCollected: int, w: int)
    requires NamesNoNewer(st, sent, responses, key)
    requires key !in TakeAll(Pass(st, {}), sent, responses, judge, now).lost
    requires Watermark(TakeAll(Pass(st, {}), sent, responses, judge, now).st, key) == Some(w)
    requires w % BucketSeconds(Declared(collected, st, key)) == 0 && AnsweredUpTo(sent, |responses|, key, w)
    requires forall i :: 0 <= i < |sent| && i < |responses| ==> AllDeclare(sent[i], key, Declared(collected, st, key))
    ensures var duration := Declared(collected, st, key);
      var next := Declared(nextCollected, TakeAll(Pass(st, {}), sent, responses, judge, now).st, key);
      KeepsSamples(st, sent, responses, judge, now, key, duration, next)
      <==> !(HoursReturn(st, sent, responses, key, duration, nextCollected) && w % 3_600 != 0)
  {
    var duration := Declared(collected, st, key);
    var next := Declared(nextCollected, TakeAll(Pass(st, {}), sent, responses, judge, now).st, key);
    PassKeepsSamples(st, sent, responses, judge, now, key, duration, next, w);
    BucketsGrow(st, sent, responses, judge, now, key, duration, nextCollected);
  }

  /** A series judged lost is looked at from its first sample again. */
  lemma {:induction false} LostSeriesIsSentAgain(
    st: seq<SeriesState>, sent: seq<seq<Series>>, responses: seq<seq<SeriesAnswer>>, judge: bool, now: int,
    key: Key, backfill: bool, next: int, observedAt: int)
    requires key in TakeAll(Pass(st, {}), sent, responses, judge, now).lost
    ensures Relevant(TakeAll(Pass(st, {}), sent, responses, judge, now).st, key, backfill, next, observedAt)
  {
    WatermarkNeverDecreases(st, sent, responses, judge, now, key);
  }

  /** The next pass does not skip a sample: hour buckets do not return, or they return on the hour. */
  ghost predicate GridKept(
    st: seq<SeriesState>, sent: seq<seq<Series>>, responses: seq<seq<SeriesAnswer>>, judge: bool, now: int,
    key: Key, duration: int, nextCollected: int)
  {
    var w := Watermark(TakeAll(Pass(st, {}), sent, responses, judge, now).st, key);
    HoursReturn(st, sent, responses, key, duration, nextCollected) && w.Some? ==> w.value % 3_600 == 0
  }

  /**
   * One sample, lost or not, backfilled or not: when no answered point of its series lies in a later
   * bucket, it is looked at again with the duration the next pass really declares.
   */
  lemma {:induction false} UnansweredSampleIsSentAgain(
    st: seq<SeriesState>, sent: seq<seq<Series>>, responses: seq<seq<SeriesAnswer>>,
    judge: bool, now: int, key: Key, backfill: bool, collected: int, nextCollected: int, observedAt: int)
    requires Relevant(st, key, backfill, Declared(collected, st, key), observedAt)
    requires NamesNoNewer(st, sent, responses, key)
    requires AnsweredUpTo(sent, |responses|, key, Floor(observedAt, BucketSeconds(Declared(collected, st, key))))
    requires forall i :: 0 <= i < |sent| && i < |responses| ==> AllDeclare(sent[i], key, Declared(collected, st, key))
    requires GridKept(st, sent, responses, judge, now, key, Declared(collected, st, key), nextCollected)
    ensures var after := TakeAll(Pass(st, {}), sent, responses, judge, now).st;
      Relevant(after, key, backfill, Declared(nextCollected, after, key), observedAt)
  {
    var after := TakeAll(Pass(st, {}), sent, responses, judge, now);
    var duration, next := Declared(collected, st, key), Declared(nextCollected, after.st, key);
    if key in after.lost {
      LostSeriesIsSentAgain(st, sent, responses, judge, now, key, backfill, next, observedAt);
    } else {
      BucketsGrow(st, sent, responses, judge, now, key, duration, nextCollected);
      UnansweredSampleStays(st, sent, responses, judge, now, key, backfill, duration, next, observedAt);
    }
  }

  // ----- from the chunker to the next pass

  lemma {:induction false} SendableHasPoints(chunk: seq<Series>, now: int, s: Series)
    requires s in SendableChunk(chunk, now)
    ensures s.points != []
  {
    if s !in SendableChunk(chunk[1..], now) {
      assert s == SendableSeries(chunk[0], now);
    } else {
      SendableHasPoints(chunk[1..], now, s);
    }
  }

  lemma {:induction false} SentHasPoints(chunks: seq<seq<Series>>, now: int, j: nat, s: Series)
    requires j < |Sendable(chunks, now)| && s in Sendable(chunks, now)[j]
    ensures s.points != []
  {
    var c, rest := SendableChunk(chunks[0], now), Sendable(chunks[1..], now);
    var skipped := if c == [] then 0 else 1;
    if j < skipped {
      assert Sendable(chunks, now)[j] == c;
      SendableHasPoints(chunks[0], now, s);
    } else {
      assert Sendable(chunks, now)[j] == rest[j - skipped];
      SentHasPoints(chunks[1..], now, j - skipped, s);
    }
  }

  lemma {:induction false} ItemInAll(chunks: seq<seq<Series>>, k: nat, x: Item)
    requires k < |chunks| && x in Items(chunks[k])
    ensures x in AllItems(chunks)
  {
    if k > 0 {
      ItemInAll(chunks[1..], k - 1, x);
    }
  }

  lemma {:induction false} ItemDeclares(series: seq<Series>, x: Item, key: Key, duration: int)
    requires x in Items(series) && x.key == key && AllDeclare(series, key, duration)
    ensures x.duration == duration
  {
    var front, last := series[..|series| - 1], series[|series| - 1];
    assert series == front + [last] && last in series;
    if x in SeriesItems(last) {
      var i :| 0 <= i < |last.points| && SeriesItems(last)[i] == x;
    } else {
      ItemDeclares(front, x, key, duration);
    }
  }

  /** What is sent declares what was built. */
  lemma {:induction false} SentDeclares(
    w: Sizes, series: seq<Series>, maxPoints: Int64, maxBytes: Int64, now: int, key: Key, duration: int, j: nat)
    requires OneDuration(Items(series)) && AllDeclare(series, key, duration)
    requires j < |Sendable(Grouped(Greedy(w, Flatten(series), maxPoints, maxBytes)), now)|
    ensures AllDeclare(Sendable(Grouped(Greedy(w, Flatten(series), maxPoints, maxBytes)), now)[j], key, duration)
  {
    var chunks := Grouped(Greedy(w, Flatten(series), maxPoints, maxBytes));
    ChunkingConserves(w, series, maxPoints, maxBytes);
    forall s | s in Sendable(chunks, now)[j] && s.key == key
      ensures s.duration == duration
    {
      SentHasPoints(chunks, now, j, s);
      var p := s.points[0];
      SendablePoints(chunks, now, j, s, p);
      var k, t: Series :|
        0 <= k < |chunks| && t in chunks[k] && t.key == s.key && t.duration == s.duration && p in t.points;
      SeriesItemIn(chunks[k], t, p);
      ItemInAll(chunks, k, Item(t.key, t.duration, p));
      assert Item(t.key, t.duration, p) in multiset(AllItems(chunks));
      assert Item(t.key, t.duration, p) in multiset(Items(series));
      ItemDeclares(series, Item(t.key, t.duration, p), key, duration);
    }
  }

  /**
   * End to end: the built series are chunked, points out of range are held back, and only a prefix of what
   * is sent is answered. A sample whose bucket waits in a chunk that was not answered is looked at again by
   * the next pass.
   */
  lemma {:induction false} WaitingSampleIsSentAgain(
    w: Sizes, series: seq<Series>, maxPoints: Int64, maxBytes: Int64, started: int, now: int,
    st: seq<SeriesState>, responses: seq<seq<SeriesAnswer>>, judge: bool, key: Key, backfill: bool,
    collected: int, nextCollected: int, observedAt: int, j: nat)
    requires var duration := Declared(collected, st, key);
      var sent := Sendable(Grouped(Greedy(w, Flatten(series), maxPoints, maxBytes)), started);
      && OneDuration(Items(series)) && AllDeclare(series, key, duration)
      && Relevant(st, key, backfill, duration, observedAt)
      && |responses| <= j < |sent| && HasPointAt(sent[j], Floor(observedAt, BucketSeconds(duration)))
      && NamesNoNewer(st, sent, responses, key)
      && GridKept(st, sent, responses, judge, now, key, duration, nextCollected)
    ensures var sent := Sendable(Grouped(Greedy(w, Flatten(series), maxPoints, maxBytes)), started);
      var after := TakeAll(Pass(st, {}), sent, responses, judge, now).st;
      Relevant(after, key, backfill, Declared(nextCollected, after, key), observedAt)
  {
    var duration := Declared(collected, st, key);
    var chunks := Grouped(Greedy(w, Flatten(series), maxPoints, maxBytes));
    var sent := Sendable(chunks, started);
    ChunksInOrder(w, series, maxPoints, maxBytes);
    WaitingIsNotBehind(chunks, started, |responses|, key, j, Floor(observedAt, BucketSeconds(duration)));
    forall i | 0 <= i < |sent| && i < |responses|
      ensures AllDeclare(sent[i], key, duration)
    {
      SentDeclares(w, series, maxPoints, maxBytes, started, key, duration, i);
    }
    UnansweredSampleIsSentAgain(
      st, sent, responses, judge, now, key, backfill, collected, nextCollected, observedAt);
  }
}
