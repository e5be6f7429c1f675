/**
 * Splitting an upload into bodies that fit: the greedy pass with its running byte count, the
 * binary-search fallback behind it, and what the split promises.
 */
module HistoryChunker {
  import opened Prelude
  import opened Sorting
  import opened HistoryWire

  const INT_MAX := 0x7fff_ffff_ffff_ffff
  type Int64 = i: int | -INT_MAX - 1 <= i <= INT_MAX

  /** Addition that stops at the widest integer. */
  function Saturating(a: nat, b: nat): nat { Min(a + b, INT_MAX) }

  /** The sum neither overflows nor passes the limit. */
  predicate Fits(current: nat, extra: nat, limit: Int64) {
    current + extra <= INT_MAX && current + extra <= limit
  }

  /** What Relay takes: inside both caps, or a single point that nothing can make smaller. */
  predicate Acceptable(w: Sizes, items: seq<Item>, maxPoints: Int64, maxBytes: Int64) {
    |items| == 1 || (items != [] && |items| <= maxPoints && EncodedBytes(w, items) <= maxBytes)
  }

  predicate CanAdd(w: Sizes, open: seq<Item>, x: Item, maxPoints: Int64, maxBytes: Int64) {
    open == [] || (|open| < maxPoints && EncodedBytes(w, open + [x]) <= maxBytes)
  }

  /** The greedy split of what is left, given the chunk that is open. */
  function GreedyFrom(w: Sizes, open: seq<Item>, rest: seq<Item>, maxPoints: Int64, maxBytes: Int64):
    seq<seq<Item>>
    decreases |rest|
  {
    if rest == [] then (if open == [] then [] else [open])
    else if CanAdd(w, open, rest[0], maxPoints, maxBytes)
    then GreedyFrom(w, open + [rest[0]], rest[1..], maxPoints, maxBytes)
    else [open] + GreedyFrom(w, [rest[0]], rest[1..], maxPoints, maxBytes)
  }

  function Greedy(w: Sizes, flat: seq<Item>, maxPoints: Int64, maxBytes: Int64): seq<seq<Item>> {
    GreedyFrom(w, [], flat, maxPoints, maxBytes)
  }

  function Concat<T>(pieces: seq<seq<T>>): seq<T> {
    if pieces == [] then [] else pieces[0] + Concat(pieces[1..])
  }

  function Grouped(pieces: seq<seq<Item>>): (r: seq<seq<Series>>)
    ensures |r| == |pieces|
    ensures forall i :: 0 <= i < |r| ==> r[i] == Group(pieces[i])
  {
    seq(|pieces|, i requires 0 <= i < |pieces| => Group(pieces[i]))
  }

  // ----- measuring part of a body

  function Payload(w: Sizes, items: seq<Item>): nat {
    if items == [] then 0 else Payload(w, items[1..]) + w.point(items[0].point)
  }

  /** One header for each key, counted where the key appears last. */
  function Headers(w: Sizes, items: seq<Item>): nat {
    if items == [] then 0
    else
      (if Seen(items[1..], items[0].key) then 0 else w.header(items[0].key, items[0].duration))
      + Headers(w, items[1..])
  }

  lemma {:induction false} PayloadSnoc(w: Sizes, items: seq<Item>, x: Item)
    ensures Payload(w, items + [x]) == Payload(w, items) + w.point(x.point)
  {
    if items == [] {
      assert ([] + [x])[1..] == [];
    } else {
      PayloadSnoc(w, items[1..], x);
      assert (items + [x])[1..] == items[1..] + [x];
    }
  }

  lemma {:induction false} SeenCons(items: seq<Item>, key: Key)
    requires items != []
    ensures Seen(items, key) <==> items[0].key == key || Seen(items[1..], key)
  {
    if |items| > 1 {
      SeenCons(items[..|items| - 1], key);
      assert items[..|items| - 1][1..] == items[1..][..|items| - 2];
    }
  }

  lemma {:induction false} HeadersSnoc(w: Sizes, items: seq<Item>, x: Item)
    requires OneDuration(items + [x])
    ensures Headers(w, items + [x])
         == Headers(w, items) + if Seen(items, x.key) then 0 else w.header(x.key, x.duration)
  {
    if items == [] {
      assert ([] + [x])[1..] == [];
    } else {
      var y, m := items[0], items[1..];
      assert items + [x] == [y] + (m + [x]);
      assert y in items + [x] && x in items + [x];
      assert forall z :: z in m + [x] ==> z in items + [x];
      HeadersSnoc(w, m, x);
      SeenSnoc(m, x, y.key);
      SeenCons(items, x.key);
    }
  }

  /** A body's size in closed form. */
  lemma {:induction false} EncodedSum(w: Sizes, items: seq<Item>)
    requires OneDuration(items)
    ensures EncodedBytes(w, items) == w.shell + Payload(w, items) + Headers(w, items) + Commas(|items|)
  {
    if items != [] {
      var front, x := items[..|items| - 1], items[|items| - 1];
      assert items == front + [x];
      EncodedSum(w, front);
      EncodedGrows(w, front, x);
      PayloadSnoc(w, front, x);
      HeadersSnoc(w, front, x);
    }
  }

  lemma {:induction false} PartsGrow(w: Sizes, a: seq<Item>, b: seq<Item>)
    ensures Payload(w, b) <= Payload(w, a + b)
    ensures Headers(w, b) <= Headers(w, a + b)
  {
    if a == [] {
      assert a + b == b;
    } else {
      PartsGrow(w, a[1..], b);
      assert (a + b)[1..] == a[1..] + b;
    }
  }

  /** Dropping leading items never makes a body longer. */
  lemma {:induction false} EncodedSuffix(w: Sizes, a: seq<Item>, b: seq<Item>)
    requires OneDuration(a + b)
    ensures EncodedBytes(w, b) <= EncodedBytes(w, a + b)
  {
    assert forall x :: x in b ==> x in a + b;
    EncodedSum(w, b);
    EncodedSum(w, a + b);
    PartsGrow(w, a, b);
  }

  /** Dropping trailing items never makes a body longer. */
  lemma {:induction false} EncodedPrefix(w: Sizes, a: seq<Item>, b: seq<Item>)
    ensures EncodedBytes(w, a) <= EncodedBytes(w, a + b)
  {
    if b == [] {
      assert a + b == a;
    } else {
      var front, x := b[..|b| - 1], b[|b| - 1];
      assert a + b == (a + front) + [x];
      EncodedPrefix(w, a, front);
      EncodedGrows(w, a + front, x);
    }
  }

  // ----- the code

  method GroupItems(items: seq<Item>) returns (series: seq<Series>)
    ensures series == Group(items)
  {
    series := [];
    for n := 0 to |items|
      invariant series == Group(items[..n])
    {
      var item := items[n];
      assert items[..n + 1][..n] == items[..n];
      var i := IndexOf(series, item.key);
      if i == |series| {
        series := series + [Series(item.key, item.duration, [item.point])];
      } else {
        series := series[i := series[i].(points := series[i].points + [item.point])];
      }
    }
    assert items[..|items|] == items;
  }

  /** The longest prefix shorter than `limit` that fits, or one item when none does. */
  method LongestFitting(w: Sizes, items: seq<Item>, limit: int, maxBytes: Int64) returns (best: nat)
    requires |items| > 1 && limit <= |items|
    ensures best == 1 || (1 < best < limit && EncodedBytes(w, items[..best]) <= maxBytes)
    ensures forall k :: best < k < limit ==> EncodedBytes(w, items[..k]) > maxBytes
  {
    var low, high := 1, limit - 1;
    best := 1;
    while low <= high
      invariant 1 <= low && high < limit
      invariant best == if low == 1 then 1 else low - 1
      invariant low == 1 || (low - 1 < limit && EncodedBytes(w, items[..low - 1]) <= maxBytes)
      invariant forall k :: 0 < k && high < k < limit ==> EncodedBytes(w, items[..k]) > maxBytes
      decreases high - low
    {
      var mid := low + (high - low) / 2;
      if EncodedBytes(w, items[..mid]) <= maxBytes {
        best := mid;
        low := mid + 1;
      } else {
        LongerIsLarger(w, items, mid, limit, maxBytes);
        high := mid - 1;
      }
    }
  }

  lemma {:induction false} LongerIsLarger(w: Sizes, items: seq<Item>, mid: nat, limit: int, maxBytes: Int64)
    requires mid < limit <= |items| && EncodedBytes(w, items[..mid]) > maxBytes
    ensures forall k :: mid <= k < limit ==> EncodedBytes(w, items[..k]) > maxBytes
  {
    forall k | mid <= k < limit
      ensures EncodedBytes(w, items[..k]) > maxBytes
    {
      assert items[..k] == items[..mid] + items[mid..k];
      EncodedPrefix(w, items[..mid], items[mid..k]);
    }
  }

  /**
   * The fallback for a run of items whose body measured too large. What fits already comes back
   * whole; otherwise the head is the longest prefix that fits short of the point cap.
   */
  method SplitToFit(w: Sizes, items: seq<Item>, maxPoints: Int64, maxBytes: Int64)
    returns (pieces: seq<seq<Item>>)
    ensures Concat(pieces) == items
    ensures forall p :: p in pieces ==> Acceptable(w, p, maxPoints, maxBytes)
    ensures Acceptable(w, items, maxPoints, maxBytes) ==> pieces == [items]
    ensures items != [] && !Acceptable(w, items, maxPoints, maxBytes) ==>
      pieces != [] && forall k :: |pieces[0]| < k < Min(|items|, maxPoints) ==>
        EncodedBytes(w, items[..k]) > maxBytes
    decreases |items|
  {
    if items == [] { return []; }
    assert Concat([items]) == items;
    if |items| <= maxPoints && EncodedBytes(w, items) <= maxBytes { return [items]; }
    if |items| <= 1 { return [items]; }
    var best := LongestFitting(w, items, Min(|items|, maxPoints), maxBytes);
    var head, tail := items[..best], items[best..];
    assert items == head + tail;
    assert Acceptable(w, head, maxPoints, maxBytes);
    var rest := SplitToFit(w, tail, maxPoints, maxBytes);
    ConcatCons(head, rest);
    pieces := [head] + rest;
  }

  /** How many of the items each key has. */
  function Counts(items: seq<Item>): map<Key, nat> {
    if items == [] then map[]
    else
      var before := Counts(items[..|items| - 1]);
      before[items[|items| - 1].key := Count(before, items[|items| - 1].key) + 1]
  }

  function Count(counts: map<Key, nat>, key: Key): nat {
    if key in counts then counts[key] else 0
  }

  lemma {:induction false} CountSeen(items: seq<Item>, key: Key)
    ensures Count(Counts(items), key) > 0 <==> Seen(items, key)
  {
    if items != [] {
      CountSeen(items[..|items| - 1], key);
    }
  }

  /** The running count, the series count and the per-series counts describe the open chunk. */
  ghost predicate Tracks(
    w: Sizes, open: seq<Item>, bytes: nat, seriesCount: nat, pointsInSeries: map<Key, nat>)
  {
    && bytes == Min(EncodedBytes(w, open), INT_MAX)
    && (seriesCount > 0 <==> open != [])
    && pointsInSeries == Counts(open)
  }

  lemma {:induction false} TracksGrow(
    w: Sizes, open: seq<Item>, item: Item, bytes: nat, seriesCount: nat, pointsInSeries: map<Key, nat>,
    seen: nat)
    requires Tracks(w, open, bytes, seriesCount, pointsInSeries)
    requires seen == Count(pointsInSeries, item.key)
    ensures Tracks(
      w, open + [item],
      Saturating(bytes, Addition(w, seen > 0, seriesCount, item)),
      if seen == 0 then seriesCount + 1 else seriesCount,
      pointsInSeries[item.key := seen + 1])
  {
    CountSeen(open, item.key);
    EncodedGrows(w, open, item);
    SaturatingGrows(
      EncodedBytes(w, open), EncodedBytes(w, open + [item]), Addition(w, seen > 0, |open|, item), bytes);
    assert (open + [item])[..|open|] == open;
    if seen > 0 {
      assert open != [];
    }
  }

  lemma {:induction false} SaturatingGrows(size: nat, grown: nat, extra: nat, bytes: nat)
    requires grown == size + extra && bytes == Min(size, INT_MAX)
    ensures Saturating(bytes, extra) == Min(grown, INT_MAX)
  {
  }

  lemma {:induction false} OneItem(w: Sizes, item: Item)
    ensures EncodedBytes(w, [item]) == w.shell + w.header(item.key, item.duration) + w.point(item.point)
  {
    var none: seq<Item> := [];
    assert none + [item] == [item];
    EncodedGrows(w, none, item);
    assert EncodedBytes(w, none) == w.shell;
  }

  lemma {:induction false} TracksStart(w: Sizes, item: Item, bytes: nat)
    requires bytes == Saturating(
      Saturating(Min(w.shell, INT_MAX), w.header(item.key, item.duration)), w.point(item.point))
    ensures Tracks(w, [item], bytes, 1, map[item.key := 1])
  {
    OneItem(w, item);
    SaturatingSum(w.shell, w.header(item.key, item.duration), w.point(item.point));
    assert [item][..0] == [];
    assert Counts([item]) == map[item.key := 1];
  }

  lemma {:induction false} SaturatingSum(a: nat, b: nat, c: nat)
    ensures Saturating(Saturating(Min(a, INT_MAX), b), c) == Min(a + b + c, INT_MAX)
  {
  }

  /** The overflow test on the running count is the test on the measured body. */
  lemma {:induction false} OverflowIsMeasured(
    w: Sizes, open: seq<Item>, item: Item, bytes: nat, seriesCount: nat, pointsInSeries: map<Key, nat>,
    seen: nat, maxPoints: Int64, maxBytes: Int64)
    requires Tracks(w, open, bytes, seriesCount, pointsInSeries)
    requires seen == Count(pointsInSeries, item.key)
    ensures var addition := Addition(w, seen > 0, seriesCount, item);
      |open| > 0 && (|open| >= maxPoints || !Fits(bytes, addition, maxBytes))
      <==> !CanAdd(w, open, item, maxPoints, maxBytes)
  {
    CountSeen(open, item.key);
    EncodedGrows(w, open, item);
  }

  lemma {:induction false} GreedyStep(
    w: Sizes, ranges: seq<seq<Item>>, flat: seq<Item>, start: nat, index: nat,
    maxPoints: Int64, maxBytes: Int64)
    requires start <= index < |flat|
    ensures var open, item := flat[start..index], flat[index];
      ranges + GreedyFrom(w, open, flat[index..], maxPoints, maxBytes)
      == if CanAdd(w, open, item, maxPoints, maxBytes)
         then ranges + GreedyFrom(w, flat[start..index + 1], flat[index + 1..], maxPoints, maxBytes)
         else (ranges + [open]) + GreedyFrom(w, flat[index..index + 1], flat[index + 1..], maxPoints, maxBytes)
  {
    var open, item := flat[start..index], flat[index];
    assert flat[start..index + 1] == open + [item];
    assert flat[index..index + 1] == [item];
    assert flat[index..][1..] == flat[index + 1..];
  }

  ghost predicate HeadersKnown(w: Sizes, flat: seq<Item>, headerBytes: map<Key, nat>) {
    forall x :: x in flat && x.key in headerBytes ==> headerBytes[x.key] == w.header(x.key, x.duration)
  }

  /** What the loop knows before item `index`, with the open chunk starting at `start`. */
  ghost predicate GreedyState(
    w: Sizes, flat: seq<Item>, maxPoints: Int64, maxBytes: Int64, ranges: seq<seq<Item>>,
    start: nat, index: nat, bytes: nat, seriesCount: nat, pointsInSeries: map<Key, nat>)
  {
    && start <= index <= |flat| && (index > 0 ==> start < index)
    && Tracks(w, flat[start..index], bytes, seriesCount, pointsInSeries)
    && Greedy(w, flat, maxPoints, maxBytes)
       == ranges + GreedyFrom(w, flat[start..index], flat[index..], maxPoints, maxBytes)
  }

  predicate Overflows(
    count: nat, bytes: nat, addition: nat, maxPoints: Int64, maxBytes: Int64)
  {
    count > 0 && (count >= maxPoints || !Fits(bytes, addition, maxBytes))
  }

  lemma {:induction false} ItemAdded(
    w: Sizes, flat: seq<Item>, maxPoints: Int64, maxBytes: Int64, ranges: seq<seq<Item>>,
    start: nat, index: nat, bytes: nat, seriesCount: nat, pointsInSeries: map<Key, nat>,
    seen: nat, addition: nat, bytes': nat, seriesCount': nat, pointsInSeries': map<Key, nat>)
    requires index < |flat|
    requires GreedyState(w, flat, maxPoints, maxBytes, ranges, start, index, bytes, seriesCount, pointsInSeries)
    requires seen == Count(pointsInSeries, flat[index].key)
    requires addition == Addition(w, seen > 0, seriesCount, flat[index])
    requires !Overflows(index - start, bytes, addition, maxPoints, maxBytes)
    requires bytes' == Saturating(bytes, addition)
    requires seriesCount' == if seen == 0 then seriesCount + 1 else seriesCount
    requires pointsInSeries' == pointsInSeries[flat[index].key := seen + 1]
    ensures GreedyState(
      w, flat, maxPoints, maxBytes, ranges, start, index + 1, bytes', seriesCount', pointsInSeries')
  {
    var open, item := flat[start..index], flat[index];
    assert flat[start..index + 1] == open + [item];
    GreedyStep(w, ranges, flat, start, index, maxPoints, maxBytes);
    OverflowIsMeasured(w, open, item, bytes, seriesCount, pointsInSeries, seen, maxPoints, maxBytes);
    TracksGrow(w, open, item, bytes, seriesCount, pointsInSeries, seen);
  }

  lemma {:induction false} ChunkClosed(
    w: Sizes, flat: seq<Item>, maxPoints: Int64, maxBytes: Int64, ranges: seq<seq<Item>>,
    start: nat, index: nat, bytes: nat, seriesCount: nat, pointsInSeries: map<Key, nat>,
    seen: nat, addition: nat, ranges': seq<seq<Item>>, bytes': nat, pointsInSeries': map<Key, nat>)
    requires index < |flat|
    requires GreedyState(w, flat, maxPoints, maxBytes, ranges, start, index, bytes, seriesCount, pointsInSeries)
    requires seen == Count(pointsInSeries, flat[index].key)
    requires addition == Addition(w, seen > 0, seriesCount, flat[index])
    requires Overflows(index - start, bytes, addition, maxPoints, maxBytes)
    requires ranges' == ranges + [flat[start..index]]
    requires bytes' == Saturating(
      Saturating(Min(w.shell, INT_MAX), w.header(flat[index].key, flat[index].duration)),
      w.point(flat[index].point))
    requires pointsInSeries' == map[flat[index].key := 1]
    ensures GreedyState(
      w, flat, maxPoints, maxBytes, ranges', index, index + 1, bytes', 1, pointsInSeries')
  {
    var open, item := flat[start..index], flat[index];
    assert flat[index..index + 1] == [item];
    GreedyStep(w, ranges, flat, start, index, maxPoints, maxBytes);
    OverflowIsMeasured(w, open, item, bytes, seriesCount, pointsInSeries, seen, maxPoints, maxBytes);
    TracksStart(w, item, bytes');
  }

  lemma {:induction false} GreedyStarts(w: Sizes, flat: seq<Item>, maxPoints: Int64, maxBytes: Int64)
    ensures GreedyState(w, flat, maxPoints, maxBytes, [], 0, 0, Min(w.shell, INT_MAX), 0, map[])
  {
    assert flat[0..0] == [] && flat[0..] == flat;
    assert EncodedBytes(w, []) == w.shell;
  }

  lemma {:induction false} GreedyEnds(
    w: Sizes, flat: seq<Item>, maxPoints: Int64, maxBytes: Int64, ranges: seq<seq<Item>>,
    start: nat, bytes: nat, seriesCount: nat, pointsInSeries: map<Key, nat>)
    requires flat != []
    requires GreedyState(
      w, flat, maxPoints, maxBytes, ranges, start, |flat|, bytes, seriesCount, pointsInSeries)
    ensures start <= |flat|
    ensures ranges + [flat[start..|flat|]] == Greedy(w, flat, maxPoints, maxBytes)
  {
  }

  /** A series header is measured once and remembered by key. */
  method Header(w: Sizes, ghost flat: seq<Item>, item: Item, known: map<Key, nat>)
    returns (bytes: nat, headerBytes: map<Key, nat>)
    requires OneDuration(flat) && item in flat && HeadersKnown(w, flat, known)
    ensures bytes == w.header(item.key, item.duration)
    ensures HeadersKnown(w, flat, headerBytes)
  {
    if item.key in known { return known[item.key], known; }
    bytes := w.header(item.key, item.duration);
    headerBytes := known[item.key := bytes];
  }

  /** The greedy pass: where each chunk ends, by the running count. */
  method GreedyRanges(w: Sizes, flat: seq<Item>, maxPoints: Int64, maxBytes: Int64)
    returns (ranges: seq<seq<Item>>)
    requires OneDuration(flat)
    ensures ranges == Greedy(w, flat, maxPoints, maxBytes)
  {
    if flat == [] { return []; }
    var headerBytes: map<Key, nat> := map[];
    ranges := [];
    var start: nat, seriesCount: nat := 0, 0;
    var bytes: nat := Min(w.shell, INT_MAX);
    var pointsInSeries: map<Key, nat> := map[];
    GreedyStarts(w, flat, maxPoints, maxBytes);
    for index := 0 to |flat|
      invariant HeadersKnown(w, flat, headerBytes)
      invariant GreedyState(
        w, flat, maxPoints, maxBytes, ranges, start, index, bytes, seriesCount, pointsInSeries)
    {
      var item := flat[index];
      var key := item.key;
      var seen := Count(pointsInSeries, key);
      var header;
      header, headerBytes := Header(w, flat, item, headerBytes);
      var addition :=
        if seen == 0 then (if seriesCount > 0 then 1 else 0) + header + w.point(item.point)
        else 1 + w.point(item.point);
      ghost var ranges0, start0, bytes0, count0, points0 :=
        ranges, start, bytes, seriesCount, pointsInSeries;
      if Overflows(index - start, bytes, addition, maxPoints, maxBytes) {
        ranges := ranges + [flat[start..index]];
        start := index;
        pointsInSeries := map[key := 1];
        seriesCount := 1;
        bytes := Saturating(Saturating(Min(w.shell, INT_MAX), header), w.point(item.point));
        ChunkClosed(
          w, flat, maxPoints, maxBytes, ranges0, start0, index, bytes0, count0, points0,
          seen, addition, ranges, bytes, pointsInSeries);
      } else {
        if seen == 0 { seriesCount := seriesCount + 1; }
        pointsInSeries := pointsInSeries[key := seen + 1];
        bytes := Saturating(bytes, addition);
        ItemAdded(
          w, flat, maxPoints, maxBytes, ranges0, start0, index, bytes0, count0, points0,
          seen, addition, bytes, seriesCount, pointsInSeries);
      }
      assert GreedyState(
        w, flat, maxPoints, maxBytes, ranges, start, index + 1, bytes, seriesCount, pointsInSeries);
    }
    GreedyEnds(w, flat, maxPoints, maxBytes, ranges, start, bytes, seriesCount, pointsInSeries);
    ranges := ranges + [flat[start..|flat|]];
  }

  /** The chunks are the series of the greedy split: the fallback never splits one again. */
  method Chunks(w: Sizes, series: seq<Series>, maxPoints: Int64, maxBytes: Int64)
    returns (chunks: seq<seq<Series>>)
    requires OneDuration(Items(series))
    ensures chunks == Grouped(Greedy(w, Flatten(series), maxPoints, maxBytes))
  {
    var flat := Flatten(series);
    SortMembers(Items(series), ItemLeq);
    var ranges := GreedyRanges(w, flat, maxPoints, maxBytes);
    GreedyAcceptable(w, [], flat, maxPoints, maxBytes);
    chunks := [];
    for n := 0 to |ranges|
      invariant chunks == Grouped(ranges[..n])
    {
      assert ranges[n] in ranges;
      var pieces := SplitToFit(w, ranges[n], maxPoints, maxBytes);
      chunks := AppendGroups(chunks, ranges[..n], pieces);
      assert ranges[..n] + pieces == ranges[..n + 1];
    }
    assert ranges[..|ranges|] == ranges;
  }

  method AppendGroups(before: seq<seq<Series>>, ghost done: seq<seq<Item>>, pieces: seq<seq<Item>>)
    returns (chunks: seq<seq<Series>>)
    requires before == Grouped(done)
    ensures chunks == Grouped(done + pieces)
  {
    chunks := before;
    assert done + pieces[..0] == done;
    for k := 0 to |pieces|
      invariant chunks == Grouped(done + pieces[..k])
    {
      var grouped := GroupItems(pieces[k]);
      chunks := chunks + [grouped];
      assert done + pieces[..k + 1] == (done + pieces[..k]) + [pieces[k]];
    }
    assert pieces[..|pieces|] == pieces;
  }

  // ----- what the split promises

  lemma {:induction false} GreedyConserves(
    w: Sizes, open: seq<Item>, rest: seq<Item>, maxPoints: Int64, maxBytes: Int64)
    ensures Concat(GreedyFrom(w, open, rest, maxPoints, maxBytes)) == open + rest
    decreases |rest|
  {
    if rest == [] {
      assert Concat([open]) == open;
    } else {
      var x, tail := rest[0], rest[1..];
      assert open + rest == (open + [x]) + tail;
      if CanAdd(w, open, x, maxPoints, maxBytes) {
        GreedyConserves(w, open + [x], tail, maxPoints, maxBytes);
      } else {
        var later := GreedyFrom(w, [x], tail, maxPoints, maxBytes);
        GreedyConserves(w, [x], tail, maxPoints, maxBytes);
        ConcatCons(open, later);
        assert Concat(later) == rest;
      }
    }
  }

  lemma {:induction false} ConcatCons<T>(p: seq<T>, pieces: seq<seq<T>>)
    ensures Concat([p] + pieces) == p + Concat(pieces)
  {
    assert ([p] + pieces)[1..] == pieces;
  }

  lemma {:induction false} GreedyAcceptable(
    w: Sizes, open: seq<Item>, rest: seq<Item>, maxPoints: Int64, maxBytes: Int64)
    requires open == [] || Acceptable(w, open, maxPoints, maxBytes)
    ensures forall p :: p in GreedyFrom(w, open, rest, maxPoints, maxBytes) ==>
      Acceptable(w, p, maxPoints, maxBytes)
    decreases |rest|
  {
    if rest != [] {
      if CanAdd(w, open, rest[0], maxPoints, maxBytes) {
        GreedyAcceptable(w, open + [rest[0]], rest[1..], maxPoints, maxBytes);
      } else {
        GreedyAcceptable(w, [rest[0]], rest[1..], maxPoints, maxBytes);
      }
    }
  }

  /** A stretch of two or more items inside an acceptable run is acceptable. */
  lemma {:induction false} InsideAcceptable(
    w: Sizes, a: seq<Item>, b: seq<Item>, c: seq<Item>, maxPoints: Int64, maxBytes: Int64)
    requires OneDuration(a + b + c) && |b| > 1
    requires Acceptable(w, a + b + c, maxPoints, maxBytes)
    ensures |b| <= maxPoints && EncodedBytes(w, b) <= maxBytes
  {
    assert a + b + c == a + (b + c);
    assert forall x :: x in b + c ==> x in a + b + c;
    EncodedSuffix(w, a, b + c);
    EncodedPrefix(w, b, c);
  }

  /**
   * However else the items are cut in order into acceptable runs, the greedy split has no more:
   * `other` may even start earlier, by `skip`.
   */
  lemma {:induction false} GreedyAhead(
    w: Sizes, skip: seq<Item>, open: seq<Item>, rest: seq<Item>, other: seq<seq<Item>>,
    maxPoints: Int64, maxBytes: Int64)
    requires OneDuration(skip + open + rest)
    requires Concat(other) == skip + open + rest
    requires forall p :: p in other ==> Acceptable(w, p, maxPoints, maxBytes)
    ensures |GreedyFrom(w, open, rest, maxPoints, maxBytes)| <= |other|
    decreases |rest|
  {
    if rest == [] {
      if open != [] { assert other != []; }
    } else {
      var x := rest[0];
      assert rest == [x] + rest[1..];
      if CanAdd(w, open, x, maxPoints, maxBytes) {
        assert skip + (open + [x]) + rest[1..] == skip + open + rest;
        GreedyAhead(w, skip, open + [x], rest[1..], other, maxPoints, maxBytes);
      } else {
        assert other != [];
        var p, before := other[0], skip + open;
        FirstRunEnds(w, skip, open, x, rest[1..], other, maxPoints, maxBytes);
        var skip' := before[|p|..];
        assert Concat(other[1..]) == skip' + [x] + rest[1..] by {
          assert p + Concat(other[1..]) == before + rest;
          assert Concat(other[1..]) == (before + rest)[|p|..];
        }
        assert forall y :: y in skip' + [x] + rest[1..] ==> y in skip + open + rest;
        GreedyAhead(w, skip', [x], rest[1..], other[1..], maxPoints, maxBytes);
      }
    }
  }

  /** A run that starts no later than the open chunk cannot reach past where the chunk closed. */
  lemma {:induction false} FirstRunEnds(
    w: Sizes, skip: seq<Item>, open: seq<Item>, x: Item, tail: seq<Item>, other: seq<seq<Item>>,
    maxPoints: Int64, maxBytes: Int64)
    requires other != [] && Concat(other) == skip + open + ([x] + tail)
    requires OneDuration(Concat(other))
    requires Acceptable(w, other[0], maxPoints, maxBytes)
    requires !CanAdd(w, open, x, maxPoints, maxBytes)
    ensures |other[0]| <= |skip + open|
  {
    var p, all := other[0], Concat(other);
    if |p| > |skip + open| {
      var n := |skip + open| + 1;
      assert all == p + Concat(other[1..]);
      assert p[..n] == all[..n] == skip + (open + [x]);
      assert p == skip + (open + [x]) + p[n..];
      assert forall y :: y in p ==> y in all;
      InsideAcceptable(w, skip, open + [x], p[n..], maxPoints, maxBytes);
      assert false;
    }
  }

  /** No order-preserving split into bodies Relay takes uses fewer bodies. */
  lemma {:induction false} GreedyIsFewest(
    w: Sizes, flat: seq<Item>, other: seq<seq<Item>>, maxPoints: Int64, maxBytes: Int64)
    requires OneDuration(flat) && Concat(other) == flat
    requires forall p :: p in other ==> Acceptable(w, p, maxPoints, maxBytes)
    ensures |Greedy(w, flat, maxPoints, maxBytes)| <= |other|
  {
    assert [] + [] + flat == flat;
    GreedyAhead(w, [], [], flat, other, maxPoints, maxBytes);
  }

  lemma {:induction false} ConcatMember<T>(pieces: seq<seq<T>>, i: nat, x: T)
    requires i < |pieces| && x in pieces[i]
    ensures x in Concat(pieces)
  {
    if i > 0 {
      ConcatMember(pieces[1..], i - 1, x);
    }
  }

  /** In order over the whole is in order across the pieces. */
  lemma {:induction false} PiecesInOrder(
    pieces: seq<seq<Item>>, i: nat, j: nat, x: Item, y: Item)
    requires Sorted(Concat(pieces), ItemLeq)
    requires i < j < |pieces| && x in pieces[i] && y in pieces[j]
    ensures ItemLeq(x, y)
  {
    var head, tail := pieces[0], Concat(pieces[1..]);
    var all := Concat(pieces);
    assert forall k :: 0 <= k < |tail| ==> all[|head| + k] == tail[k];
    if i > 0 {
      PiecesInOrder(pieces[1..], i - 1, j - 1, x, y);
    } else {
      ConcatMember(pieces[1..], j - 1, y);
      var a :| 0 <= a < |head| && head[a] == x;
      var b :| 0 <= b < |tail| && tail[b] == y;
      assert all[a] == x && all[|head| + b] == y;
    }
  }

  lemma {:induction false} ItemOrder()
    ensures Ordering(ItemLeq)
  {
    TextOrder();
  }

  function AllItems(chunks: seq<seq<Series>>): seq<Item> {
    if chunks == [] then [] else Items(chunks[0]) + AllItems(chunks[1..])
  }

  lemma {:induction false} GroupedKeepsItems(pieces: seq<seq<Item>>)
    requires OneDuration(Concat(pieces))
    ensures multiset(AllItems(Grouped(pieces))) == multiset(Concat(pieces))
  {
    if pieces != [] {
      var p, tail := pieces[0], pieces[1..];
      assert forall x :: x in p ==> x in Concat(pieces);
      assert forall x :: x in Concat(tail) ==> x in Concat(pieces);
      GroupedKeepsItems(tail);
      GroupKeepsItems(p);
      assert Grouped(pieces)[1..] == Grouped(tail);
    }
  }

  /**
   * The chunks carry exactly the points that came in; a point in an earlier chunk is in no later a
   * bucket than one in a later chunk; and every chunk is inside both caps or holds one point.
   */
  lemma {:induction false} ChunkingConserves(
    w: Sizes, series: seq<Series>, maxPoints: Int64, maxBytes: Int64)
    requires OneDuration(Items(series))
    ensures var chunks := Grouped(Greedy(w, Flatten(series), maxPoints, maxBytes));
      && multiset(AllItems(chunks)) == multiset(Items(series))
      && (forall i, j, x, y ::
            0 <= i < j < |chunks| && x in Items(chunks[i]) && y in Items(chunks[j]) ==>
            x.point.bucketStart <= y.point.bucketStart)
      && (forall i :: 0 <= i < |chunks| ==>
            |Items(chunks[i])| == 1
            || (0 < |Items(chunks[i])| <= maxPoints && RequestBytes(w, chunks[i]) <= maxBytes))
  {
    var flat := Flatten(series);
    var pieces := Greedy(w, flat, maxPoints, maxBytes);
    var chunks := Grouped(pieces);
    SortPermutes(Items(series), ItemLeq);
    SortMembers(Items(series), ItemLeq);
    ItemOrder();
    SortSorts(Items(series), ItemLeq);
    GreedyConserves(w, [], flat, maxPoints, maxBytes);
    GreedyAcceptable(w, [], flat, maxPoints, maxBytes);
    GroupedKeepsItems(pieces);
    forall i | 0 <= i < |chunks|
      ensures multiset(Items(chunks[i])) == multiset(pieces[i])
      ensures |Items(chunks[i])| == |pieces[i]|
    {
      forall x | x in pieces[i]
        ensures x in flat
      {
        ConcatMember(pieces, i, x);
      }
      GroupKeepsItems(pieces[i]);
      assert |multiset(Items(chunks[i]))| == |multiset(pieces[i])|;
    }
    forall i, j, x, y |
      0 <= i < j < |chunks| && x in Items(chunks[i]) && y in Items(chunks[j])
      ensures x.point.bucketStart <= y.point.bucketStart
    {
      assert x in multiset(Items(chunks[i])) && y in multiset(Items(chunks[j]));
      PiecesInOrder(pieces, i, j, x, y);
    }
    forall i | 0 <= i < |chunks|
      ensures |Items(chunks[i])| == 1
        || (0 < |Items(chunks[i])| <= maxPoints && RequestBytes(w, chunks[i]) <= maxBytes)
    {
      assert pieces[i] in pieces;
    }
  }
}
