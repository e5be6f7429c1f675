/**
 * The quota-history upload body: its points, how points are grouped into series, and how many
 * bytes a body takes.
 */
module HistoryWire {
  import opened Sorting

  datatype Key = Key(provider: string, fingerprint: string, windowID: string)

  datatype Point = Point(resetsAt: int, bucketStart: int, used: real)

  datatype Series = Series(key: Key, duration: int, points: seq<Point>)

  datatype Item = Item(key: Key, duration: int, point: Point)

  /** Bytes of an empty request, of a series with no points, and of one point. */
  datatype Sizes = Sizes(shell: nat, header: (Key, int) -> nat, point: Point -> nat)

  // ----- flattening and grouping

  function SeriesItems(s: Series): seq<Item> {
    seq(|s.points|, i requires 0 <= i < |s.points| => Item(s.key, s.duration, s.points[i]))
  }

  function Items(series: seq<Series>): seq<Item> {
    if series == [] then [] else Items(series[..|series| - 1]) + SeriesItems(series[|series| - 1])
  }

  /** Oldest bucket first, then reset, provider, fingerprint and window. */
  predicate ItemLeq(a: Item, b: Item) {
    if a.point.bucketStart != b.point.bucketStart then a.point.bucketStart < b.point.bucketStart
    else if a.point.resetsAt != b.point.resetsAt then a.point.resetsAt < b.point.resetsAt
    else if a.key.provider != b.key.provider then TextLeq(a.key.provider, b.key.provider)
    else if a.key.fingerprint != b.key.fingerprint then TextLeq(a.key.fingerprint, b.key.fingerprint)
    else TextLeq(a.key.windowID, b.key.windowID)
  }

  function Flatten(series: seq<Series>): seq<Item> {
    Sort(Items(series), ItemLeq)
  }

  /** Where the series with this key is, or the length when there is none. */
  function IndexOf(series: seq<Series>, key: Key): (i: nat)
    ensures i <= |series|
    ensures i < |series| ==> series[i].key == key
    ensures forall j :: 0 <= j < i ==> series[j].key != key
  {
    if series == [] then 0 else if series[0].key == key then 0 else 1 + IndexOf(series[1..], key)
  }

  function AddItem(series: seq<Series>, item: Item): seq<Series> {
    var i := IndexOf(series, item.key);
    if i == |series| then series + [Series(item.key, item.duration, [item.point])]
    else series[i := series[i].(points := series[i].points + [item.point])]
  }

  /** One series a key, in order of first appearance, each keeping its points in order. */
  function Group(items: seq<Item>): seq<Series> {
    if items == [] then [] else AddItem(Group(items[..|items| - 1]), items[|items| - 1])
  }

  predicate Seen(items: seq<Item>, key: Key) {
    items != [] && (items[|items| - 1].key == key || Seen(items[..|items| - 1], key))
  }

  ghost predicate OneDuration(items: seq<Item>) {
    forall x, y :: x in items && y in items && x.key == y.key ==> x.duration == y.duration
  }

  // ----- measuring

  function PointBytes(w: Sizes, points: seq<Point>): nat {
    if points == [] then 0 else PointBytes(w, points[..|points| - 1]) + w.point(points[|points| - 1])
  }

  function Commas(n: nat): nat { if n == 0 then 0 else n - 1 }

  function SeriesBytes(w: Sizes, s: Series): nat {
    w.header(s.key, s.duration) + PointBytes(w, s.points) + Commas(|s.points|)
  }

  function AllSeriesBytes(w: Sizes, series: seq<Series>): nat {
    if series == [] then 0
    else AllSeriesBytes(w, series[..|series| - 1]) + SeriesBytes(w, series[|series| - 1])
  }

  /** The whole body, as the encoder writes it. */
  function RequestBytes(w: Sizes, series: seq<Series>): nat {
    w.shell + AllSeriesBytes(w, series) + Commas(|series|)
  }

  /** What the body of these items measures. */
  function EncodedBytes(w: Sizes, items: seq<Item>): nat {
    RequestBytes(w, Group(items))
  }

  /** What one more item adds to a body that already has `count` items. */
  function Addition(w: Sizes, seen: bool, count: nat, item: Item): nat {
    if seen then 1 + w.point(item.point)
    else (if count > 0 then 1 else 0) + w.header(item.key, item.duration) + w.point(item.point)
  }

  // ----- the groups of a list of items

  lemma {:induction false} GroupSnoc(items: seq<Item>, x: Item)
    ensures Group(items + [x]) == AddItem(Group(items), x)
  {
    assert (items + [x])[..|items|] == items;
  }

  lemma {:induction false} SeenSnoc(items: seq<Item>, x: Item, key: Key)
    ensures Seen(items + [x], key) <==> Seen(items, key) || x.key == key
  {
    assert (items + [x])[..|items|] == items;
  }

  /** A group has no empty series, one series a key, and a key exactly when an item has it. */
  lemma {:induction false} GroupShape(items: seq<Item>, key: Key)
    ensures IndexOf(Group(items), key) < |Group(items)| <==> Seen(items, key)
    ensures forall i :: 0 <= i < |Group(items)| ==> Group(items)[i].points != []
    ensures items != [] <==> Group(items) != []
  {
    if items != [] {
      var front, x := items[..|items| - 1], items[|items| - 1];
      assert items == front + [x];
      GroupShape(front, key);
      GroupShape(front, x.key);
      SeenSnoc(front, x, key);
      var g := Group(front);
      var i := IndexOf(g, x.key);
      if i == |g| {
        IndexAppend(g, Series(x.key, x.duration, [x.point]), key);
      } else {
        IndexUpdate(g, i, g[i].(points := g[i].points + [x.point]), key);
      }
    }
  }

  lemma {:induction false} IndexAppend(g: seq<Series>, s: Series, key: Key)
    ensures IndexOf(g + [s], key)
         == if IndexOf(g, key) < |g| then IndexOf(g, key)
            else if s.key == key then |g| else |g| + 1
  {
    if g != [] {
      IndexAppend(g[1..], s, key);
      assert (g + [s])[1..] == g[1..] + [s];
    }
  }

  lemma {:induction false} IndexUpdate(g: seq<Series>, i: nat, s: Series, key: Key)
    requires i < |g| && s.key == g[i].key
    ensures IndexOf(g[i := s], key) == IndexOf(g, key)
  {
    if i > 0 {
      IndexUpdate(g[1..], i - 1, s, key);
      assert g[i := s][1..] == g[1..][i - 1 := s];
    } else {
      assert g[0 := s][1..] == g[1..];
    }
  }

  lemma {:induction false} BytesUpdate(w: Sizes, g: seq<Series>, i: nat, s: Series)
    requires i < |g|
    ensures AllSeriesBytes(w, g[i := s]) + SeriesBytes(w, g[i])
         == AllSeriesBytes(w, g) + SeriesBytes(w, s)
  {
    var last := |g| - 1;
    if i < last {
      BytesUpdate(w, g[..last], i, s);
      assert g[i := s][..last] == g[..last][i := s];
    } else {
      assert g[i := s][..last] == g[..last];
    }
  }

  /** The running addition is exactly what the measured body grows by. */
  lemma {:induction false} EncodedGrows(w: Sizes, items: seq<Item>, x: Item)
    ensures EncodedBytes(w, items + [x])
         == EncodedBytes(w, items) + Addition(w, Seen(items, x.key), |items|, x)
  {
    GroupSnoc(items, x);
    GroupShape(items, x.key);
    var g := Group(items);
    var i := IndexOf(g, x.key);
    if i == |g| {
      var s := Series(x.key, x.duration, [x.point]);
      assert (g + [s])[..|g|] == g;
      assert PointBytes(w, [x.point]) == w.point(x.point);
    } else {
      var s := g[i].(points := g[i].points + [x.point]);
      assert s.points[..|g[i].points|] == g[i].points;
      BytesUpdate(w, g, i, s);
    }
  }

  // ----- grouping keeps the items

  ghost function SeriesBag(s: Series): multiset<Item> {
    multiset(SeriesItems(s))
  }

  ghost function Bag(series: seq<Series>): multiset<Item> {
    if series == [] then multiset{} else Bag(series[..|series| - 1]) + SeriesBag(series[|series| - 1])
  }

  lemma {:induction false} BagOfItems(series: seq<Series>)
    ensures multiset(Items(series)) == Bag(series)
  {
    if series != [] {
      BagOfItems(series[..|series| - 1]);
    }
  }

  lemma {:induction false} Swap<T>(a: multiset<T>, b: multiset<T>, c: multiset<T>, d: multiset<T>, e: multiset<T>)
    requires a + b == c + d
    ensures (a + e) + b == (c + e) + d
  {
    calc {
      (a + e) + b;
      (a + b) + e;
      (c + d) + e;
      (c + e) + d;
    }
  }

  lemma {:induction false} Cancel<T>(a: multiset<T>, b: multiset<T>, c: multiset<T>)
    requires a + b == c + b
    ensures a == c
  {
    assert (a + b) - b == a && (c + b) - b == c;
  }

  lemma {:induction false} BagUpdate(g: seq<Series>, i: nat, s: Series)
    requires i < |g|
    ensures Bag(g[i := s]) + SeriesBag(g[i]) == Bag(g) + SeriesBag(s)
  {
    var last := |g| - 1;
    var front := g[..last];
    if i < last {
      BagUpdate(front, i, s);
      assert g[i := s][..last] == front[i := s];
      Swap(Bag(front[i := s]), SeriesBag(g[i]), Bag(front), SeriesBag(s), SeriesBag(g[last]));
    } else {
      assert g[i := s][..last] == front;
      Swap(Bag(front), multiset{}, Bag(front), multiset{}, SeriesBag(s));
    }
  }

  /** A series takes its duration from an item that has its key. */
  lemma {:induction false} GroupDurations(items: seq<Item>, i: nat)
    requires i < |Group(items)|
    ensures exists x :: x in items && x.key == Group(items)[i].key && x.duration == Group(items)[i].duration
  {
    var front, x := items[..|items| - 1], items[|items| - 1];
    assert items == front + [x];
    var g := Group(front);
    if i < |g| {
      GroupDurations(front, i);
      var y :| y in front && y.key == g[i].key && y.duration == g[i].duration;
      assert y in items;
    } else {
      assert x in items;
    }
  }

  /** The series carry back exactly the items that went in, when a key has one duration. */
  lemma {:induction false} GroupKeepsItems(items: seq<Item>)
    requires OneDuration(items)
    ensures multiset(Items(Group(items))) == multiset(items)
  {
    if items != [] {
      var front, x := items[..|items| - 1], items[|items| - 1];
      var g := Group(front);
      assert items == front + [x];
      GroupKeepsItems(front);
      if IndexOf(g, x.key) < |g| {
        GroupDurations(front, IndexOf(g, x.key));
      }
      AddItemBag(g, x);
      BagOfItems(g);
      BagOfItems(Group(items));
    }
  }

  lemma {:induction false} SeriesSnoc(s: Series, x: Item)
    requires x.key == s.key && x.duration == s.duration
    ensures SeriesBag(s.(points := s.points + [x.point])) == SeriesBag(s) + multiset{x}
  {
    assert SeriesItems(s.(points := s.points + [x.point])) == SeriesItems(s) + [x];
  }

  lemma {:induction false} AddItemBag(g: seq<Series>, x: Item)
    requires IndexOf(g, x.key) < |g| ==> g[IndexOf(g, x.key)].duration == x.duration
    ensures Bag(AddItem(g, x)) == Bag(g) + multiset{x}
  {
    var i := IndexOf(g, x.key);
    if i == |g| {
      var s := Series(x.key, x.duration, [x.point]);
      assert (g + [s])[..|g|] == g;
      assert SeriesItems(s) == [x];
    } else {
      var s := g[i].(points := g[i].points + [x.point]);
      SeriesSnoc(g[i], x);
      BagUpdate(g, i, s);
      Swap(Bag(g), SeriesBag(g[i]), Bag(g), SeriesBag(g[i]), multiset{x});
      Cancel(Bag(g[i := s]), SeriesBag(g[i]), Bag(g) + multiset{x});
    }
  }
}
