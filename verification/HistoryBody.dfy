/** The upload body as text, one character a byte of its encoding, and the order its points are sent in. */
module HistoryBody {
  import opened Sorting
  import opened HistoryWire
  import opened HistoryChunker

  /** The parts of a body's text: around all series, around one series' points, and a point. */
  datatype Texts = Texts(
    open: string, close: string, seriesOpen: (Key, int) -> string, seriesClose: string, point: Point -> string)

  function Separated(texts: seq<string>): string {
    if texts == [] then ""
    else if |texts| == 1 then texts[0]
    else Separated(texts[..|texts| - 1]) + "," + texts[|texts| - 1]
  }

  function PointTexts(t: Texts, points: seq<Point>): seq<string> {
    if points == [] then [] else PointTexts(t, points[..|points| - 1]) + [t.point(points[|points| - 1])]
  }

  function SeriesText(t: Texts, s: Series): string {
    t.seriesOpen(s.key, s.duration) + Separated(PointTexts(t, s.points)) + t.seriesClose
  }

  function SeriesTexts(t: Texts, series: seq<Series>): seq<string> {
    if series == [] then [] else SeriesTexts(t, series[..|series| - 1]) + [SeriesText(t, series[|series| - 1])]
  }

  function BodyText(t: Texts, series: seq<Series>): string {
    t.open + Separated(SeriesTexts(t, series)) + t.close
  }

  /** What the coordinator measures of it: an empty request, a series without points, and a point. */
  function Measured(t: Texts): Sizes {
    Sizes(
      |BodyText(t, [])|,
      (key: Key, duration: int) => |SeriesText(t, Series(key, duration, []))|,
      (p: Point) => |t.point(p)|)
  }

  lemma {:induction false} SeparatedSnoc(texts: seq<string>, last: string)
    ensures |Separated(texts + [last])| == |Separated(texts)| + |last| + if texts == [] then 0 else 1
  {
    assert (texts + [last])[..|texts|] == texts;
  }

  lemma {:induction false} PointsMeasured(t: Texts, points: seq<Point>)
    ensures |PointTexts(t, points)| == |points|
    ensures |Separated(PointTexts(t, points))| == PointBytes(Measured(t), points) + Commas(|points|)
  {
    if points != [] {
      var front := points[..|points| - 1];
      PointsMeasured(t, front);
      SeparatedSnoc(PointTexts(t, front), t.point(points[|points| - 1]));
    }
  }

  lemma {:induction false} OneSeriesMeasured(t: Texts, s: Series)
    ensures |SeriesText(t, s)| == SeriesBytes(Measured(t), s)
  {
    PointsMeasured(t, s.points);
    assert PointTexts(t, []) == [];
  }

  lemma {:induction false} SeriesMeasured(t: Texts, series: seq<Series>)
    ensures |SeriesTexts(t, series)| == |series|
    ensures |Separated(SeriesTexts(t, series))| == AllSeriesBytes(Measured(t), series) + Commas(|series|)
  {
    if series != [] {
      var front, last := series[..|series| - 1], series[|series| - 1];
      SeriesMeasured(t, front);
      OneSeriesMeasured(t, last);
      SeparatedSnoc(SeriesTexts(t, front), SeriesText(t, last));
    }
  }

  /** The sizes the chunker adds up are those of the whole text, commas included. */
  lemma {:induction false} BodyMeasured(t: Texts, series: seq<Series>)
    ensures |BodyText(t, series)| == RequestBytes(Measured(t), series)
  {
    SeriesMeasured(t, series);
    assert SeriesTexts(t, []) == [];
  }

  /** So a chunk of more than one point that is taken is a body inside both caps. */
  lemma {:induction false} AcceptableBody(t: Texts, items: seq<Item>, maxPoints: Int64, maxBytes: Int64)
    requires |items| > 1
    ensures Acceptable(Measured(t), items, maxPoints, maxBytes)
      <==> |items| <= maxPoints && |BodyText(t, Group(items))| <= maxBytes
  {
    BodyMeasured(t, Group(items));
  }

  /** By bucket, then reset, then provider, fingerprint and window in the order of code units. */
  ghost predicate NotAfter(a: Item, b: Item) {
    var p, q := a.point, b.point;
    || p.bucketStart < q.bucketStart
    || (p.bucketStart == q.bucketStart && p.resetsAt < q.resetsAt)
    || (p.bucketStart == q.bucketStart && p.resetsAt == q.resetsAt && KeyNotAfter(a.key, b.key))
  }

  ghost predicate KeyNotAfter(k: Key, l: Key) {
    || k == l
    || TextBefore(k.provider, l.provider)
    || (k.provider == l.provider && TextBefore(k.fingerprint, l.fingerprint))
    || (k.provider == l.provider && k.fingerprint == l.fingerprint && TextBefore(k.windowID, l.windowID))
  }

  lemma {:induction false} ItemLeqMeans(a: Item, b: Item)
    requires ItemLeq(a, b)
    ensures NotAfter(a, b)
  {
    if a.point.bucketStart == b.point.bucketStart && a.point.resetsAt == b.point.resetsAt {
      if a.key.provider != b.key.provider {
        TextLeqMeans(a.key.provider, b.key.provider);
      } else if a.key.fingerprint != b.key.fingerprint {
        TextLeqMeans(a.key.fingerprint, b.key.fingerprint);
      } else {
        TextLeqMeans(a.key.windowID, b.key.windowID);
      }
    }
  }

  /** The chunker walks the points in that order, whatever order the series were built in. */
  lemma {:induction false} PointsAscend(series: seq<Series>, i: nat, j: nat)
    requires i < j < |Flatten(series)|
    ensures NotAfter(Flatten(series)[i], Flatten(series)[j])
    ensures multiset(Flatten(series)) == multiset(Items(series))
  {
    ItemOrder();
    SortSorts(Items(series), ItemLeq);
    SortPermutes(Items(series), ItemLeq);
    ItemLeqMeans(Flatten(series)[i], Flatten(series)[j]);
  }
}
