/**
 * What an upload pass remembers: the newest bucket Relay confirmed for each series, the last
 * bucket uploaded for each reset, and what happens to both when answers stop part-way or say that
 * rows were lost. Instants are whole seconds.
 */
module HistoryWatermarks {
  import opened Prelude
  import opened HistoryWire

  // ----- the shared rules

  const SHORT_BUCKET := 900
  const LONG_BUCKET := 3_600
  const SHORT_WINDOW := 86_400
  const MIN_SPAN := 172_800
  const MAX_SPAN := 2_592_000
  const OLDEST_SLACK := 3_600
  const UPLOAD_BACKOFF := 60

  function SpanSeconds(duration: int): int {
    Min(MAX_SPAN, Max(MIN_SPAN, 4 * duration))
  }

  function BucketSeconds(duration: int): (size: nat)
    ensures size > 0
  {
    if duration <= SHORT_WINDOW then SHORT_BUCKET else LONG_BUCKET
  }

  /** `instant` rounded down to a multiple of `size`. */
  function Floor(instant: int, size: nat): int
    requires size > 0
  {
    instant / size * size
  }

  predicate OldestIsLive(bucketStart: int, duration: int, now: int) {
    bucketStart + SpanSeconds(duration) > now + OLDEST_SLACK
  }

  /** One series in Relay's answer. Each part is missing from a Relay that does not send it. */
  datatype SeriesAnswer = SeriesAnswer(
    key: Key, newest: Option<int>, oldest: Option<int>, duration: Option<int>)

  datatype SeriesState = SeriesState(
    key: Key, newest: Option<int>, lastUploaded: seq<Point>, oldest: Option<int>, adopted: Option<int>)

  function RowsLost(
    recordedOldest: Option<int>, watermark: Option<int>, chunkOldest: int,
    answer: Option<SeriesAnswer>, ownDuration: int, now: int): bool
  {
    if answer.None? then true
    else if answer.value.oldest.None? then false
    else
      var held := answer.value.duration;
      var duration := Min(ownDuration, if held.Some? then held.value else ownDuration);
      var evidence :=
        if recordedOldest.Some? && OldestIsLive(recordedOldest.value, duration, now) then recordedOldest
        else if watermark.Some? && OldestIsLive(watermark.value, duration, now)
          && chunkOldest > watermark.value then watermark
        else None;
      evidence.Some? && answer.value.oldest.value > evidence.value
  }

  function ReseedOldest(recordedOldest: Option<int>, chunkOldest: int, duration: int, now: int): int {
    if recordedOldest.Some? && OldestIsLive(recordedOldest.value, duration, now)
      && recordedOldest.value <= chunkOldest
    then recordedOldest.value else chunkOldest
  }

  function AdoptedDuration(current: Option<int>, answered: Option<int>, declared: int): Option<int> {
    if answered.None? then current
    else if answered.value < declared then answered
    else if answered.value > declared then None
    else current
  }

  // ----- looking series up

  function StateIndex(st: seq<SeriesState>, key: Key): (i: nat)
    ensures i <= |st|
    ensures i < |st| ==> st[i].key == key
    ensures forall j :: 0 <= j < i ==> st[j].key != key
  {
    if st == [] then 0 else if st[0].key == key then 0 else 1 + StateIndex(st[1..], key)
  }

  function Stored(st: seq<SeriesState>, key: Key): Option<SeriesState> {
    var i := StateIndex(st, key);
    if i < |st| then Some(st[i]) else None
  }

  /** The first answer that names the series. */
  function AnswerFor(answers: seq<SeriesAnswer>, key: Key): (r: Option<SeriesAnswer>)
    ensures r.None? ==> forall i :: 0 <= i < |answers| ==> answers[i].key != key
    ensures r.Some? ==> exists i :: 0 <= i < |answers| && answers[i] == r.value && answers[i].key == key
                                    && forall j :: 0 <= j < i ==> answers[j].key != key
  {
    if answers == [] then None
    else if answers[0].key == key then Some(answers[0])
    else AnswerFor(answers[1..], key)
  }

  function Watermark(st: seq<SeriesState>, key: Key): Option<int> {
    var s := Stored(st, key);
    if s.Some? then s.value.newest else None
  }

  function Earliest(points: seq<Point>): (r: Option<int>)
    ensures r.None? <==> points == []
    ensures r.Some? ==> exists p :: p in points && p.bucketStart == r.value
    ensures r.Some? ==> forall p :: p in points ==> r.value <= p.bucketStart
  {
    if points == [] then None
    else
      assert points[0] in points;
      var rest := Earliest(points[1..]);
      Some(if rest.Some? then Min(points[0].bucketStart, rest.value) else points[0].bucketStart)
  }

  function Latest(points: seq<Point>): (r: Option<int>)
    ensures r.None? <==> points == []
    ensures r.Some? ==> exists p :: p in points && p.bucketStart == r.value
    ensures r.Some? ==> forall p :: p in points ==> p.bucketStart <= r.value
  {
    if points == [] then None
    else
      var rest := Latest(points[1..]);
      assert points[0] in points;
      Some(if rest.Some? then Max(points[0].bucketStart, rest.value) else points[0].bucketStart)
  }

  // ----- remembering an answered series

  function LaterOf(current: Option<int>, value: int): int {
    if current.Some? then Max(current.value, value) else value
  }

  function NewestAfter(current: Option<int>, answered: Option<SeriesAnswer>, points: seq<Point>): Option<int> {
    if answered.Some? && answered.value.newest.Some? then Some(LaterOf(current, answered.value.newest.value))
    else if Latest(points).Some? then Some(LaterOf(current, Latest(points).value))
    else current
  }

  function ResetIndex(uploaded: seq<Point>, resetsAt: int): (i: nat)
    ensures i <= |uploaded|
    ensures i < |uploaded| ==> uploaded[i].resetsAt == resetsAt
    ensures forall j :: 0 <= j < i ==> uploaded[j].resetsAt != resetsAt
  {
    if uploaded == [] then 0
    else if uploaded[0].resetsAt == resetsAt then 0 else 1 + ResetIndex(uploaded[1..], resetsAt)
  }

  /** The last bucket a reset has uploaded is replaced by one that starts no earlier. */
  function Remembered(uploaded: seq<Point>, p: Point): seq<Point> {
    var i := ResetIndex(uploaded, p.resetsAt);
    if i == |uploaded| then uploaded + [p]
    else if p.bucketStart >= uploaded[i].bucketStart then uploaded[i := p]
    else uploaded
  }

  function RememberedAll(uploaded: seq<Point>, points: seq<Point>): seq<Point> {
    if points == [] then uploaded
    else Remembered(RememberedAll(uploaded, points[..|points| - 1]), points[|points| - 1])
  }

  function Put(st: seq<SeriesState>, s: SeriesState): seq<SeriesState> {
    var i := StateIndex(st, s.key);
    if i < |st| then st[i := s] else st + [s]
  }

  function Blank(key: Key): SeriesState { SeriesState(key, None, [], None, None) }

  function Answered(s: SeriesState, series: Series, answered: Option<SeriesAnswer>, now: int): SeriesState {
    var duration := if answered.Some? then answered.value.duration else None;
    SeriesState(
      s.key,
      NewestAfter(s.newest, answered, series.points),
      RememberedAll(s.lastUploaded, series.points),
      if Earliest(series.points).Some?
      then Some(ReseedOldest(s.oldest, Earliest(series.points).value, series.duration, now))
      else s.oldest,
      AdoptedDuration(s.adopted, duration, series.duration))
  }

  function ApplySeries(
    st: seq<SeriesState>, series: Series, answered: Option<SeriesAnswer>, now: int): seq<SeriesState>
  {
    var s := Stored(st, series.key);
    Put(st, Answered(if s.Some? then s.value else Blank(series.key), series, answered, now))
  }

  function NotKey(key: Key): SeriesState -> bool {
    (s: SeriesState) => s.key != key
  }

  /** A lost series is forgotten, except for the duration another device set. */
  function Forget(
    st: seq<SeriesState>, series: Series, answered: Option<SeriesAnswer>): seq<SeriesState>
  {
    var s := Stored(st, series.key);
    var adopted := AdoptedDuration(
      if s.Some? then s.value.adopted else None,
      if answered.Some? then answered.value.duration else None,
      series.duration);
    var others := Filter(st, NotKey(series.key));
    if adopted.Some? then others + [Blank(series.key).(adopted := adopted)] else others
  }

  predicate IsLost(st: seq<SeriesState>, series: Series, answered: Option<SeriesAnswer>, now: int) {
    var s := Stored(st, series.key);
    Earliest(series.points).Some?
    && RowsLost(
         if s.Some? then s.value.oldest else None,
         if s.Some? then s.value.newest else None,
         Earliest(series.points).value, answered, series.duration, now)
  }

  datatype Pass = Pass(st: seq<SeriesState>, lost: set<Key>)

  /** One series of one answered chunk. */
  function TakeSeries(p: Pass, series: Series, answers: seq<SeriesAnswer>, judge: bool, now: int): Pass {
    var answered := AnswerFor(answers, series.key);
    if series.key in p.lost then p
    else if judge && IsLost(p.st, series, answered, now) then
      Pass(Forget(p.st, series, answered), p.lost + {series.key})
    else Pass(ApplySeries(p.st, series, answered, now), p.lost)
  }

  function TakeChunk(p: Pass, chunk: seq<Series>, answers: seq<SeriesAnswer>, judge: bool, now: int): Pass {
    if chunk == [] then p
    else
      TakeSeries(
        TakeChunk(p, chunk[..|chunk| - 1], answers, judge, now), chunk[|chunk| - 1], answers, judge, now)
  }

  /** The chunks that were answered, in order; `zip` ignores the ones that were not. */
  function TakeAll(
    p: Pass, chunks: seq<seq<Series>>, responses: seq<seq<SeriesAnswer>>, judge: bool, now: int): Pass
    decreases |chunks|
  {
    if chunks == [] || responses == [] then p
    else TakeAll(TakeChunk(p, chunks[0], responses[0], judge, now), chunks[1..], responses[1..], judge, now)
  }

  // ----- the pass

  datatype Account = Account(observedSync: bool, series: seq<SeriesState>)

  const EMPTY_ACCOUNT := Account(false, [])

  datatype UploadError = HistorySyncOff | QuotaHistoryFull | Other

  datatype Batch = Batch(responses: seq<seq<SeriesAnswer>>, error: Option<UploadError>, cancelled: bool)

  predicate TooSoon(failure: Option<int>, now: int) {
    failure.Some? && now - failure.value < UPLOAD_BACKOFF
  }

  /** What is remembered between passes: the account's file, and two fields of the process. */
  datatype Memory = Memory(account: Account, stoppedForFull: bool, lastUploadFailure: Option<int>)

  /** What one upload and its answer leave. */
  function AfterUpload(m: Memory, chunks: seq<seq<Series>>, b: Batch, judge: bool, at: int): Memory {
    var series := TakeAll(Pass(m.account.series, {}), chunks, b.responses, judge, at).st;
    if b.cancelled then m.(account := m.account.(series := series))
    else if b.error == Some(HistorySyncOff) then m.(account := EMPTY_ACCOUNT)
    else if b.error.Some? then
      Memory(m.account.(series := series), m.stoppedForFull || b.error == Some(QuotaHistoryFull), Some(at))
    else Memory(Account(true, series), m.stoppedForFull, None)
  }

  /** The upload went through and some series turned out lost. */
  predicate FoundLoss(m: Memory, chunks: seq<seq<Series>>, b: Batch, at: int) {
    && !b.cancelled && b.error.None?
    && TakeAll(Pass(m.account.series, {}), chunks, b.responses, true, at).lost != {}
  }

  /** There was nothing to send. */
  function Settled(m: Memory): Memory {
    m.(account := m.account.(observedSync := true), lastUploadFailure := None)
  }

  /** Nothing may be sent now. */
  predicate HeldBack(m: Memory, historySync: Option<bool>, started: int) {
    historySync != Some(true) || m.stoppedForFull || TooSoon(m.lastUploadFailure, started)
  }

  /** How often a pass uploads, and what it leaves remembered. */
  datatype Outcome = Outcome(uploads: nat, memory: Memory)

  function AfterPass(
    m: Memory, historySync: Option<bool>, started: int, answeredAt: nat -> int,
    build: (nat, Account, bool) -> seq<seq<Series>>, send: (nat, seq<seq<Series>>) -> Batch): Outcome
  {
    if HeldBack(m, historySync, started) then
      Outcome(0, if historySync == Some(false) then m.(account := EMPTY_ACCOUNT) else m)
    else
      var chunks := build(0, m.account, !m.account.observedSync);
      if chunks == [] then Outcome(0, Settled(m))
      else
        var after := AfterUpload(m, chunks, send(0, chunks), true, answeredAt(0));
        if !FoundLoss(m, chunks, send(0, chunks), answeredAt(0)) then Outcome(1, after)
        else
          var again := build(1, after.account, false);
          if again == [] then Outcome(1, Settled(after))
          else Outcome(2, AfterUpload(after, again, send(1, again), false, answeredAt(1)))
  }

  /** The phone's half of an upload pass. Building and sending are given by the caller. */
  class QuotaHistoryCoordinator {
    var account: Account
    var stoppedForFull: bool
    var lastUploadFailure: Option<int>

    constructor ()
      ensures account == EMPTY_ACCOUNT && !stoppedForFull && lastUploadFailure == None
    {
      account, stoppedForFull, lastUploadFailure := EMPTY_ACCOUNT, false, None;
    }

    /** Fold the answered chunks into the account, and say which series were lost. */
    method Apply(
      chunks: seq<seq<Series>>, responses: seq<seq<SeriesAnswer>>, judge: bool, now: int)
      returns (lost: set<Key>)
      modifies this`account
      ensures Pass(account.series, lost)
           == TakeAll(Pass(old(account.series), {}), chunks, responses, judge, now)
      ensures account.observedSync == old(account.observedSync)
    {
      lost := {};
      var st := account.series;
      var n := Min(|chunks|, |responses|);
      ghost var all := TakeAll(Pass(st, {}), chunks, responses, judge, now);
      for i := 0 to n
        invariant TakeAll(Pass(st, lost), chunks[i..], responses[i..], judge, now) == all
      {
        var chunk := chunks[i];
        ghost var start := Pass(st, lost);
        for j := 0 to |chunk|
          invariant Pass(st, lost) == TakeChunk(start, chunk[..j], responses[i], judge, now)
        {
          assert chunk[..j + 1][..j] == chunk[..j];
          var series := chunk[j];
          if series.key !in lost {
            var answered := AnswerFor(responses[i], series.key);
            if judge && IsLost(st, series, answered, now) {
              lost := lost + {series.key};
              st := Forget(st, series, answered);
            } else {
              st := ApplySeries(st, series, answered, now);
            }
          }
        }
        assert chunk[..|chunk|] == chunk;
        assert chunks[i..][1..] == chunks[i + 1..] && responses[i..][1..] == responses[i + 1..];
      }
      account := account.(series := st);
    }

    ghost function State(): Memory
      reads this
    {
      Memory(account, stoppedForFull, lastUploadFailure)
    }

    /**
     * One pass. `build` is the chunked, uploadable batches at the first and, after a loss, the second
     * upload of the pass, `send` what Relay answers and `answeredAt` when. The second upload is not
     * judged, so there is no third.
     */
    method PerformSync(
      historySync: Option<bool>, started: int, answeredAt: nat -> int,
      build: (nat, Account, bool) -> seq<seq<Series>>, send: (nat, seq<seq<Series>>) -> Batch)
      returns (uploads: nat)
      modifies this
      ensures Outcome(uploads, State()) == AfterPass(old(State()), historySync, started, answeredAt, build, send)
    {
      uploads := 0;
      if historySync.None? { return; }
      if !historySync.value {
        account := EMPTY_ACCOUNT;
        return;
      }
      if stoppedForFull { return; }
      if TooSoon(lastUploadFailure, started) { return; }
      var rebackfilled := false;
      while true
        invariant uploads == if rebackfilled then 1 else 0
        invariant !rebackfilled ==> State() == old(State())
        invariant rebackfilled ==>
          var m := old(State());
          var chunks := build(0, m.account, !m.account.observedSync);
          && chunks != [] && FoundLoss(m, chunks, send(0, chunks), answeredAt(0))
          && State() == AfterUpload(m, chunks, send(0, chunks), true, answeredAt(0))
        decreases if rebackfilled then 0 else 1
      {
        var chunks := build(uploads, account, !account.observedSync);
        if chunks == [] {
          account := account.(observedSync := true);
          lastUploadFailure := None;
          return;
        }
        var at := answeredAt(uploads);
        var batch := send(uploads, chunks);
        uploads := uploads + 1;
        if batch.cancelled {
          if batch.responses != [] {
            var _ := Apply(chunks, batch.responses, !rebackfilled, at);
          }
          return;
        }
        if batch.error == Some(HistorySyncOff) {
          account := EMPTY_ACCOUNT;
          return;
        }
        var lost := Apply(chunks, batch.responses, !rebackfilled, at);
        if batch.error.None? {
          account := account.(observedSync := true);
          lastUploadFailure := None;
        } else {
          lastUploadFailure := Some(at);
        }
        if batch.error == Some(QuotaHistoryFull) {
          stoppedForFull := true;
        }
        if batch.error.Some? || lost == {} || rebackfilled { return; }
        rebackfilled := true;
      }
    }
  }
}
