/** What one upload pass means for the passes after it. */
module HistoryPasses {
  import opened Prelude
  import opened HistoryWire
  import opened HistoryWatermarks
  import opened HistoryTheorems
  import opened HistoryConfirmed

  /** One occasion to sync: the switch, the clock, what there is to build and how Relay answers. */
  datatype Visit = Visit(
    historySync: Option<bool>, started: int, answeredAt: nat -> int,
    build: (nat, Account, bool) -> seq<seq<Series>>, send: (nat, seq<seq<Series>>) -> Batch)

  function Visited(m: Memory, v: Visit): Outcome {
    AfterPass(m, v.historySync, v.started, v.answeredAt, v.build, v.send)
  }

  function MemoryAfter(m: Memory, visits: seq<Visit>): Memory {
    if visits == [] then m else Visited(MemoryAfter(m, visits[..|visits| - 1]), visits[|visits| - 1]).memory
  }

  /** What the first upload of a pass sends. */
  function FirstChunks(m: Memory, v: Visit): seq<seq<Series>> {
    v.build(0, m.account, !m.account.observedSync)
  }

  function FirstAnswer(m: Memory, v: Visit): Batch {
    v.send(0, FirstChunks(m, v))
  }

  /** The switch is on, the account is not full, the last failure is a minute old, and there is something to send. */
  predicate Uploads(m: Memory, v: Visit) {
    && v.historySync == Some(true) && !m.stoppedForFull
    && (m.lastUploadFailure.Some? ==> v.started >= m.lastUploadFailure.value + 60)
    && FirstChunks(m, v) != []
  }

  /** A pass uploads exactly then, and never more than twice. */
  lemma {:induction false} UploadsExactly(m: Memory, v: Visit)
    ensures Visited(m, v).uploads > 0 <==> Uploads(m, v)
    ensures Visited(m, v).uploads <= 2
  {
  }

  /** A second upload follows a first one that went through and lost a series, and only that. */
  lemma {:induction false} SecondUploadFollowsLoss(m: Memory, v: Visit)
    requires Uploads(m, v)
    ensures var b := FirstAnswer(m, v);
      var first := TakeAll(Pass(m.account.series, {}), FirstChunks(m, v), b.responses, true, v.answeredAt(0));
      Visited(m, v).uploads == 2 <==>
        && !b.cancelled && b.error.None? && first.lost != {}
        && v.build(1, Account(true, first.st), false) != []
  {
  }

  lemma {:induction false} FullSticks(m: Memory, visits: seq<Visit>)
    requires m.stoppedForFull
    ensures MemoryAfter(m, visits).stoppedForFull
  {
    if visits != [] {
      FullSticks(m, visits[..|visits| - 1]);
    }
  }

  /** Once Relay says the account is full, no later pass of the process uploads anything. */
  lemma {:induction false} FullStopsForGood(m: Memory, v: Visit, visits: seq<Visit>, next: Visit)
    requires Uploads(m, v) && !FirstAnswer(m, v).cancelled && FirstAnswer(m, v).error == Some(QuotaHistoryFull)
    ensures Visited(MemoryAfter(Visited(m, v).memory, visits), next).uploads == 0
  {
    FullSticks(Visited(m, v).memory, visits);
  }

  predicate FailsAt(m: Memory, v: Visit, at: int) {
    && Uploads(m, v) && !FirstAnswer(m, v).cancelled && v.answeredAt(0) == at
    && FirstAnswer(m, v).error.Some? && FirstAnswer(m, v).error != Some(HistorySyncOff)
  }

  lemma {:induction false} FailureHolds(m: Memory, visits: seq<Visit>, at: int)
    requires m.lastUploadFailure == Some(at)
    requires forall i :: 0 <= i < |visits| ==> visits[i].started < at + 60
    ensures MemoryAfter(m, visits).lastUploadFailure == Some(at)
  {
    if visits != [] {
      FailureHolds(m, visits[..|visits| - 1], at);
    }
  }

  /** After an upload fails, no pass that starts within the next minute uploads, however many there are. */
  lemma {:induction false} FailureBacksOff(m: Memory, v: Visit, at: int, visits: seq<Visit>, next: Visit)
    requires FailsAt(m, v, at) && next.started < at + 60
    requires forall i :: 0 <= i < |visits| ==> visits[i].started < at + 60
    ensures Visited(MemoryAfter(Visited(m, v).memory, visits), next).uploads == 0
  {
    FailureHolds(Visited(m, v).memory, visits, at);
  }

  /**
   * An upload that is cancelled or fails part-way still counts for what was answered: a series not
   * lost is left with the maximum of its watermark and what the answered chunks confirmed.
   */
  lemma {:induction false} AnswersAreKept(m: Memory, v: Visit, key: Key)
    requires Uploads(m, v) && Visited(m, v).uploads == 1
    requires
      || FirstAnswer(m, v).cancelled
      || (FirstAnswer(m, v).error.Some? && FirstAnswer(m, v).error != Some(HistorySyncOff))
    ensures var b := FirstAnswer(m, v);
      var lost := TakeAll(Pass(m.account.series, {}), FirstChunks(m, v), b.responses, true, v.answeredAt(0)).lost;
      var after := Visited(m, v).memory;
      && after.account.observedSync == m.account.observedSync
      && (key !in lost ==> IsNewest(
            Watermark(m.account.series, key), Confirmed(FirstChunks(m, v), b.responses, key),
            Watermark(after.account.series, key)))
      && (key in lost ==> Cleared(Stored(after.account.series, key)))
  {
    var b, p, at := FirstAnswer(m, v), Pass(m.account.series, {}), v.answeredAt(0);
    var after := TakeAll(p, FirstChunks(m, v), b.responses, true, at);
    WatermarkNeverDecreases(m.account.series, FirstChunks(m, v), b.responses, true, at, key);
    if key !in after.lost {
      WatermarkIsNewest(p, FirstChunks(m, v), b.responses, true, at, key);
    }
  }

  /** Turning the switch off, here or on Relay, forgets everything, and the next pass backfills. */
  lemma {:induction false} OffForgets(m: Memory, v: Visit, key: Key)
    requires
      || v.historySync == Some(false)
      || (Uploads(m, v) && !FirstAnswer(m, v).cancelled && FirstAnswer(m, v).error == Some(HistorySyncOff))
    ensures var after := Visited(m, v).memory;
      && Stored(after.account.series, key).None?
      && forall next: Visit :: FirstChunks(after, next) == next.build(0, Account(false, []), true)
  {
  }

  /** A pass that says nothing is to be sent, or whose first upload loses nothing, ends the first backfill. */
  lemma {:induction false} BackfillEnds(m: Memory, v: Visit)
    requires v.historySync == Some(true) && !m.stoppedForFull
    requires m.lastUploadFailure.Some? ==> v.started >= m.lastUploadFailure.value + 60
    requires FirstChunks(m, v) == [] || (!FirstAnswer(m, v).cancelled && FirstAnswer(m, v).error.None?)
    requires Visited(m, v).uploads <= 1
    ensures Visited(m, v).memory.account.observedSync && Visited(m, v).memory.lastUploadFailure.None?
  {
  }
}
