/** A collection pass window by window: what each one reads, in which order, and what is shown after. */
module SamplePositions {
  import opened Prelude
  import opened Sorting
  import opened SampleJournal
  import opened SampleTheorems

  /** What window `j` of snapshot `i` reads: nothing unless it says when it resets. */
  function ReadingAt(snapshots: seq<Snapshot>, i: nat, j: nat): Option<Reading> {
    if i < |snapshots| && j < |snapshots[i].windows| then
      var snapshot, window := snapshots[i], snapshots[i].windows[j];
      if window.resetsAt.None? then None
      else
        var sample := Sample(window.resetsAt.value, snapshot.observedAt, window.usedPercent);
        Some(Reading(snapshot.key, snapshot.provider, window.id, sample))
    else None
  }

  function FiledIfRead(windows: seq<Entry>, r: Option<Reading>): seq<Entry> {
    if r.Some? then Taken(windows, r.value) else windows
  }

  function LoggedIfRead(log: seq<Reading>, r: Option<Reading>): seq<Reading> {
    if r.Some? then log + [r.value] else log
  }

  /** The journal when every window before (i, j) has been filed, one after the other. */
  function JournalAt(windows: seq<Entry>, snapshots: seq<Snapshot>, i: nat, j: nat): seq<Entry>
    decreases i, j
  {
    if j > 0 then FiledIfRead(JournalAt(windows, snapshots, i, j - 1), ReadingAt(snapshots, i, j - 1))
    else if 0 < i <= |snapshots| then JournalAt(windows, snapshots, i - 1, |snapshots[i - 1].windows|)
    else windows
  }

  /** The readings of every window before (i, j), one after the other. */
  function LogAt(snapshots: seq<Snapshot>, i: nat, j: nat): seq<Reading>
    decreases i, j
  {
    if j > 0 then LoggedIfRead(LogAt(snapshots, i, j - 1), ReadingAt(snapshots, i, j - 1))
    else if 0 < i <= |snapshots| then LogAt(snapshots, i - 1, |snapshots[i - 1].windows|)
    else []
  }

  // ----- a pass reads every window

  lemma {:induction false} LogInSnapshot(snapshots: seq<Snapshot>, i: nat, j: nat)
    requires i < |snapshots| && j <= |snapshots[i].windows|
    requires LogAt(snapshots, i, 0) == Readings(snapshots[..i])
    ensures LogAt(snapshots, i, j) == Readings(snapshots[..i]) + ReadingsOf(snapshots[i], snapshots[i].windows[..j])
  {
    if j > 0 {
      LogInSnapshot(snapshots, i, j - 1);
      assert snapshots[i].windows[..j][..j - 1] == snapshots[i].windows[..j - 1];
    }
  }

  lemma {:induction false} LogBetweenSnapshots(snapshots: seq<Snapshot>, i: nat)
    requires i <= |snapshots|
    ensures LogAt(snapshots, i, 0) == Readings(snapshots[..i])
  {
    if i > 0 {
      LogBetweenSnapshots(snapshots, i - 1);
      LogInSnapshot(snapshots, i - 1, |snapshots[i - 1].windows|);
      assert snapshots[i - 1].windows[..|snapshots[i - 1].windows|] == snapshots[i - 1].windows;
      assert snapshots[..i][..i - 1] == snapshots[..i - 1];
    }
  }

  /** The readings of a pass are those of its windows that reset, snapshot by snapshot and in order. */
  lemma {:induction false} PassReadsEveryWindow(snapshots: seq<Snapshot>)
    ensures Readings(snapshots) == LogAt(snapshots, |snapshots|, 0)
  {
    LogBetweenSnapshots(snapshots, |snapshots|);
    assert snapshots[..|snapshots|] == snapshots;
  }

  lemma {:induction false} FilingTakesLog(windows: seq<Entry>, log: seq<Reading>, r: Option<Reading>)
    ensures FiledIfRead(TakenAll(windows, log), r) == TakenAll(windows, LoggedIfRead(log, r))
  {
    if r.Some? {
      assert (log + [r.value])[..|log|] == log;
    }
  }

  lemma {:induction false} JournalTakesLog(windows: seq<Entry>, snapshots: seq<Snapshot>, i: nat, j: nat)
    ensures JournalAt(windows, snapshots, i, j) == TakenAll(windows, LogAt(snapshots, i, j))
    decreases i, j
  {
    if j > 0 {
      JournalTakesLog(windows, snapshots, i, j - 1);
      FilingTakesLog(windows, LogAt(snapshots, i, j - 1), ReadingAt(snapshots, i, j - 1));
    } else if 0 < i <= |snapshots| {
      JournalTakesLog(windows, snapshots, i - 1, |snapshots[i - 1].windows|);
    }
  }

  /** A pass files every window that resets, each once and in order, and then drops what aged out. */
  lemma {:induction false} PassFilesEveryWindow(windows: seq<Entry>, snapshots: seq<Snapshot>, now: int)
    ensures Recorded(windows, snapshots, now) == Pruned(JournalAt(windows, snapshots, |snapshots|, 0), now)
  {
    PassReadsEveryWindow(snapshots);
    JournalTakesLog(windows, snapshots, |snapshots|, 0);
  }

  // ----- the last reading of a reset in a pass

  lemma {:induction false} JournalAtShape(windows: seq<Entry>, snapshots: seq<Snapshot>, i: nat, j: nat)
    requires Shape(windows)
    ensures Shape(JournalAt(windows, snapshots, i, j))
  {
    JournalTakesLog(windows, snapshots, i, j);
    TakenAllShape(windows, LogAt(snapshots, i, j));
  }

  predicate Later(i: nat, j: nat, x: nat, y: nat) {
    i < x || (i == x && j < y)
  }

  /** No window after (i, j) reads the slot of `r`. */
  ghost predicate NotReadLater(snapshots: seq<Snapshot>, i: nat, j: nat, r: Reading) {
    forall x: nat, y: nat :: Later(i, j, x, y) && ReadingAt(snapshots, x, y).Some? ==>
      !SameSlot(ReadingAt(snapshots, x, y).value, r)
  }

  lemma {:induction false} FilingLeavesSlot(windows: seq<Entry>, other: Option<Reading>, r: Reading)
    requires Shape(windows) && (other.Some? ==> !SameSlot(other.value, r))
    ensures Kept(FiledIfRead(windows, other), r.key, r.windowID, r.sample.resetsAt) ==
            Kept(windows, r.key, r.windowID, r.sample.resetsAt)
  {
    if other.Some? {
      OtherLeavesSlot(windows, other.value, r);
    }
  }

  lemma {:induction false} LaterLeavesSlot(
    windows: seq<Entry>, snapshots: seq<Snapshot>, i: nat, j: nat, r: Reading, x: nat, y: nat)
    requires Shape(windows) && i < |snapshots| && j < |snapshots[i].windows|
    requires NotReadLater(snapshots, i, j, r)
    requires Later(i, j, x, y) && x <= |snapshots|
    ensures Kept(JournalAt(windows, snapshots, x, y), r.key, r.windowID, r.sample.resetsAt) ==
            Kept(JournalAt(windows, snapshots, i, j + 1), r.key, r.windowID, r.sample.resetsAt)
    decreases x, y
  {
    if x == i && y == j + 1 {
    } else if y > 0 {
      LaterLeavesSlot(windows, snapshots, i, j, r, x, y - 1);
      JournalAtShape(windows, snapshots, x, y - 1);
      assert Later(i, j, x, y - 1);
      FilingLeavesSlot(JournalAt(windows, snapshots, x, y - 1), ReadingAt(snapshots, x, y - 1), r);
    } else {
      LaterLeavesSlot(windows, snapshots, i, j, r, x - 1, |snapshots[x - 1].windows|);
    }
  }

  /**
   * The last reading a pass has of a window and reset is shown when the pass is over exactly unless
   * it repeats a value that the pass then drops as too old.
   */
  lemma {:induction false} RecordShowsReading(
    windows: seq<Entry>, snapshots: seq<Snapshot>, now: int, i: nat, j: nat, r: Reading)
    requires Shape(windows) && i < |snapshots| && j < |snapshots[i].windows|
    requires ReadingAt(snapshots, i, j) == Some(r) && NotReadLater(snapshots, i, j, r)
    requires r.sample.observedAt >= now - 2_592_000
    requires NoneLater(
               Kept(JournalAt(windows, snapshots, i, j), r.key, r.windowID, r.sample.resetsAt), r.sample.observedAt)
    ensures var last := LastOf(SamplesIn(JournalAt(windows, snapshots, i, j), r.key, r.windowID), r.sample.resetsAt);
      ValueAt(Kept(Recorded(windows, snapshots, now), r.key, r.windowID, r.sample.resetsAt), r.sample.observedAt)
      == Some(r.sample.usedPercent)
      <==> !(last.Some? && last.value.usedPercent == r.sample.usedPercent
             && last.value.observedAt < now - 2_592_000)
  {
    var before, end := JournalAt(windows, snapshots, i, j), JournalAt(windows, snapshots, |snapshots|, 0);
    PassFilesEveryWindow(windows, snapshots, now);
    JournalAtShape(windows, snapshots, i, j);
    JournalAtShape(windows, snapshots, |snapshots|, 0);
    TakenShape(before, r);
    LaterLeavesSlot(windows, snapshots, i, j, r, |snapshots|, 0);
    KeptPruned(end, now, r.key, r.windowID, r.sample.resetsAt);
    KeptPruned(Taken(before, r), now, r.key, r.windowID, r.sample.resetsAt);
    PassShowsReading(before, r, now);
  }

  // ----- what stays

  /** A written reading is added and takes the place of its own reset and instant only. */
  lemma {:induction false} FilingHolds(stored: seq<Sample>, s: Sample, x: Sample)
    ensures x in Filed(stored, s) <==>
            if Repeats(stored, s) then x in stored
            else x == s || (x in stored && (x.resetsAt, x.observedAt) != (s.resetsAt, s.observedAt))
  {
    var others := Filter(stored, Supersedes(s));
    FilterMembers(stored, Supersedes(s));
    SortMembers(others + [s], EarlierLeq);
    assert (others + [s])[|others|] == s;
  }

  predicate ReadsAt(r: Option<Reading>, key: string, windowID: string, x: Sample) {
    r.Some? && r.value.key == key && r.value.windowID == windowID
    && r.value.sample.resetsAt == x.resetsAt && r.value.sample.observedAt == x.observedAt
  }

  /** No window of the pass reads that window, reset and instant. */
  ghost predicate NotReadAt(snapshots: seq<Snapshot>, key: string, windowID: string, x: Sample) {
    forall i: nat, j: nat :: !ReadsAt(ReadingAt(snapshots, i, j), key, windowID, x)
  }

  lemma {:induction false} FilingKeeps(
    windows: seq<Entry>, r: Option<Reading>, key: string, windowID: string, x: Sample)
    requires Shape(windows) && x in SamplesIn(windows, key, windowID) && !ReadsAt(r, key, windowID, x)
    ensures x in SamplesIn(FiledIfRead(windows, r), key, windowID)
  {
    if r.Some? {
      TakenSamples(windows, r.value, key, windowID);
      FilingHolds(SamplesIn(windows, key, windowID), r.value.sample, x);
    }
  }

  lemma {:induction false} StaysSoFar(
    windows: seq<Entry>, snapshots: seq<Snapshot>, i: nat, j: nat, key: string, windowID: string, x: Sample)
    requires Shape(windows)
    requires x in SamplesIn(windows, key, windowID) && NotReadAt(snapshots, key, windowID, x)
    ensures x in SamplesIn(JournalAt(windows, snapshots, i, j), key, windowID)
    decreases i, j
  {
    if j > 0 {
      StaysSoFar(windows, snapshots, i, j - 1, key, windowID, x);
      JournalAtShape(windows, snapshots, i, j - 1);
      FilingKeeps(JournalAt(windows, snapshots, i, j - 1), ReadingAt(snapshots, i, j - 1), key, windowID, x);
    } else if 0 < i <= |snapshots| {
      StaysSoFar(windows, snapshots, i - 1, |snapshots[i - 1].windows|, key, windowID, x);
    }
  }

  /** A pass keeps every sample of the last thirty days that it does not read anew. */
  lemma {:induction false} SampleStays(
    windows: seq<Entry>, snapshots: seq<Snapshot>, now: int, key: string, windowID: string, x: Sample)
    requires Shape(windows) && x in SamplesIn(windows, key, windowID)
    requires NotReadAt(snapshots, key, windowID, x) && x.observedAt >= now - 2_592_000
    ensures x in SamplesIn(Recorded(windows, snapshots, now), key, windowID)
  {
    var end := JournalAt(windows, snapshots, |snapshots|, 0);
    PassFilesEveryWindow(windows, snapshots, now);
    JournalAtShape(windows, snapshots, |snapshots|, 0);
    StaysSoFar(windows, snapshots, |snapshots|, 0, key, windowID, x);
    PrunedSamples(end, now, key, windowID);
    FilterMembers(SamplesIn(end, key, windowID), NotBefore(now - RETENTION_SECONDS));
  }

  // ----- where entries come from

  ghost predicate ReadFor(log: seq<Reading>, e: Entry) {
    exists r :: r in log && r.key == e.subscriptionKey && r.windowID == e.windowID && r.provider == e.provider
  }

  ghost predicate EntriesRead(log: seq<Reading>, windows: seq<Entry>) {
    forall e :: e in windows ==> ReadFor(log, e)
  }

  lemma {:induction false} ReadForLonger(log: seq<Reading>, more: seq<Reading>, e: Entry)
    requires ReadFor(log, e)
    ensures ReadFor(log + more, e)
  {
    var r :| r in log && r.key == e.subscriptionKey && r.windowID == e.windowID && r.provider == e.provider;
    assert r in log + more;
  }

  lemma {:induction false} TakenEntriesRead(log: seq<Reading>, windows: seq<Entry>, r: Reading)
    requires EntriesRead(log, windows)
    ensures EntriesRead(log + [r], Taken(windows, r))
  {
    var taken := Taken(windows, r);
    forall e | e in taken
      ensures ReadFor(log + [r], e)
    {
      var j :| 0 <= j < |taken| && taken[j] == e;
      if j < |windows| {
        assert windows[j] in windows;
        ReadForLonger(log, [r], windows[j]);
      } else {
        assert r in log + [r];
      }
    }
  }

  lemma {:induction false} TakenAllEntriesRead(log: seq<Reading>, windows: seq<Entry>, readings: seq<Reading>)
    requires EntriesRead(log, windows)
    ensures EntriesRead(log + readings, TakenAll(windows, readings))
  {
    if readings == [] {
      assert log + readings == log;
    } else {
      var front, last := readings[..|readings| - 1], readings[|readings| - 1];
      TakenAllEntriesRead(log, windows, front);
      TakenEntriesRead(log + front, TakenAll(windows, front), last);
      assert log + readings == (log + front) + [last];
    }
  }

  lemma {:induction false} PrunedEntriesRead(log: seq<Reading>, windows: seq<Entry>, now: int)
    requires EntriesRead(log, windows)
    ensures EntriesRead(log, Pruned(windows, now))
  {
    var trimmed := Trimmed(windows, now - RETENTION_SECONDS);
    TrimmedAt(windows, now - RETENTION_SECONDS);
    FilterMembers(trimmed, HasSamples());
    forall e | e in Pruned(windows, now)
      ensures ReadFor(log, e)
    {
      var j :| 0 <= j < |trimmed| && trimmed[j] == e;
      assert windows[j] in windows && ReadFor(log, windows[j]);
    }
  }

  /** Every entry of a run's journal is of a subscription, window and provider that some pass read. */
  lemma {:induction false} EntriesWereRead(passes: seq<Pass>)
    ensures EntriesRead(LogAfter(passes), JournalAfter(passes))
  {
    if passes != [] {
      var front, last := passes[..|passes| - 1], passes[|passes| - 1];
      EntriesWereRead(front);
      TakenAllEntriesRead(LogAfter(front), JournalAfter(front), Readings(last.snapshots));
      PrunedEntriesRead(LogAfter(passes), TakenAll(JournalAfter(front), Readings(last.snapshots)), last.now);
    }
  }
}
