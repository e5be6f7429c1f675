/** The phone's journal of quota readings: a reading that repeats the last one is not written again. */
module SampleJournal {
  import opened Prelude
  import opened Sorting

  const RETENTION_SECONDS := 30 * 86_400

  datatype Sample = Sample(resetsAt: int, observedAt: int, usedPercent: real)

  datatype Entry = Entry(subscriptionKey: string, provider: string, windowID: string, samples: seq<Sample>)

  datatype QuotaWindow = QuotaWindow(id: string, resetsAt: Option<int>, usedPercent: real)

  datatype Snapshot = Snapshot(key: string, provider: string, observedAt: int, windows: seq<QuotaWindow>)

  /** One reading that can be filed: a window that says when it resets. */
  datatype Reading = Reading(key: string, provider: string, windowID: string, sample: Sample)

  predicate EarlierLeq(a: Sample, b: Sample) { a.observedAt <= b.observedAt }

  // ----- one entry's samples

  function OfReset(resetsAt: int): Sample -> bool { (s: Sample) => s.resetsAt == resetsAt }

  function Supersedes(s: Sample): Sample -> bool {
    (x: Sample) => !(x.resetsAt == s.resetsAt && x.observedAt == s.observedAt)
  }

  function NotBefore(horizon: int): Sample -> bool { (s: Sample) => s.observedAt >= horizon }

  function LastOf(samples: seq<Sample>, resetsAt: int): Option<Sample> {
    if samples == [] then None
    else if samples[|samples| - 1].resetsAt == resetsAt then Some(samples[|samples| - 1])
    else LastOf(samples[..|samples| - 1], resetsAt)
  }

  predicate Repeats(stored: seq<Sample>, s: Sample) {
    var last := LastOf(stored, s.resetsAt);
    last.Some? && last.value.usedPercent == s.usedPercent
  }

  function Filed(stored: seq<Sample>, s: Sample): seq<Sample> {
    if Repeats(stored, s) then stored else Sort(Filter(stored, Supersedes(s)) + [s], EarlierLeq)
  }

  // ----- the journal

  function EntryIndex(windows: seq<Entry>, key: string, windowID: string): (i: nat)
    ensures i <= |windows|
    ensures i < |windows| ==> windows[i].subscriptionKey == key && windows[i].windowID == windowID
    ensures i == |windows| ==> forall e :: e in windows ==> !(e.subscriptionKey == key && e.windowID == windowID)
  {
    if windows == [] then 0
    else if windows[0].subscriptionKey == key && windows[0].windowID == windowID then 0
    else 1 + EntryIndex(windows[1..], key, windowID)
  }

  function SamplesIn(windows: seq<Entry>, key: string, windowID: string): seq<Sample> {
    var i := EntryIndex(windows, key, windowID);
    if i < |windows| then windows[i].samples else []
  }

  function Taken(windows: seq<Entry>, r: Reading): seq<Entry> {
    var i := EntryIndex(windows, r.key, r.windowID);
    if i < |windows| then windows[i := windows[i].(samples := Filed(windows[i].samples, r.sample))]
    else windows + [Entry(r.key, r.provider, r.windowID, Filed([], r.sample))]
  }

  function TakenAll(windows: seq<Entry>, readings: seq<Reading>): seq<Entry> {
    if readings == [] then windows
    else Taken(TakenAll(windows, readings[..|readings| - 1]), readings[|readings| - 1])
  }

  function ReadingsOf(snapshot: Snapshot, windows: seq<QuotaWindow>): seq<Reading> {
    if windows == [] then []
    else
      var last := windows[|windows| - 1];
      ReadingsOf(snapshot, windows[..|windows| - 1])
      + if last.resetsAt.None? then []
        else [Reading(snapshot.key, snapshot.provider, last.id,
                      Sample(last.resetsAt.value, snapshot.observedAt, last.usedPercent))]
  }

  /** The readings of one collection pass, in the order they are filed. */
  function Readings(snapshots: seq<Snapshot>): seq<Reading> {
    if snapshots == [] then []
    else
      var last := snapshots[|snapshots| - 1];
      Readings(snapshots[..|snapshots| - 1]) + ReadingsOf(last, last.windows)
  }

  function Trimmed(windows: seq<Entry>, horizon: int): seq<Entry> {
    if windows == [] then []
    else
      var last := windows[|windows| - 1];
      Trimmed(windows[..|windows| - 1], horizon) + [last.(samples := Filter(last.samples, NotBefore(horizon)))]
  }

  function HasSamples(): Entry -> bool { (e: Entry) => e.samples != [] }

  function Pruned(windows: seq<Entry>, now: int): seq<Entry> {
    Filter(Trimmed(windows, now - RETENTION_SECONDS), HasSamples())
  }

  function Recorded(windows: seq<Entry>, snapshots: seq<Snapshot>, now: int): seq<Entry> {
    Pruned(TakenAll(windows, Readings(snapshots)), now)
  }

  class LocalQuotaSamples {
    var windows: seq<Entry>

    constructor ()
      ensures windows == []
    {
      windows := [];
    }

    method Samples(subscriptionKey: string, windowID: string) returns (samples: seq<Sample>)
      ensures samples == SamplesIn(windows, subscriptionKey, windowID)
    {
      var i := EntryIndex(windows, subscriptionKey, windowID);
      samples := if i < |windows| then windows[i].samples else [];
    }

    method RecordReading(r: Reading)
      modifies this
      ensures windows == Taken(old(windows), r)
    {
      var index := EntryIndex(windows, r.key, r.windowID);
      if index == |windows| {
        windows := windows + [Entry(r.key, r.provider, r.windowID, [])];
      }
      var stored := windows[index].samples;
      var last := LastOf(stored, r.sample.resetsAt);
      if last.Some? && last.value.usedPercent == r.sample.usedPercent {
        return;
      }
      stored := Filter(stored, Supersedes(r.sample));
      stored := stored + [r.sample];
      windows := windows[index := windows[index].(samples := Sort(stored, EarlierLeq))];
    }

    method Record(snapshots: seq<Snapshot>, now: int)
      modifies this
      ensures windows == Recorded(old(windows), snapshots, now)
    {
      var n := 0;
      while n < |snapshots|
        invariant 0 <= n <= |snapshots|
        invariant windows == TakenAll(old(windows), Readings(snapshots[..n]))
      {
        assert snapshots[..n + 1][..n] == snapshots[..n];
        RecordSnapshot(snapshots[n], Readings(snapshots[..n]), old(windows));
        n := n + 1;
      }
      assert snapshots[..n] == snapshots;
      Prune(now);
    }

    method RecordSnapshot(snapshot: Snapshot, ghost earlier: seq<Reading>, ghost start: seq<Entry>)
      requires windows == TakenAll(start, earlier)
      modifies this
      ensures windows == TakenAll(start, earlier + ReadingsOf(snapshot, snapshot.windows))
    {
      var m := 0;
      assert earlier + ReadingsOf(snapshot, []) == earlier;
      while m < |snapshot.windows|
        invariant 0 <= m <= |snapshot.windows|
        invariant windows == TakenAll(start, earlier + ReadingsOf(snapshot, snapshot.windows[..m]))
      {
        ReadingsStep(snapshot, m, earlier, start);
        var window := snapshot.windows[m];
        if window.resetsAt.Some? {
          RecordReading(Reading(snapshot.key, snapshot.provider, window.id,
                                Sample(window.resetsAt.value, snapshot.observedAt, window.usedPercent)));
        }
        m := m + 1;
      }
      assert snapshot.windows[..m] == snapshot.windows;
    }

    method Prune(now: int)
      modifies this
      ensures windows == Pruned(old(windows), now)
    {
      var horizon := now - RETENTION_SECONDS;
      var index := 0;
      while index < |windows|
        invariant 0 <= index <= |windows| == |old(windows)|
        invariant windows == Trimmed(old(windows)[..index], horizon) + old(windows)[index..]
        invariant |Trimmed(old(windows)[..index], horizon)| == index
      {
        TrimmedStep(old(windows), index, horizon);
        windows := windows[index := windows[index].(samples := Filter(windows[index].samples, NotBefore(horizon)))];
        index := index + 1;
      }
      assert old(windows)[..index] == old(windows);
      assert windows == Trimmed(old(windows), horizon);
      windows := Filter(windows, HasSamples());
    }
  }

  lemma {:induction false} TrimmedStep(all: seq<Entry>, n: nat, horizon: int)
    requires n < |all| && |Trimmed(all[..n], horizon)| == n
    ensures |Trimmed(all[..n + 1], horizon)| == n + 1
    ensures (Trimmed(all[..n], horizon) + all[n..])[n] == all[n]
    ensures (Trimmed(all[..n], horizon) + all[n..])[n := all[n].(samples := Filter(all[n].samples, NotBefore(horizon)))]
         == Trimmed(all[..n + 1], horizon) + all[n + 1..]
  {
    assert all[..n + 1][..n] == all[..n];
    assert all[n..] == [all[n]] + all[n + 1..];
  }

  lemma {:induction false} ReadingsStep(snapshot: Snapshot, m: nat, earlier: seq<Reading>, start: seq<Entry>)
    requires m < |snapshot.windows|
    ensures var w, before := snapshot.windows[m], earlier + ReadingsOf(snapshot, snapshot.windows[..m]);
            TakenAll(start, earlier + ReadingsOf(snapshot, snapshot.windows[..m + 1])) ==
            if w.resetsAt.None? then TakenAll(start, before)
            else Taken(TakenAll(start, before), Reading(snapshot.key, snapshot.provider, w.id,
                                                      Sample(w.resetsAt.value, snapshot.observedAt, w.usedPercent)))
  {
    var w, before := snapshot.windows[m], earlier + ReadingsOf(snapshot, snapshot.windows[..m]);
    assert snapshot.windows[..m + 1][..m] == snapshot.windows[..m];
    if w.resetsAt.None? {
      assert earlier + ReadingsOf(snapshot, snapshot.windows[..m + 1]) == before;
    } else {
      var r := Reading(snapshot.key, snapshot.provider, w.id,
                       Sample(w.resetsAt.value, snapshot.observedAt, w.usedPercent));
      assert earlier + ReadingsOf(snapshot, snapshot.windows[..m + 1]) == before + [r];
      assert (before + [r])[..|before|] == before;
    }
  }

  // ----- runs

  /** One collection pass: what was read, and when it was filed. */
  datatype Pass = Pass(snapshots: seq<Snapshot>, now: int)

  function JournalAfter(passes: seq<Pass>): seq<Entry> {
    if passes == [] then []
    else
      var last := passes[|passes| - 1];
      Recorded(JournalAfter(passes[..|passes| - 1]), last.snapshots, last.now)
  }

  /** Every reading of the run, none dropped. */
  function LogAfter(passes: seq<Pass>): seq<Reading> {
    if passes == [] then [] else LogAfter(passes[..|passes| - 1]) + Readings(passes[|passes| - 1].snapshots)
  }

  /** The undeduplicated readings of one window up to one reset. */
  function Logged(log: seq<Reading>, key: string, windowID: string, resetsAt: int): seq<Sample> {
    if log == [] then []
    else
      var last := log[|log| - 1];
      var front := Logged(log[..|log| - 1], key, windowID, resetsAt);
      if last.key == key && last.windowID == windowID && last.sample.resetsAt == resetsAt then front + [last.sample]
      else front
  }

  function Kept(windows: seq<Entry>, key: string, windowID: string, resetsAt: int): seq<Sample> {
    Filter(SamplesIn(windows, key, windowID), OfReset(resetsAt))
  }

  /** The value a log shows at `t`: the last one observed by then. */
  function ValueAt(samples: seq<Sample>, t: int): Option<real> {
    if samples == [] then None
    else if samples[|samples| - 1].observedAt <= t then Some(samples[|samples| - 1].usedPercent)
    else ValueAt(samples[..|samples| - 1], t)
  }

  ghost predicate Agrees(kept: seq<Sample>, log: seq<Sample>) {
    kept != [] ==> forall t :: t >= kept[0].observedAt ==> ValueAt(kept, t) == ValueAt(log, t)
  }

  ghost predicate InOrder(samples: seq<Sample>) {
    forall i, j :: 0 <= i < j < |samples| ==> samples[i].observedAt <= samples[j].observedAt
  }

  ghost predicate StrictlyInOrder(samples: seq<Sample>) {
    forall i, j :: 0 <= i < j < |samples| ==> samples[i].observedAt < samples[j].observedAt
  }
}
