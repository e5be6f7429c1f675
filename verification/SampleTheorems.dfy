/** What the change-only journal keeps: its shape after any pass, and the answers of the full log. */
module SampleTheorems {
  import opened Prelude
  import opened Sorting
  import opened SampleJournal

  // ----- filters and the stable sort

  lemma {:induction false} FilterCons<T>(x: T, s: seq<T>, keep: T -> bool)
    ensures Filter([x] + s, keep) == (if keep(x) then [x] else []) + Filter(s, keep)
  {
    if s == [] {
      assert [x] + s == [] + [x];
      FilterSnoc([], x, keep);
    } else {
      var front, last := s[..|s| - 1], s[|s| - 1];
      FilterCons(x, front, keep);
      assert [x] + s == ([x] + front) + [last];
      FilterSnoc([x] + front, last, keep);
    }
  }

  lemma {:induction false} FilterInsert<T(!new)>(x: T, s: seq<T>, leq: (T, T) -> bool, keep: T -> bool)
    requires Ordering(leq) && Sorted(s, leq)
    ensures Filter(Insert(x, s, leq), keep) ==
            if keep(x) then Insert(x, Filter(s, keep), leq) else Filter(s, keep)
  {
    if s == [] || leq(x, s[0]) {
      FilterCons(x, s, keep);
      FilterFirst(x, s, leq, keep);
    } else {
      FilterInsert(x, s[1..], leq, keep);
      var rest := Filter(s[1..], keep);
      FilterCons(s[0], s[1..], keep);
      assert s == [s[0]] + s[1..];
      FilterCons(s[0], Insert(x, s[1..], leq), keep);
      if keep(s[0]) {
        InsertBehind(x, s[0], rest, leq);
        assert Filter(s, keep) == [s[0]] + rest;
      } else {
        assert Filter(s, keep) == rest;
      }
    }
  }

  lemma {:induction false} FilterFirst<T(!new)>(x: T, s: seq<T>, leq: (T, T) -> bool, keep: T -> bool)
    requires Ordering(leq) && Sorted(s, leq) && (s == [] || leq(x, s[0]))
    ensures Insert(x, Filter(s, keep), leq) == [x] + Filter(s, keep)
  {
    FilterMembers(s, keep);
    if Filter(s, keep) != [] {
      var y := Filter(s, keep)[0];
      assert y in s;
      var j :| 0 <= j < |s| && s[j] == y;
      if j > 0 {
        assert leq(s[0], s[j]);
      }
    }
  }

  lemma {:induction false} InsertBehind<T>(x: T, first: T, s: seq<T>, leq: (T, T) -> bool)
    requires !leq(x, first)
    ensures Insert(x, [first] + s, leq) == [first] + Insert(x, s, leq)
  {
    assert ([first] + s)[1..] == s;
  }

  /** A stable sort may be taken before or after a filter. */
  lemma {:induction false} FilterSort<T(!new)>(s: seq<T>, leq: (T, T) -> bool, keep: T -> bool)
    requires Ordering(leq)
    ensures Filter(Sort(s, leq), keep) == Sort(Filter(s, keep), leq)
  {
    if s != [] {
      var rest := s[1..];
      FilterSort(rest, leq, keep);
      SortSorts(rest, leq);
      FilterInsert(s[0], Sort(rest, leq), leq, keep);
      FilterCons(s[0], rest, keep);
      assert s == [s[0]] + rest;
      if keep(s[0]) {
        assert Filter(s, keep)[1..] == Filter(rest, keep);
      } else {
        assert Filter(s, keep) == Filter(rest, keep);
      }
    }
  }

  lemma {:induction false} FilterSorted<T>(s: seq<T>, leq: (T, T) -> bool, keep: T -> bool)
    requires Sorted(s, leq)
    ensures Sorted(Filter(s, keep), leq)
  {
    if s != [] {
      var front := s[..|s| - 1];
      FilterSorted(front, leq, keep);
      FilterMembers(front, keep);
      var kept := Filter(front, keep);
      forall i | 0 <= i < |kept|
        ensures leq(kept[i], s[|s| - 1])
      {
        assert kept[i] in front;
        var j :| 0 <= j < |front| && front[j] == kept[i];
        assert leq(s[j], s[|s| - 1]);
      }
    }
  }

  lemma {:induction false} FilterDistinct<T, K>(s: seq<T>, key: T -> K, keep: T -> bool)
    requires DistinctBy(s, key)
    ensures DistinctBy(Filter(s, keep), key)
  {
    if s != [] {
      var front := s[..|s| - 1];
      FilterDistinct(front, key, keep);
      FilterMembers(front, keep);
      forall y | y in Filter(front, keep)
        ensures key(y) != key(s[|s| - 1])
      {
        var j :| 0 <= j < |front| && front[j] == y;
        assert s[j] == y;
      }
    }
  }

  lemma {:induction false} SnocDistinct<T, K>(s: seq<T>, x: T, key: T -> K)
    requires DistinctBy(s, key) && forall y :: y in s ==> key(y) != key(x)
    ensures DistinctBy(s + [x], key)
  {
  }

  lemma {:induction false} TimeOrder()
    ensures Ordering(EarlierLeq)
  {
  }

  // ----- the journal's shape

  function Moment(s: Sample): (int, int) { (s.resetsAt, s.observedAt) }

  function EntryKey(e: Entry): (string, string) { (e.subscriptionKey, e.windowID) }

  /** Oldest first, and at most one reading of each instant for each reset. */
  ghost predicate WellKept(samples: seq<Sample>) {
    Sorted(samples, EarlierLeq) && DistinctBy(samples, Moment)
  }

  ghost predicate Shape(windows: seq<Entry>) {
    && DistinctBy(windows, EntryKey)
    && forall e :: e in windows ==> e.samples != [] && WellKept(e.samples)
  }

  ghost predicate WithinRetention(windows: seq<Entry>, now: int) {
    forall e :: e in windows ==> forall s :: s in e.samples ==> s.observedAt >= now - 2_592_000
  }

  lemma {:induction false} FiledWellKept(stored: seq<Sample>, s: Sample)
    requires WellKept(stored)
    ensures WellKept(Filed(stored, s)) && Filed(stored, s) != []
  {
    if Repeats(stored, s) {
      assert stored != [];
    } else {
      var others := Filter(stored, Supersedes(s));
      TimeOrder();
      FilterDistinct(stored, Moment, Supersedes(s));
      FilterMembers(stored, Supersedes(s));
      SnocDistinct(others, s, Moment);
      SortSorts(others + [s], EarlierLeq);
      SortDistinct(others + [s], EarlierLeq, Moment);
      SortPermutes(others + [s], EarlierLeq);
    }
  }

  lemma {:induction false} TakenShape(windows: seq<Entry>, r: Reading)
    requires Shape(windows)
    ensures Shape(Taken(windows, r))
  {
    var i := EntryIndex(windows, r.key, r.windowID);
    var taken := Taken(windows, r);
    var stored := if i < |windows| then windows[i].samples else [];
    if i < |windows| {
      assert windows[i] in windows;
    }
    FiledWellKept(stored, r.sample);
    forall e | e in taken
      ensures e.samples != [] && WellKept(e.samples)
    {
      var j :| 0 <= j < |taken| && taken[j] == e;
      if j != i {
        assert windows[j] in windows;
      }
    }
    forall j, k | 0 <= j < k < |taken|
      ensures EntryKey(taken[j]) != EntryKey(taken[k])
    {
      if k < |windows| {
        assert EntryKey(windows[j]) != EntryKey(windows[k]);
      } else {
        assert windows[j] in windows;
      }
    }
  }

  lemma {:induction false} TakenAllShape(windows: seq<Entry>, readings: seq<Reading>)
    requires Shape(windows)
    ensures Shape(TakenAll(windows, readings))
  {
    if readings != [] {
      TakenAllShape(windows, readings[..|readings| - 1]);
      TakenShape(TakenAll(windows, readings[..|readings| - 1]), readings[|readings| - 1]);
    }
  }

  lemma {:induction false} TrimmedAt(windows: seq<Entry>, horizon: int)
    ensures |Trimmed(windows, horizon)| == |windows|
    ensures forall i :: 0 <= i < |windows| ==>
              Trimmed(windows, horizon)[i] == windows[i].(samples := Filter(windows[i].samples, NotBefore(horizon)))
  {
    if windows != [] {
      var front := windows[..|windows| - 1];
      TrimmedAt(front, horizon);
      forall i | 0 <= i < |windows|
        ensures Trimmed(windows, horizon)[i] == windows[i].(samples := Filter(windows[i].samples, NotBefore(horizon)))
      {
        assert i < |front| ==> Trimmed(windows, horizon)[i] == Trimmed(front, horizon)[i] && windows[i] == front[i];
      }
    }
  }

  lemma {:induction false} PrunedShape(windows: seq<Entry>, now: int)
    requires Shape(windows)
    ensures Shape(Pruned(windows, now)) && WithinRetention(Pruned(windows, now), now)
  {
    var horizon := now - RETENTION_SECONDS;
    var trimmed := Trimmed(windows, horizon);
    TrimmedAt(windows, horizon);
    forall j, k | 0 <= j < k < |trimmed|
      ensures EntryKey(trimmed[j]) != EntryKey(trimmed[k])
    {
      assert EntryKey(windows[j]) != EntryKey(windows[k]);
    }
    FilterDistinct(trimmed, EntryKey, HasSamples());
    FilterMembers(trimmed, HasSamples());
    forall e | e in Pruned(windows, now)
      ensures e.samples != [] && WellKept(e.samples)
      ensures forall s :: s in e.samples ==> s.observedAt >= horizon
    {
      var j :| 0 <= j < |trimmed| && trimmed[j] == e;
      assert windows[j] in windows;
      FilterSorted(windows[j].samples, EarlierLeq, NotBefore(horizon));
      FilterDistinct(windows[j].samples, Moment, NotBefore(horizon));
      FilterMembers(windows[j].samples, NotBefore(horizon));
    }
  }

  /**
   * However the clock and the observations run, after every pass there is one entry per subscription
   * and window, none is empty, each is oldest first with one reading per reset and instant, and nothing
   * is older than the retention.
   */
  lemma {:induction false} PassKeepsShape(windows: seq<Entry>, snapshots: seq<Snapshot>, now: int)
    requires Shape(windows)
    ensures Shape(Recorded(windows, snapshots, now)) && WithinRetention(Recorded(windows, snapshots, now), now)
  {
    TakenAllShape(windows, Readings(snapshots));
    PrunedShape(TakenAll(windows, Readings(snapshots)), now);
  }

  lemma {:induction false} RunShape(passes: seq<Pass>)
    ensures Shape(JournalAfter(passes))
    ensures passes != [] ==> WithinRetention(JournalAfter(passes), passes[|passes| - 1].now)
  {
    if passes != [] {
      var last := passes[|passes| - 1];
      RunShape(passes[..|passes| - 1]);
      PassKeepsShape(JournalAfter(passes[..|passes| - 1]), last.snapshots, last.now);
    }
  }

  // ----- one reset's samples

  lemma {:induction false} LastIsLastOf(samples: seq<Sample>, resetsAt: int)
    ensures var kept := Filter(samples, OfReset(resetsAt));
            LastOf(samples, resetsAt) == if kept == [] then None else Some(kept[|kept| - 1])
  {
    if samples != [] {
      LastIsLastOf(samples[..|samples| - 1], resetsAt);
    }
  }

  /** The journal's rule on the samples of one reset alone. */
  function FiledKept(kept: seq<Sample>, s: Sample): seq<Sample> {
    if kept != [] && kept[|kept| - 1].usedPercent == s.usedPercent then kept
    else Filter(kept, Supersedes(s)) + [s]
  }

  ghost predicate NoneLater(samples: seq<Sample>, t: int) {
    forall s :: s in samples ==> s.observedAt <= t
  }

  lemma {:induction false} KeptInOrder(samples: seq<Sample>, resetsAt: int)
    requires WellKept(samples)
    ensures StrictlyInOrder(Filter(samples, OfReset(resetsAt)))
  {
    var kept := Filter(samples, OfReset(resetsAt));
    FilterSorted(samples, EarlierLeq, OfReset(resetsAt));
    FilterDistinct(samples, Moment, OfReset(resetsAt));
    FilterMembers(samples, OfReset(resetsAt));
    forall i, j | 0 <= i < j < |kept|
      ensures kept[i].observedAt < kept[j].observedAt
    {
      assert kept[i] in kept && kept[j] in kept;
      assert EarlierLeq(kept[i], kept[j]) && Moment(kept[i]) != Moment(kept[j]);
    }
  }

  /** Filing a reading that is not out of order touches its own reset's samples only, as `FiledKept` says. */
  lemma {:induction false} FiledOf(stored: seq<Sample>, s: Sample, resetsAt: int)
    requires WellKept(stored)
    requires resetsAt == s.resetsAt ==> NoneLater(Filter(stored, OfReset(resetsAt)), s.observedAt)
    ensures var kept := Filter(stored, OfReset(resetsAt));
            Filter(Filed(stored, s), OfReset(resetsAt)) == if resetsAt == s.resetsAt then FiledKept(kept, s) else kept
  {
    LastIsLastOf(stored, s.resetsAt);
    if !Repeats(stored, s) {
      if resetsAt == s.resetsAt {
        FiledOwn(stored, s);
      } else {
        FiledOther(stored, s, resetsAt);
      }
    }
  }

  lemma {:induction false} FiledOwn(stored: seq<Sample>, s: Sample)
    requires Sorted(stored, EarlierLeq) && NoneLater(Filter(stored, OfReset(s.resetsAt)), s.observedAt)
    ensures Filter(Sort(Filter(stored, Supersedes(s)) + [s], EarlierLeq), OfReset(s.resetsAt)) ==
            Filter(Filter(stored, OfReset(s.resetsAt)), Supersedes(s)) + [s]
  {
    var kept := Filter(stored, OfReset(s.resetsAt));
    InsertedOf(stored, s, s.resetsAt);
    FilterSorted(stored, EarlierLeq, OfReset(s.resetsAt));
    FilterSorted(kept, EarlierLeq, Supersedes(s));
    FilterMembers(kept, Supersedes(s));
    LatestSorts(Filter(kept, Supersedes(s)), s);
  }

  lemma {:induction false} FiledOther(stored: seq<Sample>, s: Sample, resetsAt: int)
    requires Sorted(stored, EarlierLeq) && resetsAt != s.resetsAt
    ensures Filter(Sort(Filter(stored, Supersedes(s)) + [s], EarlierLeq), OfReset(resetsAt)) ==
            Filter(stored, OfReset(resetsAt))
  {
    InsertedOf(stored, s, resetsAt);
    OtherResetKept(stored, s, resetsAt);
    FilterSorted(stored, EarlierLeq, OfReset(resetsAt));
    SortOfSorted(Filter(stored, OfReset(resetsAt)), EarlierLeq);
  }

  /** Replacing, appending and sorting, seen through the samples of one reset. */
  lemma {:induction false} InsertedOf(stored: seq<Sample>, s: Sample, resetsAt: int)
    ensures var others := Filter(Filter(stored, OfReset(resetsAt)), Supersedes(s));
            Filter(Sort(Filter(stored, Supersedes(s)) + [s], EarlierLeq), OfReset(resetsAt)) ==
            Sort(if resetsAt == s.resetsAt then others + [s] else others, EarlierLeq)
  {
    TimeOrder();
    FilterSort(Filter(stored, Supersedes(s)) + [s], EarlierLeq, OfReset(resetsAt));
    FilterSnoc(Filter(stored, Supersedes(s)), s, OfReset(resetsAt));
    FiltersCommute(stored, Supersedes(s), OfReset(resetsAt));
  }

  lemma {:induction false} OtherResetKept(stored: seq<Sample>, s: Sample, resetsAt: int)
    requires resetsAt != s.resetsAt
    ensures var kept := Filter(stored, OfReset(resetsAt));
            Filter(kept, Supersedes(s)) == kept
  {
    FilterMembers(stored, OfReset(resetsAt));
    FilterAll(Filter(stored, OfReset(resetsAt)), Supersedes(s));
  }

  lemma {:induction false} LatestSorts(samples: seq<Sample>, s: Sample)
    requires Sorted(samples, EarlierLeq) && NoneLater(samples, s.observedAt)
    ensures Sort(samples + [s], EarlierLeq) == samples + [s]
  {
    forall i | 0 <= i < |samples|
      ensures EarlierLeq(samples[i], s)
    {
      assert samples[i] in samples;
    }
    SortOfSorted(samples + [s], EarlierLeq);
  }

  // ----- the journal answers as the log does

  /** What is kept of one reset is in order, was read, and shows the log's value from its first sample on. */
  ghost predicate Follows(kept: seq<Sample>, log: seq<Sample>) {
    StrictlyInOrder(kept) && (forall s :: s in kept ==> s in log) && Agrees(kept, log)
  }

  lemma {:induction false} ValueSnoc(samples: seq<Sample>, s: Sample, t: int)
    ensures ValueAt(samples + [s], t) == if s.observedAt <= t then Some(s.usedPercent) else ValueAt(samples, t)
  {
    assert (samples + [s])[..|samples|] == samples;
  }

  lemma {:induction false} ValueLast(samples: seq<Sample>, t: int)
    requires samples != [] && NoneLater(samples, t)
    ensures ValueAt(samples, t) == Some(samples[|samples| - 1].usedPercent)
  {
    assert samples[|samples| - 1] in samples;
  }

  /** Only the sample of the very instant is replaced, and it is the last one. */
  lemma {:induction false} SupersededValue(kept: seq<Sample>, s: Sample, t: int)
    requires StrictlyInOrder(kept) && NoneLater(kept, s.observedAt) && t < s.observedAt
    requires forall x :: x in kept ==> x.resetsAt == s.resetsAt
    ensures ValueAt(Filter(kept, Supersedes(s)), t) == ValueAt(kept, t)
    ensures Filter(kept, Supersedes(s)) != [] ==> kept != [] && Filter(kept, Supersedes(s))[0] == kept[0]
  {
    if kept != [] {
      var front, last := kept[..|kept| - 1], kept[|kept| - 1];
      assert last in kept;
      forall x | x in front
        ensures Supersedes(s)(x)
      {
        var j :| 0 <= j < |front| && front[j] == x;
        assert kept[j].observedAt < last.observedAt;
      }
      FilterAll(front, Supersedes(s));
      assert kept == front + [last];
      FilterSnoc(front, last, Supersedes(s));
    }
  }

  lemma {:induction false} FilingFollows(kept: seq<Sample>, log: seq<Sample>, s: Sample)
    requires Follows(kept, log) && NoneLater(log, s.observedAt)
    requires forall x :: x in kept ==> x.resetsAt == s.resetsAt
    ensures Follows(FiledKept(kept, s), log + [s])
  {
    var filed := FiledKept(kept, s);
    assert forall x :: x in kept ==> x.observedAt <= s.observedAt;
    FilterMembers(kept, Supersedes(s));
    FiledInOrder(kept, s);
    assert s in log + [s];
    forall t | t >= filed[0].observedAt
      ensures ValueAt(filed, t) == ValueAt(log + [s], t)
    {
      ValueSnoc(log, s, t);
      if kept != [] && kept[|kept| - 1].usedPercent == s.usedPercent {
        if s.observedAt <= t {
          ValueLast(kept, t);
        }
      } else {
        ValueSnoc(Filter(kept, Supersedes(s)), s, t);
        if t < s.observedAt {
          SupersededValue(kept, s, t);
        }
      }
    }
  }

  lemma {:induction false} FiledInOrder(kept: seq<Sample>, s: Sample)
    requires StrictlyInOrder(kept) && NoneLater(kept, s.observedAt)
    requires forall x :: x in kept ==> x.resetsAt == s.resetsAt
    ensures StrictlyInOrder(FiledKept(kept, s)) && FiledKept(kept, s) != []
  {
    var others := Filter(kept, Supersedes(s));
    FilterMembers(kept, Supersedes(s));
    FilterStrict(kept, Supersedes(s));
    forall i | 0 <= i < |others|
      ensures others[i].observedAt < s.observedAt
    {
      assert others[i] in others;
    }
  }

  lemma {:induction false} FilterStrict(samples: seq<Sample>, keep: Sample -> bool)
    requires StrictlyInOrder(samples)
    ensures StrictlyInOrder(Filter(samples, keep))
  {
    if samples != [] {
      var front := samples[..|samples| - 1];
      FilterStrict(front, keep);
      FilterMembers(front, keep);
      forall i | 0 <= i < |Filter(front, keep)|
        ensures Filter(front, keep)[i].observedAt < samples[|samples| - 1].observedAt
      {
        assert Filter(front, keep)[i] in front;
      }
    }
  }

  lemma {:induction false} TrimmedValue(kept: seq<Sample>, horizon: int, t: int)
    requires StrictlyInOrder(kept)
    requires Filter(kept, NotBefore(horizon)) != [] && t >= Filter(kept, NotBefore(horizon))[0].observedAt
    ensures ValueAt(Filter(kept, NotBefore(horizon)), t) == ValueAt(kept, t)
    ensures kept[0].observedAt <= Filter(kept, NotBefore(horizon))[0].observedAt
  {
    var young := Filter(kept, NotBefore(horizon));
    var front, last := kept[..|kept| - 1], kept[|kept| - 1];
    FilterMembers(kept, NotBefore(horizon));
    assert young[0] in young;
    var j :| 0 <= j < |kept| && kept[j] == young[0];
    assert last.observedAt >= horizon;
    if last.observedAt > t {
      ValueSnoc(Filter(front, NotBefore(horizon)), last, t);
      TrimmedValue(front, horizon, t);
    }
  }

  lemma {:induction false} TrimmingFollows(kept: seq<Sample>, log: seq<Sample>, horizon: int)
    requires Follows(kept, log)
    ensures Follows(Filter(kept, NotBefore(horizon)), log)
  {
    var young := Filter(kept, NotBefore(horizon));
    FilterStrict(kept, NotBefore(horizon));
    FilterMembers(kept, NotBefore(horizon));
    if young != [] {
      forall t | t >= young[0].observedAt
        ensures ValueAt(young, t) == ValueAt(log, t)
      {
        TrimmedValue(kept, horizon, t);
      }
    }
  }

  // ----- from one entry to the journal

  lemma {:induction false} SamplesOfEntry(windows: seq<Entry>, j: nat)
    requires j < |windows| && DistinctBy(windows, EntryKey)
    ensures SamplesIn(windows, windows[j].subscriptionKey, windows[j].windowID) == windows[j].samples
  {
    var i := EntryIndex(windows, windows[j].subscriptionKey, windows[j].windowID);
    assert windows[j] in windows;
    assert EntryKey(windows[i]) == EntryKey(windows[j]);
  }

  lemma {:induction false} NoEntry(windows: seq<Entry>, key: string, windowID: string)
    requires forall j :: 0 <= j < |windows| ==> EntryKey(windows[j]) != (key, windowID)
    ensures SamplesIn(windows, key, windowID) == []
  {
  }

  lemma {:induction false} TakenSamples(windows: seq<Entry>, r: Reading, key: string, windowID: string)
    requires Shape(windows)
    ensures SamplesIn(Taken(windows, r), key, windowID) ==
            if r.key == key && r.windowID == windowID then Filed(SamplesIn(windows, key, windowID), r.sample)
            else SamplesIn(windows, key, windowID)
  {
    var taken, i := Taken(windows, r), EntryIndex(windows, r.key, r.windowID);
    TakenShape(windows, r);
    var at := EntryIndex(windows, key, windowID);
    if r.key == key && r.windowID == windowID {
      SamplesOfEntry(taken, i);
    } else if at < |windows| {
      SamplesOfEntry(taken, at);
    } else {
      forall j | 0 <= j < |taken|
        ensures EntryKey(taken[j]) != (key, windowID)
      {
        if j < |windows| {
          assert windows[j] in windows;
        }
      }
      NoEntry(taken, key, windowID);
    }
  }

  function Young(windows: seq<Entry>, now: int, key: string, windowID: string): seq<Sample> {
    Filter(SamplesIn(windows, key, windowID), NotBefore(now - RETENTION_SECONDS))
  }

  lemma {:induction false} PrunedEntry(windows: seq<Entry>, now: int, i: nat)
    requires Shape(windows) && i < |windows|
    requires Filter(windows[i].samples, NotBefore(now - RETENTION_SECONDS)) != []
    ensures SamplesIn(Pruned(windows, now), windows[i].subscriptionKey, windows[i].windowID) ==
            Filter(windows[i].samples, NotBefore(now - RETENTION_SECONDS))
  {
    var trimmed, pruned := Trimmed(windows, now - RETENTION_SECONDS), Pruned(windows, now);
    TrimmedAt(windows, now - RETENTION_SECONDS);
    FilterMembers(trimmed, HasSamples());
    PrunedShape(windows, now);
    assert trimmed[i] in trimmed && trimmed[i] in pruned;
    var k :| 0 <= k < |pruned| && pruned[k] == trimmed[i];
    SamplesOfEntry(pruned, k);
  }

  lemma {:induction false} PrunedAway(windows: seq<Entry>, now: int, key: string, windowID: string)
    requires Shape(windows) && Young(windows, now, key, windowID) == []
    ensures SamplesIn(Pruned(windows, now), key, windowID) == []
  {
    var trimmed, pruned := Trimmed(windows, now - RETENTION_SECONDS), Pruned(windows, now);
    TrimmedAt(windows, now - RETENTION_SECONDS);
    FilterMembers(trimmed, HasSamples());
    forall k | 0 <= k < |pruned|
      ensures EntryKey(pruned[k]) != (key, windowID)
    {
      assert pruned[k] in pruned;
      var j :| 0 <= j < |trimmed| && trimmed[j] == pruned[k];
      SamplesOfEntry(windows, j);
    }
    NoEntry(pruned, key, windowID);
  }

  lemma {:induction false} PrunedSamples(windows: seq<Entry>, now: int, key: string, windowID: string)
    requires Shape(windows)
    ensures SamplesIn(Pruned(windows, now), key, windowID) == Young(windows, now, key, windowID)
  {
    var i := EntryIndex(windows, key, windowID);
    if Young(windows, now, key, windowID) != [] {
      PrunedEntry(windows, now, i);
    } else {
      PrunedAway(windows, now, key, windowID);
    }
  }

  lemma {:induction false} LoggedSnoc(log: seq<Reading>, r: Reading, key: string, windowID: string, resetsAt: int)
    ensures Logged(log + [r], key, windowID, resetsAt) ==
            var before := Logged(log, key, windowID, resetsAt);
            if r.key == key && r.windowID == windowID && r.sample.resetsAt == resetsAt then before + [r.sample]
            else before
  {
    assert (log + [r])[..|log|] == log;
  }

  lemma {:induction false} LoggedPrefix(a: seq<Reading>, b: seq<Reading>, key: string, windowID: string, resetsAt: int)
    requires InOrder(Logged(a + b, key, windowID, resetsAt))
    ensures InOrder(Logged(a, key, windowID, resetsAt))
  {
    if b == [] {
      assert a + b == a;
    } else {
      var front, last := b[..|b| - 1], b[|b| - 1];
      assert a + b == (a + front) + [last];
      LoggedSnoc(a + front, last, key, windowID, resetsAt);
      var shorter, longer := Logged(a + front, key, windowID, resetsAt), Logged(a + b, key, windowID, resetsAt);
      assert forall i :: 0 <= i < |shorter| ==> shorter[i] == longer[i];
      LoggedPrefix(a, front, key, windowID, resetsAt);
    }
  }

  lemma {:induction false} TakingFollows(
    windows: seq<Entry>, log: seq<Reading>, r: Reading, key: string, windowID: string, resetsAt: int)
    requires Shape(windows)
    requires Follows(Kept(windows, key, windowID, resetsAt), Logged(log, key, windowID, resetsAt))
    requires InOrder(Logged(log + [r], key, windowID, resetsAt))
    ensures Follows(Kept(Taken(windows, r), key, windowID, resetsAt), Logged(log + [r], key, windowID, resetsAt))
  {
    TakenSamples(windows, r, key, windowID);
    LoggedSnoc(log, r, key, windowID, resetsAt);
    if r.key == key && r.windowID == windowID {
      var stored, logged := SamplesIn(windows, key, windowID), Logged(log, key, windowID, resetsAt);
      StoredWellKept(windows, key, windowID);
      FilterMembers(stored, OfReset(resetsAt));
      if r.sample.resetsAt == resetsAt {
        AppendedLatest(logged, r.sample);
        FilingFollows(Kept(windows, key, windowID, resetsAt), logged, r.sample);
      }
      FiledOf(stored, r.sample, resetsAt);
    }
  }

  lemma {:induction false} AppendedLatest(logged: seq<Sample>, s: Sample)
    requires InOrder(logged + [s])
    ensures NoneLater(logged, s.observedAt)
  {
    forall x | x in logged
      ensures x.observedAt <= s.observedAt
    {
      var i :| 0 <= i < |logged| && logged[i] == x;
      assert (logged + [s])[i] == x && (logged + [s])[|logged|] == s;
    }
  }

  lemma {:induction false} StoredWellKept(windows: seq<Entry>, key: string, windowID: string)
    requires Shape(windows)
    ensures WellKept(SamplesIn(windows, key, windowID))
  {
    var i := EntryIndex(windows, key, windowID);
    if i < |windows| {
      assert windows[i] in windows;
    }
  }

  lemma {:induction false} TakingAllFollows(
    windows: seq<Entry>, log: seq<Reading>, readings: seq<Reading>, key: string, windowID: string, resetsAt: int)
    requires Shape(windows)
    requires Follows(Kept(windows, key, windowID, resetsAt), Logged(log, key, windowID, resetsAt))
    requires InOrder(Logged(log + readings, key, windowID, resetsAt))
    ensures Follows(Kept(TakenAll(windows, readings), key, windowID, resetsAt),
                    Logged(log + readings, key, windowID, resetsAt))
  {
    if readings == [] {
      assert log + readings == log;
    } else {
      var front, last := readings[..|readings| - 1], readings[|readings| - 1];
      assert log + readings == (log + front) + [last];
      LoggedPrefix(log + front, [last], key, windowID, resetsAt);
      TakingAllFollows(windows, log, front, key, windowID, resetsAt);
      TakenAllShape(windows, front);
      TakingFollows(TakenAll(windows, front), log + front, last, key, windowID, resetsAt);
    }
  }

  /**
   * Over any run in which a reset's readings of one window do not go back in time, the journal shows the
   * full log's value at every instant from its first kept sample on.
   */
  lemma {:induction false} JournalFollowsLog(passes: seq<Pass>, key: string, windowID: string, resetsAt: int)
    requires InOrder(Logged(LogAfter(passes), key, windowID, resetsAt))
    ensures Follows(Kept(JournalAfter(passes), key, windowID, resetsAt),
                    Logged(LogAfter(passes), key, windowID, resetsAt))
  {
    if passes != [] {
      var front, last := passes[..|passes| - 1], passes[|passes| - 1];
      LoggedPrefix(LogAfter(front), Readings(last.snapshots), key, windowID, resetsAt);
      JournalFollowsLog(front, key, windowID, resetsAt);
      RunShape(front);
      PassFollows(JournalAfter(front), LogAfter(front), last, key, windowID, resetsAt);
    }
  }

  lemma {:induction false} PassFollows(
    windows: seq<Entry>, log: seq<Reading>, pass: Pass, key: string, windowID: string, resetsAt: int)
    requires Shape(windows)
    requires Follows(Kept(windows, key, windowID, resetsAt), Logged(log, key, windowID, resetsAt))
    requires InOrder(Logged(log + Readings(pass.snapshots), key, windowID, resetsAt))
    ensures Follows(Kept(Recorded(windows, pass.snapshots, pass.now), key, windowID, resetsAt),
                    Logged(log + Readings(pass.snapshots), key, windowID, resetsAt))
  {
    var readings := Readings(pass.snapshots);
    TakingAllFollows(windows, log, readings, key, windowID, resetsAt);
    TakenAllShape(windows, readings);
    PruningFollows(TakenAll(windows, readings), Logged(log + readings, key, windowID, resetsAt), pass.now, key,
        windowID,
                   resetsAt);
  }

  lemma {:induction false} PruningFollows(
    windows: seq<Entry>, logged: seq<Sample>, now: int, key: string, windowID: string, resetsAt: int)
    requires Shape(windows) && Follows(Kept(windows, key, windowID, resetsAt), logged)
    ensures Follows(Kept(Pruned(windows, now), key, windowID, resetsAt), logged)
  {
    var horizon := now - RETENTION_SECONDS;
    PrunedSamples(windows, now, key, windowID);
    FiltersCommute(SamplesIn(windows, key, windowID), NotBefore(horizon), OfReset(resetsAt));
    TrimmingFollows(Kept(windows, key, windowID, resetsAt), logged, horizon);
  }

  /** A reading that is not out of order is what its window shows from its instant on, written or not. */
  lemma {:induction false} ReadingIsShown(windows: seq<Entry>, r: Reading, t: int)
    requires Shape(windows) && t >= r.sample.observedAt
    requires NoneLater(Kept(windows, r.key, r.windowID, r.sample.resetsAt), r.sample.observedAt)
    ensures ValueAt(Kept(Taken(windows, r), r.key, r.windowID, r.sample.resetsAt), t) == Some(r.sample.usedPercent)
  {
    var s, kept := r.sample, Kept(windows, r.key, r.windowID, r.sample.resetsAt);
    StoredWellKept(windows, r.key, r.windowID);
    TakenSamples(windows, r, r.key, r.windowID);
    FiledOf(SamplesIn(windows, r.key, r.windowID), s, s.resetsAt);
    if kept != [] && kept[|kept| - 1].usedPercent == s.usedPercent {
      ValueLast(kept, t);
    } else {
      ValueSnoc(Filter(kept, Supersedes(s)), s, t);
    }
  }

  // ----- when the curve shows a reading, in order or not

  lemma {:induction false} ValueOfMember(samples: seq<Sample>, i: nat)
    requires StrictlyInOrder(samples) && i < |samples|
    ensures ValueAt(samples, samples[i].observedAt) == Some(samples[i].usedPercent)
  {
    if i < |samples| - 1 {
      ValueOfMember(samples[..|samples| - 1], i);
    }
  }

  lemma {:induction false} WrittenIsShown(stored: seq<Sample>, s: Sample)
    requires WellKept(stored) && !Repeats(stored, s)
    ensures ValueAt(Filter(Filed(stored, s), OfReset(s.resetsAt)), s.observedAt) == Some(s.usedPercent)
  {
    var filed := Filed(stored, s);
    var kept := Filter(filed, OfReset(s.resetsAt));
    FiledWellKept(stored, s);
    KeptInOrder(filed, s.resetsAt);
    var others := Filter(stored, Supersedes(s));
    assert (others + [s])[|others|] == s;
    SortMembers(others + [s], EarlierLeq);
    FilterMembers(filed, OfReset(s.resetsAt));
    assert s in filed && s in kept;
    var i :| 0 <= i < |kept| && kept[i] == s;
    ValueOfMember(kept, i);
  }

  /**
   * Whenever a reading arrives, the entry shows its value at its instant exactly unless the reading
   * repeats the newest value of its reset and the curve did not have that value then.
   */
  lemma {:induction false} CurveShowsReading(stored: seq<Sample>, s: Sample)
    requires WellKept(stored)
    ensures ValueAt(Filter(Filed(stored, s), OfReset(s.resetsAt)), s.observedAt) == Some(s.usedPercent)
      <==> (!Repeats(stored, s)
            || ValueAt(Filter(stored, OfReset(s.resetsAt)), s.observedAt) == Some(s.usedPercent))
  {
    if !Repeats(stored, s) {
      WrittenIsShown(stored, s);
    }
  }

  /** The same for the journal: only the reading's own entry matters. */
  lemma {:induction false} JournalShowsReading(windows: seq<Entry>, r: Reading)
    requires Shape(windows)
    ensures var reset, at, value := r.sample.resetsAt, r.sample.observedAt, Some(r.sample.usedPercent);
      ValueAt(Kept(Taken(windows, r), r.key, r.windowID, reset), at) == value
      <==> (!Repeats(SamplesIn(windows, r.key, r.windowID), r.sample)
            || ValueAt(Kept(windows, r.key, r.windowID, reset), at) == value)
  {
    StoredWellKept(windows, r.key, r.windowID);
    TakenSamples(windows, r, r.key, r.windowID);
    CurveShowsReading(SamplesIn(windows, r.key, r.windowID), r.sample);
  }

  // ----- what is shown once the pass has dropped what aged out

  lemma {:induction false} KeptAfterPass(windows: seq<Entry>, r: Reading, now: int)
    requires Shape(windows)
    requires NoneLater(Kept(windows, r.key, r.windowID, r.sample.resetsAt), r.sample.observedAt)
    ensures Kept(Pruned(Taken(windows, r), now), r.key, r.windowID, r.sample.resetsAt) ==
            Filter(FiledKept(Kept(windows, r.key, r.windowID, r.sample.resetsAt), r.sample),
                   NotBefore(now - RETENTION_SECONDS))
  {
    StoredWellKept(windows, r.key, r.windowID);
    TakenShape(windows, r);
    TakenSamples(windows, r, r.key, r.windowID);
    FiledOf(SamplesIn(windows, r.key, r.windowID), r.sample, r.sample.resetsAt);
    KeptPruned(Taken(windows, r), now, r.key, r.windowID, r.sample.resetsAt);
  }

  lemma {:induction false} KeptPruned(windows: seq<Entry>, now: int, key: string, windowID: string, resetsAt: int)
    requires Shape(windows)
    ensures Kept(Pruned(windows, now), key, windowID, resetsAt) ==
            Filter(Kept(windows, key, windowID, resetsAt), NotBefore(now - RETENTION_SECONDS))
  {
    PrunedSamples(windows, now, key, windowID);
    FiltersCommute(SamplesIn(windows, key, windowID), NotBefore(now - RETENTION_SECONDS), OfReset(resetsAt));
  }

  lemma {:induction false} OldLastOldAll(kept: seq<Sample>, horizon: int)
    requires StrictlyInOrder(kept) && kept != [] && kept[|kept| - 1].observedAt < horizon
    ensures Filter(kept, NotBefore(horizon)) == []
  {
    if |kept| > 1 {
      OldLastOldAll(kept[..|kept| - 1], horizon);
    }
  }

  lemma {:induction false} YoungShows(kept: seq<Sample>, s: Sample, horizon: int)
    requires StrictlyInOrder(kept) && NoneLater(kept, s.observedAt) && s.observedAt >= horizon
    ensures ValueAt(Filter(FiledKept(kept, s), NotBefore(horizon)), s.observedAt) == Some(s.usedPercent)
      <==> !(kept != [] && kept[|kept| - 1].usedPercent == s.usedPercent && kept[|kept| - 1].observedAt < horizon)
  {
    if kept != [] && kept[|kept| - 1].usedPercent == s.usedPercent {
      var front, last := kept[..|kept| - 1], kept[|kept| - 1];
      assert last in kept;
      if last.observedAt < horizon {
        OldLastOldAll(kept, horizon);
      } else {
        ValueSnoc(Filter(front, NotBefore(horizon)), last, s.observedAt);
      }
    } else {
      var others := Filter(kept, Supersedes(s));
      FilterSnoc(others, s, NotBefore(horizon));
      ValueSnoc(Filter(others, NotBefore(horizon)), s, s.observedAt);
    }
  }

  /**
   * A pass leaves its window showing a reading that is neither late nor too old exactly unless the
   * reading repeats a value whose only writing has meanwhile aged out.
   */
  lemma {:induction false} PassShowsReading(windows: seq<Entry>, r: Reading, now: int)
    requires Shape(windows) && r.sample.observedAt >= now - RETENTION_SECONDS
    requires NoneLater(Kept(windows, r.key, r.windowID, r.sample.resetsAt), r.sample.observedAt)
    ensures var last := LastOf(SamplesIn(windows, r.key, r.windowID), r.sample.resetsAt);
      ValueAt(Kept(Pruned(Taken(windows, r), now), r.key, r.windowID, r.sample.resetsAt), r.sample.observedAt)
      == Some(r.sample.usedPercent)
      <==> !(last.Some? && last.value.usedPercent == r.sample.usedPercent
             && last.value.observedAt < now - RETENTION_SECONDS)
  {
    KeptAfterPass(windows, r, now);
    StoredWellKept(windows, r.key, r.windowID);
    KeptInOrder(SamplesIn(windows, r.key, r.windowID), r.sample.resetsAt);
    LastIsLastOf(SamplesIn(windows, r.key, r.windowID), r.sample.resetsAt);
    YoungShows(Kept(windows, r.key, r.windowID, r.sample.resetsAt), r.sample, now - RETENTION_SECONDS);
  }

  predicate SameSlot(x: Reading, r: Reading) {
    x.key == r.key && x.windowID == r.windowID && x.sample.resetsAt == r.sample.resetsAt
  }

  /** A reading of another window or reset leaves a reset's samples alone. */
  lemma {:induction false} OtherLeavesSlot(windows: seq<Entry>, other: Reading, r: Reading)
    requires Shape(windows) && !SameSlot(other, r)
    ensures Kept(Taken(windows, other), r.key, r.windowID, r.sample.resetsAt) ==
            Kept(windows, r.key, r.windowID, r.sample.resetsAt)
  {
    TakenSamples(windows, other, r.key, r.windowID);
    if other.key == r.key && other.windowID == r.windowID {
      StoredWellKept(windows, r.key, r.windowID);
      FiledOf(SamplesIn(windows, r.key, r.windowID), other.sample, r.sample.resetsAt);
    }
  }

  /** Where it does not, the pass leaves nothing of that reset, so the next reading of it is written. */
  lemma {:induction false} NextReadingIsWritten(windows: seq<Entry>, r: Reading, now: int, next: Reading, later: int)
    requires Shape(windows) && r.sample.observedAt >= now - RETENTION_SECONDS
    requires NoneLater(Kept(windows, r.key, r.windowID, r.sample.resetsAt), r.sample.observedAt)
    requires var last := LastOf(SamplesIn(windows, r.key, r.windowID), r.sample.resetsAt);
      last.Some? && last.value.usedPercent == r.sample.usedPercent && last.value.observedAt < now - RETENTION_SECONDS
    requires next.key == r.key && next.windowID == r.windowID && next.sample.resetsAt == r.sample.resetsAt
    requires next.sample.observedAt >= later - RETENTION_SECONDS
    ensures var after := Pruned(Taken(windows, r), now);
      && Kept(after, r.key, r.windowID, r.sample.resetsAt) == []
      && Kept(Pruned(Taken(after, next), later), r.key, r.windowID, r.sample.resetsAt) == [next.sample]
  {
    KeptAfterPass(windows, r, now);
    StoredWellKept(windows, r.key, r.windowID);
    KeptInOrder(SamplesIn(windows, r.key, r.windowID), r.sample.resetsAt);
    LastIsLastOf(SamplesIn(windows, r.key, r.windowID), r.sample.resetsAt);
    OldLastOldAll(Kept(windows, r.key, r.windowID, r.sample.resetsAt), now - RETENTION_SECONDS);
    var after := Pruned(Taken(windows, r), now);
    TakenShape(windows, r);
    PrunedShape(Taken(windows, r), now);
    KeptAfterPass(after, next, later);
    FilterOne(next.sample, NotBefore(later - RETENTION_SECONDS));
    assert FiledKept([], next.sample) == [next.sample];
  }

  lemma {:induction false} FilterOne<T>(x: T, keep: T -> bool)
    ensures Filter([x], keep) == if keep(x) then [x] else []
  {
    var none: seq<T> := [];
    assert none + [x] == [x];
    FilterSnoc(none, x, keep);
  }

  lemma {:induction false} OldEntryPruned(e: Entry, now: int)
    requires |e.samples| == 1 && e.samples[0].observedAt < now - RETENTION_SECONDS
    ensures Pruned([e], now) == []
  {
    var horizon := now - RETENTION_SECONDS;
    var none: seq<Sample>, blank := [], e.(samples := []);
    assert e.samples == [e.samples[0]];
    FilterOne(e.samples[0], NotBefore(horizon));
    TrimmedAt([e], horizon);
    assert Trimmed([e], horizon) == [blank];
    FilterOne(blank, HasSamples());
  }

  lemma {:induction false} OneReading(snapshot: Snapshot, w: QuotaWindow)
    requires snapshot.windows == [w] && w.resetsAt.Some?
    ensures Readings([snapshot]) == [Reading(snapshot.key, snapshot.provider, w.id,
                                             Sample(w.resetsAt.value, snapshot.observedAt, w.usedPercent))]
  {
    assert [w][..0] == [] && [snapshot][..0] == [];
    assert ReadingsOf(snapshot, []) == [];
  }

  /**
   * A value that has not moved for as long as the retention is dropped by the very pass that reads it
   * again: the repeat is not written, and then the old sample ages out.
   */
  lemma {:induction false} UnmovedValueAgesOut(
    key: string, provider: string, id: string, resetsAt: int, used: real, now: int)
    requires now > RETENTION_SECONDS
    ensures Recorded([Entry(key, provider, id, [Sample(resetsAt, 0, used)])],
                     [Snapshot(key, provider, now, [QuotaWindow(id, Some(resetsAt), used)])], now) == []
  {
    var windows := [Entry(key, provider, id, [Sample(resetsAt, 0, used)])];
    var snapshot := Snapshot(key, provider, now, [QuotaWindow(id, Some(resetsAt), used)]);
    var r := Reading(key, provider, id, Sample(resetsAt, now, used));
    OneReading(snapshot, snapshot.windows[0]);
    assert Taken(windows, r) == windows;
    assert [r][..0] == [];
    assert TakenAll(windows, [r]) == windows;
    OldEntryPruned(windows[0], now);
  }

  /** A reading that arrives late and repeats the newest value is dropped, though the curve had another value then. */
  lemma {:induction false} LateRepeatIsLost()
    ensures var first, newest, late := Sample(100, 2, 3.0), Sample(100, 10, 5.0), Sample(100, 4, 5.0);
            && Filed([first, newest], late) == [first, newest]
            && ValueAt([first, newest], 4) == Some(3.0)
            && ValueAt([first, newest, late], 4) == Some(5.0)
  {
    var first, newest, late := Sample(100, 2, 3.0), Sample(100, 10, 5.0), Sample(100, 4, 5.0);
    assert [first, newest][..1] == [first];
    assert [first, newest, late][..2] == [first, newest];
  }
}
