/** The backoff's guarantees over every trace whose clock does not go back. */
module BackoffTheorems {
  import opened Prelude
  import opened ProviderBackoff

  // ----- the state is what the history says

  lemma {:induction false} StepTouchesOneKey(s: State, e: Event, key: string)
    requires e.key != key
    ensures key in Step(s, e).entries <==> key in s.entries
    ensures key in s.entries ==> Step(s, e).entries[key] == s.entries[key]
    ensures key in Step(s, e).floors <==> key in s.floors
    ensures key in s.floors ==> Step(s, e).floors[key] == s.floors[key]
  {
  }

  ghost predicate EntryMatches(s: State, events: seq<Event>, key: string) {
    var delay, refused := PendingDelay(events, key), LastRefusal(events, key);
    && DelayIn(s, key) == delay
    && (delay.Some? ==> refused.Some?)
    && (key in s.entries && refused.Some? ==> s.entries[key].until == refused.value + s.entries[key].delay as real)
  }

  lemma {:induction false} EntryIsHistory(events: seq<Event>, key: string)
    ensures EntryMatches(Run(events), events, key)
  {
    if events != [] {
      var front, e := events[..|events| - 1], events[|events| - 1];
      EntryIsHistory(front, key);
      if e.key != key {
        StepTouchesOneKey(Run(front), e, key);
      }
    }
  }

  lemma {:induction false} HeldIsHistory(events: seq<Event>, key: string, now: real)
    ensures Held(Run(events), key, now) == !Free(events, key, now)
  {
    EntryIsHistory(events, key);
  }

  lemma {:induction false} BypassIsHistory(events: seq<Event>, key: string)
    ensures BypassIn(Run(events), key) == LastBypass(events, key)
  {
    if events != [] {
      var front, e := events[..|events| - 1], events[|events| - 1];
      BypassIsHistory(front, key);
      if e.key != key {
        StepTouchesOneKey(Run(front), e, key);
      } else {
        HeldIsHistory(front, key, e.at);
      }
    }
  }

  /** The raised floor is there for the whole day and remembers the last contact. */
  ghost predicate FloorMatches(s: State, events: seq<Event>, key: string, now: real) {
    var refused := LastRefusal(events, key);
    && (key in s.floors ==> refused.Some?)
    && (refused.Some? && now < refused.value + RAISED_FLOOR_SPAN ==>
          && key in s.floors
          && LastContact(events, key) == Some(s.floors[key].lastAskedAt))
    && (key in s.floors && refused.Some? ==> s.floors[key].until == refused.value + RAISED_FLOOR_SPAN)
  }

  lemma {:induction false} ClockFront(events: seq<Event>)
    requires ClockRuns(events) && events != []
    ensures ClockRuns(events[..|events| - 1])
    ensures |events| > 1 ==> events[|events| - 2].at <= events[|events| - 1].at
  {
  }

  lemma {:induction false} FloorIsHistory(events: seq<Event>, key: string, now: real)
    requires ClockRuns(events) && (events != [] ==> events[|events| - 1].at <= now)
    ensures FloorMatches(Run(events), events, key, now)
  {
    if events != [] {
      var front, e := events[..|events| - 1], events[|events| - 1];
      ClockFront(events);
      FloorIsHistory(front, key, e.at);
      if e.key != key {
        StepTouchesOneKey(Run(front), e, key);
      }
    }
  }

  /**
   * Whether a read is let through is decided by the history alone: an automatic one when no unanswered
   * 429 still asks to wait and, for a day after any 429, nothing was read in the last five minutes; a
   * manual one also inside a wait, once a minute.
   */
  lemma {:induction false} HistoryDecides(events: seq<Event>, key: string, now: real, manual: bool)
    requires ClockRuns(events) && (events != [] ==> events[|events| - 1].at <= now)
    ensures Admitted(Run(events), key, now, manual) <==> Allowed(events, key, now, manual)
  {
    HeldIsHistory(events, key, now);
    BypassIsHistory(events, key);
    FloorIsHistory(events, key, now);
  }

  // ----- waits

  lemma {:induction false} PendingBounded(events: seq<Event>, key: string)
    ensures PendingDelay(events, key).Some? ==> 1 <= PendingDelay(events, key).value <= 3_600
  {
    if events != [] {
      PendingBounded(events[..|events| - 1], key);
    }
  }

  /** Every wait is between a second and an hour, counted from the 429 that started it. */
  lemma {:induction false} WaitsBounded(events: seq<Event>, key: string)
    requires key in Run(events).entries
    ensures LastRefusal(events, key).Some?
    ensures var e := Run(events).entries[key];
            1 <= e.delay <= 3_600
            && e.until == LastRefusal(events, key).value + e.delay as real
  {
    EntryIsHistory(events, key);
    PendingBounded(events, key);
  }

  /** A Retry-After of up to an hour is waited out in full, and a longer one for an hour, whatever came before. */
  lemma {:induction false} RetryAfterIsHonoured(events: seq<Event>, at: real, key: string, seconds: int, now: real)
    requires seconds > 0 && ClockRuns(events + [Refused(at, key, Some(seconds))])
    requires at <= now < at + 3600.0 && now < at + seconds as real
    ensures !Admitted(Run(events + [Refused(at, key, Some(seconds))]), key, now, false)
    ensures DelayIn(Run(events + [Refused(at, key, Some(seconds))]), key) ==
            Some(if seconds <= 3600 then seconds else 3600)
  {
    var after := events + [Refused(at, key, Some(seconds))];
    assert after[..|events|] == events;
    HistoryDecides(after, key, now, false);
    EntryIsHistory(after, key);
  }

  /**
   * A 429 without a Retry-After waits five minutes, or twice what the session still waited, within
   * five and thirty minutes, whatever that wait came from.
   */
  lemma {:induction false} NextWaitDoubles(events: seq<Event>, at: real, key: string, retryAfter: Option<int>)
    requires retryAfter.Some? ==> retryAfter.value <= 0
    ensures var before, after := Run(events), Run(events + [Refused(at, key, retryAfter)]);
      && key in after.entries
      && after.entries[key].until == at + after.entries[key].delay as real
      && 300 <= after.entries[key].delay <= 1_800
      && (key !in before.entries ==> after.entries[key].delay == 300)
      && (key in before.entries ==>
            && (before.entries[key].delay <= 150 ==> after.entries[key].delay == 300)
            && (150 <= before.entries[key].delay <= 900 ==>
                  after.entries[key].delay == before.entries[key].delay + before.entries[key].delay)
            && (900 <= before.entries[key].delay ==> after.entries[key].delay == 1_800))
  {
    assert (events + [Refused(at, key, retryAfter)])[..|events|] == events;
  }

  function PowerOfTwo(n: nat): nat { if n == 0 then 1 else 2 * PowerOfTwo(n - 1) }

  /** How many 429s the session answered since its last reading, when none carried a Retry-After. */
  function StraightRefusals(events: seq<Event>, key: string): Option<nat> {
    if events == [] then Some(0)
    else
      var front, e := events[..|events| - 1], events[|events| - 1];
      if e.key != key || e.Ask? then StraightRefusals(front, key)
      else if e.Reading? then Some(0)
      else if e.retryAfter.Some? && e.retryAfter.value > 0 then None
      else
        var n := StraightRefusals(front, key);
        if n.Some? then Some(n.value + 1) else None
  }

  /** The n-th straight 429 without a Retry-After starts a wait of five minutes doubled n - 1 times, at most thirty. */
  lemma {:induction false} DelayDoubles(events: seq<Event>, key: string)
    requires StraightRefusals(events, key).Some?
    ensures var n := StraightRefusals(events, key).value;
            PendingDelay(events, key) ==
            if n == 0 then None else Some(Min(300 * PowerOfTwo(n - 1), 1_800))
  {
    if events != [] {
      var front, e := events[..|events| - 1], events[|events| - 1];
      if !(e.key == key && e.Reading?) {
        DelayDoubles(front, key);
        if e.key == key && e.Refused? {
          var n := StraightRefusals(front, key).value;
          AtLeastOne(n);
          if n > 0 {
            AtLeastOne(n - 1);
          }
        }
      }
    }
  }

  lemma {:induction false} AtLeastOne(n: nat)
    ensures PowerOfTwo(n) >= 1
  {
    if n > 0 {
      AtLeastOne(n - 1);
    }
  }

  // ----- no session is held for ever

  /** Everything the session did is at least `span` ago. */
  ghost predicate QuietFor(events: seq<Event>, key: string, now: real, span: real) {
    forall e :: e in events && e.key == key ==> now - e.at >= span
  }

  lemma {:induction false} QuietHistory(events: seq<Event>, key: string, now: real, span: real)
    requires QuietFor(events, key, now, span)
    ensures LastRefusal(events, key).Some? ==> now - LastRefusal(events, key).value >= span
    ensures LastContact(events, key).Some? ==> now - LastContact(events, key).value >= span
    ensures LastBypass(events, key).Some? ==> now - LastBypass(events, key).value >= span
  {
    if events != [] {
      var front, last := events[..|events| - 1], events[|events| - 1];
      assert forall e :: e in front ==> e in events;
      assert last in events;
      QuietHistory(front, key, now, span);
    }
  }

  /** An hour after anything the session did, any read is let through; a minute after, any manual one. */
  lemma {:induction false} QuietSessionIsRead(events: seq<Event>, key: string, now: real, manual: bool)
    requires ClockRuns(events) && (events != [] ==> events[|events| - 1].at <= now)
    requires QuietFor(events, key, now, if manual then 60.0 else 3_600.0)
    ensures Admitted(Run(events), key, now, manual)
  {
    QuietHistory(events, key, now, if manual then 60.0 else 3_600.0);
    PendingBounded(events, key);
    HistoryDecides(events, key, now, manual);
  }

  /** Once a session answers, a manual read is let through until the next 429. */
  lemma {:induction false} AnsweredSessionIsRead(events: seq<Event>, at: real, key: string, now: real)
    ensures Admitted(Run(events + [Reading(at, key)]), key, now, true)
  {
    assert (events + [Reading(at, key)])[..|events|] == events;
  }

  /** A session that never answered 429 is read whenever it is asked. */
  lemma {:induction false} UnlimitedSessionIsRead(events: seq<Event>, key: string, now: real, manual: bool)
    requires forall e :: e in events && e.key == key ==> !e.Refused?
    ensures key !in Run(events).entries && key !in Run(events).floors
    ensures Admitted(Run(events), key, now, manual)
  {
    if events != [] {
      var front, last := events[..|events| - 1], events[|events| - 1];
      assert forall e :: e in front ==> e in events;
      assert last in events;
      UnlimitedSessionIsRead(front, key, now, manual);
      if last.key != key {
        StepTouchesOneKey(Run(front), last, key);
      }
    }
  }

  // ----- spacing

  lemma {:induction false} ClockPrefix(events: seq<Event>, n: nat)
    requires ClockRuns(events) && n <= |events|
    ensures ClockRuns(events[..n])
    ensures n < |events| && n > 0 ==> events[..n][n - 1].at <= events[n].at
  {
  }

  lemma {:induction false} ReadIsAllowed(events: seq<Event>, i: nat)
    requires ClockRuns(events) && i < |events| && events[i].Ask?
    ensures Read(events, i) <==> Allowed(events[..i], events[i].key, events[i].at, events[i].manual)
  {
    ClockPrefix(events, i);
    HistoryDecides(events[..i], events[i].key, events[i].at, events[i].manual);
  }

  lemma {:induction false} ReadInPrefix(events: seq<Event>, n: nat, i: nat)
    requires i < n <= |events|
    ensures Read(events[..n], i) == Read(events, i)
  {
    assert events[..n][..i] == events[..i];
  }

  /** The last contact is no earlier than any read let through. */
  lemma {:induction false} ContactCovers(events: seq<Event>, i: nat)
    requires ClockRuns(events) && i < |events| && (Read(events, i) || events[i].Refused?)
    ensures LastContact(events, events[i].key).Some? && LastContact(events, events[i].key).value >= events[i].at
  {
    var n := |events| - 1;
    var e := events[n];
    if !(e.key == events[i].key && (e.Refused? || Read(events, n))) {
      ClockPrefix(events, n);
      ReadInPrefix(events, n, i);
      ContactCovers(events[..n], i);
    } else if i < n {
      assert events[i].at <= events[n].at;
    }
  }

  lemma {:induction false} RefusalCovers(events: seq<Event>, l: nat)
    requires ClockRuns(events) && l < |events| && events[l].Refused?
    ensures LastRefusal(events, events[l].key).Some? && LastRefusal(events, events[l].key).value >= events[l].at
  {
    var n := |events| - 1;
    if events[n].key == events[l].key && events[n].Refused? {
      if l < n {
        assert events[l].at <= events[n].at;
      }
    } else {
      ClockPrefix(events, n);
      RefusalCovers(events[..n], l);
    }
  }

  /**
   * For a day after a 429, an automatic read comes at least five minutes after any earlier read of the
   * session, and after any earlier 429 of it, whatever came between.
   */
  lemma {:induction false} AutomaticReadsApart(events: seq<Event>, i: nat, l: nat, j: nat)
    requires ClockRuns(events) && i < j < |events| && l < j
    requires events[l].Refused? && events[l].key == events[j].key && events[j].at < events[l].at + 86_400.0
    requires (Read(events, i) || events[i].Refused?) && events[i].key == events[j].key
    requires Read(events, j) && !events[j].manual
    ensures events[j].at - events[i].at >= 300.0
  {
    var past := events[..j];
    ClockPrefix(events, j);
    ReadIsAllowed(events, j);
    ReadInPrefix(events, j, i);
    ContactCovers(past, i);
    RefusalCovers(past, l);
  }

  /** An automatic read after a 429 with no reading between comes only when that 429's wait is over. */
  lemma {:induction false} AutomaticReadsWait(events: seq<Event>, j: nat)
    requires ClockRuns(events) && j < |events| && Read(events, j) && !events[j].manual
    requires PendingDelay(events[..j], events[j].key).Some?
    ensures LastRefusal(events[..j], events[j].key).Some?
    ensures events[j].at >= LastRefusal(events[..j], events[j].key).value
                            + PendingDelay(events[..j], events[j].key).value as real
  {
    ReadIsAllowed(events, j);
    EntryIsHistory(events[..j], events[j].key);
  }

  /** A read let through while its session was to be left alone. */
  predicate Bypass(events: seq<Event>, i: nat)
    requires i < |events|
  {
    Read(events, i) && !Free(events[..i], events[i].key, events[i].at)
  }

  predicate NoReadingBetween(events: seq<Event>, i: nat, j: nat, key: string)
    requires i <= j <= |events|
  {
    forall k :: i < k < j ==> !(events[k].Reading? && events[k].key == key)
  }

  lemma {:induction false} BypassRemembered(events: seq<Event>, i: nat)
    requires ClockRuns(events) && i < |events| && Bypass(events, i)
    requires NoReadingBetween(events, i, |events|, events[i].key)
    ensures LastBypass(events, events[i].key).Some? && LastBypass(events, events[i].key).value >= events[i].at
  {
    var n := |events| - 1;
    ReadIsAllowed(events, i);
    if i < n {
      ClockPrefix(events, n);
      ReadInPrefix(events, n, i);
      assert events[..n][..i] == events[..i];
      BypassRemembered(events[..n], i);
      assert events[i].at <= events[n].at;
      assert !(events[n].Reading? && events[n].key == events[i].key);
    }
  }

  /** Reads past a wait, with no reading between, are at least a minute apart, even when a 429 starts a new wait. */
  lemma {:induction false} BypassesApart(events: seq<Event>, i: nat, j: nat)
    requires ClockRuns(events) && i < j < |events| && events[i].key == events[j].key
    requires Bypass(events, i) && Bypass(events, j)
    requires NoReadingBetween(events, i, j, events[i].key)
    ensures events[j].at - events[i].at >= 60.0
  {
    ClockPrefix(events, j);
    ReadIsAllowed(events, j);
    ReadInPrefix(events, j, i);
    assert events[..j][..i] == events[..i];
    BypassRemembered(events[..j], i);
  }
}
