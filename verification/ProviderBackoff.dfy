/** When the phone may next ask a provider session that answered 429, and what that means over whole traces. */
module ProviderBackoff {
  import opened Prelude

  const FIRST_DELAY_SECONDS := 5 * 60
  const MAXIMUM_DELAY_SECONDS := 30 * 60
  const MAXIMUM_RETRY_AFTER_SECONDS := 60 * 60
  const BYPASS_INTERVAL := 60.0
  const RAISED_FLOOR := 300.0
  const RAISED_FLOOR_SPAN := 86_400.0

  /** `until` ends the wait; `delay` is what the next 429 without a Retry-After doubles. */
  datatype Entry = Entry(until: real, delay: int, bypassedAt: Option<real>)

  datatype RaisedFloor = RaisedFloor(until: real, lastAskedAt: real)

  datatype State = State(entries: map<string, Entry>, floors: map<string, RaisedFloor>)

  predicate Held(s: State, key: string, now: real) {
    key in s.entries && now < s.entries[key].until
  }

  predicate PastBackoff(s: State, key: string, now: real, manual: bool) {
    !Held(s, key, now)
    || (manual && (s.entries[key].bypassedAt.Some? ==> now - s.entries[key].bypassedAt.value >= BYPASS_INTERVAL))
  }

  function SpendBypass(s: State, key: string, now: real, manual: bool): State {
    if Held(s, key, now) && PastBackoff(s, key, now, manual)
    then s.(entries := s.entries[key := s.entries[key].(bypassedAt := Some(now))])
    else s
  }

  function DropExpired(s: State, key: string, now: real): State {
    if key in s.floors && now >= s.floors[key].until then s.(floors := s.floors - {key}) else s
  }

  predicate Admitted(s: State, key: string, now: real, manual: bool) {
    var d := DropExpired(s, key, now);
    PastBackoff(d, key, now, manual) && (key in d.floors && !manual ==> now - d.floors[key].lastAskedAt >= RAISED_FLOOR)
  }

  function Asked(s: State, key: string, now: real, manual: bool): State {
    var d := SpendBypass(DropExpired(s, key, now), key, now, manual);
    if Admitted(s, key, now, manual) && key in d.floors
    then d.(floors := d.floors[key := d.floors[key].(lastAskedAt := now)])
    else d
  }

  function NextDelay(previous: Option<int>, retryAfter: Option<int>): int {
    if retryAfter.Some? && retryAfter.value > 0 then Min(retryAfter.value, MAXIMUM_RETRY_AFTER_SECONDS)
    else if previous.Some? then Max(FIRST_DELAY_SECONDS, Min(previous.value * 2, MAXIMUM_DELAY_SECONDS))
    else FIRST_DELAY_SECONDS
  }

  function DelayIn(s: State, key: string): Option<int> {
    if key in s.entries then Some(s.entries[key].delay) else None
  }

  function BypassIn(s: State, key: string): Option<real> {
    if key in s.entries then s.entries[key].bypassedAt else None
  }

  function Limited(s: State, key: string, retryAfter: Option<int>, now: real): State {
    var delay := NextDelay(DelayIn(s, key), retryAfter);
    State(s.entries[key := Entry(now + delay as real, delay, BypassIn(s, key))],
          s.floors[key := RaisedFloor(now + RAISED_FLOOR_SPAN, now)])
  }

  function Cleared(s: State, key: string): State { s.(entries := s.entries - {key}) }

  class ProviderBackoff {
    var entries: map<string, Entry>
    var raisedFloors: map<string, RaisedFloor>

    ghost function Value(): State
      reads this
    {
      State(entries, raisedFloors)
    }

    constructor ()
      ensures Value() == State(map[], map[])
    {
      entries, raisedFloors := map[], map[];
    }

    method Admits(key: string, now: real, manual: bool) returns (admitted: bool)
      modifies this
      ensures admitted == Admitted(old(Value()), key, now, manual)
      ensures Value() == Asked(old(Value()), key, now, manual)
    {
      if key in raisedFloors && now >= raisedFloors[key].until {
        raisedFloors := raisedFloors - {key};
      }
      var past := AdmitsPastBackoff(key, now, manual);
      if !past {
        return false;
      }
      if key !in raisedFloors {
        return true;
      }
      var floor := raisedFloors[key];
      if !(manual || now - floor.lastAskedAt >= RAISED_FLOOR) {
        return false;
      }
      floor := floor.(lastAskedAt := now);
      raisedFloors := raisedFloors[key := floor];
      return true;
    }

    method AdmitsPastBackoff(key: string, now: real, manual: bool) returns (past: bool)
      modifies `entries
      ensures past == PastBackoff(old(Value()), key, now, manual)
      ensures Value() == SpendBypass(old(Value()), key, now, manual)
    {
      if key !in entries || now >= entries[key].until {
        return true;
      }
      if !manual {
        return false;
      }
      var entry := entries[key];
      if entry.bypassedAt.Some? && now - entry.bypassedAt.value < BYPASS_INTERVAL {
        return false;
      }
      entry := entry.(bypassedAt := Some(now));
      entries := entries[key := entry];
      return true;
    }

    method RateLimited(key: string, retryAfterSeconds: Option<int>, now: real)
      modifies this
      ensures Value() == Limited(old(Value()), key, retryAfterSeconds, now)
    {
      var previous := if key in entries then Some(entries[key]) else None;
      var delay: int;
      if retryAfterSeconds.Some? && retryAfterSeconds.value > 0 {
        delay := Min(retryAfterSeconds.value, MAXIMUM_RETRY_AFTER_SECONDS);
      } else if previous.Some? {
        delay := Max(FIRST_DELAY_SECONDS, Min(previous.value.delay * 2, MAXIMUM_DELAY_SECONDS));
      } else {
        delay := FIRST_DELAY_SECONDS;
      }
      entries := entries[key := Entry(now + delay as real, delay,
                                      if previous.Some? then previous.value.bypassedAt else None)];
      raisedFloors := raisedFloors[key := RaisedFloor(now + RAISED_FLOOR_SPAN, now)];
    }

    method Answered(key: string)
      modifies `entries
      ensures Value() == Cleared(old(Value()), key)
    {
      entries := entries - {key};
    }
  }

  // ----- traces

  datatype Event =
    | Ask(at: real, key: string, manual: bool)
    | Refused(at: real, key: string, retryAfter: Option<int>)
    | Reading(at: real, key: string)

  function Step(s: State, e: Event): State {
    match e
    case Ask(at, key, manual) => Asked(s, key, at, manual)
    case Refused(at, key, retryAfter) => Limited(s, key, retryAfter, at)
    case Reading(at, key) => Cleared(s, key)
  }

  function Run(events: seq<Event>): State {
    if events == [] then State(map[], map[]) else Step(Run(events[..|events| - 1]), events[|events| - 1])
  }

  /** The read asked for as event `i` was let through. */
  predicate Read(events: seq<Event>, i: nat)
    requires i < |events|
  {
    events[i].Ask? && Admitted(Run(events[..i]), events[i].key, events[i].at, events[i].manual)
  }

  ghost predicate ClockRuns(events: seq<Event>) {
    forall i, j :: 0 <= i < j < |events| ==> events[i].at <= events[j].at
  }

  // What the history alone says of one key, newest event last.

  /** The wait the last 429 without a reading after it started. */
  function PendingDelay(events: seq<Event>, key: string): Option<int> {
    if events == [] then None
    else
      var front, e := events[..|events| - 1], events[|events| - 1];
      if e.key != key || e.Ask? then PendingDelay(front, key)
      else if e.Refused? then Some(NextDelay(PendingDelay(front, key), e.retryAfter))
      else None
  }

  /** When the last 429 was, if any. */
  function LastRefusal(events: seq<Event>, key: string): Option<real> {
    if events == [] then None
    else if events[|events| - 1].key == key && events[|events| - 1].Refused? then Some(events[|events| - 1].at)
    else LastRefusal(events[..|events| - 1], key)
  }

  /** The last time the session was asked and let through, or answered 429. */
  function LastContact(events: seq<Event>, key: string): Option<real> {
    if events == [] then None
    else
      var e := events[|events| - 1];
      if e.key == key && (e.Refused? || Read(events, |events| - 1)) then Some(e.at)
      else LastContact(events[..|events| - 1], key)
  }

  /** The wait is over, or a reading came after the last 429. */
  predicate Free(events: seq<Event>, key: string, now: real) {
    var delay, refused := PendingDelay(events, key), LastRefusal(events, key);
    delay.Some? && refused.Some? ==> now >= refused.value + delay.value as real
  }

  /** The last read let through inside a wait, since the last reading. */
  function LastBypass(events: seq<Event>, key: string): Option<real> {
    if events == [] then None
    else
      var front, e := events[..|events| - 1], events[|events| - 1];
      if e.key != key || e.Refused? then LastBypass(front, key)
      else if e.Reading? then None
      else if !Free(front, key, e.at) && e.manual && Rested(LastBypass(front, key), e.at) then Some(e.at)
      else LastBypass(front, key)
  }

  predicate Rested(bypass: Option<real>, now: real) {
    bypass.Some? ==> now - bypass.value >= BYPASS_INTERVAL
  }

  /** A day has passed since the last 429, or nothing was read in the last five minutes. */
  predicate FloorAllows(events: seq<Event>, key: string, now: real) {
    var refused, contact := LastRefusal(events, key), LastContact(events, key);
    refused.Some? && now < refused.value + RAISED_FLOOR_SPAN && contact.Some?
    ==> now - contact.value >= RAISED_FLOOR
  }

  predicate Allowed(events: seq<Event>, key: string, now: real, manual: bool) {
    if manual then Free(events, key, now) || Rested(LastBypass(events, key), now)
    else Free(events, key, now) && FloorAllows(events, key, now)
  }
}
