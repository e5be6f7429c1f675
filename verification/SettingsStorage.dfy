/** The queue as it is kept between launches, and the one-record key it replaced. */
module SettingsStorage {
  import opened Prelude
  import opened SettingsDocument
  import opened SettingsQueue

  datatype Kind = KResetReminders | KPaceAlerts | KThresholds | KBudget | KHistorySync

  datatype Record = Record(
    id: Option<nat>,
    account: string,
    kind: Kind,
    boolValue: Option<bool>,
    selector: Option<string>,
    thresholds: Option<seq<int>>,
    amount: Option<int>,
    budgetAlerts: Option<bool>)

  datatype File = File(nextID: nat, items: seq<Record>)

  /** `single` is the key that held one record; `edits` is the list that replaced it. */
  datatype Defaults = Defaults(single: Option<Record>, edits: Option<File>)

  datatype Queue = Queue(items: seq<Pending>, nextID: nat)

  function ToRecord(p: Pending): Record {
    var blank := Record(Some(p.id), p.account, KBudget, None, None, None, None, None);
    match p.edit
    case SetResetReminders(on) => blank.(kind := KResetReminders, boolValue := Some(on))
    case SetPaceAlerts(on) => blank.(kind := KPaceAlerts, boolValue := Some(on))
    case SetThresholds(selector, values) =>
      blank.(kind := KThresholds, selector := Some(selector), thresholds := Some(values))
    case SetBudget(cents, alerts) => blank.(amount := cents, budgetAlerts := Some(alerts))
    case SetHistorySync(on) => blank.(kind := KHistorySync, boolValue := Some(on))
  }

  /** The edit a record names, or nothing when a part it needs is missing. */
  function EditOf(r: Record): Option<Edit> {
    match r.kind
    case KResetReminders => if r.boolValue.Some? then Some(SetResetReminders(r.boolValue.value)) else None
    case KPaceAlerts => if r.boolValue.Some? then Some(SetPaceAlerts(r.boolValue.value)) else None
    case KThresholds =>
      if r.selector.Some? && r.thresholds.Some?
      then Some(SetThresholds(r.selector.value, r.thresholds.value)) else None
    case KBudget =>
      if r.budgetAlerts.Some? then Some(SetBudget(r.amount, r.budgetAlerts.value)) else None
    case KHistorySync => if r.boolValue.Some? then Some(SetHistorySync(r.boolValue.value)) else None
  }

  function FromRecord(r: Record): Option<Pending> {
    var e := EditOf(r);
    if e.None? then None
    else Some(Pending(if r.id.Some? then r.id.value else 1, r.account, e.value))
  }

  function Records(items: seq<Pending>): seq<Record> {
    if items == [] then [] else [ToRecord(items[0])] + Records(items[1..])
  }

  function ReadOne(r: Record): seq<Pending> {
    var p := FromRecord(r);
    if p.Some? then [p.value] else []
  }

  /** The records that still name an edit. */
  function Readable(records: seq<Record>): seq<Pending> {
    if records == [] then [] else ReadOne(records[0]) + Readable(records[1..])
  }

  function HighestID(items: seq<Pending>): (n: nat)
    ensures forall i :: 0 <= i < |items| ==> items[i].id <= n
  {
    if items == [] then 0 else Max(items[0].id, HighestID(items[1..]))
  }

  function SaveQueue(items: seq<Pending>, nextID: nat): Defaults {
    Defaults(None, if items == [] then None else Some(File(nextID, Records(items))))
  }

  /** What a launch reads, and what it leaves stored. */
  function LoadQueue(d: Defaults): (Queue, Defaults) {
    if d.edits.Some? then
      var items := Readable(d.edits.value.items);
      (Queue(items, Max(d.edits.value.nextID, HighestID(items) + 1)), d.(single := None))
    else if d.single.Some? && FromRecord(d.single.value).Some? then
      var migrated := FromRecord(d.single.value).value.(id := 1);
      (Queue([migrated], 2), SaveQueue([migrated], 2))
    else
      (Queue([], 1), d.(single := None))
  }

  lemma {:induction false} RecordsReadable(items: seq<Pending>)
    ensures Readable(Records(items)) == items
  {
    if items != [] {
      RecordsReadable(items[1..]);
      assert FromRecord(ToRecord(items[0])) == Some(items[0]);
      assert Records(items)[1..] == Records(items[1..]);
    }
  }

  /** A relaunch keeps every queued edit, and never hands out an id that one of them has. */
  lemma {:induction false} RelaunchKeepsQueue(items: seq<Pending>, nextID: nat)
    ensures var q := LoadQueue(SaveQueue(items, nextID)).0;
      && q.items == items
      && (forall x :: x in items ==> x.id < q.nextID)
      && (items != [] && (forall x :: x in items ==> x.id < nextID) ==> q.nextID == nextID)
  {
    RecordsReadable(items);
    if items != [] {
      HighestIsThere(items);
    }
  }

  lemma {:induction false} HighestIsThere(items: seq<Pending>)
    requires items != []
    ensures exists x :: x in items && x.id == HighestID(items)
  {
    if |items| > 1 {
      HighestIsThere(items[1..]);
      assert items[0] in items;
      var y :| y in items[1..] && y.id == HighestID(items[1..]);
      assert y in items;
    } else {
      assert HighestID(items[1..]) == 0;
      assert items[0] in items && items[0].id == HighestID(items);
    }
  }

  /** Launching twice with nothing done in between is launching once, from any stored state. */
  lemma {:induction false} SecondLaunchAgrees(d: Defaults)
    ensures LoadQueue(LoadQueue(d).1).0 == LoadQueue(d).0
    ensures forall x :: x in LoadQueue(d).0.items ==> x.id < LoadQueue(d).0.nextID
  {
    if d.edits.None? && d.single.Some? && FromRecord(d.single.value).Some? {
      var migrated := FromRecord(d.single.value).value.(id := 1);
      RecordsReadable([migrated]);
      assert HighestID([migrated]) == 1;
    }
  }

  /** A record left by the one-record key is the queue of the first launch, and of every launch after it. */
  lemma {:induction false} SingleRecordIsKept(p: Pending)
    ensures var (queue, stored) := LoadQueue(Defaults(Some(ToRecord(p)), None));
      && queue == Queue([Pending(1, p.account, p.edit)], 2)
      && stored.single.None?
      && LoadQueue(stored).0 == queue
  {
    var migrated := p.(id := 1);
    assert FromRecord(ToRecord(p)) == Some(p);
    RelaunchKeepsQueue([migrated], 2);
    assert HighestID([migrated]) == 1;
  }

  lemma {:induction false} ReadableAppend(a: seq<Record>, b: seq<Record>)
    ensures Readable(a + b) == Readable(a) + Readable(b)
  {
    if a == [] {
      assert a + b == b;
    } else {
      ReadableAppend(a[1..], b);
      assert (a + b)[1..] == a[1..] + b && (a + b)[0] == a[0];
      assert ReadOne(a[0]) + (Readable(a[1..]) + Readable(b)) == (ReadOne(a[0]) + Readable(a[1..])) + Readable(b);
    }
  }

  /** A record that names no edit is left out, and the records around it are kept. */
  lemma {:induction false} UnreadableIsSkipped(before: seq<Record>, r: Record, later: seq<Record>)
    requires FromRecord(r).None?
    ensures Readable(before + [r] + later) == Readable(before) + Readable(later)
  {
    var rest := [r] + later;
    ReadableAppend(before, rest);
    assert before + [r] + later == before + rest && rest[1..] == later;
  }
}
