/**
 * The Account settings document, the edits a client makes to it, and the fold that replays a list
 * of edits onto a document.
 */
module SettingsDocument {
  import opened Prelude

  /** What an edit names. Two edits with one target overwrite each other. */
  datatype Target =
    | ResetReminders
    | PaceAlerts
    | Thresholds(selector: string)
    | BudgetTarget
    | HistorySync

  datatype Edit =
    | SetResetReminders(on: bool)
    | SetPaceAlerts(on: bool)
    | SetThresholds(selector: string, values: seq<int>)
    | SetBudget(cents: Option<int>, alerts: bool)
    | SetHistorySync(on: bool)

  /** Amounts are whole cents, which is all the wire carries. */
  datatype Budget = Budget(cents: Option<int>, alerts: bool)

  datatype Policy = Policy(
    resetReminders: bool,
    paceAlerts: bool,
    thresholds: map<string, seq<int>>,
    budget: Budget,
    historySync: bool)

  /** `writesHistory` is set when a PUT of this document names the history switch. */
  datatype Document = Document(revision: nat, policy: Policy, writesHistory: bool)

  const MAXIMUM_CENTS := 100_000_000
  const MAXIMUM_THRESHOLDS := 2
  const DEFAULT_THRESHOLDS := [20, 10]

  function TargetOf(e: Edit): Target {
    match e
    case SetResetReminders(_) => ResetReminders
    case SetPaceAlerts(_) => PaceAlerts
    case SetThresholds(selector, _) => Thresholds(selector)
    case SetBudget(_, _) => BudgetTarget
    case SetHistorySync(_) => HistorySync
  }

  function NormalizedAmount(cents: Option<int>): Option<int> {
    if cents.Some? && 0 < cents.value <= MAXIMUM_CENTS then cents else None
  }

  /** The values in `values` from `top` down to 1, each once. */
  function Descending(values: seq<int>, top: nat): (r: seq<int>)
    ensures forall v :: v in r <==> v in values && 1 <= v <= top
    ensures forall i :: 0 <= i < |r| ==> 1 <= r[i] <= top
    ensures forall i, j :: 0 <= i < j < |r| ==> r[i] > r[j]
  {
    if top == 0 then [] else (if top in values then [top] else []) + Descending(values, top - 1)
  }

  /** Drops values outside 1..99, then unique descending; an empty result is the default pair. */
  function Normalized(values: seq<int>): seq<int> {
    var cleaned := Descending(values, 99);
    if cleaned == [] then DEFAULT_THRESHOLDS else cleaned
  }

  function WireThresholds(values: seq<int>): seq<int> {
    var normal := Normalized(values);
    if |normal| <= MAXIMUM_THRESHOLDS then normal else normal[..MAXIMUM_THRESHOLDS]
  }

  /** One edit replayed onto a document; every other field is carried through. */
  function Reapply(e: Edit, d: Document): Document {
    match e
    case SetResetReminders(on) => d.(policy := d.policy.(resetReminders := on))
    case SetPaceAlerts(on) => d.(policy := d.policy.(paceAlerts := on))
    case SetThresholds(selector, values) =>
      d.(policy := d.policy.(thresholds := d.policy.thresholds[selector := WireThresholds(values)]))
    case SetBudget(cents, alerts) =>
      d.(policy := d.policy.(budget := Budget(NormalizedAmount(cents), alerts)))
    case SetHistorySync(on) =>
      d.(policy := d.policy.(historySync := on), writesHistory := true)
  }

  /** One document carrying every edit, in queue order. */
  function Folding(edits: seq<Edit>, base: Document): Document {
    if edits == [] then base
    else Reapply(edits[|edits| - 1], Folding(edits[..|edits| - 1], base))
  }

  // ----- what a document says, target by target

  datatype Setting = Flag(on: bool) | Levels(values: Option<seq<int>>) | Money(budget: Budget)

  function ValueAt(p: Policy, t: Target): Setting {
    match t
    case ResetReminders => Flag(p.resetReminders)
    case PaceAlerts => Flag(p.paceAlerts)
    case Thresholds(s) => Levels(if s in p.thresholds then Some(p.thresholds[s]) else None)
    case BudgetTarget => Money(p.budget)
    case HistorySync => Flag(p.historySync)
  }

  /** What an accepted document says at the target of `e`. */
  function Wanted(e: Edit): Setting {
    match e
    case SetResetReminders(on) => Flag(on)
    case SetPaceAlerts(on) => Flag(on)
    case SetThresholds(_, values) => Levels(Some(WireThresholds(values)))
    case SetBudget(cents, alerts) => Money(Budget(NormalizedAmount(cents), alerts))
    case SetHistorySync(on) => Flag(on)
  }

  /** The last edit in the list that names `t`. */
  function LastFor(edits: seq<Edit>, t: Target): Option<Edit> {
    if edits == [] then None
    else if TargetOf(edits[|edits| - 1]) == t then Some(edits[|edits| - 1])
    else LastFor(edits[..|edits| - 1], t)
  }

  ghost predicate Names(edits: seq<Edit>, t: Target) {
    exists e :: e in edits && TargetOf(e) == t
  }

  /** A policy is determined by what it says at each target. */
  lemma {:induction false} SameEverywhere(p: Policy, q: Policy)
    requires forall t :: ValueAt(p, t) == ValueAt(q, t)
    ensures p == q
  {
    assert ValueAt(p, ResetReminders) == ValueAt(q, ResetReminders);
    assert ValueAt(p, PaceAlerts) == ValueAt(q, PaceAlerts);
    assert ValueAt(p, BudgetTarget) == ValueAt(q, BudgetTarget);
    assert ValueAt(p, HistorySync) == ValueAt(q, HistorySync);
    forall s
      ensures (s in p.thresholds) == (s in q.thresholds)
      ensures s in p.thresholds && s in q.thresholds ==> p.thresholds[s] == q.thresholds[s]
    {
      assert ValueAt(p, Thresholds(s)) == ValueAt(q, Thresholds(s));
    }
    assert p.thresholds == q.thresholds;
  }

  /** A fold says, at each target, what the last edit naming it wants, and otherwise the base. */
  lemma {:induction false} FoldingSays(edits: seq<Edit>, base: Document, t: Target)
    ensures ValueAt(Folding(edits, base).policy, t)
         == if LastFor(edits, t).Some? then Wanted(LastFor(edits, t).value) else ValueAt(base.policy, t)
    ensures Folding(edits, base).revision == base.revision
    ensures Folding(edits, base).writesHistory == (base.writesHistory || LastFor(edits, HistorySync).Some?)
  {
    if edits != [] {
      FoldingSays(edits[..|edits| - 1], base, t);
    }
  }

  /** Lists whose last word agrees at every target fold alike onto every document. */
  lemma {:induction false} FoldingByLastWord(a: seq<Edit>, b: seq<Edit>, base: Document)
    requires forall t :: LastFor(a, t) == LastFor(b, t)
    ensures Folding(a, base) == Folding(b, base)
  {
    var x, y := Folding(a, base), Folding(b, base);
    forall t
      ensures ValueAt(x.policy, t) == ValueAt(y.policy, t)
    {
      FoldingSays(a, base, t);
      FoldingSays(b, base, t);
    }
    SameEverywhere(x.policy, y.policy);
    FoldingSays(a, base, HistorySync);
    FoldingSays(b, base, HistorySync);
  }

  lemma {:induction false} LastForIs(edits: seq<Edit>, t: Target)
    ensures LastFor(edits, t).Some? <==> Names(edits, t)
    ensures LastFor(edits, t).Some? ==>
      LastFor(edits, t).value in edits && TargetOf(LastFor(edits, t).value) == t
  {
    if edits != [] {
      var front := edits[..|edits| - 1];
      LastForIs(front, t);
      assert edits == front + [edits[|edits| - 1]];
    }
  }

  ghost predicate DistinctTargets(edits: seq<Edit>) {
    forall i, j :: 0 <= i < j < |edits| ==> TargetOf(edits[i]) != TargetOf(edits[j])
  }

  /** Among edits of distinct targets the order of the fold does not matter. */
  lemma {:induction false} FoldingInAnyOrder(a: seq<Edit>, b: seq<Edit>, base: Document)
    requires DistinctTargets(a) && DistinctTargets(b)
    requires multiset(a) == multiset(b)
    ensures Folding(a, base) == Folding(b, base)
  {
    forall t
      ensures LastFor(a, t) == LastFor(b, t)
    {
      LastForIs(a, t);
      LastForIs(b, t);
      forall e: Edit
        ensures e in a <==> e in b
      {
        assert e in multiset(a) <==> e in multiset(b);
      }
    }
    FoldingByLastWord(a, b, base);
  }

  /** Folding one list after another is folding their concatenation. */
  lemma {:induction false} FoldingAppend(a: seq<Edit>, b: seq<Edit>, base: Document)
    ensures Folding(a + b, base) == Folding(b, Folding(a, base))
  {
    if b == [] {
      assert a + b == a;
    } else {
      var front := b[..|b| - 1];
      assert (a + b)[..|a + b| - 1] == a + front;
      FoldingAppend(a, front, base);
    }
  }

  // ----- threshold lists as stored and as sent

  lemma {:induction false} DescendingAgain(sub: seq<int>, top: nat)
    requires forall i, j :: 0 <= i < j < |sub| ==> sub[i] > sub[j]
    requires forall v :: v in sub ==> 1 <= v <= top
    ensures Descending(sub, top) == sub
  {
    assert sub != [] ==> sub[0] in sub;
    if top == 0 {
    } else if top in sub {
      assert sub[0] == top by {
        var i :| 0 <= i < |sub| && sub[i] == top;
        if i > 0 { assert sub[0] > sub[i]; assert sub[0] in sub; }
      }
      forall v | v in sub[1..]
        ensures 1 <= v <= top - 1
      {
        var i :| 0 <= i < |sub[1..]| && sub[1..][i] == v;
        assert sub[0] > sub[i + 1];
        assert v in sub;
      }
      DescendingAgain(sub[1..], top - 1);
      DescendingIgnores(sub, sub[1..], top - 1);
    } else {
      DescendingAgain(sub, top - 1);
    }
  }

  lemma {:induction false} DescendingIgnores(a: seq<int>, b: seq<int>, top: nat)
    requires forall v :: 1 <= v <= top ==> (v in a <==> v in b)
    ensures Descending(a, top) == Descending(b, top)
  {
    if top > 0 {
      DescendingIgnores(a, b, top - 1);
    }
  }

  /** What the phone stores and what it sends are both stable under the wire rule. */
  lemma {:induction false} WireIsStable(values: seq<int>)
    ensures WireThresholds(Normalized(values)) == WireThresholds(values)
    ensures WireThresholds(WireThresholds(values)) == WireThresholds(values)
    ensures Normalized(WireThresholds(values)) == WireThresholds(values)
  {
    var normal := Normalized(values);
    DescendingAgain(normal, 99);
    var wire := WireThresholds(values);
    assert forall v :: v in wire ==> v in normal;
    DescendingAgain(wire, 99);
  }

  predicate InRange(values: seq<int>, v: int) {
    v in values && 0 < v < 100
  }

  /** `stored` holds the two largest of the values between 1 and 99, or the default pair when there is none. */
  ghost predicate LargestTwo(values: seq<int>, stored: seq<int>) {
    if forall v :: v in values ==> !(0 < v < 100) then stored == [20, 10]
    else
      && 1 <= |stored| <= 2
      && InRange(values, stored[0]) && (forall v :: InRange(values, v) ==> v <= stored[0])
      && if |stored| == 1 then forall v :: InRange(values, v) ==> v == stored[0]
         else
           && InRange(values, stored[1]) && stored[1] < stored[0]
           && forall v :: InRange(values, v) && v != stored[0] ==> v <= stored[1]
  }

  lemma {:induction false} FirstTwoAreLargest(values: seq<int>, all: seq<int>)
    requires forall v :: v in all <==> InRange(values, v)
    requires forall i, j :: 0 <= i < j < |all| ==> all[i] > all[j]
    requires all != []
    ensures LargestTwo(values, if |all| <= 2 then all else all[..2])
  {
    assert all[0] in all;
    assert |all| > 1 ==> all[1] in all;
    forall v | InRange(values, v)
      ensures v == all[0] || (|all| > 1 && v <= all[1] < all[0])
    {
      var i :| 0 <= i < |all| && all[i] == v;
    }
  }

  lemma {:induction false} WireIsLargestTwo(values: seq<int>)
    ensures LargestTwo(values, WireThresholds(values))
  {
    var all := Descending(values, 99);
    assert forall v :: v in all <==> InRange(values, v);
    if all == [] {
      assert forall v :: v in values ==> !InRange(values, v);
    } else {
      FirstTwoAreLargest(values, all);
    }
  }

  /** What the edit says is stored: amounts in range and flags as they are, threshold lists as their largest two. */
  ghost predicate StoredAs(e: Edit, p: Policy) {
    match e
    case SetResetReminders(on) => p.resetReminders == on
    case SetPaceAlerts(on) => p.paceAlerts == on
    case SetHistorySync(on) => p.historySync == on
    case SetBudget(cents, alerts) =>
      && p.budget.alerts == alerts
      && p.budget.cents == (if cents.Some? && (cents.value <= 0 || cents.value > 100_000_000) then None else cents)
    case SetThresholds(selector, values) =>
      selector in p.thresholds && LargestTwo(values, p.thresholds[selector])
  }

  lemma {:induction false} WantedIsStored(e: Edit, p: Policy)
    requires ValueAt(p, TargetOf(e)) == Wanted(e)
    ensures StoredAs(e, p)
  {
    if e.SetThresholds? {
      WireIsLargestTwo(e.values);
    }
  }
}
