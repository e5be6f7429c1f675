/**
 * The un-acknowledged edits a phone holds, the local values it shows, and what each answer from
 * Relay does to both. The functions on `Phone` are the specification; the class below is the
 * object that is updated in place.
 */
module SettingsQueue {
  import opened Prelude
  import opened SettingsDocument

  datatype Pending = Pending(id: nat, account: string, edit: Edit)

  /** The rules store, the budget store and the history switch. `enabled` is this device's own. */
  datatype Local = Local(
    enabled: bool,
    resetReminders: bool,
    paceAlerts: bool,
    thresholds: map<string, seq<int>>,
    budget: Budget,
    historySync: Option<bool>)

  datatype Phone = Phone(pending: seq<Pending>, nextID: nat, local: Local, generation: nat)

  // ----- the local values

  function ApplyLocally(l: Local, e: Edit): Local {
    match e
    case SetResetReminders(on) => l.(resetReminders := on)
    case SetPaceAlerts(on) => l.(paceAlerts := on)
    case SetThresholds(selector, values) =>
      l.(thresholds := l.thresholds[selector := Normalized(values)])
    case SetBudget(cents, alerts) => l.(budget := Budget(NormalizedAmount(cents), alerts))
    case SetHistorySync(on) => l.(historySync := Some(on))
  }

  function Adopt(l: Local, p: Policy): Local {
    Local(
      l.enabled,
      p.resetReminders,
      p.paceAlerts,
      map s | s in p.thresholds :: Normalized(p.thresholds[s]),
      Budget(NormalizedAmount(p.budget.cents), p.budget.alerts),
      Some(p.historySync))
  }

  /** The policy the stores hold, as the document would carry it. */
  function CurrentPolicy(l: Local): Policy {
    Policy(
      l.resetReminders,
      l.paceAlerts,
      map s | s in l.thresholds :: WireThresholds(l.thresholds[s]),
      l.budget,
      l.historySync == Some(true))
  }

  ghost predicate Shows(l: Local, p: Policy) {
    l.historySync.Some? && CurrentPolicy(l) == p
  }

  /** What the document decoder admits: lists already in wire form, amounts already in range. */
  ghost predicate WireReady(p: Policy) {
    && (forall s :: s in p.thresholds ==> WireThresholds(p.thresholds[s]) == p.thresholds[s])
    && NormalizedAmount(p.budget.cents) == p.budget.cents
  }

  lemma {:induction false} AdoptShows(l: Local, p: Policy)
    requires WireReady(p)
    ensures Shows(Adopt(l, p), p)
    ensures Adopt(l, p).enabled == l.enabled
  {
    forall s | s in p.thresholds
      ensures WireThresholds(Normalized(p.thresholds[s])) == p.thresholds[s]
    {
      WireIsStable(p.thresholds[s]);
    }
    assert CurrentPolicy(Adopt(l, p)).thresholds == p.thresholds;
  }

  lemma {:induction false} EditShows(l: Local, d: Document, e: Edit)
    requires Shows(l, d.policy)
    ensures Shows(ApplyLocally(l, e), Reapply(e, d).policy)
    ensures ApplyLocally(l, e).enabled == l.enabled
  {
    if e.SetThresholds? {
      WireIsStable(e.values);
      var after := CurrentPolicy(ApplyLocally(l, e)).thresholds;
      assert after == Reapply(e, d).policy.thresholds;
    }
  }

  lemma {:induction false} ReapplyWireReady(e: Edit, d: Document)
    requires WireReady(d.policy)
    ensures WireReady(Reapply(e, d).policy)
  {
    if e.SetThresholds? {
      WireIsStable(e.values);
    }
  }

  lemma {:induction false} FoldingWireReady(edits: seq<Edit>, d: Document)
    requires WireReady(d.policy)
    ensures WireReady(Folding(edits, d).policy)
  {
    if edits != [] {
      var front := edits[..|edits| - 1];
      FoldingWireReady(front, d);
      ReapplyWireReady(edits[|edits| - 1], Folding(front, d));
    }
  }

  // ----- the queue

  predicate SameSlot(x: Pending, y: Pending) {
    x.account == y.account && TargetOf(x.edit) == TargetOf(y.edit)
  }

  function Elsewhere(item: Pending): Pending -> bool {
    (x: Pending) => !SameSlot(x, item)
  }

  function OwnedBy(account: string): Pending -> bool {
    (x: Pending) => x.account == account
  }

  /** One entry per account and target: a later edit replaces the earlier one. */
  function Remember(q: seq<Pending>, item: Pending): seq<Pending> {
    Filter(q, Elsewhere(item)) + [item]
  }

  function NotAmong(ids: set<nat>): Pending -> bool {
    (x: Pending) => x.id !in ids
  }

  function Remove(q: seq<Pending>, ids: set<nat>): seq<Pending> {
    Filter(q, NotAmong(ids))
  }

  function Mine(q: seq<Pending>, account: string): seq<Pending> {
    Filter(q, OwnedBy(account))
  }

  function Edits(q: seq<Pending>): (r: seq<Edit>)
    ensures |r| == |q|
    ensures forall i :: 0 <= i < |q| ==> r[i] == q[i].edit
  {
    seq(|q|, i requires 0 <= i < |q| => q[i].edit)
  }

  function IDs(q: seq<Pending>): set<nat> {
    set x | x in q :: x.id
  }

  function FoldMine(q: seq<Pending>, account: string, base: Document): Document {
    Folding(Edits(Mine(q, account)), base)
  }

  // ----- what happens to a phone

  /** An edit, applied at once and queued for the signed-in account. */
  function Edited(p: Phone, account: Option<string>, e: Edit): Phone {
    var shown := p.(local := ApplyLocally(p.local, e), generation := p.generation + 1);
    if account.None? then shown
    else shown.(
      pending := Remember(p.pending, Pending(p.nextID, account.value, e)),
      nextID := p.nextID + 1)
  }

  /** The local values become the queue folded onto `d`. */
  function Showing(p: Phone, account: string, d: Document): Phone {
    p.(
      local := Adopt(p.local, FoldMine(p.pending, account, d).policy),
      generation := p.generation + 1)
  }

  function Acknowledged(p: Phone, snapshot: seq<Pending>, account: string, d: Document): Phone {
    Showing(p.(pending := Remove(p.pending, IDs(snapshot))), account, d)
  }

  /** A fetched document on a refresh, after first sync. */
  function Refreshed(p: Phone, account: string, previous: Option<nat>, fetched: Document): Phone {
    if Mine(p.pending, account) != [] then Showing(p, account, fetched)
    else if previous != Some(fetched.revision) then
      p.(local := Adopt(p.local, fetched.policy), generation := p.generation + 1)
    else if p.local.historySync != Some(fetched.policy.historySync) then
      p.(
        local := p.local.(historySync := Some(fetched.policy.historySync)),
        generation := p.generation + 1)
    else p
  }

  class AccountSettingsSync {
    var pending: seq<Pending>
    var nextPendingID: nat
    var local: Local
    var generation: nat

    ghost function State(): Phone
      reads this
    {
      Phone(pending, nextPendingID, local, generation)
    }

    constructor (items: seq<Pending>, nextID: nat, stores: Local)
      ensures State() == Phone(items, nextID, stores.(historySync := None), 0)
    {
      pending, nextPendingID := items, nextID;
      local, generation := stores.(historySync := None), 0;
    }

    method RememberPending(account: string, edit: Edit)
      modifies this
      ensures State() == old(State()).(
        pending := Remember(old(pending), Pending(old(nextPendingID), account, edit)),
        nextID := old(nextPendingID) + 1)
    {
      var item := Pending(nextPendingID, account, edit);
      pending := Filter(pending, Elsewhere(item));
      nextPendingID := nextPendingID + 1;
      pending := pending + [item];
    }

    method RemovePending(ids: set<nat>)
      modifies this
      ensures State() == old(State()).(pending := Remove(old(pending), ids))
    {
      pending := Remove(pending, ids);
    }

    method ApplyPolicy(policy: Policy)
      modifies this
      ensures State() == old(State()).(local := Adopt(old(local), policy))
    {
      local := Adopt(local, policy);
    }

    method NotifyApplied()
      modifies this
      ensures State() == old(State()).(generation := old(generation) + 1)
    {
      generation := generation + 1;
    }

    /** The part of `apply` that runs before the push is queued. */
    method Apply(edit: Edit, session: Option<string>)
      modifies this
      ensures State() == Edited(old(State()), session, edit)
    {
      local := ApplyLocally(local, edit);
      NotifyApplied();
      if session.Some? {
        RememberPending(session.value, edit);
      }
    }

    method TakeWritten(snapshot: seq<Pending>, account: string, document: Document)
      modifies this
      ensures State() == Acknowledged(old(State()), snapshot, account, document)
    {
      RemovePending(IDs(snapshot));
      ApplyPolicy(FoldMine(pending, account, document).policy);
      NotifyApplied();
    }

    method TakeConflict(account: string, current: Document)
      modifies this
      ensures State() == Showing(old(State()), account, current)
    {
      ApplyPolicy(FoldMine(pending, account, current).policy);
      NotifyApplied();
    }

    /** Answers whether the queue has to be pushed onto the fetched document. */
    method TakeFetched(account: string, previous: Option<nat>, fetched: Document)
      returns (push: bool)
      modifies this
      ensures State() == Refreshed(old(State()), account, previous, fetched)
      ensures push <==> Mine(old(pending), account) != []
    {
      var mine := Mine(pending, account);
      if mine != [] {
        ApplyPolicy(Folding(Edits(mine), fetched).policy);
        NotifyApplied();
        return true;
      }
      if previous != Some(fetched.revision) {
        ApplyPolicy(fetched.policy);
        NotifyApplied();
      } else if local.historySync != Some(fetched.policy.historySync) {
        local := local.(historySync := Some(fetched.policy.historySync));
        NotifyApplied();
      }
      return false;
    }
  }

  // ----- the coalesced queue stands for everything not yet acknowledged

  /** The queue that results from making every edit of `log` in order. */
  function Coalesced(log: seq<Pending>): seq<Pending> {
    if log == [] then [] else Remember(Coalesced(log[..|log| - 1]), log[|log| - 1])
  }

  /** The last edit in `q` for one account and target. */
  function LastIn(q: seq<Pending>, account: string, t: Target): Option<Edit> {
    if q == [] then None
    else
      var x := q[|q| - 1];
      if x.account == account && TargetOf(x.edit) == t then Some(x.edit)
      else LastIn(q[..|q| - 1], account, t)
  }

  lemma {:induction false} LastInIsLastFor(q: seq<Pending>, account: string, t: Target)
    ensures LastFor(Edits(Mine(q, account)), t) == LastIn(q, account, t)
  {
    if q != [] {
      var front, x := q[..|q| - 1], q[|q| - 1];
      LastInIsLastFor(front, account, t);
      if x.account == account {
        assert Edits(Mine(q, account)) == Edits(Mine(front, account)) + [x.edit];
        LastForSnoc(Edits(Mine(front, account)), x.edit, t);
      }
    }
  }

  lemma {:induction false} LastForSnoc(edits: seq<Edit>, e: Edit, t: Target)
    ensures LastFor(edits + [e], t) == if TargetOf(e) == t then Some(e) else LastFor(edits, t)
  {
    assert (edits + [e])[..|edits|] == edits;
  }

  lemma {:induction false} LastInSnoc(q: seq<Pending>, x: Pending, account: string, t: Target)
    ensures LastIn(q + [x], account, t)
         == if x.account == account && TargetOf(x.edit) == t then Some(x.edit) else LastIn(q, account, t)
  {
    assert (q + [x])[..|q|] == q;
  }

  /** Dropping other slots does not change the last word on this one. */
  lemma {:induction false} LastInAfterDrop(q: seq<Pending>, keep: Pending -> bool, account: string, t: Target)
    requires forall x :: x in q && x.account == account && TargetOf(x.edit) == t ==> keep(x)
    ensures LastIn(Filter(q, keep), account, t) == LastIn(q, account, t)
  {
    if q != [] {
      var front, x := q[..|q| - 1], q[|q| - 1];
      LastInAfterDrop(front, keep, account, t);
      LastInSnoc(Filter(front, keep), x, account, t);
    }
  }

  lemma {:induction false} CoalescedLastWord(log: seq<Pending>, account: string, t: Target)
    ensures LastIn(Coalesced(log), account, t) == LastIn(log, account, t)
  {
    if log != [] {
      var front, x := log[..|log| - 1], log[|log| - 1];
      CoalescedLastWord(front, account, t);
      if !(x.account == account && TargetOf(x.edit) == t) {
        LastInAfterDrop(Coalesced(front), Elsewhere(x), account, t);
      }
    }
  }

  /** Folding the coalesced queue onto any document is folding every edit it came from. */
  lemma {:induction false} CoalescedFolds(log: seq<Pending>, account: string, base: Document)
    ensures FoldMine(Coalesced(log), account, base) == FoldMine(log, account, base)
  {
    forall t
      ensures LastFor(Edits(Mine(Coalesced(log), account)), t) == LastFor(Edits(Mine(log, account)), t)
    {
      LastInIsLastFor(Coalesced(log), account, t);
      LastInIsLastFor(log, account, t);
      CoalescedLastWord(log, account, t);
    }
    FoldingByLastWord(Edits(Mine(Coalesced(log), account)), Edits(Mine(log, account)), base);
  }

  lemma {:induction false} CoalescedMembers(log: seq<Pending>)
    ensures forall x :: x in Coalesced(log) ==> x in log
  {
    if log != [] {
      CoalescedMembers(log[..|log| - 1]);
      FilterMembers(Coalesced(log[..|log| - 1]), Elsewhere(log[|log| - 1]));
    }
  }

  /**
   * Coalescing commutes with dropping edits, as long as dropping an edit also drops the earlier
   * ones in its slot.
   */
  lemma {:induction false} CoalescedFilter(log: seq<Pending>, keep: Pending -> bool)
    requires forall i, j :: 0 <= i < j < |log| && SameSlot(log[i], log[j]) && keep(log[i]) ==> keep(log[j])
    ensures Coalesced(Filter(log, keep)) == Filter(Coalesced(log), keep)
  {
    if log != [] {
      var front, x := log[..|log| - 1], log[|log| - 1];
      assert forall i, j :: 0 <= i < j < |front| && SameSlot(front[i], front[j]) && keep(front[i]) ==> keep(front[j]);
      CoalescedFilter(front, keep);
      if !keep(x) {
        forall y | y in Coalesced(front) && keep(y)
          ensures !SameSlot(y, x)
        {
          CoalescedMembers(front);
          var i :| 0 <= i < |front| && front[i] == y;
          assert log[i] == y;
        }
      }
      RememberFilter(Coalesced(front), x, keep);
      if keep(x) {
        CoalescedSnoc(Filter(front, keep), x);
      }
    }
  }

  lemma {:induction false} CoalescedSnoc(log: seq<Pending>, x: Pending)
    ensures Coalesced(log + [x]) == Remember(Coalesced(log), x)
  {
    assert (log + [x])[..|log|] == log;
  }

  lemma {:induction false} RememberFilter(q: seq<Pending>, x: Pending, keep: Pending -> bool)
    requires !keep(x) ==> forall y :: y in q && keep(y) ==> !SameSlot(y, x)
    ensures Filter(Remember(q, x), keep) == if keep(x) then Remember(Filter(q, keep), x) else Filter(q, keep)
  {
    FilterSnoc(Filter(q, Elsewhere(x)), x, keep);
    if keep(x) {
      FiltersCommute(q, keep, Elsewhere(x));
    } else {
      FilterAbsorbs(q, Elsewhere(x), keep);
    }
  }
}
