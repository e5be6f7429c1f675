/** What the settings protocol promises, for any number of phones and every run. */
module SettingsTheorems {
  import opened Prelude
  import opened SettingsDocument
  import opened SettingsQueue
  import opened SettingsProtocol
  import opened SettingsSafety

  /** In a snapshot every edit is the last word on its target. */
  lemma {:induction false} SnapshotSays(account: string, snapshot: seq<Pending>, item: Pending)
    requires OwnSnapshot(account, snapshot) && item in snapshot
    ensures LastFor(Edits(snapshot), TargetOf(item.edit)) == Some(item.edit)
  {
    var edits, t := Edits(snapshot), TargetOf(item.edit);
    var i :| 0 <= i < |snapshot| && snapshot[i] == item;
    assert edits[i] in edits;
    LastForIs(edits, t);
    var e := LastFor(edits, t).value;
    var j :| 0 <= j < |edits| && edits[j] == e;
    assert snapshot[j] in snapshot && SameSlot(snapshot[i], snapshot[j]) && SameSlot(snapshot[j], snapshot[i]);
    assert i == j;
  }

  /**
   * In every interleaving, one step either leaves the stored revisions alone or adds one, and the
   * one it adds differs from the revision it replaced only in the targets of the sender's snapshot,
   * where it says what the snapshot wants. The record the handler read before its statement ran is
   * still the record the statement replaced.
   */
  lemma {:induction false} AcceptedPut(start: System, events: seq<Event>, e: Event, t: Target)
    requires Init(start) && Enabled(Run(start, events), e)
    ensures var s := Run(start, events);
      var s' := Step(s, e);
      || s'.stored == s.stored
      || (&& e.CommitPut?
          && |s'.stored| == |s.stored| + 1 && s.stored <= s'.stored
          && var q := s.requests[e.request];
             var last := LastFor(Edits(q.snapshot), t);
             && s'.writes == s.writes + [q.snapshot]
             && q.status.read == Current(s).policy
             && ValueAt(Current(s').policy, t)
                == if last.Some? then Wanted(last.value) else ValueAt(Current(s).policy, t))
  {
    var s := Run(start, events);
    RunKeeps(start, events);
    if e.CommitPut? && Current(s).revision == s.requests[e.request].status.matched {
      CommitSays(s, e.request, e.tagged, t);
    } else if !e.CommitPut? {
      OthersStoreNothing(s, e);
    }
  }

  lemma {:induction false} CommitSays(s: System, r: nat, tagged: bool, t: Target)
    requires Inv(s) && r < |s.requests| && s.requests[r].status.Checked?
    requires Current(s).revision == s.requests[r].status.matched
    ensures var q := s.requests[r];
      var last := LastFor(Edits(q.snapshot), t);
      && q.status.read == Current(s).policy
      && ValueAt(Current(Commit(s, r, tagged)).policy, t)
         == if last.Some? then Wanted(last.value) else ValueAt(Current(s).policy, t)
  {
    var q := s.requests[r];
    assert RequestInv(s, q);
    StoredIsFold(s, q);
    FoldingSays(Edits(q.snapshot), q.base, t);
  }

  /** Every edit of an accepted snapshot is stored as the document's fields take it. */
  lemma {:induction false} AcceptedEditIsStored(start: System, events: seq<Event>, e: Event, item: Pending)
    requires Init(start) && Enabled(Run(start, events), e)
    requires var s := Run(start, events);
      e.CommitPut? && Step(s, e).stored != s.stored && item in s.requests[e.request].snapshot
    ensures StoredAs(item.edit, Current(Step(Run(start, events), e)).policy)
  {
    var s := Run(start, events);
    var q := s.requests[e.request];
    var t := TargetOf(item.edit);
    AcceptedPut(start, events, e, t);
    RunKeeps(start, events);
    assert RequestInv(s, q);
    SnapshotSays(s.account, q.snapshot, item);
    WantedIsStored(item.edit, Current(Step(s, e)).policy);
  }

  lemma {:induction false} OthersStoreNothing(s: System, e: Event)
    requires Enabled(s, e) && !e.CommitPut?
    ensures Step(s, e).stored == s.stored
  {
    match e
    case StartPush(_) =>
    case TakeGet(_) =>
    case TakePut(_) =>
    case _ =>
  }

  /** The account and the revision a run began at do not change, and no stored revision is taken back. */
  lemma {:induction false} RunGrows(start: System, events: seq<Event>)
    requires Init(start)
    ensures Grows(start, Run(start, events))
  {
    if events != [] {
      var front, e := events[..|events| - 1], events[|events| - 1];
      RunGrows(start, front);
      if Enabled(Run(start, front), e) {
        StepGrows(Run(start, front), e);
      }
    }
  }

  lemma {:induction false} StepGrows(s: System, e: Event)
    requires Enabled(s, e)
    ensures Grows(s, Step(s, e))
  {
    match e
    case StartPush(_) =>
    case TakeGet(_) =>
    case TakePut(_) =>
    case _ =>
  }

  /** The whole history since the run began is the accepted snapshots applied one after another. */
  lemma {:induction false} HistoryIsSerial(start: System, events: seq<Event>, w: nat)
    requires Init(start) && w < |Run(start, events).writes|
    ensures var s := Run(start, events);
      && start.stored <= s.stored && |s.stored| == |start.stored| + |s.writes|
      && FirstRevision(s.stored, s.writes) == |start.stored| - 1
      && Follows(s.stored, s.writes, w)
  {
    RunKeeps(start, events);
    RunGrows(start, events);
    SerialSays(Run(start, events).stored, Run(start, events).writes, w);
  }

  lemma {:induction false} SerialSays(stored: seq<Policy>, writes: seq<seq<Pending>>, w: nat)
    requires Serial(stored, writes) && w < |writes|
    ensures Follows(stored, writes, w)
  {
  }

  /** A value stays until a later accepted snapshot names its target. */
  lemma {:induction false} ValueSurvives(start: System, events: seq<Event>, i: nat, j: nat, t: Target)
    requires Init(start) && |start.stored| - 1 <= i <= j < |Run(start, events).stored|
    requires forall w :: i <= |start.stored| - 1 + w < j && 0 <= w < |Run(start, events).writes| ==>
      LastFor(Edits(Run(start, events).writes[w]), t) == None
    ensures ValueAt(Run(start, events).stored[j], t) == ValueAt(Run(start, events).stored[i], t)
  {
    RunKeeps(start, events);
    RunGrows(start, events);
    SerialSurvives(Run(start, events).stored, Run(start, events).writes, i, j, t);
  }

  lemma {:induction false} SerialSurvives(
    stored: seq<Policy>, writes: seq<seq<Pending>>, i: nat, j: nat, t: Target)
    requires Serial(stored, writes) && FirstRevision(stored, writes) <= i <= j < |stored|
    requires forall w :: i <= FirstRevision(stored, writes) + w < j && 0 <= w < |writes| ==>
      LastFor(Edits(writes[w]), t) == None
    ensures ValueAt(stored[j], t) == ValueAt(stored[i], t)
    decreases j
  {
    if i < j {
      SerialSurvives(stored, writes, i, j - 1, t);
      var w := j - 1 - FirstRevision(stored, writes);
      assert Follows(stored, writes, w);
      FoldingSays(Edits(writes[w]), Document(j - 1, stored[j - 1], false), t);
    }
  }

  /** The revision the snapshot `w` made holds exactly what the queued edit asked for. */
  ghost predicate AcceptedIn(s: System, w: nat, item: Pending) {
    && w < |s.writes| < |s.stored|
    && item in s.writes[w]
    && ValueAt(s.stored[FirstRevision(s.stored, s.writes) + w + 1], TargetOf(item.edit)) == Wanted(item.edit)
  }

  ghost predicate Accepted(s: System, item: Pending) {
    exists w :: AcceptedIn(s, w, item)
  }

  /** A later edit of the same account and target is queued. */
  ghost predicate Replaced(q: seq<Pending>, item: Pending) {
    exists y :: y in q && SameSlot(y, item) && item.id < y.id
  }

  /**
   * A queued edit leaves the queue only because a later edit of its account and target took its
   * place, or because Relay stored a document containing it. No conflict, failure, refresh or
   * retry drops one, and an edit made while a PUT is in flight is not in the snapshot it answers.
   */
  lemma {:induction false} EditLeavesQueue(start: System, events: seq<Event>, e: Event, i: nat, item: Pending)
    requires Init(start) && Enabled(Run(start, events), e)
    requires i < |Run(start, events).clients|
    requires item in Run(start, events).clients[i].phone.pending
    ensures var s := Run(start, events);
      var s' := Step(s, e);
      && |s'.clients| == |s.clients|
      && (item in s'.clients[i].phone.pending
          || Replaced(s'.clients[i].phone.pending, item)
          || (e == TakePut(i) && Accepted(s, item)))
  {
    RunKeeps(start, events);
    StepLeavesQueue(Run(start, events), e, i, item);
  }

  lemma {:induction false} StepLeavesQueue(s: System, e: Event, i: nat, item: Pending)
    requires Inv(s) && Enabled(s, e) && i < |s.clients| && item in s.clients[i].phone.pending
    ensures var after := Step(s, e).clients;
      && |after| == |s.clients|
      && (item in after[i].phone.pending
          || Replaced(after[i].phone.pending, item)
          || (e == TakePut(i) && Accepted(s, item)))
  {
    if e.UserEdit? && e.client == i {
      assert ClientInv(s, s.clients[i]);
      assert Step(s, e).clients == s.clients[i := EditStep(s.clients[i], s.account, e.edit)];
      EditReplaces(s, s.clients[i], e.edit, item);
    } else if e == TakePut(i) {
      TakePutLoses(s, i, item);
    } else {
      OthersKeepQueue(s, e, i);
    }
  }

  lemma {:induction false} EditReplaces(s: System, c: Client, edit: Edit, item: Pending)
    requires QueueInv(s, c) && item in c.phone.pending
    ensures var after := EditStep(c, s.account, edit).phone.pending;
      item in after || Replaced(after, item)
  {
    var x := Pending(c.phone.nextID, s.account, edit);
    CoalescedMembers(c.made);
    FilterMembers(c.phone.pending, Elsewhere(x));
    var after := EditStep(c, s.account, edit).phone.pending;
    assert after[|after| - 1] == x;
  }

  lemma {:induction false} OthersKeepQueue(s: System, e: Event, i: nat)
    requires Enabled(s, e) && i < |s.clients|
    requires e != TakePut(i) && !(e.UserEdit? && e.client == i)
    ensures |Step(s, e).clients| == |s.clients|
    ensures Step(s, e).clients[i].phone.pending == s.clients[i].phone.pending
  {
    match e
    case StartPush(_) =>
    case TakeGet(_) =>
    case TakePut(_) =>
    case _ =>
  }

  lemma {:induction false} TakePutLoses(s: System, i: nat, item: Pending)
    requires Inv(s) && i < |s.clients| && item in s.clients[i].phone.pending
    requires s.clients[i].waiting.ForPut?
    ensures s.clients[i].waiting.request < |s.requests| && |TakePutStep(s, i).clients| == |s.clients|
    ensures item in TakePutStep(s, i).clients[i].phone.pending || Accepted(s, item)
  {
    var c := s.clients[i];
    assert ClientInv(s, c);
    CoalescedMembers(c.made);
    var q := s.requests[c.waiting.request];
    assert RequestInv(s, q);
    if q.status.Answered? && q.status.answer.Written? {
      FilterMembers(c.phone.pending, NotAmong(IDs(q.snapshot)));
      if item.id in IDs(q.snapshot) {
        var y :| y in q.snapshot && y.id == item.id;
        assert y == item;
        WrittenContains(s, q, item);
      }
    }
  }

  lemma {:induction false} WrittenContains(s: System, q: PutRequest, item: Pending)
    requires Serial(s.stored, s.writes) && RequestInv(s, q) && item in q.snapshot
    requires q.status.Answered? && q.status.answer.Written?
    ensures FirstRevision(s.stored, s.writes) < q.status.answer.document.revision
    ensures AcceptedIn(s, q.status.answer.document.revision - FirstRevision(s.stored, s.writes) - 1, item)
  {
    var r := q.status.answer.document.revision - 1;
    var w := r - FirstRevision(s.stored, s.writes);
    SnapshotSays(s.account, q.snapshot, item);
    assert Follows(s.stored, s.writes, w);
    FoldingSays(Edits(q.snapshot), Document(r, s.stored[r], false), TargetOf(item.edit));
  }

  /**
   * What a phone shows is, at every moment, every edit it has not had acknowledged folded onto a
   * document Relay stored, and folding the coalesced queue gives the same.
   */
  lemma {:induction false} PhoneShowsItsEdits(start: System, events: seq<Event>, i: nat)
    requires Init(start) && i < |Run(start, events).clients|
    ensures var s := Run(start, events);
      var c := s.clients[i];
      && Genuine(s.stored, c.applied)
      && Shows(c.phone.local, FoldMine(c.phone.pending, s.account, c.applied).policy)
      && Shows(c.phone.local, FoldMine(c.made, s.account, c.applied).policy)
  {
    var s := Run(start, events);
    RunKeeps(start, events);
    var c := s.clients[i];
    assert ClientInv(s, c);
    CoalescedFolds(c.made, s.account, c.applied);
  }

  /** With nothing queued, a phone shows the document it holds, which is one Relay stored. */
  lemma {:induction false} SettledPhone(start: System, events: seq<Event>, i: nat)
    requires Init(start) && i < |Run(start, events).clients|
    requires Mine(Run(start, events).clients[i].phone.pending, start.account) == []
    requires Run(start, events).clients[i].cached.Some?
    ensures var s := Run(start, events);
      var held := s.clients[i].cached.value.document;
      && held.revision < |s.stored|
      && Shows(s.clients[i].phone.local, s.stored[held.revision])
  {
    var s := Run(start, events);
    RunKeeps(start, events);
    RunGrows(start, events);
    assert ClientInv(s, s.clients[i]);
    var c := s.clients[i];
    assert FoldMine(c.phone.pending, s.account, c.applied) == c.applied;
  }

  /** A 304 never hands a phone a document other than the current one. */
  lemma {:induction false} NotModifiedIsCurrent(start: System, events: seq<Event>, i: nat, tagged: bool)
    requires Init(start) && Enabled(Run(start, events), ServeGet(i, tagged))
    ensures var s := Run(start, events);
      var c := s.clients[i];
      var got := Fetched(c, AnswerGet(s, c, tagged));
      got.Some? && got.value.document == Current(s)
  {
    var s := Run(start, events);
    RunKeeps(start, events);
    assert ClientInv(s, s.clients[i]);
    AnswerGetGenuine(s, s.clients[i], tagged);
  }
}
