/** What every run of the settings protocol keeps, whatever the interleaving. */
module SettingsSafety {
  import opened Prelude
  import opened SettingsDocument
  import opened SettingsQueue
  import opened DecimalText
  import opened SettingsProtocol

  // ----- the queue

  lemma {:induction false} SnocOneSlot(q: seq<Pending>, x: Pending)
    requires OneSlotEach(q) && forall y :: y in q ==> !SameSlot(y, x)
    ensures OneSlotEach(q + [x])
  {
    assert forall i :: 0 <= i < |q| ==> q[i] in q;
  }

  lemma {:induction false} SnocIncreasing(q: seq<Pending>, x: Pending, below: nat)
    requires Increasing(q, below) && x.id < below && forall y :: y in q ==> y.id < x.id
    ensures Increasing(q + [x], below)
  {
    assert forall i :: 0 <= i < |q| ==> q[i] in q;
  }

  lemma {:induction false} FilterOneSlot(q: seq<Pending>, keep: Pending -> bool)
    requires OneSlotEach(q)
    ensures OneSlotEach(Filter(q, keep))
  {
    if q != [] {
      var front, x := q[..|q| - 1], q[|q| - 1];
      FilterOneSlot(front, keep);
      FilterMembers(front, keep);
      assert forall y :: y in front ==> !SameSlot(y, x);
      SnocOneSlot(Filter(front, keep), x);
    }
  }

  lemma {:induction false} FilterIncreasing(q: seq<Pending>, below: nat, keep: Pending -> bool)
    requires Increasing(q, below)
    ensures Increasing(Filter(q, keep), below)
  {
    if q != [] {
      var front, x := q[..|q| - 1], q[|q| - 1];
      FilterIncreasing(front, below, keep);
      FilterMembers(front, keep);
      assert forall y :: y in front ==> y.id < x.id;
      SnocIncreasing(Filter(front, keep), x, below);
    }
  }

  lemma {:induction false} CoalescedOneSlot(log: seq<Pending>)
    ensures OneSlotEach(Coalesced(log))
  {
    if log != [] {
      var q, x := Coalesced(log[..|log| - 1]), log[|log| - 1];
      CoalescedOneSlot(log[..|log| - 1]);
      FilterOneSlot(q, Elsewhere(x));
      FilterMembers(q, Elsewhere(x));
      SnocOneSlot(Filter(q, Elsewhere(x)), x);
    }
  }

  lemma {:induction false} OwnQueueTaken(s: System, c: Client)
    requires QueueInv(s, c)
    ensures TakenFrom(c, Mine(c.phone.pending, s.account))
    ensures OwnSnapshot(s.account, Mine(c.phone.pending, s.account))
  {
    CoalescedOneSlot(c.made);
    FilterOneSlot(c.phone.pending, OwnedBy(s.account));
    FilterMembers(c.phone.pending, OwnedBy(s.account));
    forall y | y in Mine(c.phone.pending, s.account)
      ensures y.id < c.phone.nextID
      ensures forall x :: x in c.made && x.id == y.id ==> x == y
      ensures forall x :: x in c.phone.pending && SameSlot(x, y) ==> y.id <= x.id
    {
      QueuedIsOwn(c, y);
    }
  }

  lemma {:induction false} QueuedIsOwn(c: Client, y: Pending)
    requires Increasing(c.made, c.phone.nextID) && c.phone.pending == Coalesced(c.made)
    requires OneSlotEach(c.phone.pending) && y in c.phone.pending
    ensures y.id < c.phone.nextID
    ensures forall x :: x in c.made && x.id == y.id ==> x == y
    ensures forall x :: x in c.phone.pending && SameSlot(x, y) ==> x == y
  {
    CoalescedMembers(c.made);
  }

  /** Removing a snapshot by id leaves the queue of the edits it does not acknowledge. */
  lemma {:induction false} AcknowledgementMatches(c: Client, snapshot: seq<Pending>)
    requires Increasing(c.made, c.phone.nextID) && c.phone.pending == Coalesced(c.made)
    requires TakenFrom(c, snapshot)
    ensures Remove(c.phone.pending, IDs(snapshot)) == Coalesced(Filter(c.made, Outlives(snapshot)))
  {
    CoalescedFilter(c.made, Outlives(snapshot));
    CoalescedMembers(c.made);
    forall x | x in c.phone.pending
      ensures NotAmong(IDs(snapshot))(x) == Outlives(snapshot)(x)
    {
      if !NotAmong(IDs(snapshot))(x) {
        var y :| y in snapshot && y.id == x.id;
        assert x == y;
      }
      if !Outlives(snapshot)(x) {
        var y :| y in snapshot && SameSlot(x, y) && x.id <= y.id;
        assert y.id == x.id;
      }
    }
    FilterCongruent(c.phone.pending, NotAmong(IDs(snapshot)), Outlives(snapshot));
  }

  // ----- what a phone shows

  lemma {:induction false} ShowingShows(s: System, p: Phone, d: Document)
    requires Serial(s.stored, s.writes) && Genuine(s.stored, d)
    ensures Shows(Showing(p, s.account, d).local, FoldMine(p.pending, s.account, d).policy)
  {
    FoldingWireReady(Edits(Mine(p.pending, s.account)), d);
    AdoptShows(p.local, FoldMine(p.pending, s.account, d).policy);
  }

  lemma {:induction false} FoldMineSnoc(made: seq<Pending>, x: Pending, base: Document)
    ensures FoldMine(made + [x], x.account, base) == Reapply(x.edit, FoldMine(made, x.account, base))
  {
    FilterSnoc(made, x, OwnedBy(x.account));
    var mine := Mine(made, x.account);
    assert Edits(mine + [x]) == Edits(mine) + [x.edit];
    assert (Edits(mine) + [x.edit])[..|mine|] == Edits(mine);
  }

  lemma {:induction false} EditFoldsOn(made: seq<Pending>, x: Pending, base: Document)
    ensures FoldMine(Remember(Coalesced(made), x), x.account, base)
         == Reapply(x.edit, FoldMine(Coalesced(made), x.account, base))
  {
    CoalescedSnoc(made, x);
    CoalescedFolds(made + [x], x.account, base);
    CoalescedFolds(made, x.account, base);
    FoldMineSnoc(made, x, base);
  }

  // ----- frames

  /** Only growth: nothing recorded is taken back. */
  ghost predicate Grows(s: System, t: System) {
    && s.account == t.account && s.stored <= t.stored && s.writes <= t.writes
    && |t.stored| - |s.stored| == |t.writes| - |s.writes|
    && |s.requests| <= |t.requests|
    && forall r :: 0 <= r < |s.requests| ==> s.requests[r].snapshot == t.requests[r].snapshot
  }

  lemma {:induction false} ClientKeeps(s: System, t: System, c: Client)
    requires Grows(s, t) && ClientInv(s, c)
    ensures ClientInv(t, c)
  {
  }

  lemma {:induction false} RequestKeeps(s: System, t: System, q: PutRequest)
    requires Grows(s, t) && RequestInv(s, q)
    ensures RequestInv(t, q)
  {
  }

  lemma {:induction false} WithClientKeeps(s: System, i: nat, c: Client)
    requires Inv(s) && i < |s.clients| && ClientInv(s, c)
    ensures Inv(WithClient(s, i, c))
  {
    var t := WithClient(s, i, c);
    forall r | 0 <= r < |t.requests|
      ensures RequestInv(t, t.requests[r])
    {
      RequestKeeps(s, t, s.requests[r]);
    }
    forall j | 0 <= j < |t.clients|
      ensures ClientInv(t, t.clients[j])
    {
      ClientKeeps(s, t, if j == i then c else s.clients[j]);
    }
  }

  lemma {:induction false} SendKeeps(s: System, i: nat, snapshot: seq<Pending>, base: Cached, retry: bool)
    requires Inv(s) && i < |s.clients|
    requires GenuineCached(s.stored, base)
    requires OwnSnapshot(s.account, snapshot) && TakenFrom(s.clients[i], snapshot)
    ensures Inv(SendOnto(s, i, snapshot, base, retry))
  {
    var t := SendOnto(s, i, snapshot, base, retry);
    if snapshot != [] {
      forall r | 0 <= r < |t.requests|
        ensures RequestInv(t, t.requests[r])
      {
        if r < |s.requests| { RequestKeeps(s, t, s.requests[r]); }
      }
      forall j | 0 <= j < |t.clients|
        ensures ClientInv(t, t.clients[j])
      {
        ClientKeeps(s, t, s.clients[j]);
      }
    }
  }

  // ----- one lemma an event

  lemma {:induction false} EditKeeps(s: System, c: Client, e: Edit)
    requires ClientInv(s, c)
    ensures ClientInv(s, EditStep(c, s.account, e))
  {
    EditQueueKeeps(s, c, e);
    EditMine(c, s.account, e);
    if c.waiting.ForPut? {
      EditTakenKeeps(c, s.account, e, c.waiting.snapshot);
    }
  }

  lemma {:induction false} EditMine(c: Client, account: string, e: Edit)
    ensures Mine(EditStep(c, account, e).phone.pending, account) != []
  {
    var x := Pending(c.phone.nextID, account, e);
    FilterSnoc(Filter(c.phone.pending, Elsewhere(x)), x, OwnedBy(account));
  }

  lemma {:induction false} EditTakenKeeps(c: Client, account: string, e: Edit, snapshot: seq<Pending>)
    requires TakenFrom(c, snapshot)
    ensures TakenFrom(EditStep(c, account, e), snapshot)
  {
    FilterMembers(c.phone.pending, Elsewhere(Pending(c.phone.nextID, account, e)));
  }

  lemma {:induction false} EditQueueKeeps(s: System, c: Client, e: Edit)
    requires QueueInv(s, c)
    ensures QueueInv(s, EditStep(c, s.account, e))
  {
    var x := Pending(c.phone.nextID, s.account, e);
    var t := EditStep(c, s.account, e);
    assert Increasing(t.made, t.phone.nextID);
    assert t.phone.pending == Coalesced(t.made) by {
      CoalescedSnoc(c.made, x);
    }
    assert Shows(t.phone.local, FoldMine(t.phone.pending, s.account, t.applied).policy) by {
      EditFoldsOn(c.made, x, c.applied);
      EditShows(c.phone.local, FoldMine(c.phone.pending, s.account, c.applied), e);
    }
  }

  lemma {:induction false} RefreshKeeps(s: System, c: Client, previous: Option<nat>, got: Cached)
    requires Serial(s.stored, s.writes) && ClientInv(s, c) && GenuineCached(s.stored, got)
    requires PreviousInv(s, c, false, previous)
    ensures ClientInv(s, AfterRefresh(c, s.account, previous, got))
  {
    var mine := Mine(c.phone.pending, s.account);
    if mine != [] {
      ShowingShows(s, c.phone, got.document);
    } else if previous != Some(got.document.revision) {
      assert FoldMine(c.phone.pending, s.account, got.document) == got.document;
      ShowingShows(s, c.phone, got.document);
    } else {
      assert FoldMine(c.phone.pending, s.account, c.applied) == c.applied;
      assert c.applied == got.document;
    }
  }

  lemma {:induction false} TakeGetKeeps(s: System, i: nat)
    requires Inv(s) && i < |s.clients| && s.clients[i].waiting.ForGetAnswer?
    ensures Inv(TakeGetStep(s, i))
  {
    var c := s.clients[i];
    assert ClientInv(s, c);
    var got := Fetched(c, c.waiting.answer);
    if got.None? {
      WithClientKeeps(s, i, c.(waiting := Nothing));
    } else {
      var d := if c.waiting.push then c.(cached := got, waiting := Nothing)
        else AfterRefresh(c, s.account, c.waiting.previous, got.value);
      if !c.waiting.push {
        RefreshKeeps(s, c, c.waiting.previous, got.value);
      }
      assert ClientInv(s, d);
      WithClientKeeps(s, i, d);
      OwnQueueTaken(s, d);
      SendKeeps(WithClient(s, i, d), i, Mine(d.phone.pending, s.account), got.value, true);
    }
  }

  lemma {:induction false} AnswerKeeps(s: System, c: Client, a: PutAnswer, snapshot: seq<Pending>)
    requires Serial(s.stored, s.writes) && ClientInv(s, c)
    requires GenuineCached(s.stored, Cached(a.document, a.etag)) && TakenFrom(c, snapshot)
    ensures ClientInv(s, AfterPut(c, s.account, a, snapshot))
    ensures a.Conflict? ==> TakenFrom(AfterPut(c, s.account, a, snapshot), snapshot)
  {
    match a
    case Written(d, _) =>
      AcknowledgementMatches(c, snapshot);
      FilterIncreasing(c.made, c.phone.nextID, Outlives(snapshot));
      ShowingShows(s, c.phone.(pending := Remove(c.phone.pending, IDs(snapshot))), d);
    case Conflict(d, _) =>
      ShowingShows(s, c.phone, d);
  }

  lemma {:induction false} TakePutKeeps(s: System, i: nat)
    requires Inv(s) && i < |s.clients| && s.clients[i].waiting.ForPut?
    requires s.clients[i].waiting.request < |s.requests|
    ensures Inv(TakePutStep(s, i))
  {
    var c := s.clients[i];
    assert ClientInv(s, c);
    var w := c.waiting;
    var q := s.requests[w.request];
    assert RequestInv(s, q);
    match q.status
    case Answered(a) =>
      AnswerKeeps(s, c, a, w.snapshot);
      var d := AfterPut(c, s.account, a, w.snapshot);
      WithClientKeeps(s, i, d);
      if a.Conflict? && w.retry {
        SendKeeps(WithClient(s, i, d), i, w.snapshot, Cached(a.document, a.etag), false);
      }
    case Refused => WithClientKeeps(s, i, c.(waiting := Nothing));
    case _ =>
  }

  lemma {:induction false} StartPushKeeps(s: System, i: nat)
    requires Inv(s) && i < |s.clients|
    ensures Inv(StartPushStep(s, i))
  {
    var c := s.clients[i];
    assert ClientInv(s, c);
    var mine := Mine(c.phone.pending, s.account);
    if mine != [] {
      if c.cached.Some? {
        OwnQueueTaken(s, c);
        SendKeeps(s, i, mine, c.cached.value, true);
      } else {
        WithClientKeeps(s, i, c.(waiting := ForGet(true, None)));
      }
    }
  }

  /** The document a 304 stands for is the one Relay holds. */
  lemma {:induction false} AnswerGetGenuine(s: System, c: Client, tagged: bool)
    requires s.stored != [] && CacheInv(s, c)
    ensures Fetched(c, AnswerGet(s, c, tagged)).Some?
    ensures GenuineCached(s.stored, Fetched(c, AnswerGet(s, c, tagged)).value)
    ensures Fetched(c, AnswerGet(s, c, tagged)).value.document == Current(s)
  {
    if AnswerGet(s, c, tagged).NotModified? {
      ETagInjective(c.cached.value.document.revision, |s.stored| - 1);
    }
  }

  lemma {:induction false} ETagInjective(a: nat, b: nat)
    ensures ETag(a) == ETag(b) <==> a == b
  {
    ValueOfPrint(a);
    ValueOfPrint(b);
    assert ETag(a)[1..|ETag(a)| - 1] == Print(a);
    assert ETag(b)[1..|ETag(b)| - 1] == Print(b);
  }

  /** The header a phone sends is read as the revision of the document it folded onto. */
  lemma {:induction false} HeaderNamesBase(etag: Option<string>, d: Document)
    requires TrueTag(d, etag)
    ensures var m := ParseIfMatch(Some(MatchTag(etag, d.revision)));
      m.Revision? ==> m.revision == d.revision
  {
    var header := MatchTag(etag, d.revision);
    var m := ParseIfMatch(Some(header));
    if m.Revision? {
      IfMatchIsETag(header, m.revision);
      ETagInjective(m.revision, d.revision);
    }
  }

  lemma {:induction false} RequestUpdateKeeps(s: System, r: nat, status: PutStatus)
    requires Inv(s) && r < |s.requests|
    requires RequestInv(s, s.requests[r].(status := status))
    ensures Inv(s.(requests := s.requests[r := s.requests[r].(status := status)]))
  {
    var t := s.(requests := s.requests[r := s.requests[r].(status := status)]);
    forall j | 0 <= j < |t.requests|
      ensures RequestInv(t, t.requests[j])
    {
      RequestKeeps(s, t, t.requests[j]);
    }
    forall j | 0 <= j < |t.clients|
      ensures ClientInv(t, t.clients[j])
    {
      ClientKeeps(s, t, s.clients[j]);
    }
  }

  lemma {:induction false} CheckKeeps(s: System, r: nat, tagged: bool)
    requires Inv(s) && r < |s.requests|
    ensures RequestInv(s, s.requests[r].(status := Check(s, s.requests[r], tagged)))
  {
    var q := s.requests[r];
    HeaderNamesBase(q.etag, q.base);
  }

  /** What the handler stores is the snapshot folded onto the revision it replaces. */
  lemma {:induction false} StoredIsFold(s: System, q: PutRequest)
    requires RequestInv(s, q) && q.status.Checked?
    ensures StoredPolicy(q) == Folding(Edits(q.snapshot), q.base).policy
  {
    FoldingSays(Edits(q.snapshot), q.base, HistorySync);
  }

  lemma {:induction false} FollowsStays(
    stored: seq<Policy>, writes: seq<seq<Pending>>, policy: Policy, snapshot: seq<Pending>, w: nat)
    requires w < |writes| < |stored| && Follows(stored, writes, w)
    ensures Follows(stored + [policy], writes + [snapshot], w)
  {
  }

  lemma {:induction false} FollowsNow(
    stored: seq<Policy>, writes: seq<seq<Pending>>, policy: Policy, snapshot: seq<Pending>)
    requires |writes| < |stored|
    requires policy == Folding(Edits(snapshot), Document(|stored| - 1, stored[|stored| - 1], false)).policy
    ensures Follows(stored + [policy], writes + [snapshot], |writes|)
  {
    assert (writes + [snapshot])[|writes|] == snapshot;
    assert (stored + [policy])[|stored| - 1] == stored[|stored| - 1];
  }

  lemma {:induction false} CommitSerial(s: System, q: PutRequest)
    requires Serial(s.stored, s.writes) && RequestInv(s, q) && q.status.Checked?
    requires q.base.revision == |s.stored| - 1
    ensures Serial(s.stored + [StoredPolicy(q)], s.writes + [q.snapshot])
  {
    var policy := StoredPolicy(q);
    assert policy == Folding(Edits(q.snapshot), q.base).policy && WireReady(policy) by {
      StoredIsFold(s, q);
      FoldingWireReady(Edits(q.snapshot), q.base);
    }
    assert q.base == Document(|s.stored| - 1, s.stored[|s.stored| - 1], false);
    forall w: nat | w < |s.writes| + 1
      ensures Follows(s.stored + [policy], s.writes + [q.snapshot], w)
    {
      if w < |s.writes| {
        FollowsStays(s.stored, s.writes, policy, q.snapshot, w);
      } else {
        FollowsNow(s.stored, s.writes, policy, q.snapshot);
      }
    }
  }

  lemma {:induction false} CommitGrows(s: System, r: nat, tagged: bool)
    requires s.stored != [] && r < |s.requests| && s.requests[r].status.Checked?
    ensures Grows(s, Commit(s, r, tagged))
  {
  }

  /** The request the statement answered is answered truly. */
  lemma {:induction false} CommitAnswers(s: System, r: nat, tagged: bool)
    requires Inv(s) && r < |s.requests| && s.requests[r].status.Checked?
    requires Current(s).revision == s.requests[r].status.matched
    ensures RequestInv(Commit(s, r, tagged), Commit(s, r, tagged).requests[r])
  {
    var q := s.requests[r];
    assert RequestInv(s, q);
    CommitGrows(s, r, tagged);
    RequestKeeps(s, Commit(s, r, tagged), q);
  }

  lemma {:induction false} CommitKeeps(s: System, r: nat, tagged: bool)
    requires Inv(s) && r < |s.requests| && s.requests[r].status.Checked?
    ensures Inv(Commit(s, r, tagged))
    ensures Grows(s, Commit(s, r, tagged))
  {
    var q := s.requests[r];
    var t := Commit(s, r, tagged);
    assert RequestInv(s, q);
    CommitGrows(s, r, tagged);
    if Current(s).revision == q.status.matched {
      CommitSerial(s, q);
      CommitAnswers(s, r, tagged);
      forall j | 0 <= j < |t.requests|
        ensures RequestInv(t, t.requests[j])
      {
        if j != r { RequestKeeps(s, t, s.requests[j]); }
      }
      forall j | 0 <= j < |t.clients|
        ensures ClientInv(t, t.clients[j])
      {
        ClientKeeps(s, t, s.clients[j]);
      }
    } else {
      RequestUpdateKeeps(s, r, Answered(Conflict(Current(s), Tag(Current(s), tagged))));
    }
  }

  lemma {:induction false} StartRefreshKeeps(s: System, i: nat)
    requires Inv(s) && Enabled(s, StartRefresh(i))
    ensures Inv(Step(s, StartRefresh(i)))
  {
    assert ClientInv(s, s.clients[i]);
    WithClientKeeps(s, i, Step(s, StartRefresh(i)).clients[i]);
  }

  lemma {:induction false} ServeGetKeeps(s: System, i: nat, tagged: bool)
    requires Inv(s) && Enabled(s, ServeGet(i, tagged))
    ensures Inv(Step(s, ServeGet(i, tagged)))
  {
    assert ClientInv(s, s.clients[i]);
    AnswerGetGenuine(s, s.clients[i], tagged);
    WithClientKeeps(s, i, Step(s, ServeGet(i, tagged)).clients[i]);
  }

  lemma {:induction false} GiveUpKeeps(s: System, i: nat)
    requires Inv(s) && i < |s.clients|
    ensures Inv(WithClient(s, i, s.clients[i].(waiting := Nothing)))
  {
    assert ClientInv(s, s.clients[i]);
    WithClientKeeps(s, i, s.clients[i].(waiting := Nothing));
  }

  /** Every step of every phone and of Relay keeps the invariant. */
  lemma {:induction false} StepKeeps(s: System, e: Event)
    requires Inv(s) && Enabled(s, e)
    ensures Inv(Step(s, e))
  {
    match e
    case UserEdit(i, edit) =>
      EditKeeps(s, s.clients[i], edit);
      WithClientKeeps(s, i, EditStep(s.clients[i], s.account, edit));
    case StartRefresh(i) => StartRefreshKeeps(s, i);
    case StartPush(i) => StartPushKeeps(s, i);
    case ServeGet(i, tagged) => ServeGetKeeps(s, i, tagged);
    case TakeGet(i) => TakeGetKeeps(s, i);
    case CheckPut(r, tagged) =>
      CheckKeeps(s, r, tagged);
      RequestUpdateKeeps(s, r, Check(s, s.requests[r], tagged));
    case CommitPut(r, tagged) => CommitKeeps(s, r, tagged);
    case TakePut(i) => TakePutKeeps(s, i);
    case GiveUp(i) => GiveUpKeeps(s, i);
  }

  /** Every reachable state keeps the invariant. */
  lemma {:induction false} RunKeeps(s: System, events: seq<Event>)
    requires Init(s)
    ensures Inv(Run(s, events))
  {
    if events != [] {
      var front, e := events[..|events| - 1], events[|events| - 1];
      RunKeeps(s, front);
      if Enabled(Run(s, front), e) {
        StepKeeps(Run(s, front), e);
      }
    }
  }
}
