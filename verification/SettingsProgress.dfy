/**
 * What a phone's own steps bring about: a queued edit is sent, retried once and stored, and a refresh
 * shows what is stored.
 */
module SettingsProgress {
  import opened Prelude
  import opened SettingsDocument
  import opened SettingsQueue
  import opened DecimalText
  import opened SettingsProtocol
  import opened SettingsSafety
  import opened SettingsTheorems

  // ----- runs after runs

  lemma {:induction false} RunAppend(s: System, a: seq<Event>, b: seq<Event>)
    ensures Run(s, a + b) == Run(Run(s, a), b)
  {
    if b == [] {
      assert a + b == a;
    } else {
      RunAppend(s, a, b[..|b| - 1]);
      assert (a + b)[..|a + b| - 1] == a + b[..|b| - 1];
    }
  }

  lemma {:induction false} RunOne(s: System, e: Event)
    requires Enabled(s, e)
    ensures Run(s, [e]) == Step(s, e)
  {
    assert [e][..0] == [];
  }

  lemma {:induction false} AfterStep(start: System, events: seq<Event>, e: Event)
    requires Enabled(Run(start, events), e)
    ensures Run(start, events + [e]) == Step(Run(start, events), e)
  {
    RunOne(Run(start, events), e);
    RunAppend(start, events, [e]);
  }

  // ----- one request

  lemma {:induction false} HeaderIsBase(etag: Option<string>, d: Document)
    requires TrueTag(d, etag) && d.revision <= MAXIMUM_SAFE_INTEGER
    ensures ParseIfMatch(Some(MatchTag(etag, d.revision))) == Revision(d.revision)
  {
    IfMatchIsETag(ETag(d.revision), d.revision);
  }

  /** The phone waits for a request that carries this snapshot folded onto this document and was not looked at yet. */
  ghost predicate Outstanding(s: System, i: nat, r: nat, snapshot: seq<Pending>, base: Document, retry: bool) {
    && i < |s.clients| && r < |s.requests|
    && s.clients[i].waiting == ForPut(r, snapshot, retry)
    && s.requests[r].snapshot == snapshot && s.requests[r].base == base && s.requests[r].status.Sent?
  }

  /** One revision more, which says what every edit of the snapshot wants. */
  ghost predicate Stores(s: System, t: System, snapshot: seq<Pending>) {
    && |t.stored| == |s.stored| + 1 && s.stored <= t.stored
    && forall item :: item in snapshot ==> ValueAt(Current(t).policy, TargetOf(item.edit)) == Wanted(item.edit)
  }

  /** The phone is idle, and of its queue exactly the snapshot is gone. */
  ghost predicate Acknowledges(s: System, t: System, i: nat, snapshot: seq<Pending>) {
    && i < |s.clients| && i < |t.clients| && t.account == s.account
    && t.clients[i].waiting == Nothing && t.requests != [] && |t.requests| == |s.requests|
    && t.clients[i].phone.pending == Remove(s.clients[i].phone.pending, IDs(snapshot))
    && t.stored != [] && t.clients[i].applied == Current(t)
  }

  lemma {:induction false} CheckMatches(s: System, i: nat, r: nat, snapshot: seq<Pending>, retry: bool, tagged: bool)
    requires Inv(s) && Outstanding(s, i, r, snapshot, Current(s), retry)
    requires Current(s).revision <= MAXIMUM_SAFE_INTEGER
    ensures Enabled(s, CheckPut(r, tagged))
    ensures var t := Step(s, CheckPut(r, tagged));
      && Inv(t) && t.stored == s.stored && t.account == s.account && t.clients == s.clients
      && |t.requests| == |s.requests|
      && t.requests[r] == s.requests[r].(status := Checked(Current(s).revision, Current(s).policy))
  {
    assert RequestInv(s, s.requests[r]);
    HeaderIsBase(s.requests[r].etag, s.requests[r].base);
    StepKeeps(s, CheckPut(r, tagged));
  }

  lemma {:induction false} CheckRefuses(
    s: System, i: nat, r: nat, snapshot: seq<Pending>, base: Document, retry: bool, tagged: bool)
    requires Inv(s) && Outstanding(s, i, r, snapshot, base, retry)
    requires base.revision != Current(s).revision && base.revision <= MAXIMUM_SAFE_INTEGER
    ensures Enabled(s, CheckPut(r, tagged))
    ensures var t := Step(s, CheckPut(r, tagged));
      && Inv(t) && t.stored == s.stored && t.account == s.account && t.clients == s.clients
      && |t.requests| == |s.requests|
      && t.requests[r] == s.requests[r].(status := Answered(Conflict(Current(s), Tag(Current(s), tagged))))
  {
    assert RequestInv(s, s.requests[r]);
    HeaderIsBase(s.requests[r].etag, s.requests[r].base);
    StepKeeps(s, CheckPut(r, tagged));
  }

  lemma {:induction false} CommitStores(s: System, r: nat, tagged: bool)
    requires Inv(s) && r < |s.requests| && s.requests[r].status.Checked?
    requires s.requests[r].status.matched == Current(s).revision
    ensures Enabled(s, CommitPut(r, tagged))
    ensures var t := Step(s, CommitPut(r, tagged));
      && Inv(t) && t.account == s.account && t.clients == s.clients && |t.requests| == |s.requests|
      && Stores(s, t, s.requests[r].snapshot)
      && t.requests[r].snapshot == s.requests[r].snapshot
      && t.requests[r].status == Answered(Written(Current(t), Tag(Current(t), tagged)))
  {
    var q, t := s.requests[r], Step(s, CommitPut(r, tagged));
    StepKeeps(s, CommitPut(r, tagged));
    assert RequestInv(s, q);
    forall item | item in q.snapshot
      ensures ValueAt(Current(t).policy, TargetOf(item.edit)) == Wanted(item.edit)
    {
      CommitSays(s, r, tagged, TargetOf(item.edit));
      SnapshotSays(s.account, q.snapshot, item);
    }
  }

  lemma {:induction false} TakeAcknowledges(
    s: System, i: nat, r: nat, snapshot: seq<Pending>, retry: bool, etag: Option<string>)
    requires i < |s.clients| && r < |s.requests| && s.stored != []
    requires s.clients[i].waiting == ForPut(r, snapshot, retry)
    requires s.requests[r].status == Answered(Written(Current(s), etag))
    ensures Enabled(s, TakePut(i)) && Step(s, TakePut(i)).stored == s.stored
    ensures Acknowledges(s, Step(s, TakePut(i)), i, snapshot)
  {
  }

  lemma {:induction false} TakeStored(
    s: System, i: nat, r: nat, snapshot: seq<Pending>, retry: bool, etag: Option<string>)
    requires Inv(s) && i < |s.clients| && r < |s.requests|
    requires s.clients[i].waiting == ForPut(r, snapshot, retry)
    requires s.requests[r].status == Answered(Written(Current(s), etag))
    ensures Enabled(s, TakePut(i))
    ensures Inv(Step(s, TakePut(i))) && Step(s, TakePut(i)).stored == s.stored
    ensures Acknowledges(s, Step(s, TakePut(i)), i, snapshot)
  {
    TakeAcknowledges(s, i, r, snapshot, retry, etag);
    StepKeeps(s, TakePut(i));
  }

  // The same after a run.

  lemma {:induction false} Checked1(
    start: System, events: seq<Event>, i: nat, r: nat, snapshot: seq<Pending>, retry: bool, tagged: bool)
    requires Init(start) && Run(start, events).stored != []
    requires Outstanding(Run(start, events), i, r, snapshot, Current(Run(start, events)), retry)
    requires Current(Run(start, events)).revision <= MAXIMUM_SAFE_INTEGER
    ensures var s, t := Run(start, events), Run(start, events + [CheckPut(r, tagged)]);
      && t.stored == s.stored && t.account == s.account && t.clients == s.clients && |t.requests| == |s.requests|
      && t.requests[r] == s.requests[r].(status := Checked(Current(s).revision, Current(s).policy))
  {
    RunKeeps(start, events);
    CheckMatches(Run(start, events), i, r, snapshot, retry, tagged);
    AfterStep(start, events, CheckPut(r, tagged));
  }

  lemma {:induction false} Committed1(start: System, events: seq<Event>, r: nat, tagged: bool)
    requires Init(start) && Run(start, events).stored != [] && r < |Run(start, events).requests|
    requires Run(start, events).requests[r].status.Checked?
    requires Run(start, events).requests[r].status.matched == Current(Run(start, events)).revision
    ensures var s, t := Run(start, events), Run(start, events + [CommitPut(r, tagged)]);
      && t.account == s.account && t.clients == s.clients && |t.requests| == |s.requests|
      && Stores(s, t, s.requests[r].snapshot)
      && t.requests[r].status == Answered(Written(Current(t), Tag(Current(t), tagged)))
  {
    RunKeeps(start, events);
    CommitStores(Run(start, events), r, tagged);
    AfterStep(start, events, CommitPut(r, tagged));
  }

  lemma {:induction false} Taken1(
    start: System, events: seq<Event>, i: nat, r: nat, snapshot: seq<Pending>, retry: bool, etag: Option<string>)
    requires Init(start) && i < |Run(start, events).clients| && r < |Run(start, events).requests|
    requires Run(start, events).stored != [] && Run(start, events).clients[i].waiting == ForPut(r, snapshot, retry)
    requires Run(start, events).requests[r].status == Answered(Written(Current(Run(start, events)), etag))
    ensures var s, t := Run(start, events), Run(start, events + [TakePut(i)]);
      t.stored == s.stored && Acknowledges(s, t, i, snapshot)
  {
    RunKeeps(start, events);
    TakeStored(Run(start, events), i, r, snapshot, retry, etag);
    AfterStep(start, events, TakePut(i));
  }

  /** A request looked at, committed and answered without anything in between. */
  function Round(i: nat, r: nat, tagged: bool): seq<Event> {
    [CheckPut(r, tagged)] + [CommitPut(r, tagged)] + [TakePut(i)]
  }

  lemma {:induction false} RunRound(start: System, events: seq<Event>, i: nat, r: nat, tagged: bool)
    ensures Run(start, events + Round(i, r, tagged))
         == Run(start, events + [CheckPut(r, tagged)] + [CommitPut(r, tagged)] + [TakePut(i)])
  {
    assert events + Round(i, r, tagged) == events + [CheckPut(r, tagged)] + [CommitPut(r, tagged)] + [TakePut(i)];
  }

  lemma {:induction false} StoresFrom(s: System, a: System, t: System, u: System, snapshot: seq<Pending>)
    requires a.stored == s.stored && Stores(a, t, snapshot) && u.stored == t.stored
    ensures Stores(s, u, snapshot)
  {
  }

  /** A request on the current document, with nothing written in between, is stored and acknowledged. */
  lemma {:induction false} Delivered(
    start: System, events: seq<Event>, i: nat, r: nat, snapshot: seq<Pending>, retry: bool, tagged: bool)
    requires Init(start) && Run(start, events).stored != []
    requires Outstanding(Run(start, events), i, r, snapshot, Current(Run(start, events)), retry)
    requires Current(Run(start, events)).revision <= MAXIMUM_SAFE_INTEGER
    ensures var s, t := Run(start, events), Run(start, events + Round(i, r, tagged));
      Stores(s, t, snapshot) && Acknowledges(s, t, i, snapshot)
  {
    var e1 := events + [CheckPut(r, tagged)];
    var e2 := e1 + [CommitPut(r, tagged)];
    Checked1(start, events, i, r, snapshot, retry, tagged);
    Committed1(start, e1, r, tagged);
    Taken1(start, e2, i, r, snapshot, retry, Tag(Current(Run(start, e2)), tagged));
    StoresFrom(Run(start, events), Run(start, e1), Run(start, e2), Run(start, e2 + [TakePut(i)]), snapshot);
    RunRound(start, events, i, r, tagged);
  }

  /** Acknowledging the whole queue of an account leaves nothing of it. */
  lemma {:induction false} NothingLeft(q: seq<Pending>, account: string)
    ensures Mine(Remove(q, IDs(Mine(q, account))), account) == []
  {
    var left := Remove(q, IDs(Mine(q, account)));
    FilterMembers(q, NotAmong(IDs(Mine(q, account))));
    FilterMembers(q, OwnedBy(account));
    forall x | x in left
      ensures !OwnedBy(account)(x)
    {
      assert x in q && x.id !in IDs(Mine(q, account));
      assert x in Mine(q, account) ==> x.id in IDs(Mine(q, account));
    }
    FilterNone(left, OwnedBy(account));
  }

  // ----- a push

  /** A push sends what is queued for the account, folded onto the document the phone holds. */
  lemma {:induction false} PushSends(s: System, i: nat)
    requires Inv(s) && i < |s.clients| && s.clients[i].waiting.Nothing? && s.clients[i].cached.Some?
    requires Mine(s.clients[i].phone.pending, s.account) != []
    ensures Enabled(s, StartPush(i))
    ensures var t := Step(s, StartPush(i));
      && Inv(t) && t.stored == s.stored && t.account == s.account && |t.requests| == |s.requests| + 1
      && |t.clients| == |s.clients| && t.clients[i].phone == s.clients[i].phone
      && Outstanding(t, i, |s.requests|, Mine(s.clients[i].phone.pending, s.account),
                     s.clients[i].cached.value.document, true)
  {
    StepKeeps(s, StartPush(i));
  }

  /** One revision more says what everything queued wanted; nothing is queued any more, and the phone shows it. */
  ghost predicate QueueStored(s: System, t: System, i: nat) {
    && i < |s.clients| && i < |t.clients| && Stores(s, t, Mine(s.clients[i].phone.pending, s.account))
    && t.stored != [] && t.clients[i].waiting.Nothing? && Mine(t.clients[i].phone.pending, s.account) == []
    && Shows(t.clients[i].phone.local, Current(t).policy)
  }

  /** With its queue out on the current document, one round stores the queue. */
  lemma {:induction false} QueueDelivered(start: System, events: seq<Event>, i: nat, r: nat, retry: bool, tagged: bool)
    requires Init(start) && Run(start, events).stored != [] && i < |Run(start, events).clients|
    requires var s := Run(start, events);
      Outstanding(s, i, r, Mine(s.clients[i].phone.pending, s.account), Current(s), retry)
    requires Current(Run(start, events)).revision <= MAXIMUM_SAFE_INTEGER
    ensures var s, t := Run(start, events), Run(start, events + Round(i, r, tagged));
      QueueStored(s, t, i) && |t.requests| == |s.requests|
  {
    var s, t := Run(start, events), Run(start, events + Round(i, r, tagged));
    Delivered(start, events, i, r, Mine(s.clients[i].phone.pending, s.account), retry, tagged);
    NothingLeft(s.clients[i].phone.pending, s.account);
    PhoneShowsApplied(start, events + Round(i, r, tagged), i);
  }

  /** With nothing queued, a phone shows the document it applied last. */
  lemma {:induction false} PhoneShowsApplied(start: System, events: seq<Event>, i: nat)
    requires Init(start) && i < |Run(start, events).clients|
    requires Mine(Run(start, events).clients[i].phone.pending, Run(start, events).account) == []
    ensures Shows(Run(start, events).clients[i].phone.local, Run(start, events).clients[i].applied.policy)
  {
    var s := Run(start, events);
    RunKeeps(start, events);
    assert ClientInv(s, s.clients[i]);
    assert FoldMine(s.clients[i].phone.pending, s.account, s.clients[i].applied) == s.clients[i].applied;
  }

  lemma {:induction false} QueueStoredFrom(s: System, a: System, t: System, i: nat)
    requires QueueStored(a, t, i) && i < |s.clients| && a.stored == s.stored && a.account == s.account
    requires a.clients[i].phone.pending == s.clients[i].phone.pending
    ensures QueueStored(s, t, i)
  {
  }

  /** Idle, with something queued, and nothing wrong with the revisions it will name. */
  ghost predicate MayPush(s: System, i: nat) {
    && s.stored != [] && i < |s.clients| && s.clients[i].waiting.Nothing?
    && Mine(s.clients[i].phone.pending, s.account) != [] && Current(s).revision <= MAXIMUM_SAFE_INTEGER
  }

  ghost predicate HoldsCurrent(s: System, i: nat) {
    s.stored != [] && i < |s.clients| && s.clients[i].cached.Some? && s.clients[i].cached.value.document == Current(s)
  }

  lemma {:induction false} Pushed(start: System, events: seq<Event>, i: nat)
    requires Init(start) && MayPush(Run(start, events), i) && Run(start, events).clients[i].cached.Some?
    ensures var s, t := Run(start, events), Run(start, events + [StartPush(i)]);
      && t.stored == s.stored && t.account == s.account && |t.requests| == |s.requests| + 1
      && |t.clients| == |s.clients| && t.clients[i].phone == s.clients[i].phone
      && Outstanding(t, i, |s.requests|, Mine(s.clients[i].phone.pending, s.account),
                     s.clients[i].cached.value.document, true)
  {
    RunKeeps(start, events);
    PushSends(Run(start, events), i);
    AfterStep(start, events, StartPush(i));
  }

  /**
   * A phone that holds the current document and has edits queued: one push stores a revision that says
   * what every one of them wants, and leaves none queued.
   */
  lemma {:induction false} PushIsStored(start: System, events: seq<Event>, i: nat, tagged: bool)
    requires Init(start) && MayPush(Run(start, events), i) && HoldsCurrent(Run(start, events), i)
    ensures var s := Run(start, events);
      var n := |s.requests|;
      var t := Run(start, events + [StartPush(i)] + Round(i, n, tagged));
      QueueStored(s, t, i) && |t.requests| == n + 1
  {
    var s, n := Run(start, events), |Run(start, events).requests|;
    var e1 := events + [StartPush(i)];
    Pushed(start, events, i);
    QueueDelivered(start, e1, i, n, true, tagged);
    QueueStoredFrom(s, Run(start, e1), Run(start, e1 + Round(i, n, tagged)), i);
  }

  // ----- a conflict

  /** The first conflict sends the same snapshot once more, onto the document it answered, and drops nothing. */
  lemma {:induction false} FirstConflictRetries(
    s: System, i: nat, r: nat, snapshot: seq<Pending>, d: Document, etag: Option<string>)
    requires Inv(s) && i < |s.clients| && r < |s.requests|
    requires s.clients[i].waiting == ForPut(r, snapshot, true) && s.requests[r].status == Answered(Conflict(d, etag))
    ensures Enabled(s, TakePut(i))
    ensures var t := Step(s, TakePut(i));
      && Inv(t) && t.stored == s.stored && t.account == s.account && |t.clients| == |s.clients|
      && t.requests == s.requests + [PutRequest(snapshot, d, etag, Sent)]
      && Outstanding(t, i, |s.requests|, snapshot, d, false)
      && t.clients[i].phone.pending == s.clients[i].phone.pending
  {
    assert ClientInv(s, s.clients[i]);
    StepKeeps(s, TakePut(i));
  }

  /** A second conflict sends nothing more and drops nothing. */
  lemma {:induction false} SecondConflictStops(
    start: System, events: seq<Event>, i: nat, r: nat, snapshot: seq<Pending>)
    requires Init(start) && i < |Run(start, events).clients| && r < |Run(start, events).requests|
    requires Run(start, events).clients[i].waiting == ForPut(r, snapshot, false)
    requires var status := Run(start, events).requests[r].status;
      status.Answered? && status.answer.Conflict?
    ensures var s, t := Run(start, events), Run(start, events + [TakePut(i)]);
      && t.requests == s.requests && t.stored == s.stored && |t.clients| == |s.clients|
      && t.clients[i].waiting.Nothing? && t.clients[i].phone.pending == s.clients[i].phone.pending
      && Shows(t.clients[i].phone.local,
               FoldMine(s.clients[i].phone.pending, s.account, s.requests[r].status.answer.document).policy)
  {
    var s := Run(start, events);
    RunKeeps(start, events);
    AfterStep(start, events, TakePut(i));
    RunKeeps(start, events + [TakePut(i)]);
    assert ClientInv(Run(start, events + [TakePut(i)]), Run(start, events + [TakePut(i)]).clients[i]);
  }

  ghost predicate HoldsOld(s: System, i: nat) {
    && s.stored != [] && i < |s.clients| && s.clients[i].cached.Some?
    && s.clients[i].cached.value.document.revision != Current(s).revision
    && s.clients[i].cached.value.document.revision <= MAXIMUM_SAFE_INTEGER
  }

  /** Nothing is stored, request `n` was answered 412, and one more of its snapshot is out on the current document. */
  ghost predicate Retried(s: System, t: System, i: nat, tagged: bool) {
    var n := |s.requests|;
    && s.stored != [] && i < |s.clients|
    && t.stored == s.stored && t.account == s.account && |t.requests| == n + 2
    && t.requests[n].status == Answered(Conflict(Current(s), Tag(Current(s), tagged)))
    && Outstanding(t, i, n + 1, Mine(s.clients[i].phone.pending, s.account), Current(s), false)
    && t.clients[i].phone.pending == s.clients[i].phone.pending
  }

  lemma {:induction false} Refused1(
    start: System, events: seq<Event>, i: nat, r: nat, snapshot: seq<Pending>, base: Document, retry: bool,
    tagged: bool)
    requires Init(start) && Run(start, events).stored != []
    requires Outstanding(Run(start, events), i, r, snapshot, base, retry)
    requires base.revision != Current(Run(start, events)).revision && base.revision <= MAXIMUM_SAFE_INTEGER
    ensures var s, t := Run(start, events), Run(start, events + [CheckPut(r, tagged)]);
      && t.stored == s.stored && t.account == s.account && t.clients == s.clients && |t.requests| == |s.requests|
      && t.requests[r] == s.requests[r].(status := Answered(Conflict(Current(s), Tag(Current(s), tagged))))
  {
    RunKeeps(start, events);
    CheckRefuses(Run(start, events), i, r, snapshot, base, retry, tagged);
    AfterStep(start, events, CheckPut(r, tagged));
  }

  lemma {:induction false} Retried1(
    start: System, events: seq<Event>, i: nat, r: nat, snapshot: seq<Pending>, d: Document, etag: Option<string>)
    requires Init(start) && i < |Run(start, events).clients| && r < |Run(start, events).requests|
    requires Run(start, events).clients[i].waiting == ForPut(r, snapshot, true)
    requires Run(start, events).requests[r].status == Answered(Conflict(d, etag))
    ensures var s, t := Run(start, events), Run(start, events + [TakePut(i)]);
      && t.stored == s.stored && t.account == s.account && |t.clients| == |s.clients|
      && t.requests == s.requests + [PutRequest(snapshot, d, etag, Sent)]
      && Outstanding(t, i, |s.requests|, snapshot, d, false)
      && t.clients[i].phone.pending == s.clients[i].phone.pending
  {
    RunKeeps(start, events);
    FirstConflictRetries(Run(start, events), i, r, snapshot, d, etag);
    AfterStep(start, events, TakePut(i));
  }

  /** A push from an old document and the answer to it. */
  function StaleRound(i: nat, n: nat, tagged: bool): seq<Event> {
    [StartPush(i)] + [CheckPut(n, tagged)] + [TakePut(i)]
  }

  lemma {:induction false} StaleRetries(start: System, events: seq<Event>, i: nat, tagged: bool)
    requires Init(start) && MayPush(Run(start, events), i) && HoldsOld(Run(start, events), i)
    ensures var s := Run(start, events);
      Retried(s, Run(start, events + StaleRound(i, |s.requests|, tagged)), i, tagged)
  {
    var s, n := Run(start, events), |Run(start, events).requests|;
    var snapshot, base := Mine(s.clients[i].phone.pending, s.account), s.clients[i].cached.value.document;
    var e1 := events + [StartPush(i)];
    var e2 := e1 + [CheckPut(n, tagged)];
    Pushed(start, events, i);
    Refused1(start, e1, i, n, snapshot, base, true, tagged);
    Retried1(start, e2, i, n, snapshot, Current(s), Tag(Current(s), tagged));
    assert events + StaleRound(i, n, tagged) == e2 + [TakePut(i)];
  }

  /**
   * A phone that holds an old document: the push is answered 412, exactly one more request of the same
   * snapshot goes out, onto the current document, and with nothing written in between it stores it.
   */
  lemma {:induction false} StalePushIsStored(start: System, events: seq<Event>, i: nat, tagged: bool)
    requires Init(start) && MayPush(Run(start, events), i) && HoldsOld(Run(start, events), i)
    ensures var s := Run(start, events);
      var n := |s.requests|;
      var sends := events + StaleRound(i, n, tagged);
      var u := Run(start, sends + Round(i, n + 1, tagged));
      Retried(s, Run(start, sends), i, tagged) && QueueStored(s, u, i) && |u.requests| == n + 2
  {
    var s, n := Run(start, events), |Run(start, events).requests|;
    var sends := events + StaleRound(i, n, tagged);
    StaleRetries(start, events, i, tagged);
    QueueDelivered(start, sends, i, n + 1, false, tagged);
    QueueStoredFrom(s, Run(start, sends), Run(start, sends + Round(i, n + 1, tagged)), i);
  }

  // ----- a fetch

  lemma {:induction false} ServedCurrent(s: System, i: nat, tagged: bool)
    requires Inv(s) && i < |s.clients| && s.clients[i].waiting.ForGet?
    ensures Enabled(s, ServeGet(i, tagged))
    ensures var t := Step(s, ServeGet(i, tagged));
      && Inv(t) && t.stored == s.stored && t.account == s.account && t.requests == s.requests
      && |t.clients| == |s.clients| && t.clients[i].waiting.ForGetAnswer?
      && t.clients[i].phone == s.clients[i].phone && t.clients[i].waiting.push == s.clients[i].waiting.push
      && Fetched(t.clients[i], t.clients[i].waiting.answer).Some?
      && Fetched(t.clients[i], t.clients[i].waiting.answer).value.document == Current(s)
  {
    assert ClientInv(s, s.clients[i]);
    AnswerGetGenuine(s, s.clients[i], tagged);
    StepKeeps(s, ServeGet(i, tagged));
  }

  lemma {:induction false} TagMatches(s: System, c: Client, tagged: bool)
    requires s.stored != [] && (c.cached.Some? ==> GenuineCached(s.stored, c.cached.value))
    ensures AnswerGet(s, c, tagged).NotModified?
      <==> c.cached.Some? && c.cached.value.etag.Some? && c.cached.value.etag.value != ""
           && c.cached.value.document == Current(s)
  {
    if c.cached.Some? {
      ETagInjective(c.cached.value.document.revision, |s.stored| - 1);
    }
  }

  /** A phone that holds the current document and offers its tag is answered 304, and no other phone is. */
  lemma {:induction false} HeldTagIsNotModified(start: System, events: seq<Event>, i: nat, tagged: bool)
    requires Init(start) && Enabled(Run(start, events), ServeGet(i, tagged))
    ensures var s := Run(start, events);
      var held := s.clients[i].cached;
      AnswerGet(s, s.clients[i], tagged).NotModified?
      <==> held.Some? && held.value.etag.Some? && held.value.etag.value != "" && held.value.document == Current(s)
  {
    var s := Run(start, events);
    RunKeeps(start, events);
    assert ClientInv(s, s.clients[i]);
    TagMatches(s, s.clients[i], tagged);
  }

  /** Taking a fetched document: a queue goes out onto it; a refresh shows it with the queue on top. */
  lemma {:induction false} FetchedTaken(s: System, i: nat)
    requires Inv(s) && i < |s.clients| && s.clients[i].waiting.ForGetAnswer?
    requires Fetched(s.clients[i], s.clients[i].waiting.answer).Some?
    requires Fetched(s.clients[i], s.clients[i].waiting.answer).value.document == Current(s)
    ensures Enabled(s, TakeGet(i))
    ensures var t := Step(s, TakeGet(i));
      var snapshot := Mine(s.clients[i].phone.pending, s.account);
      && Inv(t) && t.stored == s.stored && t.account == s.account && |t.clients| == |s.clients|
      && t.clients[i].phone.pending == s.clients[i].phone.pending
      && t.clients[i].cached.Some? && t.clients[i].cached.value.document == Current(s)
      && (!s.clients[i].waiting.push ==> t.clients[i].applied == Current(s))
      && (snapshot != [] ==> Outstanding(t, i, |s.requests|, snapshot, Current(s), true)
                             && |t.requests| == |s.requests| + 1)
      && (snapshot == [] ==> t.clients[i].waiting.Nothing? && t.requests == s.requests)
  {
    assert ClientInv(s, s.clients[i]);
    StepKeeps(s, TakeGet(i));
  }

  /** The phone holds the current document, shows it with its queue folded on, and has sent any queue. */
  ghost predicate RefreshedTo(s: System, t: System, i: nat) {
    && s.stored != [] && t.stored == s.stored && i < |s.clients| && |t.clients| == |s.clients|
    && t.clients[i].cached.Some? && t.clients[i].cached.value.document == Current(s)
    && t.clients[i].phone.pending == s.clients[i].phone.pending
    && Shows(t.clients[i].phone.local, FoldMine(s.clients[i].phone.pending, s.account, Current(s)).policy)
    && var snapshot := Mine(s.clients[i].phone.pending, s.account);
       if snapshot == [] then t.requests == s.requests && t.clients[i].waiting.Nothing?
       else |t.requests| == |s.requests| + 1 && Outstanding(t, i, |s.requests|, snapshot, Current(s), true)
  }

  lemma {:induction false} Served1(start: System, events: seq<Event>, i: nat, tagged: bool)
    requires Init(start) && i < |Run(start, events).clients| && Run(start, events).clients[i].waiting.ForGet?
    ensures var s, t := Run(start, events), Run(start, events + [ServeGet(i, tagged)]);
      && s.stored != [] && t.stored == s.stored && t.account == s.account && t.requests == s.requests
      && |t.clients| == |s.clients| && t.clients[i].waiting.ForGetAnswer?
      && t.clients[i].phone == s.clients[i].phone && t.clients[i].waiting.push == s.clients[i].waiting.push
      && Fetched(t.clients[i], t.clients[i].waiting.answer).Some?
      && Fetched(t.clients[i], t.clients[i].waiting.answer).value.document == Current(s)
  {
    RunKeeps(start, events);
    ServedCurrent(Run(start, events), i, tagged);
    AfterStep(start, events, ServeGet(i, tagged));
  }

  lemma {:induction false} TakenGet1(start: System, events: seq<Event>, i: nat)
    requires Init(start) && i < |Run(start, events).clients| && Run(start, events).clients[i].waiting.ForGetAnswer?
    requires var s := Run(start, events);
      && s.stored != [] && Fetched(s.clients[i], s.clients[i].waiting.answer).Some?
      && Fetched(s.clients[i], s.clients[i].waiting.answer).value.document == Current(s)
    ensures var s, t := Run(start, events), Run(start, events + [TakeGet(i)]);
      var snapshot := Mine(s.clients[i].phone.pending, s.account);
      && t.stored == s.stored && t.account == s.account && |t.clients| == |s.clients|
      && t.clients[i].phone.pending == s.clients[i].phone.pending
      && t.clients[i].cached.Some? && t.clients[i].cached.value.document == Current(s)
      && (!s.clients[i].waiting.push ==> t.clients[i].applied == Current(s))
      && (snapshot != [] ==> Outstanding(t, i, |s.requests|, snapshot, Current(s), true)
                             && |t.requests| == |s.requests| + 1)
      && (snapshot == [] ==> t.clients[i].waiting.Nothing? && t.requests == s.requests)
  {
    RunKeeps(start, events);
    FetchedTaken(Run(start, events), i);
    AfterStep(start, events, TakeGet(i));
  }

  /** The two events of a fetch that Relay serves at once. */
  function Fetch(i: nat, tagged: bool): seq<Event> { [ServeGet(i, tagged)] + [TakeGet(i)] }

  lemma {:induction false} Fetched1(start: System, events: seq<Event>, i: nat, tagged: bool)
    requires Init(start) && i < |Run(start, events).clients| && Run(start, events).clients[i].waiting.ForGet?
    ensures var s, t := Run(start, events), Run(start, events + Fetch(i, tagged));
      var snapshot := Mine(s.clients[i].phone.pending, s.account);
      && s.stored != [] && t.stored == s.stored && t.account == s.account && |t.clients| == |s.clients|
      && t.clients[i].phone.pending == s.clients[i].phone.pending
      && t.clients[i].cached.Some? && t.clients[i].cached.value.document == Current(s)
      && (!s.clients[i].waiting.push ==> t.clients[i].applied == Current(s))
      && (snapshot != [] ==> Outstanding(t, i, |s.requests|, snapshot, Current(s), true)
                             && |t.requests| == |s.requests| + 1)
      && (snapshot == [] ==> t.clients[i].waiting.Nothing? && t.requests == s.requests)
  {
    var e1 := events + [ServeGet(i, tagged)];
    Served1(start, events, i, tagged);
    TakenGet1(start, e1, i);
    assert events + Fetch(i, tagged) == e1 + [TakeGet(i)];
  }

  lemma {:induction false} RefreshStarted(start: System, events: seq<Event>, i: nat)
    requires Init(start) && i < |Run(start, events).clients| && Run(start, events).clients[i].waiting.Nothing?
    ensures var s, t := Run(start, events), Run(start, events + [StartRefresh(i)]);
      && t.stored == s.stored && t.account == s.account && t.requests == s.requests && |t.clients| == |s.clients|
      && t.clients[i].phone == s.clients[i].phone && t.clients[i].waiting.ForGet? && !t.clients[i].waiting.push
  {
    RunKeeps(start, events);
    AfterStep(start, events, StartRefresh(i));
  }

  lemma {:induction false} ShowsQueue(start: System, events: seq<Event>, i: nat)
    requires Init(start) && i < |Run(start, events).clients|
    ensures var s := Run(start, events);
      Shows(s.clients[i].phone.local, FoldMine(s.clients[i].phone.pending, s.account, s.clients[i].applied).policy)
  {
    RunKeeps(start, events);
    assert ClientInv(Run(start, events), Run(start, events).clients[i]);
  }

  /**
   * A refresh that Relay serves at once leaves the phone holding the current document and showing it with
   * its queue folded on, and sends the queue when there is one.
   */
  lemma {:induction false} RefreshShowsCurrent(start: System, events: seq<Event>, i: nat, tagged: bool)
    requires Init(start) && i < |Run(start, events).clients| && Run(start, events).clients[i].waiting.Nothing?
    ensures RefreshedTo(Run(start, events), Run(start, events + [StartRefresh(i)] + Fetch(i, tagged)), i)
  {
    RefreshStarted(start, events, i);
    Fetched1(start, events + [StartRefresh(i)], i, tagged);
    ShowsQueue(start, events + [StartRefresh(i)] + Fetch(i, tagged), i);
  }

  lemma {:induction false} FetchStarted(start: System, events: seq<Event>, i: nat)
    requires Init(start) && MayPush(Run(start, events), i) && Run(start, events).clients[i].cached.None?
    ensures var s, t := Run(start, events), Run(start, events + [StartPush(i)]);
      && t.stored == s.stored && t.account == s.account && t.requests == s.requests && |t.clients| == |s.clients|
      && t.clients[i].phone == s.clients[i].phone && t.clients[i].waiting.ForGet?
  {
    AfterStep(start, events, StartPush(i));
  }

  /** A phone that holds no document fetches the current one first, and then stores its queue the same way. */
  lemma {:induction false} FirstPushIsStored(start: System, events: seq<Event>, i: nat, tagged: bool)
    requires Init(start) && MayPush(Run(start, events), i) && Run(start, events).clients[i].cached.None?
    ensures var s := Run(start, events);
      var n := |s.requests|;
      var t := Run(start, events + [StartPush(i)] + Fetch(i, tagged) + Round(i, n, tagged));
      QueueStored(s, t, i) && |t.requests| == n + 1
  {
    var s, n := Run(start, events), |Run(start, events).requests|;
    var e1 := events + [StartPush(i)];
    var e2 := e1 + Fetch(i, tagged);
    FetchStarted(start, events, i);
    Fetched1(start, e1, i, tagged);
    QueueDelivered(start, e2, i, n, true, tagged);
    QueueStoredFrom(s, Run(start, e2), Run(start, e2 + Round(i, n, tagged)), i);
  }

  // ----- an edit

  /** The edit is the newest of the queue and what the phone shows at its target; the phone waits on. */
  ghost predicate QueuedAndShown(s: System, t: System, i: nat, e: Edit) {
    && i < |s.clients| && |t.clients| == |s.clients|
    && t.clients[i].waiting == s.clients[i].waiting
    && t.clients[i].phone.pending != []
    && t.clients[i].phone.pending[|t.clients[i].phone.pending| - 1].edit == e
    && t.clients[i].phone.pending[|t.clients[i].phone.pending| - 1].account == s.account
    && ValueAt(CurrentPolicy(t.clients[i].phone.local), TargetOf(e)) == Wanted(e)
  }

  lemma {:induction false} EditTaken(s: System, i: nat, e: Edit, d: Document)
    requires s.stored != [] && i < |s.clients| && Shows(s.clients[i].phone.local, d.policy)
    ensures Enabled(s, UserEdit(i, e)) && QueuedAndShown(s, Step(s, UserEdit(i, e)), i, e)
  {
    EditShows(s.clients[i].phone.local, d, e);
  }

  lemma {:induction false} LocalIsFold(s: System, i: nat)
    requires Inv(s) && i < |s.clients|
    ensures Shows(
              s.clients[i].phone.local,
              FoldMine(s.clients[i].phone.pending, s.account, s.clients[i].applied).policy)
  {
    assert ClientInv(s, s.clients[i]);
  }

  /** An edit is shown at once and is the newest of the queue, whatever the phone is waiting for. */
  lemma {:induction false} EditIsQueuedAndShown(start: System, events: seq<Event>, i: nat, e: Edit)
    requires Init(start) && i < |Run(start, events).clients|
    ensures QueuedAndShown(Run(start, events), Run(start, events + [UserEdit(i, e)]), i, e)
  {
    var s := Run(start, events);
    RunKeeps(start, events);
    LocalIsFold(s, i);
    EditTaken(s, i, e, FoldMine(s.clients[i].phone.pending, s.account, s.clients[i].applied));
    AfterStep(start, events, UserEdit(i, e));
  }
}
