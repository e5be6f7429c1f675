/**
 * Any number of phones signed in to one Account, and the Relay record they all write.
 *
 * A run starts after first sync. Each event is one uninterrupted stretch of code: a phone handles
 * an answer, Relay reads the record, Relay's compare-and-set statement runs. Edits may happen at
 * any moment; a phone has at most one request of its own outstanding; a request whose phone has
 * given up may still reach Relay later.
 */
module SettingsProtocol {
  import opened Prelude
  import opened SettingsDocument
  import opened SettingsQueue
  import opened DecimalText

  /** The last document an answer carried, and the tag that came with it when one did. */
  datatype Cached = Cached(document: Document, etag: Option<string>)

  datatype GetAnswer =
    | Full(document: Document, etag: Option<string>)
    | NotModified(etag: Option<string>)

  datatype PutAnswer =
    | Written(document: Document, etag: Option<string>)
    | Conflict(document: Document, etag: Option<string>)

  datatype PutStatus =
    | Sent
    | Checked(matched: nat, read: Policy)
    | Answered(answer: PutAnswer)
    | Refused

  datatype PutRequest = PutRequest(
    snapshot: seq<Pending>, base: Document, etag: Option<string>, status: PutStatus)

  /** What a phone is waiting for. `push` tells a fetch for a push from a refresh. */
  datatype Waiting =
    | Nothing
    | ForGet(push: bool, previous: Option<nat>)
    | ForGetAnswer(push: bool, previous: Option<nat>, answer: GetAnswer)
    | ForPut(request: nat, snapshot: seq<Pending>, retry: bool)

  /**
   * `applied` is the last document folded into the local values and `made` is every edit not yet
   * acknowledged, never coalesced: both are history, which no step reads.
   */
  datatype Client = Client(
    phone: Phone, cached: Option<Cached>, waiting: Waiting, applied: Document, made: seq<Pending>)

  /**
   * `stored[r]` is the policy at revision `r`. `writes` are the snapshots accepted since the run began, so the
   * last `|writes|` revisions are theirs and the ones before were there already.
   */
  datatype System = System(
    account: string,
    stored: seq<Policy>,
    writes: seq<seq<Pending>>,
    requests: seq<PutRequest>,
    clients: seq<Client>)

  datatype Event =
    | UserEdit(client: nat, edit: Edit)
    | StartRefresh(client: nat)
    | StartPush(client: nat)
    | ServeGet(client: nat, tagged: bool)
    | TakeGet(client: nat)
    | CheckPut(request: nat, tagged: bool)
    | CommitPut(request: nat, tagged: bool)
    | TakePut(client: nat)
    | GiveUp(client: nat)

  // ----- Relay

  function Current(s: System): Document
    requires s.stored != []
  {
    Document(|s.stored| - 1, s.stored[|s.stored| - 1], false)
  }

  function Tag(d: Document, tagged: bool): Option<string> {
    if tagged then Some(ETag(d.revision)) else None
  }

  function MatchTag(etag: Option<string>, revision: nat): string {
    if etag.Some? && etag.value != "" then etag.value else ETag(revision)
  }

  /** The first half of the PUT handler: parse the header, read the record, compare. */
  function Check(s: System, r: PutRequest, tagged: bool): PutStatus
    requires s.stored != []
  {
    match ParseIfMatch(Some(MatchTag(r.etag, r.base.revision)))
    case Missing => Refused
    case Invalid => Refused
    case Revision(matched) =>
      var current := Current(s);
      if current.revision != matched then Answered(Conflict(current, Tag(current, tagged)))
      else Checked(matched, current.policy)
  }

  /** What the handler stores: a body that does not name the switch leaves it as it was read. */
  function StoredPolicy(r: PutRequest): Policy
    requires r.status.Checked?
  {
    var body := Folding(Edits(r.snapshot), r.base);
    body.policy.(
      historySync := if body.writesHistory then body.policy.historySync else r.status.read.historySync)
  }

  /** The compare-and-set statement, which may come after other writes. */
  function Commit(s: System, i: nat, tagged: bool): System
    requires s.stored != [] && i < |s.requests| && s.requests[i].status.Checked?
  {
    var r := s.requests[i];
    var current := Current(s);
    if current.revision == r.status.matched then
      var written := Document(r.status.matched + 1, StoredPolicy(r), false);
      s.(
        stored := s.stored + [written.policy],
        writes := s.writes + [r.snapshot],
        requests := s.requests[i := r.(status := Answered(Written(written, Tag(written, tagged))))])
    else
      s.(requests := s.requests[i := r.(status := Answered(Conflict(current, Tag(current, tagged))))])
  }

  // ----- a phone

  function EditStep(c: Client, account: string, e: Edit): Client {
    c.(
      phone := Edited(c.phone, Some(account), e),
      made := c.made + [Pending(c.phone.nextID, account, e)])
  }

  /** What a GET carried: the answer's own document, or the held one a 304 stands for. */
  function Fetched(c: Client, a: GetAnswer): Option<Cached> {
    match a
    case Full(d, etag) => Some(Cached(d, etag))
    case NotModified(etag) =>
      if c.cached.None? then None
      else Some(Cached(c.cached.value.document, if etag.Some? then etag else c.cached.value.etag))
  }

  function AfterRefresh(c: Client, account: string, previous: Option<nat>, got: Cached): Client {
    c.(
      phone := Refreshed(c.phone, account, previous, got.document),
      cached := Some(got),
      waiting := Nothing,
      applied :=
        if Mine(c.phone.pending, account) != [] || previous != Some(got.document.revision)
        then got.document else c.applied)
  }

  function AfterPut(c: Client, account: string, a: PutAnswer, snapshot: seq<Pending>): Client {
    match a
    case Written(d, etag) =>
      c.(
        phone := Acknowledged(c.phone, snapshot, account, d),
        cached := Some(Cached(d, etag)),
        waiting := Nothing,
        applied := d,
        made := Filter(c.made, Outlives(snapshot)))
    case Conflict(d, etag) =>
      c.(
        phone := Showing(c.phone, account, d),
        cached := Some(Cached(d, etag)),
        waiting := Nothing,
        applied := d)
  }

  /** Not acknowledged by `snapshot`: nothing in it is this edit or a later one of its slot. */
  function Outlives(snapshot: seq<Pending>): Pending -> bool {
    (x: Pending) => forall y :: y in snapshot && SameSlot(x, y) ==> y.id < x.id
  }

  /** Send the snapshot folded onto `base`, unless there is nothing to send. */
  function SendOnto(s: System, i: nat, snapshot: seq<Pending>, base: Cached, retry: bool): System
    requires i < |s.clients|
  {
    if snapshot == [] then s
    else s.(
      requests := s.requests + [PutRequest(snapshot, base.document, base.etag, Sent)],
      clients := s.clients[i := s.clients[i].(waiting := ForPut(|s.requests|, snapshot, retry))])
  }

  function WithClient(s: System, i: nat, c: Client): System
    requires i < |s.clients|
  {
    s.(clients := s.clients[i := c])
  }

  function TakeGetStep(s: System, i: nat): System
    requires i < |s.clients| && s.clients[i].waiting.ForGetAnswer?
  {
    var c := s.clients[i];
    var got := Fetched(c, c.waiting.answer);
    if got.None? then WithClient(s, i, c.(waiting := Nothing))
    else
      var c' :=
        if c.waiting.push then c.(cached := got, waiting := Nothing)
        else AfterRefresh(c, s.account, c.waiting.previous, got.value);
      SendOnto(WithClient(s, i, c'), i, Mine(c'.phone.pending, s.account), got.value, true)
  }

  function TakePutStep(s: System, i: nat): System
    requires i < |s.clients| && s.clients[i].waiting.ForPut?
    requires s.clients[i].waiting.request < |s.requests|
  {
    var c := s.clients[i];
    var w := c.waiting;
    match s.requests[w.request].status
    case Answered(a) =>
      var s' := WithClient(s, i, AfterPut(c, s.account, a, w.snapshot));
      if a.Conflict? && w.retry
      then SendOnto(s', i, w.snapshot, Cached(a.document, a.etag), false)
      else s'
    case Refused => WithClient(s, i, c.(waiting := Nothing))
    case _ => s
  }

  function StartPushStep(s: System, i: nat): System
    requires i < |s.clients|
  {
    var c := s.clients[i];
    var mine := Mine(c.phone.pending, s.account);
    if mine == [] then s
    else if c.cached.Some? then SendOnto(s, i, mine, c.cached.value, true)
    else WithClient(s, i, c.(waiting := ForGet(true, None)))
  }

  predicate Enabled(s: System, e: Event) {
    && s.stored != []
    && match e
       case UserEdit(i, _) => i < |s.clients|
       case StartRefresh(i) => i < |s.clients| && s.clients[i].waiting.Nothing?
       case StartPush(i) => i < |s.clients| && s.clients[i].waiting.Nothing?
       case ServeGet(i, _) => i < |s.clients| && s.clients[i].waiting.ForGet?
       case TakeGet(i) => i < |s.clients| && s.clients[i].waiting.ForGetAnswer?
       case CheckPut(r, _) => r < |s.requests| && s.requests[r].status.Sent?
       case CommitPut(r, _) => r < |s.requests| && s.requests[r].status.Checked?
       case TakePut(i) =>
         i < |s.clients| && s.clients[i].waiting.ForPut? && s.clients[i].waiting.request < |s.requests|
       case GiveUp(i) => i < |s.clients|
  }

  /** A GET answers 304 when the phone offered the tag of the current revision. */
  function AnswerGet(s: System, c: Client, tagged: bool): GetAnswer
    requires s.stored != []
  {
    var current := Current(s);
    if c.cached.Some? && c.cached.value.etag == Some(ETag(current.revision))
    then NotModified(Tag(current, tagged))
    else Full(current, Tag(current, tagged))
  }

  function Step(s: System, e: Event): System
    requires Enabled(s, e)
  {
    match e
    case UserEdit(i, edit) => WithClient(s, i, EditStep(s.clients[i], s.account, edit))
    case StartRefresh(i) =>
      var c := s.clients[i];
      var previous := if c.cached.Some? then Some(c.cached.value.document.revision) else None;
      WithClient(s, i, c.(waiting := ForGet(false, previous)))
    case StartPush(i) => StartPushStep(s, i)
    case ServeGet(i, tagged) =>
      var c := s.clients[i];
      WithClient(s, i, c.(
        waiting := ForGetAnswer(c.waiting.push, c.waiting.previous, AnswerGet(s, c, tagged))))
    case TakeGet(i) => TakeGetStep(s, i)
    case CheckPut(r, tagged) =>
      var q := s.requests[r];
      s.(requests := s.requests[r := q.(status := Check(s, q, tagged))])
    case CommitPut(r, tagged) => Commit(s, r, tagged)
    case TakePut(i) => TakePutStep(s, i)
    case GiveUp(i) => WithClient(s, i, s.clients[i].(waiting := Nothing))
  }

  /** The state after a run; an event that cannot happen changes nothing. */
  function Run(s: System, events: seq<Event>): System {
    if events == [] then s
    else
      var before := Run(s, events[..|events| - 1]);
      var e := events[|events| - 1];
      if Enabled(before, e) then Step(before, e) else before
  }

  // ----- what every state keeps

  /** A document Relay really stored at its revision. */
  ghost predicate Genuine(stored: seq<Policy>, d: Document) {
    d.revision < |stored| && d.policy == stored[d.revision] && !d.writesHistory
  }

  ghost predicate TrueTag(d: Document, etag: Option<string>) {
    etag.Some? ==> etag.value == "" || etag.value == ETag(d.revision)
  }

  ghost predicate GenuineCached(stored: seq<Policy>, c: Cached) {
    Genuine(stored, c.document) && TrueTag(c.document, c.etag)
  }

  /** The revision that was current when the run began. */
  function FirstRevision(stored: seq<Policy>, writes: seq<seq<Pending>>): nat
    requires |writes| < |stored|
  {
    |stored| - |writes| - 1
  }

  /** Since the run began, every revision is the one before it with the accepted snapshot folded on. */
  ghost predicate Serial(stored: seq<Policy>, writes: seq<seq<Pending>>) {
    && |writes| < |stored|
    && (forall r :: 0 <= r < |stored| ==> WireReady(stored[r]))
    && (forall w: nat :: w < |writes| ==> Follows(stored, writes, w))
  }

  /** The revision that snapshot `w` made is the one before it with the snapshot folded on. */
  ghost predicate Follows(stored: seq<Policy>, writes: seq<seq<Pending>>, w: nat)
    requires w < |writes| < |stored|
  {
    var r := FirstRevision(stored, writes) + w;
    stored[r + 1] == Applied(stored[r], r, writes[w])
  }

  /** A policy with a snapshot folded on. */
  function Applied(p: Policy, revision: nat, snapshot: seq<Pending>): Policy {
    Folding(Edits(snapshot), Document(revision, p, false)).policy
  }

  /** The revision was made by this snapshot. */
  ghost predicate MadeBy(s: System, revision: nat, snapshot: seq<Pending>) {
    && |s.writes| < |s.stored|
    && FirstRevision(s.stored, s.writes) < revision < |s.stored|
    && s.writes[revision - FirstRevision(s.stored, s.writes) - 1] == snapshot
  }

  ghost predicate OneSlotEach(q: seq<Pending>) {
    forall i, j :: 0 <= i < j < |q| ==> !SameSlot(q[i], q[j])
  }

  ghost predicate Increasing(q: seq<Pending>, below: nat) {
    && (forall i :: 0 <= i < |q| ==> q[i].id < below)
    && (forall i, j :: 0 <= i < j < |q| ==> q[i].id < q[j].id)
  }

  ghost predicate OwnSnapshot(account: string, snapshot: seq<Pending>) {
    OneSlotEach(snapshot) && forall x :: x in snapshot ==> x.account == account
  }

  /** What a snapshot in flight still means to the queue it was taken from. */
  ghost predicate TakenFrom(c: Client, snapshot: seq<Pending>) {
    forall y :: y in snapshot ==>
      && y.id < c.phone.nextID
      && (forall x :: x in c.made && x.id == y.id ==> x == y)
      && (forall x :: x in c.phone.pending && SameSlot(x, y) ==> y.id <= x.id)
  }

  ghost predicate RequestInv(s: System, q: PutRequest) {
    && Genuine(s.stored, q.base)
    && TrueTag(q.base, q.etag)
    && OwnSnapshot(s.account, q.snapshot)
    && match q.status
       case Sent => true
       case Refused => true
       case Checked(matched, read) => matched == q.base.revision && read == q.base.policy
       case Answered(Conflict(d, etag)) => GenuineCached(s.stored, Cached(d, etag))
       case Answered(Written(d, etag)) =>
         && GenuineCached(s.stored, Cached(d, etag))
         && MadeBy(s, d.revision, q.snapshot)
  }

  ghost predicate WaitingInv(s: System, c: Client) {
    match c.waiting
    case Nothing => true
    case ForGet(push, previous) => PreviousInv(s, c, push, previous)
    case ForGetAnswer(push, previous, answer) =>
      && PreviousInv(s, c, push, previous)
      && (Fetched(c, answer).Some? ==> GenuineCached(s.stored, Fetched(c, answer).value))
    case ForPut(request, snapshot, _) =>
      && request < |s.requests|
      && s.requests[request].snapshot == snapshot && snapshot != []
      && TakenFrom(c, snapshot)
  }

  ghost predicate PreviousInv(s: System, c: Client, push: bool, previous: Option<nat>) {
    if push then Mine(c.phone.pending, s.account) != []
    else previous == if c.cached.Some? then Some(c.cached.value.document.revision) else None
  }

  /** The local values are the un-acknowledged edits folded onto the last document applied. */
  ghost predicate QueueInv(s: System, c: Client) {
    && Increasing(c.made, c.phone.nextID)
    && c.phone.pending == Coalesced(c.made)
    && Genuine(s.stored, c.applied)
    && Shows(c.phone.local, FoldMine(c.phone.pending, s.account, c.applied).policy)
  }

  ghost predicate CacheInv(s: System, c: Client) {
    c.cached.Some? ==>
      && GenuineCached(s.stored, c.cached.value)
      && (Mine(c.phone.pending, s.account) == [] ==> c.applied == c.cached.value.document)
  }

  ghost predicate ClientInv(s: System, c: Client) {
    QueueInv(s, c) && CacheInv(s, c) && WaitingInv(s, c)
  }

  ghost predicate Inv(s: System) {
    && Serial(s.stored, s.writes)
    && (forall r :: 0 <= r < |s.requests| ==> RequestInv(s, s.requests[r]))
    && (forall i :: 0 <= i < |s.clients| ==> ClientInv(s, s.clients[i]))
  }

  /**
   * Where runs start: any stored revisions, nothing outstanding, and each phone showing its queue
   * folded onto a document it has applied, which may be an old one.
   */
  ghost predicate Init(s: System) {
    && s.stored != [] && (forall r :: 0 <= r < |s.stored| ==> WireReady(s.stored[r]))
    && s.writes == [] && s.requests == []
    && forall i :: 0 <= i < |s.clients| ==>
         var c := s.clients[i];
         c.waiting.Nothing? && QueueInv(s, c) && CacheInv(s, c)
  }
}
