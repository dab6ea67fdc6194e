/** The webhook outbox: events fan out to endpoints, deliveries are posted with a backoff, and an
    operator may queue them again.

    Rows are numbered by their place in the table. A row whose endpoint was deleted is `Removed`: no
    query sees it. The journal is what has left the process or been queued again by an operator, in
    order; it is what the bounds below speak about. Instants are seconds. */
module WebhookOutbox {
  import opened Common

  const MAX_BACKOFF: nat := 3600

  datatype Endpoint = Endpoint(account: nat, present: bool, active: bool, events: seq<string>)
  datatype Message = Message(account: nat, payment: nat, kind: string)
  datatype Status = Pending | Retrying | Success | Failed | Removed
  datatype Delivery = Delivery(event: nat, endpoint: nat, status: Status, attempts: nat, nextAttempt: Option<int>)

  /** What a post came back with, and when: no code when the call raised. */
  datatype Reply = Reply(done: int, code: Option<int>)

  datatype Entry =
    | Posted(id: nat, sent: int, done: int, ok: bool)
    | Requeued(id: nat, successes: bool)

  datatype Outbox = Outbox(
    endpoints: seq<Endpoint>, events: seq<Message>, deliveries: seq<Delivery>, journal: seq<Entry>)

  const EMPTY := Outbox([], [], [], [])

  function Backoff(attempts: nat): nat { Min(Pow2(attempts), MAX_BACKOFF) }

  // ---------------------------------------------------------------------------
  // Fan-out
  // ---------------------------------------------------------------------------

  /** `_endpoint_wants`: no list, or a star in it, means every kind. */
  predicate Wants(e: Endpoint, kind: string) {
    e.events == [] || "*" in e.events || kind in e.events
  }

  predicate Subscribed(e: Endpoint, account: nat, kind: string) {
    e.present && e.active && e.account == account && Wants(e, kind)
  }

  function FreshRow(event: nat, endpoint: nat): Delivery { Delivery(event, endpoint, Pending, 0, None) }

  /** The rows of a new event: one for each subscribed endpoint numbered below `n`. */
  function Fanned(endpoints: seq<Endpoint>, event: nat, account: nat, kind: string, n: nat): seq<Delivery>
    requires n <= |endpoints|
  {
    if n == 0 then []
    else if Subscribed(endpoints[n - 1], account, kind) then
      Fanned(endpoints, event, account, kind, n - 1) + [FreshRow(event, n - 1)]
    else Fanned(endpoints, event, account, kind, n - 1)
  }

  function Enqueue(ob: Outbox, payment: nat, account: nat, kind: string): Outbox {
    ob.(events := ob.events + [Message(account, payment, kind)],
        deliveries := ob.deliveries + Fanned(ob.endpoints, |ob.events|, account, kind, |ob.endpoints|))
  }

  // ---------------------------------------------------------------------------
  // Posting
  // ---------------------------------------------------------------------------

  predicate Accepted(r: Reply) { r.code.Some? && 200 <= r.code.value < 300 }

  function Attempted(d: Delivery, max: int, r: Reply): Delivery {
    var n := d.attempts + 1;
    if Accepted(r) then d.(status := Success, attempts := n)
    else if n >= max then d.(status := Failed, attempts := n)
    else d.(status := Retrying, attempts := n, nextAttempt := Some(r.done + Backoff(n)))
  }

  predicate Resolvable(ob: Outbox, d: Delivery) {
    d.event < |ob.events| && d.endpoint < |ob.endpoints| && ob.endpoints[d.endpoint].present
  }

  function Deliver(ob: Outbox, max: int, id: nat, now: int, r: Reply): Outbox
    requires id < |ob.deliveries|
  {
    var d := ob.deliveries[id];
    if !Resolvable(ob, d) then ob.(deliveries := ob.deliveries[id := d.(status := Failed)])
    else ob.(deliveries := ob.deliveries[id := Attempted(d, max, r)],
             journal := ob.journal + [Posted(id, now, r.done, Accepted(r))])
  }

  predicate Due(d: Delivery, now: int) {
    (d.status.Pending? || d.status.Retrying?) && (d.nextAttempt.None? || d.nextAttempt.value <= now)
  }

  /** The due rows numbered below `n`, in order. */
  function DueIds(deliveries: seq<Delivery>, now: int, n: nat): seq<nat>
    requires n <= |deliveries|
  {
    if n == 0 then []
    else if Due(deliveries[n - 1], now) then DueIds(deliveries, now, n - 1) + [n - 1]
    else DueIds(deliveries, now, n - 1)
  }

  function Page(ob: Outbox, now: int, batch: nat): seq<nat> {
    var ids := DueIds(ob.deliveries, now, |ob.deliveries|);
    ids[..Min(batch, |ids|)]
  }

  predicate InRange(ob: Outbox, ids: seq<nat>) { forall i :: 0 <= i < |ids| ==> ids[i] < |ob.deliveries| }

  function DeliverAll(ob: Outbox, max: int, ids: seq<nat>, now: int, replies: nat -> Reply): (r: Outbox)
    requires InRange(ob, ids)
    ensures |r.deliveries| == |ob.deliveries|
    decreases |ids|
  {
    if ids == [] then ob
    else
      var last := |ids| - 1;
      Deliver(DeliverAll(ob, max, ids[..last], now, replies), max, ids[last], now, replies(ids[last]))
  }

  predicate AreDue(deliveries: seq<Delivery>, now: int, ids: seq<nat>) {
    forall id <- ids :: id < |deliveries| && Due(deliveries[id], now)
  }

  predicate Ascending(ids: seq<nat>) {
    forall i, j :: 0 <= i < j < |ids| ==> ids[i] < ids[j]
  }

  /** The query: exactly the due rows, each once, in order. */
  lemma {:induction false} DueIdsAre(deliveries: seq<Delivery>, now: int, n: nat, id: nat)
    requires n <= |deliveries|
    ensures id in DueIds(deliveries, now, n) <==>
              && id < n && (deliveries[id].status.Pending? || deliveries[id].status.Retrying?)
              && (deliveries[id].nextAttempt.None? || deliveries[id].nextAttempt.value <= now)
  {
    if n > 0 { DueIdsAre(deliveries, now, n - 1, id); }
  }

  lemma {:induction false} DueIdsAscend(deliveries: seq<Delivery>, now: int, n: nat)
    requires n <= |deliveries|
    ensures Ascending(DueIds(deliveries, now, n))
  {
    if n > 0 {
      DueIdsAscend(deliveries, now, n - 1);
      var front := DueIds(deliveries, now, n - 1);
      forall i | 0 <= i < |front| ensures front[i] < n - 1 { DueIdsAre(deliveries, now, n - 1, front[i]); }
    }
  }

  lemma PageIs(ob: Outbox, now: int, batch: nat)
    ensures var ids := Page(ob, now, batch);
            InRange(ob, ids) && AreDue(ob.deliveries, now, ids) && Ascending(ids)
  {
    DueIdsAscend(ob.deliveries, now, |ob.deliveries|);
    var all, ids := DueIds(ob.deliveries, now, |ob.deliveries|), Page(ob, now, batch);
    forall i | 0 <= i < |ids| ensures ids[i] < |ob.deliveries| && Due(ob.deliveries[ids[i]], now) {
      assert ids[i] in all;
      DueIdsAre(ob.deliveries, now, |ob.deliveries|, ids[i]);
    }
  }

  function Process(ob: Outbox, max: int, now: int, batch: nat, replies: nat -> Reply): Outbox {
    PageIs(ob, now, batch);
    DeliverAll(ob, max, Page(ob, now, batch), now, replies)
  }

  // ---------------------------------------------------------------------------
  // Operator resets
  // ---------------------------------------------------------------------------

  function Requeue(ob: Outbox, id: nat, successes: bool, now: int): Outbox
    requires id < |ob.deliveries|
  {
    var again := ob.deliveries[id].(status := Retrying, attempts := 0, nextAttempt := Some(now));
    ob.(deliveries := ob.deliveries[id := again],
        journal := ob.journal + [Requeued(id, successes)])
  }

  predicate OfPayment(ob: Outbox, d: Delivery, payment: nat) {
    !d.status.Removed? && d.event < |ob.events| && ob.events[d.event].payment == payment
  }

  /** A row the operator's reset takes: all of the payment's, or all but the accepted ones. */
  predicate Targeted(ob: Outbox, payment: nat, successes: bool, id: nat) {
    id < |ob.deliveries| && OfPayment(ob, ob.deliveries[id], payment)
    && (successes || !ob.deliveries[id].status.Success?)
  }

  /** Those numbered from `n` up, latest first. */
  function Targets(ob: Outbox, payment: nat, successes: bool, n: nat): seq<nat>
    requires n <= |ob.deliveries|
    decreases |ob.deliveries| - n
  {
    if n == |ob.deliveries| then []
    else if Targeted(ob, payment, successes, n) then Targets(ob, payment, successes, n + 1) + [n]
    else Targets(ob, payment, successes, n + 1)
  }

  lemma {:induction false} TargetsAre(ob: Outbox, payment: nat, successes: bool, n: nat, id: nat)
    requires n <= |ob.deliveries|
    ensures id in Targets(ob, payment, successes, n) <==> n <= id && Targeted(ob, payment, successes, id)
    decreases |ob.deliveries| - n
  {
    if n < |ob.deliveries| { TargetsAre(ob, payment, successes, n + 1, id); }
  }

  predicate Descending(ids: seq<nat>) { forall i, j :: 0 <= i < j < |ids| ==> ids[i] > ids[j] }

  lemma {:induction false} TargetsDescend(ob: Outbox, payment: nat, successes: bool, n: nat)
    requires n <= |ob.deliveries|
    ensures Descending(Targets(ob, payment, successes, n)) && InRange(ob, Targets(ob, payment, successes, n))
    decreases |ob.deliveries| - n
  {
    if n < |ob.deliveries| {
      TargetsDescend(ob, payment, successes, n + 1);
      var later := Targets(ob, payment, successes, n + 1);
      forall i | 0 <= i < |later| ensures later[i] > n { TargetsAre(ob, payment, successes, n + 1, later[i]); }
      LastDescends(later, n);
    }
  }

  lemma LastDescends(ids: seq<nat>, id: nat)
    requires Descending(ids) && forall i :: 0 <= i < |ids| ==> ids[i] > id
    ensures Descending(ids + [id])
  {}

  function RequeueAll(ob: Outbox, ids: seq<nat>, successes: bool, now: int): (r: Outbox)
    requires InRange(ob, ids)
    ensures |r.deliveries| == |ob.deliveries|
    decreases |ids|
  {
    if ids == [] then ob
    else Requeue(RequeueAll(ob, ids[..|ids| - 1], successes, now), ids[|ids| - 1], successes, now)
  }

  /** `redeliver_admin_payment_events`. */
  function Redeliver(ob: Outbox, payment: nat, successes: bool, now: int): Outbox {
    TargetsDescend(ob, payment, successes, 0);
    RequeueAll(ob, Targets(ob, payment, successes, 0), successes, now)
  }

  predicate AlreadyDue(d: Delivery, now: int) {
    d.status.Retrying? && d.attempts == 0 && d.nextAttempt.Some? && d.nextAttempt.value <= now
  }

  /** `retry_delivery`. */
  function Retry(ob: Outbox, id: nat, successes: bool, now: int): Outbox {
    if id >= |ob.deliveries| || ob.deliveries[id].status.Removed? then ob
    else if ob.deliveries[id].status.Success? && !successes then ob
    else if AlreadyDue(ob.deliveries[id], now) then ob
    else Requeue(ob, id, successes, now)
  }

  // ---------------------------------------------------------------------------
  // Endpoints
  // ---------------------------------------------------------------------------

  function AddEndpoint(ob: Outbox, account: nat, events: seq<string>): Outbox {
    ob.(endpoints := ob.endpoints + [Endpoint(account, true, true, events)])
  }

  function EditEndpoint(ob: Outbox, id: nat, active: bool, events: seq<string>): Outbox {
    if id >= |ob.endpoints| || !ob.endpoints[id].present then ob
    else ob.(endpoints := ob.endpoints[id := ob.endpoints[id].(active := active, events := events)])
  }

  /** The rows of an endpoint go with it. */
  function RemoveEndpoint(ob: Outbox, id: nat): Outbox {
    if id >= |ob.endpoints| then ob
    else ob.(endpoints := ob.endpoints[id := ob.endpoints[id].(present := false)],
             deliveries := seq(|ob.deliveries|, i requires 0 <= i < |ob.deliveries| =>
               if ob.deliveries[i].endpoint == id then ob.deliveries[i].(status := Removed) else ob.deliveries[i]))
  }

  // ---------------------------------------------------------------------------
  // Runs
  // ---------------------------------------------------------------------------

  datatype Action =
    | Adds(account: nat, events: seq<string>)
    | Edits(endpoint: nat, active: bool, events: seq<string>)
    | Removes(endpoint: nat)
    | Enqueues(payment: nat, account: nat, kind: string)
    | Processes(now: int, batch: nat, replies: nat -> Reply)
    | Redelivers(payment: nat, successes: bool, now: int)
    | Retries(id: nat, successes: bool, now: int)

  function Step(ob: Outbox, max: int, a: Action): Outbox {
    match a
    case Adds(account, events) => AddEndpoint(ob, account, events)
    case Edits(endpoint, active, events) => EditEndpoint(ob, endpoint, active, events)
    case Removes(endpoint) => RemoveEndpoint(ob, endpoint)
    case Enqueues(payment, account, kind) => Enqueue(ob, payment, account, kind)
    case Processes(now, batch, replies) => Process(ob, max, now, batch, replies)
    case Redelivers(payment, successes, now) => Redeliver(ob, payment, successes, now)
    case Retries(id, successes, now) => Retry(ob, id, successes, now)
  }

  function Run(ob: Outbox, max: int, actions: seq<Action>): Outbox
    decreases |actions|
  {
    if |actions| == 0 then ob else Run(Step(ob, max, actions[0]), max, actions[1..])
  }

  // ---------------------------------------------------------------------------
  // What the journal may hold
  // ---------------------------------------------------------------------------

  /** Posts of a delivery since an operator last queued it. */
  function Posts(j: seq<Entry>, id: nat): nat {
    if j == [] then 0
    else
      var e := j[|j| - 1];
      if e.id != id then Posts(j[..|j| - 1], id)
      else if e.Requeued? then 0
      else Posts(j[..|j| - 1], id) + 1
  }

  /** Whether one of those posts was accepted. */
  predicate Delivered(j: seq<Entry>, id: nat) {
    j != [] &&
    var e := j[|j| - 1];
    if e.id != id then Delivered(j[..|j| - 1], id)
    else e.Posted? && (e.ok || Delivered(j[..|j| - 1], id))
  }

  /** When the last of those posts came back. */
  function LastDone(j: seq<Entry>, id: nat): int {
    if j == [] then 0
    else if j[|j| - 1].id == id && j[|j| - 1].Posted? then j[|j| - 1].done
    else LastDone(j[..|j| - 1], id)
  }

  /** What may follow a journal: a post within the attempt budget, of something not yet accepted, no
      sooner than the backoff after the one before; and a reset of something accepted only when
      successes were asked for. */
  predicate MayFollow(max: int, j: seq<Entry>, e: Entry) {
    match e
    case Posted(id, sent, _, _) =>
      && Posts(j, id) < Max(1, max)
      && !Delivered(j, id)
      && (Posts(j, id) > 0 ==> sent >= LastDone(j, id) + Backoff(Posts(j, id)))
    case Requeued(id, successes) => Delivered(j, id) ==> successes
  }

  ghost predicate Fine(max: int, j: seq<Entry>) {
    forall p :: 0 <= p < |j| ==> MayFollow(max, j[..p], j[p])
  }

  lemma Appended(max: int, j: seq<Entry>, e: Entry)
    ensures forall id :: Posts(j + [e], id) ==
              if e.id != id then Posts(j, id) else if e.Requeued? then 0 else Posts(j, id) + 1
    ensures forall id :: Delivered(j + [e], id) ==
              if e.id != id then Delivered(j, id) else e.Posted? && (e.ok || Delivered(j, id))
    ensures forall id :: LastDone(j + [e], id) == if e.id == id && e.Posted? then e.done else LastDone(j, id)
    ensures Fine(max, j) && MayFollow(max, j, e) ==> Fine(max, j + [e])
  {
    var k := j + [e];
    assert k[|k| - 1] == e && k[..|k| - 1] == j;
    if Fine(max, j) && MayFollow(max, j, e) {
      forall p | 0 <= p < |k| ensures MayFollow(max, k[..p], k[p]) {
        if p < |j| { assert k[..p] == j[..p]; } else { assert k[..p] == j; }
      }
    }
  }

  lemma {:induction false} Untouched(j: seq<Entry>, id: nat)
    requires forall e <- j :: e.id != id
    ensures Posts(j, id) == 0 && !Delivered(j, id)
  {
    if j != [] {
      assert j[|j| - 1] in j;
      Untouched(j[..|j| - 1], id);
    }
  }

  // ---------------------------------------------------------------------------
  // The invariant
  // ---------------------------------------------------------------------------

  predicate RowOk(max: int, j: seq<Entry>, d: Delivery, id: nat) {
    && d.attempts == Posts(j, id)
    && (d.status.Success? <==> Delivered(j, id))
    && (d.status.Pending? ==> d.attempts == 0)
    && (d.status.Pending? || d.status.Retrying? ==> d.attempts < Max(1, max))
    && (d.status.Failed? ==> d.attempts == Max(1, max))
    && (d.status.Retrying? && d.attempts > 0 ==> d.nextAttempt == Some(LastDone(j, id) + Backoff(d.attempts)))
  }

  ghost predicate RowsOk(max: int, ob: Outbox) {
    forall id :: 0 <= id < |ob.deliveries| && !ob.deliveries[id].status.Removed? ==>
      Resolvable(ob, ob.deliveries[id]) && RowOk(max, ob.journal, ob.deliveries[id], id)
  }

  /** At most one row for an event and an endpoint. */
  ghost predicate Unique(ob: Outbox) {
    forall i, j :: 0 <= i < j < |ob.deliveries| ==>
      ob.deliveries[i].status.Removed? || ob.deliveries[j].status.Removed?
      || ob.deliveries[i].event != ob.deliveries[j].event || ob.deliveries[i].endpoint != ob.deliveries[j].endpoint
  }

  ghost predicate Inv(max: int, ob: Outbox) {
    && Fine(max, ob.journal)
    && (forall e <- ob.journal :: e.id < |ob.deliveries|)
    && RowsOk(max, ob)
    && Unique(ob)
  }

  predicate Extends<T(==)>(a: seq<T>, b: seq<T>) { |a| <= |b| && b[..|a|] == a }

  /** What may become of a row: its event and endpoint stay, and it goes exactly when its endpoint
      does. */
  predicate RowFollows(d: Delivery, e: Delivery, endpoints: seq<Endpoint>) {
    && e.event == d.event && e.endpoint == d.endpoint
    && (e.status.Removed? <==> d.status.Removed? || !(e.endpoint < |endpoints| && endpoints[e.endpoint].present))
  }

  /** Nothing but the status, the count and the clock of old rows ever changes: events and rows are
      only added, new rows are for new events, a row goes exactly when its endpoint does. */
  ghost predicate Follows(a: Outbox, b: Outbox) {
    && Extends(a.events, b.events) && Extends(a.journal, b.journal)
    && |a.endpoints| <= |b.endpoints| && |a.deliveries| <= |b.deliveries|
    && (forall e :: 0 <= e < |a.endpoints| ==> (b.endpoints[e].present ==> a.endpoints[e].present))
    && (forall id :: 0 <= id < |a.deliveries| ==> RowFollows(a.deliveries[id], b.deliveries[id], b.endpoints))
    && (forall id :: |a.deliveries| <= id < |b.deliveries| ==> b.deliveries[id].event >= |a.events|)
  }

  ghost predicate Keeps(max: int, a: Outbox, b: Outbox) { Inv(max, b) && Follows(a, b) }

  lemma ExtendsTransitive<T>(a: seq<T>, b: seq<T>, c: seq<T>)
    requires Extends(a, b) && Extends(b, c)
    ensures Extends(a, c)
  {
    assert c[..|a|] == c[..|b|][..|a|];
  }

  lemma FollowsTransitive(max: int, a: Outbox, b: Outbox, c: Outbox)
    requires RowsOk(max, a) && Follows(a, b) && Follows(b, c)
    ensures Follows(a, c)
  {
    ExtendsTransitive(a.events, b.events, c.events);
    ExtendsTransitive(a.journal, b.journal, c.journal);
    forall id | 0 <= id < |a.deliveries| ensures RowFollows(a.deliveries[id], c.deliveries[id], c.endpoints) {
      assert RowFollows(a.deliveries[id], b.deliveries[id], b.endpoints);
      assert RowFollows(b.deliveries[id], c.deliveries[id], c.endpoints);
      if !a.deliveries[id].status.Removed? { assert Resolvable(a, a.deliveries[id]); }
    }
  }

  // ---------------------------------------------------------------------------
  // Every step keeps it
  // ---------------------------------------------------------------------------

  /** One row and one journal entry: the shape of a post and of a reset. */
  function OneRow(ob: Outbox, id: nat, d: Delivery, e: Entry): Outbox
    requires id < |ob.deliveries|
  {
    ob.(deliveries := ob.deliveries[id := d], journal := ob.journal + [e])
  }

  lemma OneRowShape(ob: Outbox, id: nat, d: Delivery, e: Entry)
    requires id < |ob.deliveries| && !ob.deliveries[id].status.Removed? && !d.status.Removed?
    requires d.event == ob.deliveries[id].event && d.endpoint == ob.deliveries[id].endpoint
    requires Unique(ob) && Follows(ob, ob)
    ensures Unique(OneRow(ob, id, d, e)) && Follows(ob, OneRow(ob, id, d, e))
  {
    var r := OneRow(ob, id, d, e);
    assert r.journal[..|ob.journal|] == ob.journal;
  }

  lemma OneRowRows(max: int, ob: Outbox, id: nat, d: Delivery, e: Entry)
    requires id < |ob.deliveries| && !ob.deliveries[id].status.Removed?
    requires d.event == ob.deliveries[id].event && d.endpoint == ob.deliveries[id].endpoint
    requires RowsOk(max, ob) && e.id == id && RowOk(max, ob.journal + [e], d, id)
    ensures RowsOk(max, OneRow(ob, id, d, e))
  {
    Appended(max, ob.journal, e);
    var r := OneRow(ob, id, d, e);
    assert Resolvable(ob, ob.deliveries[id]);
    forall i | 0 <= i < |r.deliveries| && !r.deliveries[i].status.Removed?
      ensures Resolvable(r, r.deliveries[i]) && RowOk(max, r.journal, r.deliveries[i], i)
    {
      assert !ob.deliveries[i].status.Removed?;
      assert i != id ==> RowOk(max, ob.journal, ob.deliveries[i], i);
    }
  }

  lemma OneRowKeeps(max: int, ob: Outbox, id: nat, d: Delivery, e: Entry)
    requires Inv(max, ob) && id < |ob.deliveries| && !ob.deliveries[id].status.Removed? && !d.status.Removed?
    requires d.event == ob.deliveries[id].event && d.endpoint == ob.deliveries[id].endpoint
    requires e.id == id && MayFollow(max, ob.journal, e) && RowOk(max, ob.journal + [e], d, id)
    ensures Keeps(max, ob, OneRow(ob, id, d, e))
  {
    Appended(max, ob.journal, e);
    FollowsReflexive(max, ob);
    OneRowShape(ob, id, d, e);
    OneRowRows(max, ob, id, d, e);
  }

  lemma AttemptOk(max: int, j: seq<Entry>, d: Delivery, id: nat, now: int, r: Reply)
    requires RowOk(max, j, d, id) && Due(d, now)
    ensures var e := Posted(id, now, r.done, Accepted(r));
            MayFollow(max, j, e) && RowOk(max, j + [e], Attempted(d, max, r), id)
  {
    Appended(max, j, Posted(id, now, r.done, Accepted(r)));
  }

  lemma DeliverKeeps(max: int, ob: Outbox, id: nat, now: int, r: Reply)
    requires Inv(max, ob) && id < |ob.deliveries| && Due(ob.deliveries[id], now)
    ensures Keeps(max, ob, Deliver(ob, max, id, now, r))
  {
    var d := ob.deliveries[id];
    assert Resolvable(ob, d);
    AttemptOk(max, ob.journal, d, id, now, r);
    OneRowKeeps(max, ob, id, Attempted(d, max, r), Posted(id, now, r.done, Accepted(r)));
  }

  lemma RequeueKeeps(max: int, ob: Outbox, id: nat, successes: bool, now: int)
    requires Inv(max, ob) && id < |ob.deliveries| && !ob.deliveries[id].status.Removed?
    requires successes || !ob.deliveries[id].status.Success?
    ensures Keeps(max, ob, Requeue(ob, id, successes, now))
  {
    Appended(max, ob.journal, Requeued(id, successes));
    OneRowKeeps(max, ob, id, ob.deliveries[id].(status := Retrying, attempts := 0, nextAttempt := Some(now)),
      Requeued(id, successes));
  }

  lemma FollowsReflexive(max: int, ob: Outbox)
    requires Inv(max, ob)
    ensures Follows(ob, ob)
  {
    forall id | 0 <= id < |ob.deliveries| ensures RowFollows(ob.deliveries[id], ob.deliveries[id], ob.endpoints) {
      if !ob.deliveries[id].status.Removed? { assert Resolvable(ob, ob.deliveries[id]); }
    }
  }

  lemma ThenKeeps(max: int, a: Outbox, b: Outbox, c: Outbox)
    requires Inv(max, a) && Keeps(max, a, b) && Keeps(max, b, c)
    ensures Keeps(max, a, c)
  {
    FollowsTransitive(max, a, b, c);
  }

  /** Posting a page leaves the other rows as the query found them. */
  lemma {:induction false} DeliverAllFrame(
      ob: Outbox, max: int, ids: seq<nat>, now: int, replies: nat -> Reply, id: nat)
    requires InRange(ob, ids) && id < |ob.deliveries| && id !in ids
    ensures DeliverAll(ob, max, ids, now, replies).deliveries[id] == ob.deliveries[id]
    decreases |ids|
  {
    if ids != [] { DeliverAllFrame(ob, max, ids[..|ids| - 1], now, replies, id); }
  }

  lemma {:induction false} DeliverAllKeeps(max: int, ob: Outbox, ids: seq<nat>, now: int, replies: nat -> Reply)
    requires Inv(max, ob) && InRange(ob, ids)
    requires AreDue(ob.deliveries, now, ids) && Ascending(ids)
    ensures Keeps(max, ob, DeliverAll(ob, max, ids, now, replies))
    decreases |ids|
  {
    if ids == [] {
      FollowsReflexive(max, ob);
    } else {
      var front, id := ids[..|ids| - 1], ids[|ids| - 1];
      assert id in ids && forall i <- front :: i in ids;
      DeliverAllKeeps(max, ob, front, now, replies);
      DeliverAllFrame(ob, max, front, now, replies, id);
      var before := DeliverAll(ob, max, front, now, replies);
      DeliverKeeps(max, before, id, now, replies(id));
      ThenKeeps(max, ob, before, Deliver(before, max, id, now, replies(id)));
    }
  }

  lemma ProcessKeeps(max: int, ob: Outbox, now: int, batch: nat, replies: nat -> Reply)
    requires Inv(max, ob)
    ensures Keeps(max, ob, Process(ob, max, now, batch, replies))
  {
    PageIs(ob, now, batch);
    DeliverAllKeeps(max, ob, Page(ob, now, batch), now, replies);
  }

  lemma {:induction false} RequeueAllFrame(ob: Outbox, ids: seq<nat>, successes: bool, now: int, id: nat)
    requires InRange(ob, ids) && id < |ob.deliveries| && id !in ids
    ensures RequeueAll(ob, ids, successes, now).deliveries[id] == ob.deliveries[id]
    decreases |ids|
  {
    if ids != [] { RequeueAllFrame(ob, ids[..|ids| - 1], successes, now, id); }
  }

  predicate MayRequeue(ob: Outbox, ids: seq<nat>, successes: bool) {
    forall id <- ids :: id < |ob.deliveries| && !ob.deliveries[id].status.Removed?
                        && (successes || !ob.deliveries[id].status.Success?)
  }

  lemma {:induction false} RequeueAllKeeps(max: int, ob: Outbox, ids: seq<nat>, successes: bool, now: int)
    requires Inv(max, ob) && InRange(ob, ids) && Descending(ids) && MayRequeue(ob, ids, successes)
    ensures Keeps(max, ob, RequeueAll(ob, ids, successes, now))
    decreases |ids|
  {
    if ids == [] {
      FollowsReflexive(max, ob);
    } else {
      var front, id := ids[..|ids| - 1], ids[|ids| - 1];
      assert id in ids && forall i <- front :: i in ids;
      RequeueAllKeeps(max, ob, front, successes, now);
      RequeueAllFrame(ob, front, successes, now, id);
      var before := RequeueAll(ob, front, successes, now);
      RequeueKeeps(max, before, id, successes, now);
      ThenKeeps(max, ob, before, Requeue(before, id, successes, now));
    }
  }

  lemma RedeliverKeeps(max: int, ob: Outbox, payment: nat, successes: bool, now: int)
    requires Inv(max, ob)
    ensures Keeps(max, ob, Redeliver(ob, payment, successes, now))
  {
    var ids := Targets(ob, payment, successes, 0);
    TargetsDescend(ob, payment, successes, 0);
    forall id | id in ids ensures Targeted(ob, payment, successes, id) { TargetsAre(ob, payment, successes, 0, id); }
    RequeueAllKeeps(max, ob, ids, successes, now);
  }

  lemma InAppended<T>(d: T, rows: seq<T>, x: T)
    ensures d in rows + [x] <==> d in rows || d == x
  {}

  /** The fan-out holds a fresh row for each subscribed endpoint and nothing else. */
  lemma {:induction false} FannedHolds(
      endpoints: seq<Endpoint>, event: nat, account: nat, kind: string, n: nat, d: Delivery)
    requires n <= |endpoints|
    ensures d in Fanned(endpoints, event, account, kind, n) <==>
            d.endpoint < n && Subscribed(endpoints[d.endpoint], account, kind) && d == FreshRow(event, d.endpoint)
  {
    if n > 0 {
      FannedHolds(endpoints, event, account, kind, n - 1, d);
      InAppended(d, Fanned(endpoints, event, account, kind, n - 1), FreshRow(event, n - 1));
    }
  }

  predicate RowsAscend(rows: seq<Delivery>) {
    forall p, q :: 0 <= p < q < |rows| ==> rows[p].endpoint < rows[q].endpoint
  }

  lemma LastAscends(rows: seq<Delivery>, d: Delivery)
    requires RowsAscend(rows) && forall p :: 0 <= p < |rows| ==> rows[p].endpoint < d.endpoint
    ensures RowsAscend(rows + [d])
  {}

  lemma {:induction false} FannedAscends(endpoints: seq<Endpoint>, event: nat, account: nat, kind: string, n: nat)
    requires n <= |endpoints|
    ensures RowsAscend(Fanned(endpoints, event, account, kind, n))
  {
    if n > 0 {
      FannedAscends(endpoints, event, account, kind, n - 1);
      var rows := Fanned(endpoints, event, account, kind, n - 1);
      forall p | 0 <= p < |rows| ensures rows[p].endpoint < n - 1 {
        FannedHolds(endpoints, event, account, kind, n - 1, rows[p]);
      }
      LastAscends(rows, FreshRow(event, n - 1));
    }
  }

  lemma FannedRows(endpoints: seq<Endpoint>, event: nat, account: nat, kind: string)
    ensures forall d <- Fanned(endpoints, event, account, kind, |endpoints|) ::
              d.endpoint < |endpoints| && Subscribed(endpoints[d.endpoint], account, kind)
                && d == FreshRow(event, d.endpoint)
  {
    forall d | d in Fanned(endpoints, event, account, kind, |endpoints|)
      ensures d.endpoint < |endpoints| && Subscribed(endpoints[d.endpoint], account, kind)
              && d == FreshRow(event, d.endpoint)
    {
      FannedHolds(endpoints, event, account, kind, |endpoints|, d);
    }
  }

  lemma EnqueueRows(max: int, ob: Outbox, payment: nat, account: nat, kind: string)
    requires Inv(max, ob)
    ensures RowsOk(max, Enqueue(ob, payment, account, kind))
  {
    FannedRows(ob.endpoints, |ob.events|, account, kind);
    var rows := Fanned(ob.endpoints, |ob.events|, account, kind, |ob.endpoints|);
    var r := Enqueue(ob, payment, account, kind);
    forall id | 0 <= id < |r.deliveries| && !r.deliveries[id].status.Removed?
      ensures Resolvable(r, r.deliveries[id]) && RowOk(max, r.journal, r.deliveries[id], id)
    {
      if id < |ob.deliveries| {
        assert r.deliveries[id] == ob.deliveries[id];
      } else {
        assert r.deliveries[id] in rows;
        Untouched(r.journal, id);
      }
    }
  }

  lemma EnqueueTable(ob: Outbox, payment: nat, account: nat, kind: string)
    ensures var r, n := Enqueue(ob, payment, account, kind), |ob.deliveries|;
            && n <= |r.deliveries|
            && (forall id :: 0 <= id < n ==> r.deliveries[id] == ob.deliveries[id])
            && (forall id :: n <= id < |r.deliveries| ==> r.deliveries[id].event == |ob.events|)
            && (forall i, j :: n <= i < j < |r.deliveries| ==> r.deliveries[i].endpoint != r.deliveries[j].endpoint)
  {
    FannedRows(ob.endpoints, |ob.events|, account, kind);
    FannedAscends(ob.endpoints, |ob.events|, account, kind, |ob.endpoints|);
    var rows := Fanned(ob.endpoints, |ob.events|, account, kind, |ob.endpoints|);
    var r, n := Enqueue(ob, payment, account, kind), |ob.deliveries|;
    assert forall id :: n <= id < |r.deliveries| ==> r.deliveries[id] == rows[id - n] && rows[id - n] in rows;
    forall i, j | n <= i < j < |r.deliveries| ensures r.deliveries[i].endpoint != r.deliveries[j].endpoint {
      assert rows[i - n].endpoint < rows[j - n].endpoint;
    }
  }

  lemma EnqueueShape(max: int, ob: Outbox, payment: nat, account: nat, kind: string)
    requires RowsOk(max, ob) && Unique(ob)
    ensures Unique(Enqueue(ob, payment, account, kind))
  {
    EnqueueTable(ob, payment, account, kind);
    assert forall id :: 0 <= id < |ob.deliveries| && !ob.deliveries[id].status.Removed? ==>
      Resolvable(ob, ob.deliveries[id]);
  }

  lemma EnqueueFollows(ob: Outbox, payment: nat, account: nat, kind: string)
    requires Follows(ob, ob)
    ensures Follows(ob, Enqueue(ob, payment, account, kind))
  {
    EnqueueTable(ob, payment, account, kind);
    assert Enqueue(ob, payment, account, kind).events[..|ob.events|] == ob.events;
  }

  lemma EnqueueKeeps(max: int, ob: Outbox, payment: nat, account: nat, kind: string)
    requires Inv(max, ob)
    ensures Keeps(max, ob, Enqueue(ob, payment, account, kind))
  {
    FollowsReflexive(max, ob);
    EnqueueRows(max, ob, payment, account, kind);
    EnqueueShape(max, ob, payment, account, kind);
    EnqueueFollows(ob, payment, account, kind);
  }

  lemma RemoveKeeps(max: int, ob: Outbox, id: nat)
    requires Inv(max, ob)
    ensures Keeps(max, ob, RemoveEndpoint(ob, id))
  {
    FollowsReflexive(max, ob);
    var r := RemoveEndpoint(ob, id);
    forall i | 0 <= i < |r.deliveries| && !r.deliveries[i].status.Removed?
      ensures Resolvable(r, r.deliveries[i]) && r.deliveries[i] == ob.deliveries[i]
    {
      assert Resolvable(ob, ob.deliveries[i]);
    }
  }

  lemma EndpointsKeep(max: int, ob: Outbox, endpoints: seq<Endpoint>)
    requires Inv(max, ob) && |ob.endpoints| <= |endpoints|
    requires forall e :: 0 <= e < |ob.endpoints| ==> endpoints[e].present == ob.endpoints[e].present
    ensures Keeps(max, ob, ob.(endpoints := endpoints))
  {
    FollowsReflexive(max, ob);
    var r := ob.(endpoints := endpoints);
    forall i | 0 <= i < |r.deliveries| && !r.deliveries[i].status.Removed? ensures Resolvable(r, r.deliveries[i]) {
      assert Resolvable(ob, ob.deliveries[i]);
    }
  }

  lemma EndpointStepKeeps(max: int, ob: Outbox, a: Action)
    requires Inv(max, ob) && (a.Adds? || a.Edits? || a.Removes?)
    ensures Keeps(max, ob, Step(ob, max, a))
  {
    if a.Removes? {
      RemoveKeeps(max, ob, a.endpoint);
    } else {
      EndpointsKeep(max, ob, Step(ob, max, a).endpoints);
    }
  }

  lemma RetryKeeps(max: int, ob: Outbox, id: nat, successes: bool, now: int)
    requires Inv(max, ob)
    ensures Keeps(max, ob, Retry(ob, id, successes, now))
  {
    if Retry(ob, id, successes, now) == ob {
      FollowsReflexive(max, ob);
    } else {
      RequeueKeeps(max, ob, id, successes, now);
    }
  }

  lemma StepKeeps(max: int, ob: Outbox, a: Action)
    requires Inv(max, ob)
    ensures Keeps(max, ob, Step(ob, max, a))
  {
    if a.Adds? || a.Edits? || a.Removes? {
      EndpointStepKeeps(max, ob, a);
    } else {
      match a
      case Enqueues(payment, account, kind) => EnqueueKeeps(max, ob, payment, account, kind);
      case Processes(now, batch, replies) => ProcessKeeps(max, ob, now, batch, replies);
      case Redelivers(payment, successes, now) => RedeliverKeeps(max, ob, payment, successes, now);
      case Retries(id, successes, now) => RetryKeeps(max, ob, id, successes, now);
    }
  }

  lemma {:induction false} RunKeeps(max: int, ob: Outbox, actions: seq<Action>)
    requires Inv(max, ob)
    ensures Keeps(max, ob, Run(ob, max, actions))
    decreases |actions|
  {
    if |actions| == 0 {
      FollowsReflexive(max, ob);
    } else {
      var next := Step(ob, max, actions[0]);
      StepKeeps(max, ob, actions[0]);
      RunKeeps(max, next, actions[1..]);
      ThenKeeps(max, ob, next, Run(next, max, actions[1..]));
    }
  }

  // ---------------------------------------------------------------------------
  // What a reader gets
  // ---------------------------------------------------------------------------

  function Count(j: seq<Entry>, id: nat): nat {
    if j == [] then 0
    else Count(j[..|j| - 1], id) + (if j[|j| - 1].Posted? && j[|j| - 1].id == id then 1 else 0)
  }

  lemma {:induction false} CountIsPosts(j: seq<Entry>, p: nat, q: nat, id: nat)
    requires p <= q <= |j| && forall k :: p <= k < q ==> j[k] != Requeued(id, true) && j[k] != Requeued(id, false)
    ensures Count(j[p..q], id) <= Posts(j[..q], id)
    decreases q - p
  {
    if p < q {
      CountIsPosts(j, p, q - 1, id);
      assert j[p..q][..q - p - 1] == j[p..q - 1] && j[p..q][q - p - 1] == j[q - 1];
      assert j[..q][..q - 1] == j[..q - 1] && j[..q][q - 1] == j[q - 1];
      assert j[q - 1].Requeued? ==> j[q - 1].id != id;
    }
  }

  /** In every run, between two resets of a delivery it is posted at most max(1, max attempts) times,
      wherever the stretch begins and ends. */
  lemma PostsBetweenResets(max: int, actions: seq<Action>, id: nat, p: nat, q: nat)
    requires p <= q <= |Run(EMPTY, max, actions).journal|
    requires forall k :: p <= k < q ==>
      Run(EMPTY, max, actions).journal[k] != Requeued(id, true)
        && Run(EMPTY, max, actions).journal[k] != Requeued(id, false)
    ensures Count(Run(EMPTY, max, actions).journal[p..q], id) <= Max(1, max)
  {
    RunKeeps(max, EMPTY, actions);
    var j := Run(EMPTY, max, actions).journal;
    CountIsPosts(j, p, q, id);
    PostsBounded(max, j, q, id);
  }

  lemma {:induction false} PostsBounded(max: int, j: seq<Entry>, q: nat, id: nat)
    requires Fine(max, j) && q <= |j|
    ensures Posts(j[..q], id) <= Max(1, max)
    decreases q
  {
    if q > 0 {
      PostsBounded(max, j, q - 1, id);
      assert j[..q][..q - 1] == j[..q - 1];
      assert MayFollow(max, j[..q - 1], j[q - 1]);
    }
  }

  lemma {:induction false} StaysDelivered(j: seq<Entry>, p: nat, q: nat, id: nat)
    requires p < q <= |j| && j[p].Posted? && j[p].id == id && j[p].ok
    requires forall k :: p < k < q ==> j[k] != Requeued(id, true) && j[k] != Requeued(id, false)
    ensures Delivered(j[..q], id)
    decreases q
  {
    assert j[..q][..q - 1] == j[..q - 1];
    if q > p + 1 {
      StaysDelivered(j, p, q - 1, id);
      assert j[q - 1].Requeued? ==> j[q - 1].id != id;
    }
  }

  /** The first reset of a delivery after an accepted post asked for successes. */
  lemma {:induction false} FirstReset(max: int, j: seq<Entry>, p: nat, q: nat, id: nat) returns (k: nat)
    requires Fine(max, j) && p < q < |j|
    requires j[p].Posted? && j[p].id == id && j[p].ok && j[q].Posted? && j[q].id == id
    ensures p < k < q && j[k] == Requeued(id, true)
  {
    k := p + 1;
    while k < q && !(j[k].Requeued? && j[k].id == id)
      invariant p < k <= q
      invariant forall i :: p < i < k ==> j[i] != Requeued(id, true) && j[i] != Requeued(id, false)
    {
      k := k + 1;
    }
    StaysDelivered(j, p, k, id);
    assert MayFollow(max, j[..k], j[k]);
  }

  /** In every run, a delivery whose post was accepted is never posted again unless, in between, an
      operator queued it again and asked for successes to be included. */
  lemma NeverSentAgain(max: int, actions: seq<Action>, id: nat, p: nat, q: nat)
    requires p < q < |Run(EMPTY, max, actions).journal|
    requires Run(EMPTY, max, actions).journal[p].Posted? && Run(EMPTY, max, actions).journal[p].id == id
    requires Run(EMPTY, max, actions).journal[p].ok
    requires Run(EMPTY, max, actions).journal[q].Posted? && Run(EMPTY, max, actions).journal[q].id == id
    ensures exists k :: p < k < q && Run(EMPTY, max, actions).journal[k] == Requeued(id, true)
  {
    RunKeeps(max, EMPTY, actions);
    var k := FirstReset(max, Run(EMPTY, max, actions).journal, p, q, id);
  }

  /** In every run, a retry waits out its backoff: two posts of a delivery with no entry of it
      between them lie at least min(2^n, 3600) seconds apart, n being the posts made so far. */
  lemma RetriesBackOff(max: int, actions: seq<Action>, p: nat, q: nat)
    requires p < q < |Run(EMPTY, max, actions).journal|
    requires Run(EMPTY, max, actions).journal[p].Posted? && Run(EMPTY, max, actions).journal[q].Posted?
    requires Run(EMPTY, max, actions).journal[p].id == Run(EMPTY, max, actions).journal[q].id
    requires forall k :: p < k < q ==> Run(EMPTY, max, actions).journal[k].id != Run(EMPTY, max, actions).journal[p].id
    ensures var j := Run(EMPTY, max, actions).journal;
            j[q].sent >= j[p].done + Min(Pow2(Posts(j[..p + 1], j[p].id)), 3600)
  {
    RunKeeps(max, EMPTY, actions);
    var j := Run(EMPTY, max, actions).journal;
    assert MayFollow(max, j[..q], j[q]);
    Quiet(j, p, q);
  }

  lemma {:induction false} Quiet(j: seq<Entry>, p: nat, q: nat)
    requires p < q <= |j| && j[p].Posted? && forall k :: p < k < q ==> j[k].id != j[p].id
    ensures Posts(j[..q], j[p].id) == Posts(j[..p + 1], j[p].id) > 0
    ensures LastDone(j[..q], j[p].id) == j[p].done
    decreases q
  {
    assert j[..q][..q - 1] == j[..q - 1];
    if q > p + 1 { Quiet(j, p, q - 1); }
  }

  /** In every run, a delivery is given up exactly when its whole budget since the last reset was
      posted and none was accepted, and succeeded exactly when one was. */
  lemma GivenUpExactlyWhen(max: int, actions: seq<Action>, id: nat)
    requires id < |Run(EMPTY, max, actions).deliveries| && !Run(EMPTY, max, actions).deliveries[id].status.Removed?
    ensures var ob := Run(EMPTY, max, actions);
            && (ob.deliveries[id].status.Failed? <==>
                  Posts(ob.journal, id) == Max(1, max) && !Delivered(ob.journal, id))
            && (ob.deliveries[id].status.Success? <==> Delivered(ob.journal, id))
  {
    RunKeeps(max, EMPTY, actions);
    var ob := Run(EMPTY, max, actions);
    assert RowOk(max, ob.journal, ob.deliveries[id], id);
  }

  ghost predicate HasRow(ob: Outbox, event: nat, endpoint: nat) {
    exists id :: 0 <= id < |ob.deliveries| && !ob.deliveries[id].status.Removed? && ob.deliveries[id].event == event
      && ob.deliveries[id].endpoint == endpoint
  }

  lemma EnqueueReachesOnly(max: int, ob: Outbox, payment: nat, account: nat, kind: string, endpoint: nat)
    requires RowsOk(max, ob) && HasRow(Enqueue(ob, payment, account, kind), |ob.events|, endpoint)
    ensures endpoint < |ob.endpoints| && Subscribed(ob.endpoints[endpoint], account, kind)
  {
    var rows := Fanned(ob.endpoints, |ob.events|, account, kind, |ob.endpoints|);
    var r := Enqueue(ob, payment, account, kind);
    var id :| 0 <= id < |r.deliveries| && !r.deliveries[id].status.Removed? && r.deliveries[id].event == |ob.events|
      && r.deliveries[id].endpoint == endpoint;
    assert id < |ob.deliveries| ==> Resolvable(ob, ob.deliveries[id]);
    assert r.deliveries[id] == rows[id - |ob.deliveries|];
    FannedHolds(ob.endpoints, |ob.events|, account, kind, |ob.endpoints|, r.deliveries[id]);
  }

  lemma EnqueueReachesEach(ob: Outbox, payment: nat, account: nat, kind: string, endpoint: nat)
    requires endpoint < |ob.endpoints| && Subscribed(ob.endpoints[endpoint], account, kind)
    ensures HasRow(Enqueue(ob, payment, account, kind), |ob.events|, endpoint)
  {
    var rows := Fanned(ob.endpoints, |ob.events|, account, kind, |ob.endpoints|);
    var r := Enqueue(ob, payment, account, kind);
    FannedHolds(ob.endpoints, |ob.events|, account, kind, |ob.endpoints|, FreshRow(|ob.events|, endpoint));
    var i :| 0 <= i < |rows| && rows[i] == FreshRow(|ob.events|, endpoint);
    assert r.deliveries[|ob.deliveries| + i] == rows[i];
  }

  lemma EnqueueReaches(max: int, ob: Outbox, payment: nat, account: nat, kind: string, endpoint: nat)
    requires Inv(max, ob)
    ensures HasRow(Enqueue(ob, payment, account, kind), |ob.events|, endpoint)
            <==> endpoint < |ob.endpoints| && Subscribed(ob.endpoints[endpoint], account, kind)
  {
    if HasRow(Enqueue(ob, payment, account, kind), |ob.events|, endpoint) {
      EnqueueReachesOnly(max, ob, payment, account, kind, endpoint);
    }
    if endpoint < |ob.endpoints| && Subscribed(ob.endpoints[endpoint], account, kind) {
      EnqueueReachesEach(ob, payment, account, kind, endpoint);
    }
  }

  predicate Standing(ob: Outbox, endpoint: nat) {
    endpoint < |ob.endpoints| && ob.endpoints[endpoint].present
  }

  lemma RowsFollow(max: int, a: Outbox, b: Outbox, event: nat, endpoint: nat)
    requires Inv(max, a) && Inv(max, b) && Follows(a, b) && event < |a.events|
    ensures HasRow(b, event, endpoint) <==> HasRow(a, event, endpoint) && Standing(b, endpoint)
  {
    if HasRow(b, event, endpoint) {
      var id :| 0 <= id < |b.deliveries| && !b.deliveries[id].status.Removed? && b.deliveries[id].event == event
        && b.deliveries[id].endpoint == endpoint;
      assert Resolvable(b, b.deliveries[id]);
      assert id < |a.deliveries|;
      assert !a.deliveries[id].status.Removed?;
    }
    if HasRow(a, event, endpoint) && Standing(b, endpoint) {
      var id :| 0 <= id < |a.deliveries| && !a.deliveries[id].status.Removed? && a.deliveries[id].event == event
        && a.deliveries[id].endpoint == endpoint;
      assert !b.deliveries[id].status.Removed?;
    }
  }

  /** In every run, an event has a row for an endpoint exactly when that endpoint was active and
      subscribed as the event was enqueued and has not been deleted since; and never two. */
  lemma OneRowPerSubscriber(
      max: int, before: seq<Action>, payment: nat, account: nat, kind: string, after: seq<Action>, endpoint: nat)
    ensures var ob := Run(EMPTY, max, before);
            var end := Run(Enqueue(ob, payment, account, kind), max, after);
            && Unique(end)
            && (HasRow(end, |ob.events|, endpoint) <==>
                  && endpoint < |ob.endpoints| && Standing(end, endpoint)
                  && var e := ob.endpoints[endpoint];
                     && e.present && e.active && e.account == account
                     && (e.events == [] || "*" in e.events || kind in e.events))
  {
    var ob := Run(EMPTY, max, before);
    RunKeeps(max, EMPTY, before);
    EnqueueKeeps(max, ob, payment, account, kind);
    EnqueueReaches(max, ob, payment, account, kind, endpoint);
    var queued := Enqueue(ob, payment, account, kind);
    RunKeeps(max, queued, after);
    RowsFollow(max, queued, Run(queued, max, after), |ob.events|, endpoint);
  }

  /** An active endpoint of the account that lists a kind gets every event of that kind. */
  lemma ListedKindIsDelivered(
      max: int, before: seq<Action>, payment: nat, account: nat, kind: string, after: seq<Action>, endpoint: nat)
    requires var ob := Run(EMPTY, max, before);
             && endpoint < |ob.endpoints| && ob.endpoints[endpoint].present && ob.endpoints[endpoint].active
             && ob.endpoints[endpoint].account == account && kind in ob.endpoints[endpoint].events
    ensures var ob := Run(EMPTY, max, before);
            var end := Run(Enqueue(ob, payment, account, kind), max, after);
            Standing(end, endpoint) ==> HasRow(end, |ob.events|, endpoint)
  {
    OneRowPerSubscriber(max, before, payment, account, kind, after, endpoint);
  }

  /** An endpoint with a list that holds neither the kind nor a star is told nothing of it, ever. */
  lemma UnlistedKindIsNot(
      max: int, before: seq<Action>, payment: nat, account: nat, kind: string, after: seq<Action>, endpoint: nat)
    requires var ob := Run(EMPTY, max, before);
             && endpoint < |ob.endpoints| && ob.endpoints[endpoint].events != []
             && "*" !in ob.endpoints[endpoint].events && kind !in ob.endpoints[endpoint].events
    ensures var ob := Run(EMPTY, max, before);
            !HasRow(Run(Enqueue(ob, payment, account, kind), max, after), |ob.events|, endpoint)
  {
    OneRowPerSubscriber(max, before, payment, account, kind, after, endpoint);
  }
}
