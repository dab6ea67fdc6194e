/** What one webhook step does, row by row, in the rows' own fields. */
module WebhookDelivery {
  import opened Common
  import opened WebhookOutbox

  // ---------------------------------------------------------------------------
  // Posting
  // ---------------------------------------------------------------------------

  /** A row that waits to be posted and whose time has come. */
  predicate Waiting(d: Delivery, now: int) {
    (d.status.Pending? || d.status.Retrying?) && (d.nextAttempt.None? || d.nextAttempt.value <= now)
  }

  /** How many of the first `n` rows wait. */
  function WaitingBelow(deliveries: seq<Delivery>, now: int, n: nat): nat
    requires n <= |deliveries|
  {
    if n == 0 then 0 else WaitingBelow(deliveries, now, n - 1) + (if Waiting(deliveries[n - 1], now) then 1 else 0)
  }

  lemma {:induction false} DueIdsCount(deliveries: seq<Delivery>, now: int, n: nat)
    requires n <= |deliveries|
    ensures |DueIds(deliveries, now, n)| == WaitingBelow(deliveries, now, n)
  {
    if n > 0 { DueIdsCount(deliveries, now, n - 1); }
  }

  lemma {:induction false} DueIdsAt(deliveries: seq<Delivery>, now: int, n: nat, id: nat)
    requires id < n <= |deliveries| && Waiting(deliveries[id], now)
    ensures var at := WaitingBelow(deliveries, now, id);
            at < |DueIds(deliveries, now, n)| && DueIds(deliveries, now, n)[at] == id
    decreases n
  {
    DueIdsCount(deliveries, now, n - 1);
    if id < n - 1 { DueIdsAt(deliveries, now, n - 1, id); }
  }

  /** A sweep takes a row exactly when it waits and fewer than `batch` rows before it do. */
  lemma TakenExactlyWhen(ob: Outbox, now: int, batch: nat, id: nat)
    ensures id in Page(ob, now, batch) <==>
              && id < |ob.deliveries| && Waiting(ob.deliveries[id], now)
              && WaitingBelow(ob.deliveries, now, id) < batch
  {
    var all, page := DueIds(ob.deliveries, now, |ob.deliveries|), Page(ob, now, batch);
    DueIdsAre(ob.deliveries, now, |ob.deliveries|, id);
    DueIdsAscend(ob.deliveries, now, |ob.deliveries|);
    if id < |ob.deliveries| && Waiting(ob.deliveries[id], now) {
      DueIdsAt(ob.deliveries, now, |ob.deliveries|, id);
      var at := WaitingBelow(ob.deliveries, now, id);
      if at < batch { assert page[at] == all[at] == id; }
      if id in page {
        var k :| 0 <= k < |page| && page[k] == id;
        assert all[k] == id;
      }
    }
  }

  /** The entry of one post. */
  function PostOf(id: nat, now: int, r: Reply): Entry {
    Posted(id, now, r.done, r.code.Some? && 200 <= r.code.value < 300)
  }

  /** What becomes of a row that is posted: accepted on a status from 200 to 299; given up once its attempts
      reach the maximum; otherwise due again min(2^n, 3600) seconds after the answer. */
  predicate Outcome(d: Delivery, e: Delivery, max: int, r: Reply) {
    && e.event == d.event && e.endpoint == d.endpoint && e.attempts == d.attempts + 1
    && (if r.code.Some? && 200 <= r.code.value < 300 then e.status.Success? && e.nextAttempt == d.nextAttempt
        else if d.attempts + 1 >= max then e.status.Failed? && e.nextAttempt == d.nextAttempt
        else e.status.Retrying? && e.nextAttempt == Some(r.done + Min(Pow2(d.attempts + 1), 3600)))
  }

  predicate AllResolvable(ob: Outbox, ids: seq<nat>) {
    forall id <- ids :: id < |ob.deliveries| && Resolvable(ob, ob.deliveries[id])
  }

  lemma OneIsPosted(ob: Outbox, max: int, id: nat, now: int, r: Reply)
    requires id < |ob.deliveries| && Resolvable(ob, ob.deliveries[id])
    ensures var after := Deliver(ob, max, id, now, r);
            && after.journal == ob.journal + [PostOf(id, now, r)]
            && Outcome(ob.deliveries[id], after.deliveries[id], max, r)
  {}

  lemma {:induction false} PostingKeepsTables(ob: Outbox, max: int, ids: seq<nat>, now: int, replies: nat -> Reply)
    requires InRange(ob, ids)
    ensures var after := DeliverAll(ob, max, ids, now, replies);
            after.events == ob.events && after.endpoints == ob.endpoints
    decreases |ids|
  {
    if ids != [] { PostingKeepsTables(ob, max, ids[..|ids| - 1], now, replies); }
  }

  function PostsOf(ids: seq<nat>, now: int, replies: nat -> Reply): seq<Entry> {
    if ids == [] then []
    else PostsOf(ids[..|ids| - 1], now, replies) + [PostOf(ids[|ids| - 1], now, replies(ids[|ids| - 1]))]
  }

  lemma {:induction false} PostsOfAt(ids: seq<nat>, now: int, replies: nat -> Reply)
    ensures |PostsOf(ids, now, replies)| == |ids|
    ensures forall k :: 0 <= k < |ids| ==> PostsOf(ids, now, replies)[k] == PostOf(ids[k], now, replies(ids[k]))
    decreases |ids|
  {
    if ids != [] { PostsOfAt(ids[..|ids| - 1], now, replies); }
  }

  /** The row of a list's last id, before it is posted. */
  lemma LastUntouched(ob: Outbox, max: int, ids: seq<nat>, now: int, replies: nat -> Reply)
    requires InRange(ob, ids) && Ascending(ids) && ids != [] && AllResolvable(ob, ids)
    ensures var before, id := DeliverAll(ob, max, ids[..|ids| - 1], now, replies), ids[|ids| - 1];
            && id < |before.deliveries| && before.deliveries[id] == ob.deliveries[id]
            && Resolvable(before, before.deliveries[id])
  {
    var front, id := ids[..|ids| - 1], ids[|ids| - 1];
    assert id in ids && id !in front;
    DeliverAllFrame(ob, max, front, now, replies, id);
    PostingKeepsTables(ob, max, front, now, replies);
  }

  lemma {:induction false} PostingIsJournaled(ob: Outbox, max: int, ids: seq<nat>, now: int, replies: nat -> Reply)
    requires InRange(ob, ids) && Ascending(ids) && AllResolvable(ob, ids)
    ensures DeliverAll(ob, max, ids, now, replies).journal == ob.journal + PostsOf(ids, now, replies)
    decreases |ids|
  {
    if ids != [] {
      var front, id := ids[..|ids| - 1], ids[|ids| - 1];
      assert forall i <- front :: i in ids;
      PostingIsJournaled(ob, max, front, now, replies);
      LastUntouched(ob, max, ids, now, replies);
      OneIsPosted(DeliverAll(ob, max, front, now, replies), max, id, now, replies(id));
    }
  }

  lemma {:induction false} PostingHasItsOutcome(
      ob: Outbox, max: int, ids: seq<nat>, now: int, replies: nat -> Reply, id: nat)
    requires InRange(ob, ids) && Ascending(ids) && AllResolvable(ob, ids) && id in ids
    ensures Outcome(ob.deliveries[id], DeliverAll(ob, max, ids, now, replies).deliveries[id], max, replies(id))
    decreases |ids|
  {
    var front, last := ids[..|ids| - 1], ids[|ids| - 1];
    assert forall i <- front :: i in ids;
    if id == last {
      LastUntouched(ob, max, ids, now, replies);
      OneIsPosted(DeliverAll(ob, max, front, now, replies), max, id, now, replies(id));
    } else {
      PostingHasItsOutcome(ob, max, front, now, replies, id);
    }
  }

  lemma PageResolves(max: int, ob: Outbox, now: int, batch: nat)
    requires Inv(max, ob)
    ensures var ids := Page(ob, now, batch);
            InRange(ob, ids) && Ascending(ids) && AllResolvable(ob, ids)
  {
    PageIs(ob, now, batch);
    var ids := Page(ob, now, batch);
    forall id | id in ids ensures id < |ob.deliveries| && Resolvable(ob, ob.deliveries[id]) {
      assert Due(ob.deliveries[id], now);
    }
  }

  /** A sweep posts every waiting row that fewer than `batch` waiting rows precede, with the outcome its
      answer gives, and touches no other row. */
  lemma WaitingRowIsPosted(max: int, ob: Outbox, now: int, batch: nat, replies: nat -> Reply, id: nat)
    requires Inv(max, ob) && id < |ob.deliveries|
    ensures var after := Process(ob, max, now, batch, replies);
            && |after.deliveries| == |ob.deliveries|
            && if Waiting(ob.deliveries[id], now) && WaitingBelow(ob.deliveries, now, id) < batch
               then Outcome(ob.deliveries[id], after.deliveries[id], max, replies(id))
               else after.deliveries[id] == ob.deliveries[id]
  {
    var ids := Page(ob, now, batch);
    PageResolves(max, ob, now, batch);
    TakenExactlyWhen(ob, now, batch, id);
    if id in ids {
      PostingHasItsOutcome(ob, max, ids, now, replies, id);
    } else {
      DeliverAllFrame(ob, max, ids, now, replies, id);
    }
  }

  /** What leaves the process in a sweep: one post for each such row, in order, and nothing else. */
  lemma SweepPostsItsPage(max: int, ob: Outbox, now: int, batch: nat, replies: nat -> Reply)
    requires Inv(max, ob)
    ensures var ids, after := Page(ob, now, batch), Process(ob, max, now, batch, replies);
            && |after.journal| == |ob.journal| + |ids| && after.journal[..|ob.journal|] == ob.journal
            && (forall k :: 0 <= k < |ids| ==> after.journal[|ob.journal| + k] == PostOf(ids[k], now, replies(ids[k])))
            && (forall k :: 0 < k < |ids| ==> ids[k - 1] < ids[k])
            && (forall id: nat :: id in ids <==>
                  && id < |ob.deliveries| && Waiting(ob.deliveries[id], now)
                  && WaitingBelow(ob.deliveries, now, id) < batch)
  {
    var ids := Page(ob, now, batch);
    PageResolves(max, ob, now, batch);
    forall id: nat
      ensures id in ids <==>
                && id < |ob.deliveries| && Waiting(ob.deliveries[id], now)
                && WaitingBelow(ob.deliveries, now, id) < batch
    {
      TakenExactlyWhen(ob, now, batch, id);
    }
    PostingIsJournaled(ob, max, ids, now, replies);
    PostsOfAt(ids, now, replies);
  }

  /** The rows of a new event wait to be posted at once, and no other row changes. */
  lemma NewRowsWait(ob: Outbox, payment: nat, account: nat, kind: string, now: int)
    ensures var after := Enqueue(ob, payment, account, kind);
            && |ob.deliveries| <= |after.deliveries| && after.deliveries[..|ob.deliveries|] == ob.deliveries
            && after.events == ob.events + [Message(account, payment, kind)] && after.journal == ob.journal
            && forall id :: |ob.deliveries| <= id < |after.deliveries| ==>
                 && after.deliveries[id].event == |ob.events| && after.deliveries[id].attempts == 0
                 && after.deliveries[id].status.Pending? && Waiting(after.deliveries[id], now)
  {
    FannedRows(ob.endpoints, |ob.events|, account, kind);
    var rows := Fanned(ob.endpoints, |ob.events|, account, kind, |ob.endpoints|);
    var after := Enqueue(ob, payment, account, kind);
    forall id | |ob.deliveries| <= id < |after.deliveries| ensures after.deliveries[id] in rows {
      assert after.deliveries[id] == rows[id - |ob.deliveries|];
    }
  }

  // ---------------------------------------------------------------------------
  // Operator resets
  // ---------------------------------------------------------------------------

  /** A row queued again: due now, with its whole budget. */
  predicate Reset(d: Delivery, e: Delivery, now: int) {
    e == Delivery(d.event, d.endpoint, Retrying, 0, Some(now))
  }

  lemma {:induction false} RequeueAllResets(ob: Outbox, ids: seq<nat>, successes: bool, now: int, id: nat)
    requires InRange(ob, ids) && Descending(ids) && id in ids
    ensures Reset(ob.deliveries[id], RequeueAll(ob, ids, successes, now).deliveries[id], now)
    decreases |ids|
  {
    var front := ids[..|ids| - 1];
    if ids[|ids| - 1] == id {
      assert id !in front;
      RequeueAllFrame(ob, front, successes, now, id);
    } else {
      RequeueAllResets(ob, front, successes, now, id);
    }
  }

  /** Redelivering a payment resets exactly its rows that are not accepted, or all of its rows when
      successes are included. */
  lemma RedeliveryResetsExactly(ob: Outbox, payment: nat, successes: bool, now: int, id: nat)
    requires id < |ob.deliveries|
    ensures var d, after := ob.deliveries[id], Redeliver(ob, payment, successes, now);
            && |after.deliveries| == |ob.deliveries|
            && if !d.status.Removed? && d.event < |ob.events| && ob.events[d.event].payment == payment
                  && (successes || !d.status.Success?)
               then Reset(d, after.deliveries[id], now) else after.deliveries[id] == d
  {
    var ids := Targets(ob, payment, successes, 0);
    TargetsDescend(ob, payment, successes, 0);
    TargetsAre(ob, payment, successes, 0, id);
    if id in ids {
      RequeueAllResets(ob, ids, successes, now, id);
    } else {
      RequeueAllFrame(ob, ids, successes, now, id);
    }
  }

  /** Retrying one delivery resets it exactly when it exists, is not accepted unless successes are
      included, and is not due already with its whole budget; otherwise nothing changes. */
  lemma RetryResetsExactlyWhen(ob: Outbox, id: nat, successes: bool, now: int)
    ensures var after := Retry(ob, id, successes, now);
            if id < |ob.deliveries| && !ob.deliveries[id].status.Removed?
               && (successes || !ob.deliveries[id].status.Success?)
               && !(&& ob.deliveries[id].status.Retrying? && ob.deliveries[id].attempts == 0
                    && ob.deliveries[id].nextAttempt.Some? && ob.deliveries[id].nextAttempt.value <= now)
            then && |after.deliveries| == |ob.deliveries| && Reset(ob.deliveries[id], after.deliveries[id], now)
                 && (forall k :: 0 <= k < |ob.deliveries| && k != id ==> after.deliveries[k] == ob.deliveries[k])
                 && after.journal == ob.journal + [Requeued(id, successes)]
            else after == ob
  {}
}
