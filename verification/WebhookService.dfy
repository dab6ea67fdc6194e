/** The webhook steps on rows updated in place, each equal to its step of the outbox model; so the
    invariant of that model, and every bound on its runs, holds of them. */
module WebhookService {
  import opened Common
  import opened WebhookOutbox

  class Webhooks {
    const maxAttempts: int
    var endpoints: seq<Endpoint>
    var events: seq<Message>
    var deliveries: seq<Delivery>
    var journal: seq<Entry>

    ghost function State(): Outbox
      reads this
    {
      Outbox(endpoints, events, deliveries, journal)
    }

    constructor (maxAttempts: int)
      ensures this.maxAttempts == maxAttempts && State() == EMPTY
    {
      this.maxAttempts := maxAttempts;
      endpoints, events, deliveries, journal := [], [], [], [];
    }

    method FindDelivery(event: nat, endpoint: nat) returns (found: bool)
      ensures found <==> HasRow(State(), event, endpoint)
    {
      for i := 0 to |deliveries|
        invariant forall id :: 0 <= id < i ==>
                deliveries[id].status.Removed? || deliveries[id].event != event || deliveries[id].endpoint != endpoint
      {
        if !deliveries[i].status.Removed? && deliveries[i].event == event && deliveries[i].endpoint == endpoint {
          return true;
        }
      }
      found := false;
    }

    /** `enqueue_event`: the look-up before each insert never finds a row, because the event is new
        and each endpoint comes up once. */
    method EnqueueEvent(payment: nat, account: nat, kind: string) returns (event: nat)
      requires Inv(maxAttempts, State())
      modifies this
      ensures event == |old(events)| && State() == Enqueue(old(State()), payment, account, kind)
    {
      ghost var was := State();
      event := |events|;
      events := events + [Message(account, payment, kind)];
      for i := 0 to |endpoints|
        invariant endpoints == was.endpoints && journal == was.journal
        invariant events == was.events + [Message(account, payment, kind)]
        invariant deliveries == was.deliveries + Fanned(endpoints, event, account, kind, i)
      {
        if Subscribed(endpoints[i], account, kind) {
          var found := FindDelivery(event, i);
          NoRowYet(maxAttempts, was, State(), account, kind, i);
          if !found { deliveries := deliveries + [Delivery(event, i, Pending, 0, None)]; }
        }
      }
    }

    /** `_deliver`, with the answer of the endpoint as a parameter. */
    method DeliverOne(id: nat, now: int, reply: Reply)
      requires id < |deliveries|
      modifies this
      ensures State() == Deliver(old(State()), maxAttempts, id, now, reply)
    {
      var d := deliveries[id];
      if d.event >= |events| || d.endpoint >= |endpoints| || !endpoints[d.endpoint].present {
        deliveries := deliveries[id := d.(status := Failed)];
        return;
      }
      d := d.(attempts := d.attempts + 1);
      journal := journal + [Posted(id, now, reply.done, reply.code.Some? && 200 <= reply.code.value < 300)];
      if reply.code.Some? && 200 <= reply.code.value < 300 {
        d := d.(status := Success);
      } else if d.attempts >= maxAttempts {
        d := d.(status := Failed);
      } else {
        d := d.(status := Retrying, nextAttempt := Some(reply.done + Min(Pow2(d.attempts), MAX_BACKOFF)));
      }
      deliveries := deliveries[id := d];
    }

    /** The query of `process_due_deliveries`. */
    method FindDue(now: int, batch: nat) returns (due: seq<nat>)
      ensures due == Page(State(), now, batch)
    {
      due := [];
      for i := 0 to |deliveries|
        invariant var ids := DueIds(deliveries, now, i); due == ids[..Min(batch, |ids|)]
      {
        if Due(deliveries[i], now) && |due| < batch { due := due + [i]; }
      }
    }

    /** `process_due_deliveries`. */
    method ProcessDueDeliveries(now: int, batch: nat, replies: nat -> Reply) returns (processed: nat)
      modifies this
      ensures State() == Process(old(State()), maxAttempts, now, batch, replies)
      ensures processed == |Page(old(State()), now, batch)| <= batch
    {
      ghost var was := State();
      var due := FindDue(now, batch);
      PageIs(was, now, batch);
      processed := 0;
      while processed < |due|
        invariant processed <= |due| && |deliveries| == |was.deliveries| && InRange(was, due[..processed])
        invariant State() == DeliverAll(was, maxAttempts, due[..processed], now, replies)
      {
        assert due[..processed + 1][..processed] == due[..processed];
        DeliverOne(due[processed], now, replies(due[processed]));
        processed := processed + 1;
      }
      assert due[..processed] == due;
    }

    method ResetRow(id: nat, successes: bool, now: int)
      requires id < |deliveries|
      modifies this
      ensures State() == Requeue(old(State()), id, successes, now)
    {
      deliveries := deliveries[id := deliveries[id].(status := Retrying, attempts := 0, nextAttempt := Some(now))];
      journal := journal + [Requeued(id, successes)];
    }

    /** The rows of a payment that a reset takes, latest first, and whether it has any at all. */
    method FindTargets(payment: nat, successes: bool) returns (found: bool, targets: seq<nat>)
      ensures targets == Targets(State(), payment, successes, 0)
      ensures found <==> exists id :: 0 <= id < |deliveries| && OfPayment(State(), deliveries[id], payment)
      ensures !found ==> targets == []
    {
      found, targets := false, [];
      var n := |deliveries|;
      while n > 0
        invariant 0 <= n <= |deliveries| && targets == Targets(State(), payment, successes, n)
        invariant found <==> exists id :: n <= id < |deliveries| && OfPayment(State(), deliveries[id], payment)
        invariant !found ==> targets == []
      {
        n := n - 1;
        var d := deliveries[n];
        if !d.status.Removed? && d.event < |events| && events[d.event].payment == payment {
          found := true;
          if successes || !d.status.Success? { targets := targets + [n]; }
        }
      }
    }

    /** `redeliver_admin_payment_events`: `found` is false where the route answers 404. */
    method RedeliverPayment(payment: nat, successes: bool, now: int) returns (found: bool)
      modifies this
      ensures State() == Redeliver(old(State()), payment, successes, now)
      ensures found <==>
                exists id :: 0 <= id < |old(deliveries)| && OfPayment(old(State()), old(deliveries)[id], payment)
      ensures !found ==> State() == old(State())
    {
      ghost var was := State();
      var targets: seq<nat>;
      found, targets := FindTargets(payment, successes);
      TargetsDescend(was, payment, successes, 0);
      for k := 0 to |targets|
        invariant |deliveries| == |was.deliveries| && InRange(was, targets[..k])
        invariant State() == RequeueAll(was, targets[..k], successes, now)
      {
        assert targets[..k + 1][..k] == targets[..k];
        ResetRow(targets[k], successes, now);
      }
      assert targets[..|targets|] == targets;
    }

    /** `retry_delivery`: `retried` is false where the route changes nothing. */
    method RetryDelivery(id: nat, successes: bool, now: int) returns (found: bool, retried: bool)
      modifies this
      ensures State() == Retry(old(State()), id, successes, now)
      ensures found <==> id < |old(deliveries)| && !old(deliveries)[id].status.Removed?
      ensures !retried ==> State() == old(State())
      ensures retried ==> found && |deliveries| == |old(deliveries)| && AlreadyDue(deliveries[id], now)
      ensures retried ==> journal == old(journal) + [Requeued(id, successes)]
    {
      if id >= |deliveries| || deliveries[id].status.Removed? { return false, false; }
      var d := deliveries[id];
      if d.status.Success? && !successes { return true, false; }
      if d.status.Retrying? && d.attempts == 0 && d.nextAttempt.Some? && d.nextAttempt.value <= now {
        return true, false;
      }
      ResetRow(id, successes, now);
      return true, true;
    }
  }

  /** The event is new and the endpoints before this one have their own rows. */
  lemma NoRowYet(max: int, was: Outbox, ob: Outbox, account: nat, kind: string, endpoint: nat)
    requires Inv(max, was) && endpoint <= |was.endpoints|
    requires ob.deliveries == was.deliveries + Fanned(was.endpoints, |was.events|, account, kind, endpoint)
    ensures !HasRow(ob, |was.events|, endpoint)
  {
    var rows := Fanned(was.endpoints, |was.events|, account, kind, endpoint);
    forall id | 0 <= id < |ob.deliveries| && !ob.deliveries[id].status.Removed?
      ensures ob.deliveries[id].event != |was.events| || ob.deliveries[id].endpoint != endpoint
    {
      if id < |was.deliveries| {
        assert Resolvable(was, was.deliveries[id]);
      } else {
        FannedHolds(was.endpoints, |was.events|, account, kind, endpoint, rows[id - |was.deliveries|]);
      }
    }
  }
}
