/** The billing service as it works: rows rewritten one by one inside loops. Every method is proved
    to do exactly what its step function says, and to keep the invariant. */
module BillingService {
  import opened Common
  import opened BillingModel
  import opened BillingInvariant
  import opened BillingDunning
  import opened BillingRuns

  /** A row of `rest` with the smallest key. */
  method Smallest(rest: set<nat>, key: nat -> int) returns (m: nat)
    requires rest != {}
    ensures m in rest && forall x :: x in rest ==> key(m) <= key(x)
  {
    m :| m in rest;
    var todo := rest - {m};
    while todo != {}
      invariant m in rest && todo <= rest
      invariant forall x :: x in rest && x !in todo ==> key(m) <= key(x)
      decreases |todo|
    {
      var x :| x in todo;
      if key(x) < key(m) { m := x; }
      todo := todo - {x};
    }
  }

  /** `ORDER BY key LIMIT limit` over the rows a WHERE clause selects. */
  method SelectPage(pool: set<nat>, key: nat -> int, limit: nat) returns (picked: seq<nat>)
    ensures IsPage(pool, key, limit, picked)
    ensures |picked| == Min(limit, |pool|)
  {
    picked := [];
    var rest := pool;
    while |picked| < limit && rest != {}
      invariant |picked| <= limit && rest <= pool && |picked| + |rest| == |pool|
      invariant forall x :: x in pool <==> x in rest || x in picked
      invariant forall x :: x in picked ==> x !in rest
      invariant forall j, k :: 0 <= j < k < |picked| ==> picked[j] != picked[k] && key(picked[j]) <= key(picked[k])
      invariant forall j, x :: 0 <= j < |picked| && x in rest ==> key(picked[j]) <= key(x)
      decreases limit - |picked|
    {
      var m := Smallest(rest, key);
      picked, rest := picked + [m], rest - {m};
    }
  }

  /** The outcome a caller sees. */
  ghost predicate Matches(before: Db, spec: Outcome, after: Db, error: Option<Error>) {
    match spec
    case Done(db) => error.None? && after == db
    case Refused(e) => error == Some(e) && after == before
  }

  class Billing {
    const cfg: Config
    var accounts: seq<Account>
    var plans: seq<Plan>
    var subs: seq<Subscription>
    var invoices: seq<Invoice>
    var payments: seq<Payment>
    var codes: map<nat, nat>
    var reminders: seq<Reminder>

    function Tables(): Db
      reads this
    {
      Db(accounts, plans, subs, invoices, payments, codes, reminders)
    }

    ghost predicate Valid()
      reads this
    {
      Inv(cfg, Tables())
    }

    constructor (cfg: Config)
      ensures this.cfg == cfg && Tables() == EMPTY && Valid()
    {
      this.cfg := cfg;
      accounts, plans, subs, invoices, payments, codes, reminders := [], [], [], [], [], map[], [];
      new;
      EmptyOk(cfg, 0);
    }

    // -------------------------------------------------------------------------
    // Helpers, each one loop of the source
    // -------------------------------------------------------------------------

    method LiftBillingHold(a: nat) returns (changed: bool)
      modifies this`accounts
      ensures accounts == LiftHold(old(accounts), a)
      ensures changed <==> accounts != old(accounts)
    {
      changed := a < |accounts| && accounts[a].status.AccountRestricted?;
      if changed { accounts := accounts[a := accounts[a].(status := AccountActive)]; }
    }

    method RetireLiveSubscriptions(a: nat, now: int)
      modifies this`subs
      ensures subs == RetireLive(old(subs), a, now)
    {
      for k := 0 to |subs|
        invariant |subs| == |old(subs)|
        invariant forall j :: 0 <= j < k ==> subs[j] == RetireLive(old(subs), a, now)[j]
        invariant forall j :: k <= j < |subs| ==> subs[j] == old(subs)[j]
      {
        if subs[k].account == a && subs[k].Live() { subs := subs[k := subs[k].Cancel(now)]; }
      }
    }

    method ActivateSubscription(s: nat, now: int)
      requires s < |subs|
      modifies this`subs
      ensures subs == Activate(old(subs), s, now)
    {
      if !subs[s].status.SubPending? { return; }
      var a := subs[s].account;
      for k := 0 to |subs|
        invariant |subs| == |old(subs)|
        invariant forall j :: 0 <= j < k ==> subs[j] == RetireLive(old(subs), a, now)[j]
        invariant forall j :: k <= j < |subs| ==> subs[j] == old(subs)[j]
      {
        if k != s && subs[k].account == a && subs[k].Live() { subs := subs[k := subs[k].Cancel(now)]; }
      }
      var started := if subs[s].startedAt.Some? then subs[s].startedAt else Some(now);
      subs := subs[s := subs[s].(status := SubActive, startedAt := started)];
    }

    method VoidOpenInvoices(a: nat, now: int)
      modifies this`invoices
      ensures invoices == VoidUnpaid(old(invoices), a, now)
    {
      for k := 0 to |invoices|
        invariant |invoices| == |old(invoices)|
        invariant forall j :: 0 <= j < k ==> invoices[j] == VoidUnpaid(old(invoices), a, now)[j]
        invariant forall j :: k <= j < |invoices| ==> invoices[j] == old(invoices)[j]
      {
        if invoices[k].account == a && invoices[k].Unpaid() {
          invoices := invoices[k := invoices[k].Voided(Downgraded, now)];
        }
      }
    }

    /** `find_invoice_for_window`: the claim on a window, if there is one. */
    method FindInvoiceForWindow(s: nat, start: int) returns (found: Option<nat>)
      ensures found.Some? <==> Claimed(invoices, s, start)
      ensures found.Some? ==> found.value < |invoices| && Claims(invoices[found.value], s, start)
    {
      for k := 0 to |invoices|
        invariant forall j :: 0 <= j < k ==> !Claims(invoices[j], s, start)
      {
        if Claims(invoices[k], s, start) { return Some(k); }
      }
      return None;
    }

    /** `find_open_invoice`: the oldest unpaid invoice of the account. */
    method FindOpenInvoice(a: nat) returns (found: Option<nat>)
      ensures found.Some? <==> HasUnpaid(invoices, a)
      ensures found.Some? ==>
                found.value < |invoices| && invoices[found.value].account == a && invoices[found.value].Unpaid()
      ensures found.Some? ==> forall j :: 0 <= j < found.value && invoices[j].account == a ==> !invoices[j].Unpaid()
    {
      for k := 0 to |invoices|
        invariant forall j :: 0 <= j < k && invoices[j].account == a ==> !invoices[j].Unpaid()
      {
        if invoices[k].account == a && invoices[k].Unpaid() { return Some(k); }
      }
      return None;
    }

    /** `_get_active_sub`: the row in force, unique by the invariant. */
    method GetActiveSub(a: nat) returns (found: Option<nat>)
      requires Valid()
      ensures found.None? <==> NoLive(subs, a)
      ensures found.Some? ==> found.value < |subs| && subs[found.value].account == a && subs[found.value].Live()
      ensures found.Some? ==> forall j :: 0 <= j < |subs| && subs[j].account == a && subs[j].Live() ==> j == found.value
    {
      for k := 0 to |subs|
        invariant forall j :: 0 <= j < k && subs[j].account == a ==> !subs[j].Live()
      {
        if subs[k].account == a && subs[k].Live() { return Some(k); }
      }
      return None;
    }

    // -------------------------------------------------------------------------
    // Sweeps
    // -------------------------------------------------------------------------

    method IssueOne(s: nat, start: int) returns (created: bool)
      requires s < |subs| && subs[s].plan < |plans|
      modifies this`invoices
      ensures Tables() == IssueInvoice(old(Tables()), s, start)
      ensures created <==> |invoices| > |old(invoices)|
    {
      var fee := plans[subs[s].plan].fee;
      if fee <= 0 { return false; }
      var existing := FindInvoiceForWindow(s, start);
      if existing.Some? { return false; }
      invoices := invoices + [NewInvoice(subs[s].account, s, fee, start)];
      created := true;
    }

    /** `issue_due_invoices`. */
    method IssueDueInvoices(now: int, limit: nat) returns (picked: seq<nat>)
      requires Valid()
      modifies this`invoices
      ensures Valid()
      ensures IsPage(IssuePool(cfg, old(Tables()), now), BillingKey(old(subs)), limit, picked)
      ensures Tables() == IssueSweep(cfg, old(Tables()), now, limit, picked)
    {
      ghost var before := Tables();
      var pool := set s | 0 <= s < |subs| && DueForIssue(cfg, Tables(), now, s);
      picked := SelectPage(pool, BillingKey(subs), limit);
      ghost var all := IssueAll(before, picked);
      assert picked[0..] == picked;
      for k := 0 to |picked|
        invariant Tables() == before.(invoices := invoices)
        invariant forall j :: 0 <= j < |picked| ==> picked[j] < |subs| && subs[picked[j]].plan < |plans|
        invariant IssueAll(Tables(), picked[k..]) == all
      {
        assert picked[k..][0] == picked[k] && picked[k..][1..] == picked[k + 1..];
        var _ := IssueOne(picked[k], subs[picked[k]].nextBillingAt);
      }
      IssueAllKeeps(cfg, before, picked);
    }

    /** `_expire_abandoned_purchases`. The source's query has a limit and no order. */
    method ExpireAbandonedPurchases(now: int, limit: nat) returns (parked: set<nat>)
      modifies this`subs, this`invoices
      ensures IsBatch(AbandonedPool(old(Tables()), now), limit, parked)
      ensures Tables() == Expire(old(Tables()), parked, now)
    {
      ghost var before := Tables();
      var pool := set s | 0 <= s < |subs| && Abandoned(Tables(), now, s);
      var rows := SelectPage(pool, BillingKey(subs), limit);
      parked := {};
      for k := 0 to |rows|
        invariant parked <= pool && |parked| == k && forall j :: k <= j < |rows| ==> rows[j] !in parked
        invariant Tables() == Expire(before, parked, now)
      {
        ExpireOne(rows[k], now);
        ExpireAdds(before, parked, rows[k], now);
        parked := parked + {rows[k]};
      }
    }

    method ExpireOne(s: nat, now: int)
      requires s < |subs|
      modifies this`subs, this`invoices
      ensures Tables() == Expire(old(Tables()), {s}, now)
    {
      for k := 0 to |invoices|
        invariant |invoices| == |old(invoices)| && subs == old(subs)
        invariant forall j :: 0 <= j < k ==> invoices[j] == Expire(old(Tables()), {s}, now).invoices[j]
        invariant forall j :: k <= j < |invoices| ==> invoices[j] == old(invoices)[j]
      {
        if invoices[k].subscription == s && invoices[k].Unpaid() {
          invoices := invoices[k := invoices[k].Voided(Superseded, now)];
        }
      }
      subs := subs[s := subs[s].Cancel(now)];
    }

    /** `enforce_grace`. */
    method EnforceGrace(now: int, limit: nat, enabled: bool)
      returns (picked: seq<nat>, parked: set<nat>)
      requires Valid()
      modifies this`accounts, this`subs, this`invoices
      ensures Valid()
      ensures IsPage(DunnedPool(old(Tables()), true), DueKey(old(invoices)), limit, picked)
      ensures IsBatch(AbandonedPool(old(Tables()), now), EXPIRY_LIMIT, parked)
      ensures Tables() == EnforceSweep(cfg, old(Tables()), now, limit, enabled, picked, parked)
    {
      ghost var before := Tables();
      picked := FreezeOverdue(now, limit, enabled);
      AbandonedFrame(before, accounts, now);
      parked := ExpireAbandonedPurchases(now, EXPIRY_LIMIT);
      EnforceKeeps(cfg, before, now, limit, enabled, picked, parked);
    }

    /** The first half of `enforce_grace`: the accounts to freeze, and the freeze if it is enabled. */
    method FreezeOverdue(now: int, limit: nat, enabled: bool) returns (picked: seq<nat>)
      requires Valid()
      modifies this`accounts
      ensures IsPage(DunnedPool(old(Tables()), true), DueKey(invoices), limit, picked)
      ensures accounts ==
                if enabled then Freeze(old(accounts), FreezeTargets(cfg, old(Tables()), picked, now))
                else old(accounts)
    {
      var pool := set i | 0 <= i < |invoices| && Dunned(Tables(), true, i);
      picked := SelectPage(pool, DueKey(invoices), limit);
      if enabled { FreezeDue(picked, now); }
    }

    /** The freeze loop: one field of each account whose grace has run out. */
    method FreezeDue(picked: seq<nat>, now: int)
      requires forall j :: 0 <= j < |picked| ==> picked[j] < |invoices| && invoices[picked[j]].account < |accounts|
      modifies this`accounts
      ensures accounts == Freeze(old(accounts), FreezeTargets(cfg, old(Tables()), picked, now))
    {
      ghost var before := Tables();
      for k := 0 to |picked|
        invariant |accounts| == |before.accounts|
        invariant accounts == Freeze(before.accounts, FreezeTargets(cfg, before, picked[..k], now))
      {
        TargetsGrow(cfg, before, picked, k, now);
        var i := picked[k];
        if invoices[i].dueAt + cfg.Grace() <= now {
          var a := invoices[i].account;
          accounts := accounts[a := accounts[a].(status := AccountRestricted)];
        }
      }
      assert picked[..|picked|] == picked;
    }

    /** `record_due_reminders` with its email pass. */
    method RecordDueReminders(now: int, limit: nat, emailOn: bool) returns (picked: seq<nat>)
      requires Valid()
      modifies this`reminders
      ensures Valid()
      ensures IsPage(DunnedPool(old(Tables()), false), DueKey(old(invoices)), limit, picked)
      ensures Tables() == RemindSweep(old(Tables()), now, limit, picked, emailOn)
    {
      ghost var before := Tables();
      var pool := set i | 0 <= i < |invoices| && Dunned(Tables(), false, i);
      picked := SelectPage(pool, DueKey(invoices), limit);
      RecordChannel(picked, now, InApp);
      if emailOn { RecordChannel(picked, now, Email); }
      RemindersKeep(cfg, before, reminders);
    }

    method RecordChannel(picked: seq<nat>, now: int, c: Channel)
      requires forall j :: 0 <= j < |picked| ==> picked[j] < |invoices| && invoices[picked[j]].account < |accounts|
      modifies this`reminders
      ensures Tables() == RecordAll(old(Tables()), picked, now, c)
    {
      ghost var before := Tables();
      ghost var all := RecordAll(before, picked, now, c);
      assert picked[0..] == picked;
      for k := 0 to |picked|
        invariant Tables() == before.(reminders := reminders)
        invariant RecordAll(Tables(), picked[k..], now, c) == all
      {
        var i := picked[k];
        assert picked[k..][0] == i && picked[k..][1..] == picked[k + 1..];
        var state := DeriveState(Some(accounts[invoices[i].account]), invoices[i], now);
        if state.Some? && state.value.AtTier? {
          var recorded := FindReminder(i, state.value.tier, c);
          if !recorded { reminders := reminders + [Reminder(i, state.value.tier, c, now)]; }
        }
      }
    }

    method FindReminder(i: nat, t: Tier, c: Channel) returns (found: bool)
      ensures found <==> Recorded(reminders, i, t, c)
    {
      for k := 0 to |reminders|
        invariant forall j :: 0 <= j < k && reminders[j].invoice == i && reminders[j].tier == t ==>
                reminders[j].channel != c
      {
        if reminders[k].invoice == i && reminders[k].tier == t && reminders[k].channel == c { return true; }
      }
      return false;
    }

    // -------------------------------------------------------------------------
    // Settlement
    // -------------------------------------------------------------------------

    /** Puts the invoice's coverage in force: activation, then `extend_coverage`. */
    method Grant(i: nat, now: int)
      requires i < |invoices| && invoices[i].subscription < |subs|
      modifies this`subs
      ensures subs == ExtendCoverage(Activate(old(subs), invoices[i].subscription, now),
                                     invoices[i].subscription, invoices[i].periodEnd)
    {
      var s := invoices[i].subscription;
      ActivateSubscription(s, now);
      subs := subs[s := subs[s].(nextBillingAt := invoices[i].periodEnd)];
    }

    method ReinstateLapsed(i: nat, payment: Option<nat>, paidAt: int)
      requires i < |invoices| && invoices[i].subscription < |subs|
      modifies this`subs, this`invoices
      ensures Tables() == Reinstate(old(Tables()), i, payment, paidAt)
    {
      var lapsed := invoices[i];
      var plan := subs[lapsed.subscription].plan;
      RetireLiveSubscriptions(lapsed.account, paidAt);
      var granted := Invoice(lapsed.account, |subs|, paidAt, paidAt + CREDIT, paidAt, InvPaid,
                             lapsed.baseFee, lapsed.total, Some(paidAt), None, None, payment);
      subs := subs + [NewSubscription(lapsed.account, plan, SubActive, paidAt)];
      invoices := invoices + [granted];
      var retired := lapsed.Voided(GraceExpired, paidAt);
      if payment.Some? { retired := retired.(payment := None); }
      invoices := invoices[i := retired];
    }

    /** `settle_invoice`. The unique index is checked where the row would be written back. */
    method Settle(i: nat, payment: Option<nat>, paidAt: int) returns (error: Option<Error>)
      requires i < |invoices| && invoices[i].subscription < |subs|
      modifies this`accounts, this`subs, this`invoices
      ensures Matches(old(Tables()), SettleInvoice(cfg, old(Tables()), i, payment, paidAt), Tables(), error)
    {
      var inv := invoices[i];
      if inv.status.InvPaid? { return None; }
      if paidAt > inv.dueAt + cfg.Grace() {
        ReinstateLapsed(i, payment, paidAt);
      } else {
        if inv.status.InvVoid? {
          var taken := FindInvoiceForWindow(inv.subscription, inv.periodStart);
          if taken.Some? { return Some(WindowTaken); }
        }
        Grant(i, paidAt);
        invoices := invoices[i := inv.(status := InvPaid, paidAt := Some(paidAt))];
      }
      var _ := LiftBillingHold(inv.account);
      return None;
    }

    /** The lookup of `settle_invoice_for_payment`, which fails on two rows. */
    method FindByPayment(p: nat) returns (found: Option<nat>, ambiguous: bool)
      ensures ambiguous <==>
                exists j, k :: 0 <= j < k < |invoices| && RefersTo(invoices[j], p) && RefersTo(invoices[k], p)
      ensures found.Some? <==> exists k :: 0 <= k < |invoices| && RefersTo(invoices[k], p)
      ensures found.Some? ==> found.value < |invoices| && RefersTo(invoices[found.value], p)
    {
      found, ambiguous := None, false;
      for k := 0 to |invoices|
        invariant ambiguous <==> exists i, j :: 0 <= i < j < k && RefersTo(invoices[i], p) && RefersTo(invoices[j], p)
        invariant found.None? ==> forall j :: 0 <= j < k ==> !RefersTo(invoices[j], p)
        invariant found.Some? ==> found.value < k && RefersTo(invoices[found.value], p)
      {
        if RefersTo(invoices[k], p) {
          if found.Some? { ambiguous := true; } else { found := Some(k); }
        }
      }
    }

    /** The code is paid, and `_retire_successors` retires its replacements. */
    method RetireSuccessors(p: nat)
      requires p < |payments|
      modifies this`payments
      ensures payments == Confirmed(old(payments), p)
    {
      ghost var before := payments;
      payments := payments[p := payments[p].(status := PayPaid)];
      for k := 0 to |payments|
        invariant |payments| == |before| && payments[p] == before[p].(status := PayPaid)
        invariant forall j :: 0 <= j < k ==> payments[j] == Confirmed(before, p)[j]
        invariant forall j :: k <= j < |payments| && j != p ==> payments[j] == before[j]
      {
        var open := payments[k].status.PayPending? || payments[k].status.PayExpired?;
        if k != p && payments[k].reissuedFrom == Some(p) && open {
          payments := payments[k := payments[k].(status := PaySuperseded)];
        }
      }
    }

    /** `mark_paid`: the code and its invoice settle together or not at all. */
    method MarkPaid(p: nat, now: int) returns (error: Option<Error>)
      requires Valid()
      modifies this`accounts, this`subs, this`invoices, this`payments
      ensures Valid()
      ensures Matches(old(Tables()), ConfirmPayment(cfg, old(Tables()), p, now), Tables(), error)
    {
      ghost var before := Tables();
      ConfirmKeeps(cfg, before, p, now);
      if p >= |payments| { return Some(PaymentNotFound); }
      if payments[p].status.PayPaid? || payments[p].status.PayFailed? { return Some(PaymentTerminal); }
      var found, ambiguous := FindByPayment(p);
      if ambiguous { return Some(AmbiguousPayment); }
      ConfirmsFound(cfg, before, p, found, now);
      var rollback := payments;
      RetireSuccessors(p);
      if found.None? { return None; }
      error := Settle(found.value, Some(p), now);
      if error.Some? { payments := rollback; }
    }

    // -------------------------------------------------------------------------
    // The merchant's and the operator's routes
    // -------------------------------------------------------------------------

    method MoveToFree(a: nat, plan: nat, current: Option<nat>, now: int)
      requires current.None? <==> NoLive(subs, a)
      requires current.Some? ==>
              current.value < |subs| && subs[current.value].account == a && subs[current.value].Live()
      requires current.Some? ==> forall j :: 0 <= j < |subs| && subs[j].account == a && subs[j].Live() ==>
              j == current.value
      modifies this`accounts, this`subs, this`invoices
      ensures Tables() == ChangeToFree(old(Tables()), a, plan, now)
    {
      VoidOpenInvoices(a, now);
      var _ := LiftBillingHold(a);
      CancelIsRetire(subs, a, current, now);
      if current.Some? { subs := subs[current.value := subs[current.value].Cancel(now)]; }
      subs := subs + [NewSubscription(a, plan, SubActive, now)];
    }

    method Purchase(a: nat, plan: nat, now: int)
      requires plan < |plans|
      modifies this`subs, this`invoices
      ensures Tables() == Park(old(Tables()), a, plan, now)
    {
      subs := subs + [NewSubscription(a, plan, SubPending, now)];
      invoices := invoices + [NewInvoice(a, |subs| - 1, plans[plan].fee, now)];
    }

    /** `change_plan`. */
    method Change(a: nat, plan: nat, now: int) returns (error: Option<Error>)
      requires Valid()
      modifies this`accounts, this`subs, this`invoices
      ensures Valid()
      ensures Matches(old(Tables()), ChangePlan(old(Tables()), a, plan, now), Tables(), error)
    {
      ChangePlanKeeps(cfg, Tables(), a, plan, now);
      if a >= |accounts| || accounts[a].status.AccountSuspended? { return Some(Unauthorized); }
      if plan >= |plans| { return Some(PlanNotFound); }
      if !plans[plan].isPublic || !plans[plan].isActive { return Some(PlanNotAvailable); }
      var current := GetActiveSub(a);
      if current.Some? && subs[current.value].plan == plan { return Some(PlanUnchanged); }
      assert !OnPlan(subs, a, plan);
      if plans[plan].fee <= 0 {
        MoveToFree(a, plan, current, now);
        return None;
      }
      var outstanding := FindOpenInvoice(a);
      if outstanding.Some? {
        if !accounts[a].status.AccountRestricted? { return Some(OpenInvoiceUnpaid); }
        VoidOpenInvoices(a, now);
        RetireLiveSubscriptions(a, now);
      }
      Purchase(a, plan, now);
      return None;
    }

    /** The live successor `reissue_payment` looks for: the latest one. */
    method FindSuccessor(p: nat) returns (found: Option<nat>)
      ensures found == Successor(payments, p, |payments|)
    {
      var n := |payments|;
      while n > 0
        invariant 0 <= n <= |payments| && Successor(payments, p, n) == Successor(payments, p, |payments|)
      {
        n := n - 1;
        if payments[n].reissuedFrom == Some(p) && payments[n].status.PayPending? { return Some(n); }
      }
      return None;
    }

    /** `_invoice_payment`, with the commit of a new code. */
    method InvoicePayment(i: nat, inWindow: bool) returns (code: nat)
      requires Valid() && i < |invoices|
      modifies this`payments, this`codes
      ensures Minted(payments, codes, code) == CodeFor(old(Tables()), i, inWindow)
    {
      assert InvoiceOk(cfg, Tables(), invoices[i]);
      var stored := invoices[i].payment;
      if stored.Some? {
        if !payments[stored.value].Dead() { return stored.value; }
        var live := FindSuccessor(stored.value);
        if live.Some? && inWindow { return live.value; }
        payments := payments + [Payment(PayPending, i, stored)];
        return |payments| - 1;
      }
      if i in codes { return codes[i]; }
      payments := payments + [Payment(PayPending, i, None)];
      codes := codes[i := |payments| - 1];
      return |payments| - 1;
    }

    /** `get_invoice_khqr`: the invoice is pointed at its code in a second commit. */
    method Mint(a: nat, i: nat, open: bool, inWindow: bool, kept: bool) returns (error: Option<Error>)
      requires Valid()
      modifies this`invoices, this`payments, this`codes
      ensures Valid()
      ensures Matches(old(Tables()), MintCode(old(Tables()), a, i, open, inWindow, kept), Tables(), error)
    {
      MintKeeps(cfg, Tables(), a, i, open, inWindow, kept);
      if a >= |accounts| || accounts[a].status.AccountSuspended? { return Some(Unauthorized); }
      if i >= |invoices| || invoices[i].account != a { return Some(InvoiceNotFound); }
      if invoices[i].status.InvPaid? { return Some(InvoiceAlreadyPaid); }
      if !open { return Some(BillingNotOpen); }
      var payment := InvoicePayment(i, inWindow);
      if !kept { return None; }
      var inv := invoices[i].(payment := Some(payment));
      if inv.status.InvDraft? || inv.status.InvIssued? { inv := inv.(status := InvOpen); }
      invoices := invoices[i := inv];
      return None;
    }

    /** `resolve_invoice`. */
    method Resolve(i: nat, action: Resolution, now: int) returns (error: Option<Error>)
      requires Valid()
      modifies this`accounts, this`subs, this`invoices
      ensures Valid()
      ensures Matches(old(Tables()), ResolveInvoice(cfg, old(Tables()), i, action, now), Tables(), error)
    {
      ghost var before := Tables();
      ResolveKeeps(cfg, before, i, action, now);
      if i >= |invoices| { return Some(InvoiceNotFound); }
      assert InvoiceOk(cfg, before, before.invoices[i]);
      if !invoices[i].Unpaid() { return Some(InvoiceAlreadyResolved); }
      var inv := invoices[i];
      match action {
        case MarkPaid =>
          error := Settle(i, None, now);
          return;
        case VoidIt =>
          invoices := invoices[i := inv.Voided(Operator, now)];
        case Waive =>
          Grant(i, now);
          invoices := invoices[i := inv.(status := InvWaived)];
        case Credit =>
          Grant(i, now);
          invoices := invoices[i := inv.(status := InvCredited)];
      }
      var _ := LiftBillingHold(inv.account);
      return None;
    }

    /** `assign_account_plan`. */
    method Assign(a: nat, plan: nat, now: int) returns (error: Option<Error>)
      requires Valid()
      modifies this`subs
      ensures Valid()
      ensures Matches(old(Tables()), AssignPlan(old(Tables()), a, plan, now), Tables(), error)
    {
      AssignKeeps(cfg, Tables(), a, plan, now);
      if a >= |accounts| { return Some(AccountNotFound); }
      if plan >= |plans| { return Some(PlanNotFound); }
      var current := GetActiveSub(a);
      CancelIsRetire(subs, a, current, now);
      if current.Some? {
        if subs[current.value].plan == plan { return Some(PlanUnchanged); }
        subs := subs[current.value := subs[current.value].Cancel(now)];
      }
      subs := subs + [NewSubscription(a, plan, SubActive, now)];
      return None;
    }
  }

  /** Canceling the one row in force is retiring every row in force. */
  lemma CancelIsRetire(subs: seq<Subscription>, a: nat, current: Option<nat>, now: int)
    requires current.None? <==> NoLive(subs, a)
    requires current.Some? ==> current.value < |subs| && subs[current.value].account == a && subs[current.value].Live()
    requires current.Some? ==> forall j :: 0 <= j < |subs| && subs[j].account == a && subs[j].Live() ==>
            j == current.value
    ensures RetireLive(subs, a, now) ==
              if current.Some? then subs[current.value := subs[current.value].Cancel(now)] else subs
  {}

  /** With at most one invoice on the code, confirming is settling that invoice on the marked tables. */
  lemma ConfirmsFound(cfg: Config, db: Db, p: nat, found: Option<nat>, now: int)
    requires Inv(cfg, db) && p < |db.payments| && !db.payments[p].status.PayPaid? && !db.payments[p].status.PayFailed?
    requires forall j, k :: 0 <= j < k < |db.invoices| ==> !RefersTo(db.invoices[j], p) || !RefersTo(db.invoices[k], p)
    requires found.Some? ==> found.value < |db.invoices| && RefersTo(db.invoices[found.value], p)
    requires found.None? ==> forall k :: 0 <= k < |db.invoices| ==> !RefersTo(db.invoices[k], p)
    ensures var marked := db.(payments := Confirmed(db.payments, p));
            && Inv(cfg, marked)
            && (found.None? ==> ConfirmPayment(cfg, db, p, now) == Done(marked))
            && (found.Some? ==> db.invoices[found.value].subscription < |db.subs|)
            && (found.Some? ==>
                  ConfirmPayment(cfg, db, p, now) == SettleInvoice(cfg, marked, found.value, Some(p), now))
  {
    PaymentsKeep(cfg, db, Confirmed(db.payments, p));
    if found.Some? { assert InvoiceOk(cfg, db, db.invoices[found.value]); }
  }

  lemma ExpireAdds(db: Db, parked: set<nat>, s: nat, now: int)
    requires s < |db.subs| && s !in parked
    ensures Expire(Expire(db, parked, now), {s}, now) == Expire(db, parked + {s}, now)
  {}

  lemma AbandonedFrame(db: Db, accounts: seq<Account>, now: int)
    ensures AbandonedPool(db.(accounts := accounts), now) == AbandonedPool(db, now)
  {}

  /** One more row of the page adds its account when its grace is over, and nothing otherwise. */
  lemma TargetsGrow(cfg: Config, db: Db, picked: seq<nat>, k: nat, now: int)
    requires k < |picked| && picked[k] < |db.invoices|
    ensures FreezeTargets(cfg, db, picked[..k + 1], now) ==
              FreezeTargets(cfg, db, picked[..k], now)
              + (if GraceOver(cfg, db.invoices[picked[k]], now) then {db.invoices[picked[k]].account} else {})
  {
    assert picked[..k + 1] == picked[..k] + [picked[k]];
  }
}
