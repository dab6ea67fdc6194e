/** What a settlement delivers, when a confirmation commits, and that a frozen account can always get
    out. */
module BillingSettlement {
  import opened Common
  import opened BillingModel
  import opened BillingInvariant
  import opened BillingRuns

  // ---------------------------------------------------------------------------
  // Settlement delivers what was bought
  // ---------------------------------------------------------------------------

  /** Row `k` is the one subscription of account `a` in force, on `plan`, covering until `until`. */
  ghost predicate Delivers(db: Db, a: nat, k: nat, plan: nat, until: int) {
    && k < |db.subs|
    && db.subs[k].Live() && db.subs[k].account == a && db.subs[k].plan == plan
    && db.subs[k].nextBillingAt >= until
    && (forall j :: 0 <= j < |db.subs| && db.subs[j].account == a && db.subs[j].Live() ==> j == k)
  }

  /** The subscription a settlement pays for: the invoice's own in time, a new one after the lapse. */
  function PaidSubscription(cfg: Config, db: Db, i: nat, paidAt: int): nat
    requires i < |db.invoices|
  {
    if Lapsed(cfg, db.invoices[i], paidAt) then |db.subs| else db.invoices[i].subscription
  }

  /** Settling an invoice on a pending or live subscription leaves exactly one subscription in force,
      on the bought plan, covered at least until a credit period less the grace after the payment,
      and the account not frozen, whichever side of the lapse line the money arrives on. */
  lemma SettlementDelivers(cfg: Config, db: Db, i: nat, payment: Option<nat>, paidAt: int)
    requires Inv(cfg, db) && i < |db.invoices| && db.invoices[i].subscription < |db.subs|
    requires !db.invoices[i].status.InvPaid? && SettleInvoice(cfg, db, i, payment, paidAt).Done?
    requires !db.subs[db.invoices[i].subscription].status.SubCanceled? || Lapsed(cfg, db.invoices[i], paidAt)
    ensures var after := SettleInvoice(cfg, db, i, payment, paidAt).db;
            var a := db.invoices[i].account;
            && Delivers(after, a, PaidSubscription(cfg, db, i, paidAt), db.subs[db.invoices[i].subscription].plan,
                        paidAt + CREDIT - cfg.Grace())
            && a < |after.accounts| && !after.accounts[a].status.AccountRestricted?
  {
    var inv := db.invoices[i];
    var s := inv.subscription;
    assert InvoiceOk(cfg, db, inv) && SubscriptionOk(db, db.subs[s]);
    if Lapsed(cfg, inv, paidAt) {
      RetireLeavesNone(db.subs, inv.account, paidAt);
    } else {
      var subs := ExtendCoverage(Activate(db.subs, s, paidAt), s, inv.periodEnd);
      ActivateKeepsOneLive(db.subs, s, paidAt, inv.periodEnd);
      assert OneLive(subs) && subs[s].Live() && subs[s].account == inv.account;
    }
  }

  /** The row that records the money. */
  function PaidRow(cfg: Config, db: Db, i: nat, paidAt: int): nat
    requires i < |db.invoices|
  {
    if Lapsed(cfg, db.invoices[i], paidAt) then |db.invoices| else i
  }

  /** A committed settlement records the money on a subscription in force exactly when the invoice's
      own subscription had not been canceled or the payment came after the lapse. Otherwise the
      money is booked and nothing in force changes. */
  lemma PaidIsInForceExactlyWhen(cfg: Config, db: Db, i: nat, payment: Option<nat>, paidAt: int)
    requires Inv(cfg, db) && i < |db.invoices| && db.invoices[i].subscription < |db.subs|
    requires !db.invoices[i].status.InvPaid? && SettleInvoice(cfg, db, i, payment, paidAt).Done?
    ensures var after := SettleInvoice(cfg, db, i, payment, paidAt).db;
            var row := PaidRow(cfg, db, i, paidAt);
            && row < |after.invoices| && after.invoices[row].status.InvPaid?
            && after.invoices[row].subscription < |after.subs|
            && (after.subs[after.invoices[row].subscription].Live() <==>
                  (!db.subs[db.invoices[i].subscription].status.SubCanceled? || Lapsed(cfg, db.invoices[i], paidAt)))
            && (!after.subs[after.invoices[row].subscription].Live() ==>
                  forall k :: 0 <= k < |db.subs| && db.subs[k].Live() ==> after.subs[k] == db.subs[k])
  {
    var s := db.invoices[i].subscription;
    if !db.subs[s].status.SubCanceled? || Lapsed(cfg, db.invoices[i], paidAt) {
      SettlementDelivers(cfg, db, i, payment, paidAt);
    }
  }

  // ---------------------------------------------------------------------------
  // Confirming a code
  // ---------------------------------------------------------------------------

  ghost predicate OneReferrer(invoices: seq<Invoice>, p: nat) {
    forall j, k :: 0 <= j < |invoices| && 0 <= k < |invoices| ==>
      (RefersTo(invoices[j], p) && RefersTo(invoices[k], p) ==> j == k)
  }

  /** Settling a payment a second time, at any later instant, changes nothing. */
  lemma SettlingTwiceIsSettlingOnce(cfg: Config, db: Db, p: nat, paidAt: int, again: int)
    requires Inv(cfg, db) && p < |db.payments|
    requires OneReferrer(db.invoices, p)
    requires SettleForPayment(cfg, db, p, paidAt).Done?
    ensures var once := SettleForPayment(cfg, db, p, paidAt).db;
            SettleForPayment(cfg, once, p, again) == Done(once)
  {
    var once := SettleForPayment(cfg, db, p, paidAt).db;
    if i: nat :| i < |db.invoices| && RefersTo(db.invoices[i], p) {
      assert InvoiceOk(cfg, db, db.invoices[i]);
      assert once == SettleInvoice(cfg, db, i, Some(p), paidAt).db;
      var row := if db.invoices[i].status.InvPaid? then i else PaidRow(cfg, db, i, paidAt);
      assert RefersTo(once.invoices[row], p) && once.invoices[row].status.InvPaid?;
      assert once.invoices[row].subscription < |once.subs|;
      assert forall k :: 0 <= k < |once.invoices| && RefersTo(once.invoices[k], p) ==> k == row;
    }
  }

  /** Confirming a code that can still be paid settles the invoice it was minted for if that invoice
      still points at it, and otherwise only marks the code: no other invoice can point at it. */
  lemma ConfirmIsSettle(cfg: Config, db: Db, p: nat, now: int)
    requires Inv(cfg, db) && p < |db.payments| && !db.payments[p].status.PayPaid? && !db.payments[p].status.PayFailed?
    ensures var i := db.payments[p].invoice;
            var marked := db.(payments := Confirmed(db.payments, p));
            && i < |db.invoices| && db.invoices[i].subscription < |db.subs| && Inv(cfg, marked)
            && (forall k :: 0 <= k < |db.invoices| && RefersTo(db.invoices[k], p) ==> k == i)
            && ConfirmPayment(cfg, db, p, now) ==
                 if RefersTo(db.invoices[i], p) then SettleInvoice(cfg, marked, i, Some(p), now) else Done(marked)
  {
    var i := db.payments[p].invoice;
    PaymentsKeep(cfg, db, Confirmed(db.payments, p));
    assert InvoiceOk(cfg, db, db.invoices[i]);
  }

  /** In every run, a code that has not been paid is pointed at by at most one invoice, the one it was
      minted for, so confirming a payment is never ambiguous. */
  lemma ConfirmationIsUnambiguous(cfg: Config, db: Db, p: nat, now: int)
    requires Reachable(cfg, db) && p < |db.payments| && !db.payments[p].status.PayPaid?
    ensures OneReferrer(db.invoices, p)
    ensures forall k :: 0 <= k < |db.invoices| && RefersTo(db.invoices[k], p) ==> k == db.payments[p].invoice
    ensures ConfirmPayment(cfg, db, p, now) != Refused(AmbiguousPayment)
  {
    ReachableInv(cfg, db);
  }

  /** The window of invoice `i` is held by another invoice. */
  ghost predicate RaisedAgain(db: Db, i: nat)
    requires i < |db.invoices|
  {
    exists k :: 0 <= k < |db.invoices| && k != i && !db.invoices[k].status.InvVoid?
                && db.invoices[k].subscription == db.invoices[i].subscription
                && db.invoices[k].periodStart == db.invoices[i].periodStart
  }

  /** In every run, confirming a code is refused if and only if there is no such code, it is paid or failed
      already, or the invoice it was minted for still points at it, is void, is inside its grace, and has
      had its window raised again. */
  lemma ConfirmationRefusedExactlyWhen(cfg: Config, db: Db, p: nat, now: int)
    requires Reachable(cfg, db)
    ensures ConfirmPayment(cfg, db, p, now).Refused? <==>
              || p >= |db.payments| || db.payments[p].status.PayPaid? || db.payments[p].status.PayFailed?
              || (exists i :: 0 <= i < |db.invoices| && RefersTo(db.invoices[i], p) && db.invoices[i].status.InvVoid?
                              && now <= db.invoices[i].dueAt + cfg.Grace() && RaisedAgain(db, i))
    ensures p < |db.payments| && !db.payments[p].status.PayPaid? ==>
              forall i :: 0 <= i < |db.invoices| && RefersTo(db.invoices[i], p) ==> i == db.payments[p].invoice
  {
    ReachableInv(cfg, db);
    if p < |db.payments| && !db.payments[p].status.PayPaid? && !db.payments[p].status.PayFailed? {
      ConfirmIsSettle(cfg, db, p, now);
      var i := db.payments[p].invoice;
      if db.invoices[i].status.InvVoid? { RaisedAgainIsClaimed(db, i); }
    }
  }

  lemma RaisedAgainIsClaimed(db: Db, i: nat)
    requires i < |db.invoices| && db.invoices[i].status.InvVoid?
    ensures RaisedAgain(db, i) <==> Claimed(db.invoices, db.invoices[i].subscription, db.invoices[i].periodStart)
  {
    var inv := db.invoices[i];
    if RaisedAgain(db, i) {
      var k :| 0 <= k < |db.invoices| && k != i && !db.invoices[k].status.InvVoid?
               && db.invoices[k].subscription == inv.subscription && db.invoices[k].periodStart == inv.periodStart;
      assert Claims(db.invoices[k], inv.subscription, inv.periodStart);
    }
  }

  /** In every run, the same confirmation after the grace line always commits, whatever the invoice's
      status short of paid and whoever holds its window: it reinstates, granting one whole period of
      the invoice's plan from the payment on, alone in force, on a new paid invoice of the same total. */
  lemma ConfirmationAfterGraceReinstates(cfg: Config, db: Db, p: nat, now: int)
    requires Reachable(cfg, db) && p < |db.payments|
    requires !db.payments[p].status.PayPaid? && !db.payments[p].status.PayFailed?
    requires db.payments[p].invoice < |db.invoices| && RefersTo(db.invoices[db.payments[p].invoice], p)
    requires !db.invoices[db.payments[p].invoice].status.InvPaid?
    requires now > db.invoices[db.payments[p].invoice].dueAt + cfg.Grace()
    ensures ConfirmPayment(cfg, db, p, now).Done?
    ensures var i := db.payments[p].invoice;
            var after := ConfirmPayment(cfg, db, p, now).db;
            && db.invoices[i].subscription < |db.subs|
            && Delivers(after, db.invoices[i].account, |db.subs|,
                        db.subs[db.invoices[i].subscription].plan, now + CREDIT)
            && |after.invoices| == |db.invoices| + 1 && after.invoices[i].status.InvVoid?
            && after.invoices[|db.invoices|].status.InvPaid?
            && after.invoices[|db.invoices|].total == db.invoices[i].total
            && RefersTo(after.invoices[|db.invoices|], p) && !RefersTo(after.invoices[i], p)
  {
    ReachableInv(cfg, db);
    ConfirmIsSettle(cfg, db, p, now);
    SettlementDelivers(cfg, db.(payments := Confirmed(db.payments, p)), db.payments[p].invoice, Some(p), now);
  }

  // ---------------------------------------------------------------------------
  // The freeze has no dead end
  // ---------------------------------------------------------------------------

  /** What a frozen merchant can do alone: choose a plan and, if it costs something, mint the code
      of the invoice this raises and pay it at `paidAt`. */
  function WayOut(db: Db, a: nat, plan: nat, now: int, paidAt: int): seq<Tick>
    requires plan < |db.plans|
  {
    if db.plans[plan].fee <= 0 then [Tick(now, PlanChanged(a, plan))]
    else [Tick(now, PlanChanged(a, plan)), Tick(now, CodeMinted(a, |db.invoices|, true, true, true)),
          Tick(paidAt, PaymentConfirmed(|db.payments|))]
  }

  /** The way out, step by step; its clock never goes back. */
  lemma WayOutSteps(cfg: Config, db: Db, clock: int, a: nat, plan: nat, now: int, paidAt: int)
    requires plan < |db.plans|
    ensures var chosen := Committed(db, ChangePlan(db, a, plan, now));
            var minted := Committed(chosen, MintCode(chosen, a, |db.invoices|, true, true, true));
            Run(cfg, db, WayOut(db, a, plan, now, paidAt)) ==
              if db.plans[plan].fee <= 0 then chosen
              else Committed(minted, ConfirmPayment(cfg, minted, |db.payments|, paidAt))
    ensures clock <= now <= paidAt ==> Ordered(clock, WayOut(db, a, plan, now, paidAt))
  {
    var trace := WayOut(db, a, plan, now, paidAt);
    var chosen := Committed(db, ChangePlan(db, a, plan, now));
    assert Step(cfg, db, now, PlanChanged(a, plan)) == chosen;
    if db.plans[plan].fee <= 0 {
      assert trace[1..] == [];
    } else {
      var minted := Committed(chosen, MintCode(chosen, a, |db.invoices|, true, true, true));
      assert Step(cfg, chosen, now, CodeMinted(a, |db.invoices|, true, true, true)) == minted;
      var rest := trace[1..];
      assert rest[1..][0] == trace[2] && rest[1..][1..] == [];
      RunOne(cfg, minted, trace[2]);
      assert rest[1..] == [trace[2]];
      assert Run(cfg, chosen, rest) == Run(cfg, minted, rest[1..]);
      assert Ordered(paidAt, []) && (now <= paidAt ==> Ordered(now, [trace[2]])) by { assert [trace[2]][1..] == []; }
      assert now <= paidAt ==> Ordered(now, rest);
    }
  }

  lemma RunOne(cfg: Config, db: Db, t: Tick)
    ensures Run(cfg, db, [t]) == Step(cfg, db, t.now, t.event)
  {
    assert [t][1..] == [];
    assert Run(cfg, Step(cfg, db, t.now, t.event), []) == Step(cfg, db, t.now, t.event);
  }

  /** After a paid choice, the account owes one fresh invoice on one parked subscription. */
  lemma FrozenChoiceParks(cfg: Config, db: Db, a: nat, plan: nat, now: int)
    requires Inv(cfg, db) && a < |db.accounts| && db.accounts[a].status.AccountRestricted?
    requires plan < |db.plans| && db.plans[plan].isPublic && db.plans[plan].isActive && db.plans[plan].fee > 0
    requires !OnPlan(db.subs, a, plan)
    ensures var chosen := Committed(db, ChangePlan(db, a, plan, now));
            && Inv(cfg, chosen)
            && |chosen.subs| == |db.subs| + 1 && |chosen.invoices| == |db.invoices| + 1
            && chosen.subs[|db.subs|] == NewSubscription(a, plan, SubPending, now)
            && chosen.invoices[|db.invoices|] == NewInvoice(a, |db.subs|, db.plans[plan].fee, now)
            && chosen.payments == db.payments && chosen.codes == db.codes && chosen.accounts == db.accounts
            && |db.invoices| !in chosen.codes
  {
    ChangePlanKeeps(cfg, db, a, plan, now);
  }

  lemma MintedReferrer(cfg: Config, chosen: Db, a: nat, i: nat)
    requires Inv(cfg, chosen) && i < |chosen.invoices| && chosen.invoices[i].payment.None? && i !in chosen.codes
    requires chosen.invoices[i].account == a && chosen.invoices[i].status.InvOpen?
    requires a < |chosen.accounts| && !chosen.accounts[a].status.AccountSuspended?
    ensures var minted := Committed(chosen, MintCode(chosen, a, i, true, true, true));
            && minted == chosen.(
                 payments := chosen.payments + [Payment(PayPending, i, None)],
                 codes := chosen.codes[i := |chosen.payments|],
                 invoices := chosen.invoices[i := chosen.invoices[i].(payment := Some(|chosen.payments|))])
            && forall k :: 0 <= k < |minted.invoices| && RefersTo(minted.invoices[k], |chosen.payments|) ==> k == i
  {
    forall k | 0 <= k < |chosen.invoices| ensures !RefersTo(chosen.invoices[k], |chosen.payments|) {
      assert InvoiceOk(cfg, chosen, chosen.invoices[k]);
    }
  }

  /** Paying the code an invoice was given puts its plan in force and lifts the freeze. */
  lemma PaidCodeLifts(cfg: Config, db: Db, i: nat, p: nat, paidAt: int)
    requires Inv(cfg, db) && i < |db.invoices| && RefersTo(db.invoices[i], p) && db.invoices[i].Unpaid()
    requires p < |db.payments| && db.payments[p].status.PayPending? && db.payments[p].invoice == i
    requires db.invoices[i].subscription < |db.subs| && !db.subs[db.invoices[i].subscription].status.SubCanceled?
    requires db.invoices[i].account < |db.accounts| && !db.accounts[db.invoices[i].account].status.AccountSuspended?
    ensures var out := Committed(db, ConfirmPayment(cfg, db, p, paidAt));
            var a := db.invoices[i].account;
            && a < |out.accounts| && out.accounts[a].status.AccountActive?
            && OnPlan(out.subs, a, db.subs[db.invoices[i].subscription].plan)
  {
    ConfirmIsSettle(cfg, db, p, paidAt);
    var marked := db.(payments := Confirmed(db.payments, p));
    SettlementDelivers(cfg, marked, i, Some(p), paidAt);
    var out := SettleInvoice(cfg, marked, i, Some(p), paidAt).db;
    var k := PaidSubscription(cfg, marked, i, paidAt);
    assert out.subs[k].Live() && out.subs[k].plan == db.subs[db.invoices[i].subscription].plan;
  }

  lemma FreeWayOut(db: Db, a: nat, plan: nat, now: int)
    requires a < |db.accounts| && db.accounts[a].status.AccountRestricted?
    requires plan < |db.plans| && db.plans[plan].isPublic && db.plans[plan].isActive && !OnPlan(db.subs, a, plan)
    requires db.plans[plan].fee <= 0
    ensures var out := Committed(db, ChangePlan(db, a, plan, now));
            a < |out.accounts| && out.accounts[a].status.AccountActive? && OnPlan(out.subs, a, plan)
  {
    var out := Committed(db, ChangePlan(db, a, plan, now));
    assert out.subs[|db.subs|] == NewSubscription(a, plan, SubActive, now);
  }

  lemma PaidWayOut(cfg: Config, db: Db, a: nat, plan: nat, now: int, paidAt: int)
    requires Inv(cfg, db) && a < |db.accounts| && db.accounts[a].status.AccountRestricted?
    requires plan < |db.plans| && db.plans[plan].isPublic && db.plans[plan].isActive && !OnPlan(db.subs, a, plan)
    requires db.plans[plan].fee > 0
    ensures var chosen := Committed(db, ChangePlan(db, a, plan, now));
            var minted := Committed(chosen, MintCode(chosen, a, |db.invoices|, true, true, true));
            var out := Committed(minted, ConfirmPayment(cfg, minted, |db.payments|, paidAt));
            a < |out.accounts| && out.accounts[a].status.AccountActive? && OnPlan(out.subs, a, plan)
  {
    var n, p := |db.invoices|, |db.payments|;
    var chosen := Committed(db, ChangePlan(db, a, plan, now));
    FrozenChoiceParks(cfg, db, a, plan, now);
    MintedReferrer(cfg, chosen, a, n);
    MintKeeps(cfg, chosen, a, n, true, true, true);
    PaidCodeLifts(cfg, Committed(chosen, MintCode(chosen, a, n, true, true, true)), n, p, paidAt);
  }

  /** From every frozen state a run can reach, any public active plan other than the current one is a
      way out: a free plan at once, a paid one when its invoice is paid, however late. */
  lemma FreezeHasNoDeadEnd(cfg: Config, db: Db, clock: int, a: nat, plan: nat, now: int, paidAt: int)
    requires ReachableAt(cfg, db, clock) && clock <= now <= paidAt
    requires a < |db.accounts| && db.accounts[a].status.AccountRestricted?
    requires plan < |db.plans| && db.plans[plan].isPublic && db.plans[plan].isActive && !OnPlan(db.subs, a, plan)
    ensures Ordered(clock, WayOut(db, a, plan, now, paidAt))
    ensures var out := Run(cfg, db, WayOut(db, a, plan, now, paidAt));
            && ReachableAt(cfg, out, LastTime(clock, WayOut(db, a, plan, now, paidAt)))
            && a < |out.accounts| && out.accounts[a].status.AccountActive?
            && OnPlan(out.subs, a, plan)
  {
    ReachableAtInv(cfg, db, clock);
    WayOutSteps(cfg, db, clock, a, plan, now, paidAt);
    ReachableRun(cfg, db, clock, WayOut(db, a, plan, now, paidAt));
    if db.plans[plan].fee <= 0 {
      FreeWayOut(db, a, plan, now);
    } else {
      PaidWayOut(cfg, db, a, plan, now, paidAt);
    }
  }
}
