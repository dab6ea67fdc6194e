/** What the merchant's and the operator's routes, and the issue sweep, leave behind. */
module BillingRoutes {
  import opened Common
  import opened BillingModel
  import opened BillingInvariant
  import opened BillingRuns
  import opened BillingSettlement

  /** Nothing of any other account changes. */
  ghost predicate OthersUntouched(db: Db, after: Db, a: nat) {
    && |db.subs| <= |after.subs| && |db.invoices| <= |after.invoices| && |after.accounts| == |db.accounts|
    && (forall k :: 0 <= k < |db.subs| && db.subs[k].account != a ==> after.subs[k] == db.subs[k])
    && (forall k :: 0 <= k < |db.invoices| && db.invoices[k].account != a ==> after.invoices[k] == db.invoices[k])
    && (forall k :: 0 <= k < |db.accounts| && k != a ==> after.accounts[k] == db.accounts[k])
    && (forall k :: |db.subs| <= k < |after.subs| ==> after.subs[k].account == a)
    && (forall k :: |db.invoices| <= k < |after.invoices| ==> after.invoices[k].account == a)
    && after.payments == db.payments && after.reminders == db.reminders && after.plans == db.plans
  }

  // ---------------------------------------------------------------------------
  // Signup
  // ---------------------------------------------------------------------------

  /** A new account is active, no platform admin, and on the free plan alone for a whole period, or on none
      where the catalogue has no free plan. */
  lemma SignUpStartsFree(cfg: Config, db: Db, free: Option<nat>, now: int)
    requires Inv(cfg, db)
    ensures var after := SignUp(db, free, now);
            var a := |db.accounts|;
            && |after.accounts| == a + 1 && after.accounts[..a] == db.accounts
            && after.accounts[a].status.AccountActive? && !after.accounts[a].isPlatformAdmin
            && after.invoices == db.invoices && after.plans == db.plans
            && if free.Some? && free.value < |db.plans| then
                 && Delivers(after, a, |db.subs|, free.value, now + CREDIT)
                 && after.subs[|db.subs|].nextBillingAt == now + CREDIT && after.subs[..|db.subs|] == db.subs
               else after.subs == db.subs && NoLive(after.subs, a)
  {
    var after := SignUp(db, free, now);
    forall k | 0 <= k < |db.subs| ensures db.subs[k].account < |db.accounts| {
      assert SubscriptionOk(db, db.subs[k]);
    }
    assert after.accounts[..|db.accounts|] == db.accounts;
  }

  /** An admin's sign-in flags the account and, where it nudges, moves what is in force to the named plan
      without touching its schedule; no other account changes. */
  lemma AdminSignInMovesThePlanOnly(db: Db, a: nat, nudge: Option<nat>)
    requires AdminSignIn(db, a, nudge).Done?
    ensures var after := AdminSignIn(db, a, nudge).db;
            && OthersUntouched(db, after, a) && |after.subs| == |db.subs| && after.invoices == db.invoices
            && after.accounts[a].isPlatformAdmin && after.accounts[a].status == db.accounts[a].status
            && (forall k :: 0 <= k < |db.subs| ==>
                  && after.subs[k].nextBillingAt == db.subs[k].nextBillingAt
                  && (after.subs[k].Live() <==> db.subs[k].Live())
                  && (db.subs[k].account == a && db.subs[k].Live() && nudge.Some? && nudge.value < |db.plans| ==>
                        after.subs[k].plan == nudge.value))
  {}

  // ---------------------------------------------------------------------------
  // Plan change
  // ---------------------------------------------------------------------------

  /** A free plan is the one in force at once, for a whole period; nothing is owed and nothing frozen. */
  lemma FreePlanTakesOver(cfg: Config, db: Db, a: nat, plan: nat, now: int)
    requires Inv(cfg, db) && plan < |db.plans| && db.plans[plan].fee <= 0 && ChangePlan(db, a, plan, now).Done?
    ensures var after := ChangePlan(db, a, plan, now).db;
            && Delivers(after, a, |db.subs|, plan, now + CREDIT) && after.subs[|db.subs|].nextBillingAt == now + CREDIT
            && !HasUnpaid(after.invoices, a) && |after.invoices| == |db.invoices|
            && (forall k :: 0 <= k < |db.invoices| ==>
                  if db.invoices[k].account == a && db.invoices[k].Unpaid() then after.invoices[k].status.InvVoid?
                  else after.invoices[k] == db.invoices[k])
            && OthersUntouched(db, after, a) && after.accounts[a].status.AccountActive?
  {
    RetireLeavesNone(db.subs, a, now);
  }

  /** The one debt a paid choice leaves: the plan's fee, due now, on a parked subscription. */
  ghost predicate OwesOnly(after: Db, a: nat, i: nat, plan: nat, fee: int, now: int) {
    && i < |after.invoices| && after.invoices[i].subscription < |after.subs|
    && (forall k :: 0 <= k < |after.invoices| && after.invoices[k].account == a ==>
          (after.invoices[k].Unpaid() <==> k == i))
    && after.invoices[i].account == a && after.invoices[i].baseFee == after.invoices[i].total == fee
    && after.invoices[i].dueAt == now && after.invoices[i].periodEnd == now + CREDIT && after.invoices[i].payment.None?
    && var s := after.subs[after.invoices[i].subscription];
       s.status.SubPending? && s.plan == plan && s.account == a && s.nextBillingAt == now + CREDIT
  }

  /** A paid plan is parked behind its first invoice, the only one left unpaid. What is in force stays
      in force, unless a frozen account's debt was written off with its coverage; a freeze is not
      lifted. */
  lemma PaidPlanIsParked(cfg: Config, db: Db, a: nat, plan: nat, now: int)
    requires Inv(cfg, db) && plan < |db.plans| && db.plans[plan].fee > 0 && ChangePlan(db, a, plan, now).Done?
    ensures var after := ChangePlan(db, a, plan, now).db;
            && OwesOnly(after, a, |db.invoices|, plan, db.plans[plan].fee, now)
            && OthersUntouched(db, after, a) && after.accounts == db.accounts
            && (!HasUnpaid(db.invoices, a) ==>
                  after.subs[..|db.subs|] == db.subs && after.invoices[..|db.invoices|] == db.invoices)
            && (HasUnpaid(db.invoices, a) ==> db.accounts[a].status.AccountRestricted? && NoLive(after.subs, a))
  {
    var after := ChangePlan(db, a, plan, now).db;
    assert after.invoices[|db.invoices|] == NewInvoice(a, |db.subs|, db.plans[plan].fee, now);
    assert after.subs[|db.subs|] == NewSubscription(a, plan, SubPending, now);
  }

  /** A plan change is refused exactly when the account is unknown or suspended, the plan is unknown, not
      public or not active, the account is on it already, or the plan costs something while the account
      owes an invoice and is not frozen. */
  lemma PlanChangeRefusedExactlyWhen(db: Db, a: nat, plan: nat, now: int)
    ensures ChangePlan(db, a, plan, now).Refused? <==>
              || a >= |db.accounts| || db.accounts[a].status.AccountSuspended?
              || plan >= |db.plans| || !db.plans[plan].isPublic || !db.plans[plan].isActive
              || (exists k :: 0 <= k < |db.subs| && db.subs[k].account == a && db.subs[k].plan == plan
                              && (db.subs[k].status.SubActive? || db.subs[k].status.SubTrial?))
              || (&& db.plans[plan].fee > 0 && !db.accounts[a].status.AccountRestricted?
                  && exists k :: 0 <= k < |db.invoices| && db.invoices[k].account == a && db.invoices[k].Unpaid())
  {
    if a < |db.accounts| && plan < |db.plans| {
      if OnPlan(db.subs, a, plan) {
        var k :| 0 <= k < |db.subs| && db.subs[k].account == a && db.subs[k].Live() && db.subs[k].plan == plan;
        assert db.subs[k].status.SubActive? || db.subs[k].status.SubTrial?;
      }
    }
  }

  // ---------------------------------------------------------------------------
  // The operator's routes
  // ---------------------------------------------------------------------------

  /** An assigned plan is the one in force, for a whole period, and no invoice or freeze changes. */
  lemma AssignedPlanTakesOver(cfg: Config, db: Db, a: nat, plan: nat, now: int)
    requires Inv(cfg, db) && AssignPlan(db, a, plan, now).Done?
    ensures var after := AssignPlan(db, a, plan, now).db;
            && Delivers(after, a, |db.subs|, plan, now + CREDIT) && after.subs[|db.subs|].nextBillingAt == now + CREDIT
            && OthersUntouched(db, after, a) && after.invoices == db.invoices && after.accounts == db.accounts
  {
    RetireLeavesNone(db.subs, a, now);
  }

  /** An assignment is refused exactly when the account or the plan is unknown, or the account is on it. */
  lemma AssignmentRefusedExactlyWhen(db: Db, a: nat, plan: nat, now: int)
    ensures AssignPlan(db, a, plan, now).Refused? <==>
              || a >= |db.accounts| || plan >= |db.plans|
              || (exists k :: 0 <= k < |db.subs| && db.subs[k].account == a && db.subs[k].plan == plan
                              && (db.subs[k].status.SubActive? || db.subs[k].status.SubTrial?))
  {
    if OnPlan(db.subs, a, plan) {
      var k :| 0 <= k < |db.subs| && db.subs[k].account == a && db.subs[k].Live() && db.subs[k].plan == plan;
      assert db.subs[k].status.SubActive? || db.subs[k].status.SubTrial?;
    }
  }

  /** An operator's resolution is refused exactly when the invoice is unknown or no longer owed. */
  lemma ResolutionRefusedExactlyWhen(cfg: Config, db: Db, i: nat, action: Resolution, now: int)
    requires Inv(cfg, db)
    ensures ResolveInvoice(cfg, db, i, action, now).Refused? <==>
              || i >= |db.invoices|
              || db.invoices[i].status.InvPaid? || db.invoices[i].status.InvVoid?
              || db.invoices[i].status.InvWaived? || db.invoices[i].status.InvCredited?
  {
    if i < |db.invoices| { assert InvoiceOk(cfg, db, db.invoices[i]); }
  }

  /** A waiver or a credit marks the one row, books nothing, lifts a freeze and moves the end of the
      invoice's subscription to the end of its window. That subscription is then in force, and alone,
      exactly when it had not been canceled; otherwise what is in force does not change. */
  lemma ForgivenessIsInForceExactlyWhen(cfg: Config, db: Db, i: nat, action: Resolution, now: int)
    requires Inv(cfg, db) && (action.Waive? || action.Credit?) && ResolveInvoice(cfg, db, i, action, now).Done?
    requires i < |db.invoices| && db.invoices[i].subscription < |db.subs|
    ensures var after := ResolveInvoice(cfg, db, i, action, now).db;
            var inv := db.invoices[i];
            var s := inv.subscription;
            && |after.subs| == |db.subs| && after.subs[s].nextBillingAt == inv.periodEnd
            && (!db.subs[s].status.SubCanceled? <==> Delivers(after, inv.account, s, db.subs[s].plan, inv.periodEnd))
            && (db.subs[s].status.SubCanceled? ==> forall k :: 0 <= k < |db.subs| && k != s ==>
                  after.subs[k] == db.subs[k])
            && after.invoices == db.invoices[i := inv.(status := if action.Waive? then InvWaived else InvCredited)]
            && after.invoices[i].paidAt.None?
            && inv.account < |after.accounts| && !after.accounts[inv.account].status.AccountRestricted?
  {
    var inv := db.invoices[i];
    assert InvoiceOk(cfg, db, inv) && SubscriptionOk(db, db.subs[inv.subscription]);
    ActivateKeepsOneLive(db.subs, inv.subscription, now, inv.periodEnd);
  }

  /** Voiding writes the debt off: the claim on the window is gone, the coverage does not move. */
  lemma VoidingWritesOff(cfg: Config, db: Db, i: nat, now: int)
    requires Inv(cfg, db) && ResolveInvoice(cfg, db, i, VoidIt, now).Done?
    ensures i < |db.invoices| && db.invoices[i].account < |db.accounts|
    ensures var after := ResolveInvoice(cfg, db, i, VoidIt, now).db;
            && after.subs == db.subs && |after.invoices| == |db.invoices|
            && !Claimed(after.invoices, db.invoices[i].subscription, db.invoices[i].periodStart)
            && (forall k :: 0 <= k < |db.invoices| && k != i ==> after.invoices[k] == db.invoices[k])
            && |after.accounts| == |db.accounts| && !after.accounts[db.invoices[i].account].status.AccountRestricted?
  {
    var inv := db.invoices[i];
    assert InvoiceOk(cfg, db, inv) && SubscriptionOk(db, db.subs[inv.subscription]);
    var after := ResolveInvoice(cfg, db, i, VoidIt, now).db;
    forall k | 0 <= k < |after.invoices| ensures !Claims(after.invoices[k], inv.subscription, inv.periodStart) {
      assert k != i ==> !Claims(db.invoices[k], inv.subscription, inv.periodStart);
    }
  }

  // ---------------------------------------------------------------------------
  // Codes
  // ---------------------------------------------------------------------------

  /** A code that a payer is no longer shown. */
  predicate Withdrawn(payments: seq<Payment>, p: nat) {
    p < |payments| && (payments[p].Dead() || payments[p].status.PaySuperseded?)
  }

  /** A code is refused exactly when the account is unknown or suspended, the invoice is not one of its
      own, is paid, or codes cannot be minted. */
  lemma MintRefusedExactlyWhen(db: Db, a: nat, i: nat, open: bool, inWindow: bool, kept: bool)
    ensures MintCode(db, a, i, open, inWindow, kept).Refused? <==>
              || a >= |db.accounts| || db.accounts[a].status.AccountSuspended?
              || i >= |db.invoices| || db.invoices[i].account != a || db.invoices[i].status.InvPaid? || !open
  {}

  /** Which code an invoice is given: the one it holds unless that ran out or failed; then a pending reissue
      of it; without one, the code of its key; without that, a new pending one under its key. The invoice
      is otherwise left as it was, but for the two retired spellings of open. */
  lemma MintChooses(cfg: Config, db: Db, a: nat, i: nat, inWindow: bool)
    requires Inv(cfg, db) && MintCode(db, a, i, true, inWindow, true).Done?
    ensures i < |db.invoices|
    ensures var after := MintCode(db, a, i, true, inWindow, true).db;
            var held, x := db.invoices[i].payment, after.invoices[i];
            && x.payment.Some? && x.payment.value < |after.payments|
            && x == db.invoices[i].(payment := x.payment, status := x.status)
            && x.status == (if db.invoices[i].status.InvDraft? || db.invoices[i].status.InvIssued? then InvOpen
                            else db.invoices[i].status)
            && var code := after.payments[x.payment.value];
               if held.Some? && held.value < |db.payments|
                  && !db.payments[held.value].status.PayExpired? && !db.payments[held.value].status.PayFailed?
               then x.payment == held && after.payments == db.payments
               else if held.Some? then
                 code.status.PayPending? && code.reissuedFrom == held && code.invoice == i
               else if i in db.codes then x.payment.value == db.codes[i] && after.payments == db.payments
               else && x.payment.value == |db.payments| && after.payments == db.payments + [code]
                    && code == Payment(PayPending, i, None) && after.codes == db.codes[i := |db.payments|]
  {
    assert InvoiceOk(cfg, db, db.invoices[i]);
    CodeForOwned(cfg, db, i, inWindow);
  }

  lemma CodeIsUsableExactlyWhen(cfg: Config, db: Db, i: nat, inWindow: bool)
    requires Inv(cfg, db) && i < |db.invoices|
    ensures var m := CodeFor(db, i, inWindow);
            var held := db.invoices[i].payment;
            Withdrawn(m.payments, m.code) <==>
              || (held.Some? && held.value < |db.payments| && db.payments[held.value].status.PaySuperseded?)
              || (held.None? && i in db.codes && Withdrawn(db.payments, db.codes[i]))
  {
    assert InvoiceOk(cfg, db, db.invoices[i]);
  }

  /** Minting leaves the invoice with a code of its own or a paid one, and one that is not withdrawn,
      exactly unless it held a superseded code or its idempotency key leads to a withdrawn one. It
      touches no other invoice and no existing code. */
  lemma MintedCodeIsUsableExactlyWhen(cfg: Config, db: Db, a: nat, i: nat, inWindow: bool)
    requires Inv(cfg, db) && MintCode(db, a, i, true, inWindow, true).Done?
    ensures i < |db.invoices|
    ensures var after := MintCode(db, a, i, true, inWindow, true).db;
            var held := db.invoices[i].payment;
            && |after.invoices| == |db.invoices| && after.invoices[i].payment.Some?
            && (MintedFor(after.payments, after.invoices[i].payment.value, i)
                  || Settled(after.payments, after.invoices[i].payment.value))
            && (Withdrawn(after.payments, after.invoices[i].payment.value) <==>
                  || (held.Some? && held.value < |db.payments| && db.payments[held.value].status.PaySuperseded?)
                  || (held.None? && i in db.codes && Withdrawn(db.payments, db.codes[i])))
            && (forall k :: 0 <= k < |db.invoices| && k != i ==> after.invoices[k] == db.invoices[k])
            && |db.payments| <= |after.payments| && after.payments[..|db.payments|] == db.payments
            && after.subs == db.subs && after.accounts == db.accounts
  {
    CodeForOwned(cfg, db, i, inWindow);
    CodeIsUsableExactlyWhen(cfg, db, i, inWindow);
  }

  /** A mint that dies between its two commits is resumed by the next one, not repeated: the code it
      left behind is found again, by its key or as the live successor, and no other is minted. */
  lemma InterruptedMintIsResumed(cfg: Config, db: Db, a: nat, i: nat, inWindow: bool)
    requires Inv(cfg, db) && MintCode(db, a, i, true, inWindow, false).Done?
    ensures i < |db.invoices| && MintCode(MintCode(db, a, i, true, inWindow, false).db, a, i, true, true, true).Done?
    ensures var once := MintCode(db, a, i, true, inWindow, false).db;
            var again := MintCode(once, a, i, true, true, true).db;
            && once.invoices == db.invoices
            && again.payments == once.payments && again.codes == once.codes
            && again.invoices[i].payment == Some(CodeFor(db, i, inWindow).code)
  {
    var once := MintCode(db, a, i, true, inWindow, false).db;
    var held := db.invoices[i].payment;
    if held.Some? && |once.payments| > |db.payments| {
      assert Successor(once.payments, held.value, |once.payments|) == Some(|db.payments|);
    }
  }

  // ---------------------------------------------------------------------------
  // Sweeps
  // ---------------------------------------------------------------------------

  /** An invoice the sweep raised: the very next window of a live subscription, unpaid, at its plan's
      fee. */
  ghost predicate Renews(db: Db, i: Invoice) {
    && i.subscription < |db.subs| && db.subs[i.subscription].Live() && i.account == db.subs[i.subscription].account
    && i.periodStart == db.subs[i.subscription].nextBillingAt == i.dueAt && i.periodEnd == i.periodStart + CREDIT
    && db.subs[i.subscription].plan < |db.plans|
    && i.baseFee == i.total == db.plans[db.subs[i.subscription].plan].fee > 0
    && i.Unpaid() && i.payment.None?
  }

  lemma {:induction false} IssueAllRenews(db: Db, picked: seq<nat>, last: int)
    requires forall j :: 0 <= j < |picked| ==>
            picked[j] < |db.subs| && db.subs[picked[j]].plan < |db.plans| && db.subs[picked[j]].Live()
    requires forall j :: 0 <= j < |picked| ==> db.subs[picked[j]].nextBillingAt <= last
    ensures var after := IssueAll(db, picked).invoices;
            && |db.invoices| <= |after| && after[..|db.invoices|] == db.invoices
            && forall k :: |db.invoices| <= k < |after| ==> Renews(db, after[k]) && after[k].periodStart <= last
    decreases |picked|
  {
    if picked != [] {
      var next := IssueInvoice(db, picked[0], db.subs[picked[0]].nextBillingAt);
      IssueAllRenews(next, picked[1..], last);
      var after := IssueAll(db, picked).invoices;
      assert after[..|db.invoices|] == after[..|next.invoices|][..|db.invoices|];
      forall k | |db.invoices| <= k < |after| ensures Renews(db, after[k]) && after[k].periodStart <= last {
        if k < |next.invoices| { assert after[k] == after[..|next.invoices|][k]; }
      }
    }
  }

  /** A sweep changes no existing invoice, and every invoice it raises is such a renewal, inside its
      lead. */
  lemma SweepRaisesRenewals(cfg: Config, db: Db, now: int, limit: nat, picked: seq<nat>)
    ensures var after := IssueSweep(cfg, db, now, limit, picked).invoices;
            && |db.invoices| <= |after| && after[..|db.invoices|] == db.invoices
            && forall k :: |db.invoices| <= k < |after| ==>
                 Renews(db, after[k]) && after[k].periodStart <= now + cfg.Lead()
  {
    if IsPage(IssuePool(cfg, db, now), BillingKey(db.subs), limit, picked) {
      IssueAllRenews(db, picked, now + cfg.Lead());
    }
  }
}
