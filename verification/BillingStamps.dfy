/** The instants rows carry: each is the instant of the step that wrote it, over every run. */
module BillingStamps {
  import opened Common
  import opened BillingModel
  import opened BillingInvariant
  import opened BillingRuns
  import opened BillingSweeps

  /** Why a step voids an invoice, for the steps that do. */
  function Voiding(e: Event): Option<VoidReason> {
    match e
    case PlanChanged(_, _) => Some(Downgraded)
    case GraceEnforced(_, _, _, _) => Some(Superseded)
    case PaymentConfirmed(_) => Some(GraceExpired)
    case InvoiceResolved(_, MarkPaid) => Some(GraceExpired)
    case InvoiceResolved(_, VoidIt) => Some(Operator)
    case _ => None
  }

  /** A row that turns paid carries the instant of a step that records money; one that is voided, the
      instant and the reason of the step that voids it; nothing else moves these fields. */
  predicate InvoiceStamped(before: Option<Invoice>, x: Invoice, now: int, e: Event) {
    && (x.status.InvPaid? && !(before.Some? && before.value.status.InvPaid?) ==>
          x.paidAt == Some(now) && BooksMoney(e))
    && (x.status.InvVoid? && !(before.Some? && before.value.status.InvVoid?) ==>
          Voiding(e).Some? && x.voidedAt == Some(now) && x.voidReason == Voiding(e))
    && (|| (x.voidedAt == (if before.Some? then before.value.voidedAt else None)
            && x.voidReason == (if before.Some? then before.value.voidReason else None))
        || (x.status.InvVoid? && Voiding(e).Some? && x.voidedAt == Some(now) && x.voidReason == Voiding(e)))
  }

  /** A new row was created now; a row that is canceled was canceled now; a row that goes in force started
      now unless it had; nothing else moves these fields. */
  predicate SubscriptionStamped(before: Option<Subscription>, s: Subscription, now: int) {
    if before.None? then
      && s.createdAt == now && s.canceledAt.None? && !s.status.SubCanceled?
      && s.startedAt == (if s.Live() then Some(now) else None)
    else
      && s.createdAt == before.value.createdAt
      && s.canceledAt ==
           (if s.status.SubCanceled? && !before.value.status.SubCanceled? then Some(now) else before.value.canceledAt)
      && s.startedAt ==
           (if s.Live() && before.value.status.SubPending? && before.value.startedAt.None? then Some(now)
            else before.value.startedAt)
  }

  function Row<T>(rows: seq<T>, k: nat): Option<T> { if k < |rows| then Some(rows[k]) else None }

  ghost predicate InvoicesStamped(db: Db, after: Db, now: int, e: Event) {
    forall k :: 0 <= k < |after.invoices| ==> InvoiceStamped(Row(db.invoices, k), after.invoices[k], now, e)
  }

  ghost predicate SubscriptionsStamped(db: Db, after: Db, now: int) {
    forall k :: 0 <= k < |after.subs| ==> SubscriptionStamped(Row(db.subs, k), after.subs[k], now)
  }

  ghost predicate Stamped(db: Db, after: Db, now: int, e: Event) {
    InvoicesStamped(db, after, now, e) && SubscriptionsStamped(db, after, now)
  }

  // ---------------------------------------------------------------------------
  // Every step
  // ---------------------------------------------------------------------------

  lemma ReinstateStamps(db: Db, i: nat, payment: Option<nat>, now: int, e: Event)
    requires i < |db.invoices| && db.invoices[i].subscription < |db.subs| && BooksMoney(e)
    ensures Stamped(db, Lift(Reinstate(db, i, payment, now), db.invoices[i].account), now, e)
  {}

  lemma SettleStamps(cfg: Config, db: Db, i: nat, payment: Option<nat>, now: int, e: Event)
    requires i < |db.invoices| && db.invoices[i].subscription < |db.subs| && BooksMoney(e)
    ensures Stamped(db, Committed(db, SettleInvoice(cfg, db, i, payment, now)), now, e)
  {
    ReinstateStamps(db, i, payment, now, e);
  }

  /** A settlement committed at `now` of an invoice not yet paid leaves `now` on the row it turns paid: in
      time the invoice itself, whose window it opens to its end; after the lapse a new one that starts,
      falls due and is paid at `now`, at the same amounts. */
  lemma SettlementStampsThePayment(cfg: Config, db: Db, i: nat, payment: Option<nat>, now: int)
    requires i < |db.invoices| && db.invoices[i].subscription < |db.subs| && !db.invoices[i].status.InvPaid?
    requires SettleInvoice(cfg, db, i, payment, now).Done?
    ensures var after := SettleInvoice(cfg, db, i, payment, now).db;
            var inv := db.invoices[i];
            if now <= inv.dueAt + cfg.Grace() then
              && after.invoices == db.invoices[i := inv.(status := InvPaid, paidAt := Some(now))]
              && |after.subs| == |db.subs| && after.subs[inv.subscription].nextBillingAt == inv.periodEnd
            else
              && |after.invoices| == |db.invoices| + 1 && |after.subs| == |db.subs| + 1
              && var x := after.invoices[|db.invoices|];
                 && x.status.InvPaid? && x.paidAt == Some(now) && x.periodStart == now == x.dueAt
                 && x.periodEnd == now + CREDIT && x.subscription == |db.subs| && x.account == inv.account
                 && x.total == inv.total && x.baseFee == inv.baseFee && x.payment == payment
  {}

  lemma ConfirmStamps(cfg: Config, db: Db, p: nat, now: int)
    ensures Stamped(db, Committed(db, ConfirmPayment(cfg, db, p, now)), now, PaymentConfirmed(p))
  {
    if p < |db.payments| {
      var marked := db.(payments := Confirmed(db.payments, p));
      forall i: nat | i < |db.invoices| && db.invoices[i].subscription < |db.subs|
        ensures Stamped(db, Committed(marked, SettleInvoice(cfg, marked, i, Some(p), now)), now, PaymentConfirmed(p))
      {
        SettleStamps(cfg, marked, i, Some(p), now, PaymentConfirmed(p));
      }
    }
  }

  lemma ResolveStamps(cfg: Config, db: Db, i: nat, action: Resolution, now: int)
    ensures Stamped(db, Committed(db, ResolveInvoice(cfg, db, i, action, now)), now, InvoiceResolved(i, action))
  {
    if action.MarkPaid? && i < |db.invoices| && db.invoices[i].subscription < |db.subs| {
      SettleStamps(cfg, db, i, None, now, InvoiceResolved(i, action));
    }
  }

  lemma ChangePlanStamps(db: Db, a: nat, plan: nat, now: int)
    ensures Stamped(db, Committed(db, ChangePlan(db, a, plan, now)), now, PlanChanged(a, plan))
  {}

  lemma EnforceStamps(
      cfg: Config, db: Db, now: int, limit: nat, enabled: bool, picked: seq<nat>, parked: set<nat>)
    ensures Stamped(db, EnforceSweep(cfg, db, now, limit, enabled, picked, parked), now,
                    GraceEnforced(limit, enabled, picked, parked))
  {
    var frozen := EnforceSweep(cfg, db, now, limit, enabled, picked, parked).accounts;
    if parked <= AbandonedPool(db, now) {
      ExpireStamps(db, frozen, now, parked, GraceEnforced(limit, enabled, picked, parked));
    }
  }

  lemma ExpireStamps(db: Db, accounts: seq<Account>, now: int, parked: set<nat>, e: Event)
    requires parked <= AbandonedPool(db, now) && Voiding(e) == Some(Superseded)
    ensures Stamped(db, Expire(db.(accounts := accounts), parked, now), now, e)
  {}

  lemma {:induction false} IssueStamps(db: Db, picked: seq<nat>, now: int, e: Event)
    requires forall j :: 0 <= j < |picked| ==> picked[j] < |db.subs| && db.subs[picked[j]].plan < |db.plans|
    ensures Stamped(db, IssueAll(db, picked), now, e)
    decreases |picked|
  {
    if picked != [] {
      var next := IssueInvoice(db, picked[0], db.subs[picked[0]].nextBillingAt);
      IssueStamps(next, picked[1..], now, e);
      IssueAllFrame(next, picked[1..]);
      var after := IssueAll(db, picked);
      forall k | 0 <= k < |after.invoices| ensures InvoiceStamped(Row(db.invoices, k), after.invoices[k], now, e) {
        assert InvoiceStamped(Row(next.invoices, k), after.invoices[k], now, e);
      }
    }
  }

  lemma MintStamps(db: Db, a: nat, i: nat, open: bool, inWindow: bool, kept: bool, now: int)
    ensures Stamped(db, Committed(db, MintCode(db, a, i, open, inWindow, kept)), now,
                    CodeMinted(a, i, open, inWindow, kept))
  {}

  lemma AdministrationStamps(cfg: Config, db: Db, now: int, e: Event)
    requires IsAdministration(e)
    ensures Stamped(db, Step(cfg, db, now, e), now, e)
  {}

  lemma OtherStamps(cfg: Config, db: Db, now: int, e: Event)
    requires e.RemindersRecorded? || e.CodeClosed? || e.PlanAssigned?
    ensures Stamped(db, Step(cfg, db, now, e), now, e)
  {}

  lemma StepStamps(cfg: Config, db: Db, now: int, e: Event)
    ensures Stamped(db, Step(cfg, db, now, e), now, e)
  {
    if IsAdministration(e) {
      AdministrationStamps(cfg, db, now, e);
    } else if e.RemindersRecorded? || e.CodeClosed? || e.PlanAssigned? {
      OtherStamps(cfg, db, now, e);
    } else {
      match e
      case InvoicesIssued(limit, picked) =>
        if IsPage(IssuePool(cfg, db, now), BillingKey(db.subs), limit, picked) { IssueStamps(db, picked, now, e); }
      case GraceEnforced(limit, enabled, picked, parked) =>
        EnforceStamps(cfg, db, now, limit, enabled, picked, parked);
      case PlanChanged(a, p) => ChangePlanStamps(db, a, p, now);
      case CodeMinted(a, i, open, inWindow, kept) => MintStamps(db, a, i, open, inWindow, kept, now);
      case PaymentConfirmed(p) => ConfirmStamps(cfg, db, p, now);
      case InvoiceResolved(i, action) => ResolveStamps(cfg, db, i, action, now);
    }
  }

  // ---------------------------------------------------------------------------
  // Every run
  // ---------------------------------------------------------------------------

  ghost predicate Paid(db: Db, i: nat) { i < |db.invoices| && db.invoices[i].status.InvPaid? }

  ghost predicate Canceled(db: Db, s: nat) { s < |db.subs| && db.subs[s].status.SubCanceled? }

  /** The database after the first `k` ticks. */
  ghost function After(cfg: Config, trace: seq<Tick>, k: nat): Db
    requires k <= |trace|
  {
    Run(cfg, EMPTY, trace[..k])
  }

  lemma AfterNone(cfg: Config, trace: seq<Tick>)
    ensures After(cfg, trace, 0) == EMPTY
  {
    assert trace[..0] == [];
  }

  lemma AfterStep(cfg: Config, trace: seq<Tick>, k: nat)
    requires k < |trace|
    ensures After(cfg, trace, k + 1) == Step(cfg, After(cfg, trace, k), trace[k].now, trace[k].event)
    ensures Inv(cfg, After(cfg, trace, k))
  {
    assert trace[..k + 1] == trace[..k] + [trace[k]];
    RunThenStep(cfg, EMPTY, 0, trace[..k], trace[k]);
    EmptyOk(cfg, 0);
    RunKeepsInv(cfg, EMPTY, trace[..k]);
  }

  lemma PaidTick(cfg: Config, trace: seq<Tick>, k: nat, i: nat)
    requires k < |trace| && Paid(After(cfg, trace, k + 1), i)
    ensures var before, x := After(cfg, trace, k), After(cfg, trace, k + 1).invoices[i];
            if Paid(before, i) then x == before.invoices[i]
            else x.paidAt == Some(trace[k].now) && BooksMoney(trace[k].event)
  {
    AfterStep(cfg, trace, k);
    var before, after, t := After(cfg, trace, k), After(cfg, trace, k + 1), trace[k];
    StepStamps(cfg, before, t.now, t.event);
    StepKeepsInv(cfg, before, t.now, t.event);
    assert InvoiceStamped(Row(before.invoices, i), after.invoices[i], t.now, t.event);
    if Paid(before, i) { assert InvoiceStep(cfg, before.invoices[i], after.invoices[i]); }
  }

  /** In every run, a paid invoice became paid at exactly the instant it carries, at a tick that confirms
      a code or is an operator's payment. */
  lemma {:induction false} PaidAtIsThePayment(cfg: Config, trace: seq<Tick>, n: nat, i: nat) returns (k: nat)
    requires n <= |trace| && Paid(After(cfg, trace, n), i)
    ensures k < n && !Paid(After(cfg, trace, k), i) && Paid(After(cfg, trace, k + 1), i)
    ensures BooksMoney(trace[k].event)
    ensures After(cfg, trace, n).invoices[i].paidAt == Some(trace[k].now)
    decreases n
  {
    AfterNone(cfg, trace);
    PaidTick(cfg, trace, n - 1, i);
    k := n - 1;
    if Paid(After(cfg, trace, n - 1), i) { k := PaidAtIsThePayment(cfg, trace, n - 1, i); }
  }

  lemma CanceledTick(cfg: Config, trace: seq<Tick>, k: nat, s: nat)
    requires k < |trace| && Canceled(After(cfg, trace, k + 1), s)
    ensures var before := After(cfg, trace, k);
            After(cfg, trace, k + 1).subs[s].canceledAt ==
              if Canceled(before, s) then before.subs[s].canceledAt else Some(trace[k].now)
  {
    AfterStep(cfg, trace, k);
    var before, after, t := After(cfg, trace, k), After(cfg, trace, k + 1), trace[k];
    StepStamps(cfg, before, t.now, t.event);
    assert SubscriptionStamped(Row(before.subs, s), after.subs[s], t.now);
  }

  /** In every run, a canceled subscription was canceled at exactly the instant it carries. */
  lemma {:induction false} CanceledAtIsTheStep(cfg: Config, trace: seq<Tick>, n: nat, s: nat) returns (k: nat)
    requires n <= |trace| && Canceled(After(cfg, trace, n), s)
    ensures k < n && !Canceled(After(cfg, trace, k), s) && Canceled(After(cfg, trace, k + 1), s)
    ensures After(cfg, trace, n).subs[s].canceledAt == Some(trace[k].now)
    decreases n
  {
    AfterNone(cfg, trace);
    CanceledTick(cfg, trace, n - 1, s);
    k := n - 1;
    if Canceled(After(cfg, trace, n - 1), s) { k := CanceledAtIsTheStep(cfg, trace, n - 1, s); }
  }

  ghost predicate Void(db: Db, i: nat) { i < |db.invoices| && db.invoices[i].status.InvVoid? }

  /** The row carries the instant and the reason of tick `k`. */
  ghost predicate CarriesVoid(x: Invoice, t: Tick) {
    x.voidedAt == Some(t.now) && Voiding(t.event).Some? && x.voidReason == Voiding(t.event)
  }

  lemma VoidedTick(cfg: Config, trace: seq<Tick>, k: nat, i: nat)
    requires k < |trace| && Void(After(cfg, trace, k + 1), i)
    ensures var before, x := After(cfg, trace, k), After(cfg, trace, k + 1).invoices[i];
            || CarriesVoid(x, trace[k])
            || (&& Void(before, i) && x.voidedAt == before.invoices[i].voidedAt
                && x.voidReason == before.invoices[i].voidReason)
  {
    AfterStep(cfg, trace, k);
    var before, after, t := After(cfg, trace, k), After(cfg, trace, k + 1), trace[k];
    StepStamps(cfg, before, t.now, t.event);
    assert InvoiceStamped(Row(before.invoices, i), after.invoices[i], t.now, t.event);
  }

  /** In every run, a void invoice carries the instant and the reason of a tick that voided it. */
  lemma {:induction false} VoidedAtIsTheStep(cfg: Config, trace: seq<Tick>, n: nat, i: nat) returns (k: nat)
    requires n <= |trace| && Void(After(cfg, trace, n), i)
    ensures k < n && CarriesVoid(After(cfg, trace, n).invoices[i], trace[k])
    decreases n
  {
    AfterNone(cfg, trace);
    VoidedTick(cfg, trace, n - 1, i);
    k := n - 1;
    if !CarriesVoid(After(cfg, trace, n).invoices[i], trace[n - 1]) { k := VoidedAtIsTheStep(cfg, trace, n - 1, i); }
  }

  /** A subscription that was ever in force carries when it started; one that was canceled without ever
      being in force was kept for a whole credit period. */
  ghost predicate PurchasesAged(db: Db) {
    forall s :: 0 <= s < |db.subs| ==>
      && (db.subs[s].Live() ==> db.subs[s].startedAt.Some?)
      && (db.subs[s].status.SubCanceled? && db.subs[s].startedAt.None? ==>
            db.subs[s].canceledAt.Some? && db.subs[s].createdAt + CREDIT <= db.subs[s].canceledAt.value)
  }

  lemma StepAges(cfg: Config, db: Db, t: Tick)
    requires Inv(cfg, db) && PurchasesAged(db)
    ensures PurchasesAged(Step(cfg, db, t.now, t.event))
  {
    StepStamps(cfg, db, t.now, t.event);
    StepKeepsInv(cfg, db, t.now, t.event);
    var after := Step(cfg, db, t.now, t.event);
    forall s | 0 <= s < |after.subs|
      ensures after.subs[s].Live() ==> after.subs[s].startedAt.Some?
      ensures after.subs[s].status.SubCanceled? && after.subs[s].startedAt.None? ==>
                after.subs[s].canceledAt.Some? && after.subs[s].createdAt + CREDIT <= after.subs[s].canceledAt.value
    {
      assert SubscriptionStamped(Row(db.subs, s), after.subs[s], t.now);
      if s < |db.subs| {
        assert SubscriptionStep(db.subs[s], after.subs[s]);
        if db.subs[s].status.SubPending? && after.subs[s].status.SubCanceled? {
          PurchaseEndsOnlyByAge(cfg, db, t.now, t.event, s);
        }
      }
    }
  }

  /** In every run, a purchase that was never in force is canceled no earlier than a whole credit period
      after it was made. */
  lemma {:induction false} PurchasesAreKept(cfg: Config, db: Db, trace: seq<Tick>)
    requires Inv(cfg, db) && PurchasesAged(db)
    ensures PurchasesAged(Run(cfg, db, trace))
    decreases |trace|
  {
    if trace != [] {
      StepAges(cfg, db, trace[0]);
      StepKeepsInv(cfg, db, trace[0].now, trace[0].event);
      PurchasesAreKept(cfg, Step(cfg, db, trace[0].now, trace[0].event), trace[1..]);
    }
  }
}
