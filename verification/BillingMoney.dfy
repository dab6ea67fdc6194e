/** What the paid invoices add up to over every run: what arrived, less what arrived on a code that no
    longer stood for an unsettled invoice. */
module BillingMoney {
  import opened Common
  import opened BillingModel
  import opened BillingInvariant
  import opened BillingRuns
  import opened BillingSettlement

  function Revenue(invoices: seq<Invoice>): int {
    if invoices == [] then 0
    else Revenue(invoices[..|invoices| - 1]) + Booked(invoices[|invoices| - 1])
  }

  function Booked(i: Invoice): int { if i.status.InvPaid? then i.total else 0 }

  lemma RevenueAppend(invoices: seq<Invoice>, x: Invoice)
    ensures Revenue(invoices + [x]) == Revenue(invoices) + Booked(x)
  {
    assert (invoices + [x])[..|invoices|] == invoices;
  }

  lemma {:induction false} RevenueUpdate(invoices: seq<Invoice>, i: nat, x: Invoice)
    requires i < |invoices|
    ensures Revenue(invoices[i := x]) == Revenue(invoices) - Booked(invoices[i]) + Booked(x)
  {
    var n := |invoices| - 1;
    if i == n {
      assert invoices[i := x][..n] == invoices[..n];
    } else {
      assert invoices[i := x][..n] == invoices[..n][i := x];
      RevenueUpdate(invoices[..n], i, x);
    }
  }

  lemma {:induction false} RevenueFrame(invoices: seq<Invoice>, after: seq<Invoice>)
    requires |invoices| <= |after|
    requires forall k :: 0 <= k < |invoices| ==> Booked(after[k]) == Booked(invoices[k])
    requires forall k :: |invoices| <= k < |after| ==> Booked(after[k]) == 0
    ensures Revenue(after) == Revenue(invoices)
    decreases |after|
  {
    if |after| > |invoices| {
      RevenueFrame(invoices, after[..|after| - 1]);
    } else if |after| > 0 {
      RevenueFrame(invoices[..|invoices| - 1], after[..|after| - 1]);
    }
  }

  /** A committed settlement of an unsettled invoice books exactly its total, once. */
  lemma SettlementBooksTheTotal(cfg: Config, db: Db, i: nat, payment: Option<nat>, paidAt: int)
    requires i < |db.invoices| && db.invoices[i].subscription < |db.subs|
    requires !db.invoices[i].status.InvPaid? && SettleInvoice(cfg, db, i, payment, paidAt).Done?
    ensures Revenue(SettleInvoice(cfg, db, i, payment, paidAt).db.invoices) ==
            Revenue(db.invoices) + db.invoices[i].total
  {
    var after := SettleInvoice(cfg, db, i, payment, paidAt).db;
    if Lapsed(cfg, db.invoices[i], paidAt) {
      var retired := after.invoices[i];
      RevenueUpdate(db.invoices, i, retired);
      RevenueAppend(db.invoices[i := retired], after.invoices[|db.invoices|]);
    } else {
      RevenueUpdate(db.invoices, i, after.invoices[i]);
    }
  }

  /** Steps other than a settlement book nothing and unbook nothing. */
  ghost predicate NothingBooked(invoices: seq<Invoice>, after: seq<Invoice>) {
    && |invoices| <= |after|
    && (forall k :: 0 <= k < |invoices| ==> Booked(after[k]) == Booked(invoices[k]))
    && (forall k :: |invoices| <= k < |after| ==> Booked(after[k]) == 0)
  }

  lemma {:induction false} IssueBooksNothing(db: Db, picked: seq<nat>)
    requires forall j :: 0 <= j < |picked| ==> picked[j] < |db.subs| && db.subs[picked[j]].plan < |db.plans|
    ensures NothingBooked(db.invoices, IssueAll(db, picked).invoices)
    decreases |picked|
  {
    if picked != [] {
      IssueBooksNothing(IssueInvoice(db, picked[0], db.subs[picked[0]].nextBillingAt), picked[1..]);
    }
  }

  lemma MintBooksNothing(db: Db, a: nat, i: nat, open: bool, inWindow: bool, kept: bool)
    ensures NothingBooked(db.invoices, Committed(db, MintCode(db, a, i, open, inWindow, kept)).invoices)
  {}

  lemma EnforceBooksNothing(
      cfg: Config, db: Db, now: int, limit: nat, enabled: bool, picked: seq<nat>, parked: set<nat>)
    ensures NothingBooked(db.invoices, EnforceSweep(cfg, db, now, limit, enabled, picked, parked).invoices)
  {}

  lemma ChangePlanBooksNothing(db: Db, a: nat, plan: nat, now: int)
    ensures NothingBooked(db.invoices, Committed(db, ChangePlan(db, a, plan, now)).invoices)
  {}

  lemma ForgivingBooksNothing(cfg: Config, db: Db, i: nat, action: Resolution, now: int)
    requires !action.MarkPaid?
    ensures NothingBooked(db.invoices, Committed(db, ResolveInvoice(cfg, db, i, action, now)).invoices)
  {}

  /** The total of the paid invoices moves on settlement and on no other step. */
  lemma RevenueMovesOnlyOnSettlement(cfg: Config, db: Db, now: int, e: Event)
    requires Inv(cfg, db) && !BooksMoney(e)
    ensures Revenue(Step(cfg, db, now, e).invoices) == Revenue(db.invoices)
  {
    if e.InvoicesIssued? {
      if IsPage(IssuePool(cfg, db, now), BillingKey(db.subs), e.limit, e.picked) { IssueBooksNothing(db, e.picked); }
    } else if e.CodeMinted? {
      MintBooksNothing(db, e.account, e.invoice, e.open, e.inWindow, e.kept);
    } else if e.GraceEnforced? {
      EnforceBooksNothing(cfg, db, now, e.limit, e.enabled, e.picked, e.parked);
    } else if e.PlanChanged? {
      ChangePlanBooksNothing(db, e.account, e.plan, now);
    } else if e.InvoiceResolved? {
      ForgivingBooksNothing(cfg, db, e.invoice, e.action, now);
    } else {
      assert Step(cfg, db, now, e).invoices == db.invoices;
    }
    assert NothingBooked(db.invoices, Step(cfg, db, now, e).invoices);
    RevenueFrame(db.invoices, Step(cfg, db, now, e).invoices);
  }

  // ---------------------------------------------------------------------------
  // Conservation
  // ---------------------------------------------------------------------------

  /** The code still stands for a debt: the invoice it was minted for points at it and is not paid. */
  predicate StandsForDebt(db: Db, p: nat) {
    p < |db.payments| && db.payments[p].invoice < |db.invoices|
    && RefersTo(db.invoices[db.payments[p].invoice], p) && !db.invoices[db.payments[p].invoice].status.InvPaid?
  }

  /** A committed confirmation books the total of the invoice its code was minted for exactly when the
      code still stands for that debt. Otherwise the money has arrived and no invoice knows of it. */
  lemma ConfirmationBooksExactlyWhen(cfg: Config, db: Db, p: nat, now: int)
    requires Inv(cfg, db) && ConfirmPayment(cfg, db, p, now).Done?
    ensures p < |db.payments| && db.payments[p].invoice < |db.invoices|
    ensures var after := ConfirmPayment(cfg, db, p, now).db;
            && Revenue(after.invoices) == Revenue(db.invoices)
                 + (if StandsForDebt(db, p) then db.invoices[db.payments[p].invoice].total else 0)
            && (!StandsForDebt(db, p) ==> after == db.(payments := Confirmed(db.payments, p)))
            && Settled(after.payments, p)
  {
    ConfirmIsSettle(cfg, db, p, now);
    if StandsForDebt(db, p) {
      SettlementBooksTheTotal(cfg, db.(payments := Confirmed(db.payments, p)), db.payments[p].invoice, Some(p), now);
    }
  }

  /** The money a step brings in: what a confirmed code was minted to collect, and what an operator
      records as paid. */
  ghost function Received(cfg: Config, db: Db, now: int, e: Event): int {
    match e
    case PaymentConfirmed(p) =>
      if ConfirmPayment(cfg, db, p, now).Done? && p < |db.payments| && db.payments[p].invoice < |db.invoices|
      then db.invoices[db.payments[p].invoice].total else 0
    case InvoiceResolved(i, MarkPaid) =>
      if i < |db.invoices| && ResolveInvoice(cfg, db, i, MarkPaid, now).Done? then db.invoices[i].total else 0
    case _ => 0
  }

  /** The part of it that no invoice books. */
  ghost function Stray(cfg: Config, db: Db, now: int, e: Event): int {
    if e.PaymentConfirmed? && !StandsForDebt(db, e.payment) then Received(cfg, db, now, e) else 0
  }

  lemma StepBooksReceived(cfg: Config, db: Db, now: int, e: Event)
    requires Inv(cfg, db)
    ensures Revenue(Step(cfg, db, now, e).invoices) ==
            Revenue(db.invoices) + Received(cfg, db, now, e) - Stray(cfg, db, now, e)
  {
    if e.PaymentConfirmed? {
      if ConfirmPayment(cfg, db, e.payment, now).Done? { ConfirmationBooksExactlyWhen(cfg, db, e.payment, now); }
    } else if e.InvoiceResolved? && e.action.MarkPaid? {
      if ResolveInvoice(cfg, db, e.invoice, MarkPaid, now).Done? {
        SettlementBooksTheTotal(cfg, db, e.invoice, None, now);
      }
    } else {
      RevenueMovesOnlyOnSettlement(cfg, db, now, e);
    }
  }

  ghost function TakenIn(cfg: Config, db: Db, trace: seq<Tick>): int
    decreases |trace|
  {
    if trace == [] then 0
    else
      var next := Step(cfg, db, trace[0].now, trace[0].event);
      Received(cfg, db, trace[0].now, trace[0].event) + TakenIn(cfg, next, trace[1..])
  }

  ghost function Strayed(cfg: Config, db: Db, trace: seq<Tick>): int
    decreases |trace|
  {
    if trace == [] then 0
    else
      var next := Step(cfg, db, trace[0].now, trace[0].event);
      Stray(cfg, db, trace[0].now, trace[0].event) + Strayed(cfg, next, trace[1..])
  }

  /** Conservation: over every run the total of the paid invoices grows by what came in less what
      strayed, and nothing strays but a confirmed code whose invoice points elsewhere or is paid. */
  lemma {:induction false} MoneyIsConserved(cfg: Config, db: Db, trace: seq<Tick>)
    requires Inv(cfg, db)
    ensures Revenue(Run(cfg, db, trace).invoices) ==
            Revenue(db.invoices) + TakenIn(cfg, db, trace) - Strayed(cfg, db, trace)
    decreases |trace|
  {
    if trace != [] {
      StepBooksReceived(cfg, db, trace[0].now, trace[0].event);
      StepKeepsInv(cfg, db, trace[0].now, trace[0].event);
      MoneyIsConserved(cfg, Step(cfg, db, trace[0].now, trace[0].event), trace[1..]);
    }
  }

  /** In every run, a confirmation that books an invoice books it once: a retry at any later instant
      is refused, and settling the code again finds the same database. */
  lemma ConfirmedOnce(cfg: Config, db: Db, p: nat, now: int, again: int)
    requires Reachable(cfg, db) && StandsForDebt(db, p) && ConfirmPayment(cfg, db, p, now).Done?
    ensures var once := ConfirmPayment(cfg, db, p, now).db;
            && Revenue(once.invoices) == Revenue(db.invoices) + db.invoices[db.payments[p].invoice].total
            && ConfirmPayment(cfg, once, p, again) == Refused(PaymentTerminal)
            && SettleForPayment(cfg, once, p, again) == Done(once)
  {
    ReachableInv(cfg, db);
    ConfirmationBooksExactlyWhen(cfg, db, p, now);
    ConfirmIsSettle(cfg, db, p, now);
    SettlingTwiceIsSettlingOnce(cfg, db.(payments := Confirmed(db.payments, p)), p, now, again);
  }
}
