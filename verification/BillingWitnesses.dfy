/** Runs that show where a promise stops: each condition used elsewhere is needed. */
module BillingWitnesses {
  import opened Common
  import opened BillingModel
  import opened BillingInvariant
  import opened BillingRuns
  import opened BillingCoverage
  import opened BillingMoney
  import opened BillingStranding
  import opened BillingReminders

  const PAID_PLAN: Plan := Plan(999, true, true)
  const MINT: Event := CodeMinted(0, 0, true, true, true)
  const FIRST_CODE: Payment := Payment(PayPending, 0, None)
  const OWNER: Account := Account(AccountActive, false)

  /** Two plans and one account, put by an operator on plan 0 at time 0: coverage ends at CREDIT. */
  function Assigned(): Db {
    Db([OWNER], [PAID_PLAN, PAID_PLAN], [NewSubscription(0, 0, SubActive, 0)], [], [], map[], [])
  }

  function TwoPlans(): Db { EMPTY.(plans := [PAID_PLAN, PAID_PLAN]) }

  lemma TwoPlansReachable(cfg: Config)
    ensures ReachableAt(cfg, TwoPlans(), 0)
  {
    ReachableStart(cfg, 0);
    var one := EMPTY.(plans := [PAID_PLAN]);
    assert Step(cfg, EMPTY, 0, PlanEdited(0, PAID_PLAN)) == one;
    ReachableStep(cfg, EMPTY, 0, 0, PlanEdited(0, PAID_PLAN));
    assert Step(cfg, one, 0, PlanEdited(1, PAID_PLAN)) == TwoPlans();
    ReachableStep(cfg, one, 0, 0, PlanEdited(1, PAID_PLAN));
  }

  lemma AssignedReachable(cfg: Config)
    ensures ReachableAt(cfg, Assigned(), 0)
  {
    TwoPlansReachable(cfg);
    var b := TwoPlans().(accounts := [OWNER]);
    assert Step(cfg, TwoPlans(), 0, SignedUp(None)) == b;
    ReachableStep(cfg, TwoPlans(), 0, 0, SignedUp(None));
    assert RetireLive([], 0, 0) == [];
    assert Step(cfg, b, 0, PlanAssigned(0, 0)) == Assigned();
    ReachableStep(cfg, b, 0, 0, PlanAssigned(0, 0));
  }

  /** With a single live subscription whose next window is free, the sweep raises exactly it. */
  lemma SweepOne(cfg: Config, db: Db, now: int)
    requires |db.subs| == 1 && DueForIssue(cfg, db, now, 0)
    ensures Step(cfg, db, now, InvoicesIssued(1, [0])) == IssueInvoice(db, 0, db.subs[0].nextBillingAt)
  {
    var pool := IssuePool(cfg, db, now);
    assert 0 in pool;
    assert IsPage(pool, BillingKey(db.subs), 1, [0]);
    assert IssueAll(db, [0]) == IssueInvoice(db, 0, db.subs[0].nextBillingAt) by {
      assert [0][1..] == [];
    }
  }

  const FIRST_WAIVED: Invoice := NewInvoice(0, 0, 999, CREDIT).(status := InvWaived, payment := Some(0))

  /** The first renewal waived ahead of time, with a code minted for it. */
  function WaivedOnce(): Db {
    Assigned().(subs := [NewSubscription(0, 0, SubActive, 0).(nextBillingAt := 2 * CREDIT)],
                invoices := [FIRST_WAIVED], payments := [FIRST_CODE], codes := map[0 := 0])
  }

  /** The second one waived too. */
  function WaivedTwice(): Db {
    WaivedOnce().(subs := [NewSubscription(0, 0, SubActive, 0).(nextBillingAt := 3 * CREDIT)],
                  invoices := [FIRST_WAIVED, NewInvoice(0, 0, 999, 2 * CREDIT).(status := InvWaived)])
  }

  lemma WaivedOnceReachable(cfg: Config)
    ensures ReachableAt(cfg, WaivedOnce(), Max(0, CREDIT - cfg.Lead()))
  {
    var t1 := Max(0, CREDIT - cfg.Lead());
    AssignedReachable(cfg);
    var open1 := NewInvoice(0, 0, 999, CREDIT);
    var d1 := Assigned().(invoices := [open1]);
    SweepOne(cfg, Assigned(), t1);
    assert IssueInvoice(Assigned(), 0, CREDIT) == d1;
    ReachableStep(cfg, Assigned(), 0, t1, InvoicesIssued(1, [0]));
    var d2 := d1.(invoices := [open1.(status := InvWaived)], subs := [d1.subs[0].(nextBillingAt := 2 * CREDIT)]);
    assert Step(cfg, d1, t1, InvoiceResolved(0, Waive)) == d2;
    ReachableStep(cfg, d1, t1, t1, InvoiceResolved(0, Waive));
    assert Step(cfg, d2, t1, MINT) == WaivedOnce();
    ReachableStep(cfg, d2, t1, t1, MINT);
  }

  lemma WaivedTwiceReachable(cfg: Config)
    ensures ReachableAt(cfg, WaivedTwice(), Max(0, 2 * CREDIT - cfg.Lead()))
  {
    var t1, t2 := Max(0, CREDIT - cfg.Lead()), Max(0, 2 * CREDIT - cfg.Lead());
    WaivedOnceReachable(cfg);
    var open2 := NewInvoice(0, 0, 999, 2 * CREDIT);
    var d4 := WaivedOnce().(invoices := [FIRST_WAIVED, open2]);
    SweepOne(cfg, WaivedOnce(), t2);
    assert IssueInvoice(WaivedOnce(), 0, 2 * CREDIT) == d4;
    ReachableStep(cfg, WaivedOnce(), t1, t2, InvoicesIssued(1, [0]));
    assert Step(cfg, d4, t2, InvoiceResolved(1, Waive)) == WaivedTwice();
    ReachableStep(cfg, d4, t2, t2, InvoiceResolved(1, Waive));
  }

  /** Where the lead and the grace together reach the credit period, some run moves coverage back:
      two windows are waived ahead of time and the first one is then paid inside its grace. */
  lemma CoverageMovesBackOtherwise(cfg: Config)
    requires cfg.Lead() + cfg.Grace() >= CREDIT
    ensures exists db, clock, p ::
              ReachableAt(cfg, db, clock) && !Forward(db, Step(cfg, db, clock, PaymentConfirmed(p)))
  {
    var t2 := Max(0, 2 * CREDIT - cfg.Lead());
    WaivedTwiceReachable(cfg);
    var db := WaivedTwice();
    assert RefersTo(db.invoices[0], 0) && !RefersTo(db.invoices[1], 0);
    var after := Step(cfg, db, t2, PaymentConfirmed(0));
    assert after.subs[0].nextBillingAt == 2 * CREDIT;
    assert !Forward(db, after);
  }

  /** The coverage end moves forward on every step of every run exactly where the lead and the grace
      together are shorter than the credit period. */
  lemma CoverageIsMonotoneExactlyWhen(cfg: Config)
    ensures cfg.Lead() + cfg.Grace() < CREDIT <==>
              forall db, clock, now, e :: ReachableAt(cfg, db, clock) && clock <= now ==>
                Forward(db, Step(cfg, db, now, e))
  {
    if cfg.Lead() + cfg.Grace() < CREDIT {
      forall db, clock, now, e | ReachableAt(cfg, db, clock) && clock <= now
        ensures Forward(db, Step(cfg, db, now, e))
      {
        ReachableChain(cfg, db, clock);
        StepKeepsChain(cfg, db, clock, now, e);
      }
    } else {
      CoverageMovesBackOtherwise(cfg);
    }
  }

  // ---------------------------------------------------------------------------
  // Money booked with nothing granted
  // ---------------------------------------------------------------------------

  const RENEWAL: Invoice := NewInvoice(0, 0, 999, CREDIT)

  /** The first renewal raised on its due date, with its code. */
  function Billed(): Db {
    Assigned().(invoices := [RENEWAL.(payment := Some(0))], payments := [FIRST_CODE], codes := map[0 := 0])
  }

  lemma BilledReachable(cfg: Config)
    ensures ReachableAt(cfg, Billed(), CREDIT)
  {
    AssignedReachable(cfg);
    var raised := Assigned().(invoices := [RENEWAL]);
    SweepOne(cfg, Assigned(), CREDIT);
    assert IssueInvoice(Assigned(), 0, CREDIT) == raised;
    ReachableStep(cfg, Assigned(), 0, CREDIT, InvoicesIssued(1, [0]));
    assert Step(cfg, raised, CREDIT, MINT) == Billed();
    ReachableStep(cfg, raised, CREDIT, CREDIT, MINT);
  }

  /** The operator has put the account on another plan and left the old renewal open. */
  function Replaced(): Db {
    Billed().(subs := [Assigned().subs[0].Cancel(CREDIT), NewSubscription(0, 1, SubActive, CREDIT)])
  }

  lemma ReplacedReachable(cfg: Config)
    ensures ReachableAt(cfg, Replaced(), CREDIT)
  {
    BilledReachable(cfg);
    assert Step(cfg, Billed(), CREDIT, PlanAssigned(0, 1)) == Replaced();
    ReachableStep(cfg, Billed(), CREDIT, CREDIT, PlanAssigned(0, 1));
  }

  /** An operator replaces the plan and leaves the old renewal open; the merchant pays it in time. The
      money is booked on a canceled subscription and the coverage in force does not move. */
  lemma PaidForNothing(cfg: Config)
    ensures exists db, clock :: ReachableAt(cfg, db, clock) &&
              var after := Step(cfg, db, clock, PaymentConfirmed(0));
              && |after.invoices| == 1 && |after.subs| == 2
              && db.invoices[0].Unpaid() && after.invoices[0].status.InvPaid?
              && after.subs[after.invoices[0].subscription].status.SubCanceled?
              && after.subs[1] == db.subs[1]
  {
    ReplacedReachable(cfg);
    assert RefersTo(Replaced().invoices[0], 0);
    assert Replaced().subs[0].status.SubCanceled? && Replaced().invoices[0].Unpaid();
  }

  // ---------------------------------------------------------------------------
  // Two invoices on one code
  // ---------------------------------------------------------------------------

  /** A lapsed renewal is paid, which moves its code to the granted invoice; minting a code for the
      void one finds the paid code again under its idempotency key. */
  lemma CodeShared(cfg: Config)
    ensures exists db, clock :: ReachableAt(cfg, db, clock) && |db.invoices| == 2
              && RefersTo(db.invoices[0], 0) && RefersTo(db.invoices[1], 0)
  {
    BilledReachable(cfg);
    var late := CREDIT + cfg.Grace() + 1;
    var paid := Step(cfg, Billed(), late, PaymentConfirmed(0));
    assert RefersTo(Billed().invoices[0], 0);
    ReachableStep(cfg, Billed(), CREDIT, late, PaymentConfirmed(0));
    assert |paid.invoices| == 2 && paid.invoices[0].payment.None? && RefersTo(paid.invoices[1], 0);
    var db := Step(cfg, paid, late, MINT);
    ReachableStep(cfg, paid, late, late, MINT);
    assert RefersTo(db.invoices[0], 0) && RefersTo(db.invoices[1], 0);
  }

  ghost predicate CodesDistinct(invoices: seq<Invoice>) {
    forall j, k :: 0 <= j < |invoices| && 0 <= k < |invoices| ==>
      (invoices[j].payment.Some? && invoices[j].payment == invoices[k].payment ==> j == k)
  }

  /** Some invoice other than `i` points at the code. */
  ghost predicate HeldElsewhere(invoices: seq<Invoice>, i: nat, code: nat) {
    exists k :: 0 <= k < |invoices| && k != i && RefersTo(invoices[k], code)
  }

  /** Pointing one invoice at a code keeps codes distinct exactly when no other invoice holds it. */
  lemma PointingKeepsDistinctExactlyWhen(invoices: seq<Invoice>, i: nat, x: Invoice, code: nat)
    requires CodesDistinct(invoices) && i < |invoices| && RefersTo(x, code)
    ensures CodesDistinct(invoices[i := x]) <==> !HeldElsewhere(invoices, i, code)
  {
    var after := invoices[i := x];
    if k :| 0 <= k < |invoices| && k != i && RefersTo(invoices[k], code) {
      assert after[k].payment == after[i].payment;
    }
  }

  /** Of the codes minting can choose, only the one of the idempotency key may be held elsewhere. */
  lemma CodeHeldElsewhere(cfg: Config, db: Db, i: nat, inWindow: bool)
    requires Inv(cfg, db) && CodesDistinct(db.invoices) && i < |db.invoices|
    ensures HeldElsewhere(db.invoices, i, CodeFor(db, i, inWindow).code) <==>
              db.invoices[i].payment.None? && i in db.codes && HeldElsewhere(db.invoices, i, db.codes[i])
  {
    var code := CodeFor(db, i, inWindow).code;
    forall k | 0 <= k < |db.invoices| && k != i && RefersTo(db.invoices[k], code)
      ensures db.invoices[i].payment.None? && code < |db.payments|
    {
      assert InvoiceOk(cfg, db, db.invoices[k]) && InvoiceOk(cfg, db, db.invoices[i]);
    }
  }

  /** Minting keeps all codes distinct exactly when the invoice is not one whose idempotency key
      leads to a code that another invoice holds. */
  lemma MintKeepsCodesDistinctExactlyWhen(cfg: Config, db: Db, a: nat, i: nat, inWindow: bool)
    requires Inv(cfg, db) && CodesDistinct(db.invoices) && MintCode(db, a, i, true, inWindow, true).Done?
    ensures CodesDistinct(MintCode(db, a, i, true, inWindow, true).db.invoices) <==>
              !(db.invoices[i].payment.None? && i in db.codes && HeldElsewhere(db.invoices, i, db.codes[i]))
  {
    var after := MintCode(db, a, i, true, inWindow, true).db;
    PointingKeepsDistinctExactlyWhen(db.invoices, i, after.invoices[i], CodeFor(db, i, inWindow).code);
    CodeHeldElsewhere(cfg, db, i, inWindow);
  }

  /** No row changes its code and no new row has one. */
  ghost predicate SameCodes(invoices: seq<Invoice>, after: seq<Invoice>) {
    && |invoices| <= |after|
    && (forall k :: 0 <= k < |invoices| ==> after[k].payment == invoices[k].payment)
    && (forall k :: |invoices| <= k < |after| ==> after[k].payment.None?)
  }

  lemma {:induction false} IssueKeepsCodes(db: Db, picked: seq<nat>)
    requires forall j :: 0 <= j < |picked| ==> picked[j] < |db.subs| && db.subs[picked[j]].plan < |db.plans|
    ensures SameCodes(db.invoices, IssueAll(db, picked).invoices)
    decreases |picked|
  {
    if picked != [] { IssueKeepsCodes(IssueInvoice(db, picked[0], db.subs[picked[0]].nextBillingAt), picked[1..]); }
  }

  lemma OtherStepsKeepCodes(cfg: Config, db: Db, now: int, e: Event)
    requires !e.CodeMinted? && !e.PaymentConfirmed? && !e.InvoiceResolved?
    ensures SameCodes(db.invoices, Step(cfg, db, now, e).invoices)
  {
    if e.InvoicesIssued? && IsPage(IssuePool(cfg, db, now), BillingKey(db.subs), e.limit, e.picked) {
      IssueKeepsCodes(db, e.picked);
    }
  }

  /** The reference moves with the money: whichever row ends up holding the code, the other one has
      given it up. */
  lemma SettlementKeepsCodesDistinct(cfg: Config, db: Db, i: nat, payment: Option<nat>, paidAt: int)
    requires CodesDistinct(db.invoices) && i < |db.invoices| && db.invoices[i].subscription < |db.subs|
    requires payment.Some? ==> db.invoices[i].payment == payment
    ensures CodesDistinct(Committed(db, SettleInvoice(cfg, db, i, payment, paidAt)).invoices)
  {
    var after := Committed(db, SettleInvoice(cfg, db, i, payment, paidAt)).invoices;
    assert forall k :: 0 <= k < |db.invoices| && k != i ==> after[k] == db.invoices[k];
  }

  lemma ConfirmKeepsCodesDistinct(cfg: Config, db: Db, p: nat, now: int)
    requires CodesDistinct(db.invoices)
    ensures CodesDistinct(Committed(db, ConfirmPayment(cfg, db, p, now)).invoices)
  {
    if p < |db.payments| {
      var marked := db.(payments := Confirmed(db.payments, p));
      forall i: nat | i < |db.invoices| && RefersTo(db.invoices[i], p) && db.invoices[i].subscription < |db.subs|
        ensures CodesDistinct(Committed(marked, SettleInvoice(cfg, marked, i, Some(p), now)).invoices)
      {
        SettlementKeepsCodesDistinct(cfg, marked, i, Some(p), now);
      }
    }
  }

  lemma ResolveKeepsCodesDistinct(cfg: Config, db: Db, i: nat, action: Resolution, now: int)
    requires CodesDistinct(db.invoices)
    ensures CodesDistinct(Committed(db, ResolveInvoice(cfg, db, i, action, now)).invoices)
  {
    if i < |db.invoices| && db.invoices[i].subscription < |db.subs| {
      SettlementKeepsCodesDistinct(cfg, db, i, None, now);
    }
  }

  /** Every step but minting keeps each code on at most one invoice; minting keeps it exactly under
      the condition above. */
  lemma CodesStayDistinct(cfg: Config, db: Db, now: int, e: Event)
    requires CodesDistinct(db.invoices) && !e.CodeMinted?
    ensures CodesDistinct(Step(cfg, db, now, e).invoices)
  {
    if e.PaymentConfirmed? {
      ConfirmKeepsCodesDistinct(cfg, db, e.payment, now);
    } else if e.InvoiceResolved? {
      ResolveKeepsCodesDistinct(cfg, db, e.invoice, e.action, now);
    } else {
      OtherStepsKeepCodes(cfg, db, now, e);
    }
  }

  // ---------------------------------------------------------------------------
  // A payment rolled back
  // ---------------------------------------------------------------------------

  /** An operator voids the renewal and the next sweep raises its window again; the merchant pays the
      code of the void one inside its grace. The confirmation is refused and the code stays unpaid. */
  lemma PaymentRolledBack(cfg: Config)
    ensures exists db :: ReachableAt(cfg, db, CREDIT) && |db.payments| == 1 && db.payments[0].status.PayPending?
              && ConfirmPayment(cfg, db, 0, CREDIT) == Refused(WindowTaken)
  {
    BilledReachable(cfg);
    var voided := Billed().(invoices := [RENEWAL.(payment := Some(0)).Voided(Operator, CREDIT)]);
    assert Step(cfg, Billed(), CREDIT, InvoiceResolved(0, VoidIt)) == voided;
    ReachableStep(cfg, Billed(), CREDIT, CREDIT, InvoiceResolved(0, VoidIt));
    var again := voided.(invoices := voided.invoices + [RENEWAL]);
    SweepOne(cfg, voided, CREDIT);
    assert IssueInvoice(voided, 0, CREDIT) == again;
    ReachableStep(cfg, voided, CREDIT, CREDIT, InvoicesIssued(1, [0]));
    assert RefersTo(again.invoices[0], 0) && !RefersTo(again.invoices[1], 0);
    assert Claims(again.invoices[1], 0, CREDIT);
  }

  // ---------------------------------------------------------------------------
  // Money on a replaced code
  // ---------------------------------------------------------------------------

  /** The renewal's code ran out and was replaced. */
  function Reissued(): Db {
    Billed().(invoices := [RENEWAL.(payment := Some(1))],
              payments := [FIRST_CODE.(status := PayExpired), Payment(PayPending, 0, Some(0))])
  }

  lemma ReissuedReachable(cfg: Config)
    ensures ReachableAt(cfg, Reissued(), CREDIT)
  {
    BilledReachable(cfg);
    var expired := Billed().(payments := [FIRST_CODE.(status := PayExpired)]);
    assert Step(cfg, Billed(), CREDIT, CodeClosed(0, false)) == expired;
    ReachableStep(cfg, Billed(), CREDIT, CREDIT, CodeClosed(0, false));
    assert Successor(expired.payments, 0, 1) == None;
    assert Step(cfg, expired, CREDIT, MINT) == Reissued();
    ReachableStep(cfg, expired, CREDIT, CREDIT, MINT);
  }

  /** The merchant's wallet pays the code that ran out. The money has arrived; the invoice is still
      unpaid, nothing is booked, the code it points at is superseded, and asking again returns that. */
  lemma MoneyStrays(cfg: Config)
    ensures exists db :: ReachableAt(cfg, db, CREDIT) && |db.invoices| == 1 && |db.payments| == 2
              && Settled(db.payments, 0) && MintedFor(db.payments, 0, 0)
              && db.invoices[0].Unpaid() && Revenue(db.invoices) == 0
              && RefersTo(db.invoices[0], 1) && db.payments[1].status.PaySuperseded?
              && Step(cfg, db, CREDIT, MINT) == db
  {
    ReissuedReachable(cfg);
    var db := Step(cfg, Reissued(), CREDIT, PaymentConfirmed(0));
    ReachableStep(cfg, Reissued(), CREDIT, CREDIT, PaymentConfirmed(0));
    assert !RefersTo(Reissued().invoices[0], 0);
    assert db == Reissued().(payments := Confirmed(Reissued().payments, 0));
    assert db.invoices[..0] == [];
    assert Step(cfg, db, CREDIT, MINT) == db;
  }

  /** The replacement is paid after the lapse, which moves it to the granted invoice; minting for the
      void one finds the first code under its key, and that one ran out. */
  lemma DeadCodeFromTheKey(cfg: Config)
    ensures exists db, clock :: ReachableAt(cfg, db, clock) && |db.invoices| == 2 && |db.payments| == 2
              && RefersTo(db.invoices[0], 0) && db.payments[0].Dead()
  {
    ReissuedReachable(cfg);
    var late := CREDIT + cfg.Grace() + 1;
    var paid := Step(cfg, Reissued(), late, PaymentConfirmed(1));
    assert RefersTo(Reissued().invoices[0], 1);
    ReachableStep(cfg, Reissued(), CREDIT, late, PaymentConfirmed(1));
    assert |paid.invoices| == 2 && paid.invoices[0].payment.None? && paid.invoices[0].account == 0;
    assert paid.payments[0] == FIRST_CODE.(status := PayExpired) && paid.codes == map[0 := 0];
    var db := Step(cfg, paid, late, MINT);
    ReachableStep(cfg, paid, late, late, MINT);
    assert RefersTo(db.invoices[0], 0);
  }

  // ---------------------------------------------------------------------------
  // Frozen with nothing left to pay
  // ---------------------------------------------------------------------------

  /** Frozen over a renewal, the merchant parks a paid plan and lets it expire: the account is still
      restricted and no invoice is left unpaid. */
  lemma FrozenWithoutDebt(cfg: Config)
    ensures exists db, clock :: ReachableAt(cfg, db, clock) && Stranded(db, 0)
  {
    var freezeAt := CREDIT + cfg.Grace();
    var parked := ParkedReachable(cfg, freezeAt);
    ReachableStep(cfg, parked, freezeAt, freezeAt + CREDIT, GraceEnforced(1, false, [], {1}));
    ExpireParked(cfg, parked, freezeAt);
  }

  lemma ParkedReachable(cfg: Config, freezeAt: int) returns (parked: Db)
    requires freezeAt == CREDIT + cfg.Grace()
    ensures ReachableAt(cfg, parked, freezeAt) && ParkedOnly(parked, freezeAt)
  {
    BilledReachable(cfg);
    FreezeBilled(cfg, freezeAt);
    ReachableStep(cfg, Billed(), CREDIT, freezeAt, GraceEnforced(1, true, [0], {}));
    var frozen := Billed().(accounts := [OWNER.(status := AccountRestricted)]);
    parked := Step(cfg, frozen, freezeAt, PlanChanged(0, 1));
    ReachableStep(cfg, frozen, freezeAt, freezeAt, PlanChanged(0, 1));
    ParkFrozen(cfg, frozen, freezeAt);
  }

  lemma FreezeBilled(cfg: Config, now: int)
    requires now == CREDIT + cfg.Grace()
    ensures Step(cfg, Billed(), now, GraceEnforced(1, true, [0], {})) ==
            Billed().(accounts := [OWNER.(status := AccountRestricted)])
  {
    var db := Billed();
    assert 0 in DunnedPool(db, true);
    assert IsPage(DunnedPool(db, true), DueKey(db.invoices), 1, [0]);
    assert FreezeTargets(cfg, db, [0], now) == {0} by {
      assert 0 in [0] && GraceOver(cfg, db.invoices[0], now) && db.invoices[0].account == 0;
    }
    assert AbandonedPool(db, now) == {};
    assert Freeze(db.accounts, {0}) == [OWNER.(status := AccountRestricted)];
    var after := Step(cfg, db, now, GraceEnforced(1, true, [0], {}));
    assert after.subs == db.subs && after.invoices == db.invoices;
  }

  lemma ParkFrozen(cfg: Config, frozen: Db, now: int)
    requires frozen == Billed().(accounts := [OWNER.(status := AccountRestricted)])
    ensures ParkedOnly(Step(cfg, frozen, now, PlanChanged(0, 1)), now)
  {
    assert frozen.invoices[0].account == 0 && frozen.invoices[0].Unpaid();
    assert HasUnpaid(frozen.invoices, 0);
  }

  /** The one thing left is a purchase that has been parked for a whole period. */
  ghost predicate ParkedOnly(db: Db, now: int) {
    && |db.accounts| == 1 && db.accounts[0].status.AccountRestricted? && |db.subs| == 2 && |db.invoices| == 2
    && db.subs[0].status.SubCanceled? && db.subs[1] == NewSubscription(0, 1, SubPending, now)
    && db.invoices[0].status.InvVoid? && db.invoices[1] == NewInvoice(0, 1, 999, now)
  }

  lemma NothingDunned(db: Db, now: int)
    requires ParkedOnly(db, now)
    ensures IsPage(DunnedPool(db, true), DueKey(db.invoices), 1, [])
  {
    forall i: nat ensures !Dunned(db, true, i) {}
    assert DunnedPool(db, true) == {};
  }

  lemma OneAbandoned(db: Db, now: int)
    requires ParkedOnly(db, now)
    ensures IsBatch(AbandonedPool(db, now + CREDIT), EXPIRY_LIMIT, {1})
  {
    assert Abandoned(db, now + CREDIT, 1) && !Abandoned(db, now + CREDIT, 0);
    assert AbandonedPool(db, now + CREDIT) == {1};
  }

  lemma ExpireParked(cfg: Config, parked: Db, now: int)
    requires ParkedOnly(parked, now)
    ensures Stranded(Step(cfg, parked, now + CREDIT, GraceEnforced(1, false, [], {1})), 0)
  {
    NothingDunned(parked, now);
    OneAbandoned(parked, now);
    var after := Expire(parked, {1}, now + CREDIT);
    assert |after.invoices| == 2 && after.invoices[0].status.InvVoid? && after.invoices[1].status.InvVoid?;
  }

  // ---------------------------------------------------------------------------
  // Merchants who are never warned
  // ---------------------------------------------------------------------------

  function CrowdSubs(n: nat): (subs: seq<Subscription>)
    ensures |subs| == n && forall i :: 0 <= i < n ==> subs[i] == NewSubscription(i, 0, SubActive, i)
  {
    seq(n, i requires 0 <= i < n => NewSubscription(i, 0, SubActive, i))
  }

  function CrowdInvoices(k: nat): (invoices: seq<Invoice>)
    ensures |invoices| == k && forall i :: 0 <= i < k ==> invoices[i] == NewInvoice(i, i, 999, i + CREDIT)
  {
    seq(k, i requires 0 <= i < k => NewInvoice(i, i, 999, i + CREDIT))
  }

  /** Merchant `i` of `n` is put on a paid plan at time `i`; the first `k` have their renewal raised. */
  function Crowd(n: nat, k: nat): Db {
    Db(seq(n, _ => OWNER), [PAID_PLAN, PAID_PLAN], CrowdSubs(n), CrowdInvoices(k), [], map[], [])
  }

  lemma CrowdGrows(cfg: Config, n: nat)
    ensures var joined := Step(cfg, Crowd(n, 0), n, SignedUp(None));
            Step(cfg, joined, n, PlanAssigned(n, 0)) == Crowd(n + 1, 0)
  {
    var joined := Step(cfg, Crowd(n, 0), n, SignedUp(None));
    assert joined.accounts == Crowd(n + 1, 0).accounts;
    assert joined.subs == CrowdSubs(n) && !OnPlan(joined.subs, n, 0);
    assert RetireLive(CrowdSubs(n), n, n) == CrowdSubs(n);
    assert CrowdSubs(n) + [NewSubscription(n, 0, SubActive, n)] == CrowdSubs(n + 1);
  }

  lemma {:induction false} CrowdReachable(cfg: Config, n: nat)
    ensures ReachableAt(cfg, Crowd(n, 0), n)
  {
    if n == 0 {
      TwoPlansReachable(cfg);
      assert Crowd(0, 0) == TwoPlans();
    } else {
      CrowdReachable(cfg, n - 1);
      ReachableStep(cfg, Crowd(n - 1, 0), n - 1, n - 1, SignedUp(None));
      var joined := Step(cfg, Crowd(n - 1, 0), n - 1, SignedUp(None));
      ReachableStep(cfg, joined, n - 1, n - 1, PlanAssigned(n - 1, 0));
      CrowdGrows(cfg, n - 1);
      ReachableWait(cfg, Crowd(n, 0), n - 1, n);
    }
  }

  /** Time can pass: a sweep that takes nothing changes nothing. */
  lemma ReachableWait(cfg: Config, db: Db, clock: int, now: int)
    requires ReachableAt(cfg, db, clock) && clock <= now
    ensures ReachableAt(cfg, db, now)
  {
    assert Step(cfg, db, now, InvoicesIssued(0, [])) == db;
    ReachableStep(cfg, db, clock, now, InvoicesIssued(0, []));
  }

  lemma CrowdUnclaimed(n: nat, k: nat, s: nat)
    requires k <= n && s < n
    ensures Claimed(CrowdInvoices(k), s, s + CREDIT) <==> s < k
  {
    if s < k { assert Claims(CrowdInvoices(k)[s], s, s + CREDIT); }
  }

  lemma CrowdIsBilled(cfg: Config, n: nat, k: nat)
    requires k < n
    ensures Step(cfg, Crowd(n, k), n + CREDIT, InvoicesIssued(1, [k])) == Crowd(n, k + 1)
  {
    var db := Crowd(n, k);
    var pool := IssuePool(cfg, db, n + CREDIT);
    forall s | 0 <= s < n ensures s in pool <==> k <= s { CrowdUnclaimed(n, k, s); }
    assert IsPage(pool, BillingKey(db.subs), 1, [k]);
    CrowdUnclaimed(n, k, k);
    assert IssueAll(db, [k]) == IssueInvoice(db, k, k + CREDIT) by { assert [k][1..] == []; }
    assert CrowdInvoices(k) + [NewInvoice(k, k, 999, k + CREDIT)] == CrowdInvoices(k + 1);
  }

  lemma {:induction false} BilledCrowdReachable(cfg: Config, n: nat, k: nat)
    requires k <= n
    ensures ReachableAt(cfg, Crowd(n, k), n + CREDIT)
  {
    if k == 0 {
      CrowdReachable(cfg, n);
      ReachableWait(cfg, Crowd(n, 0), n, n + CREDIT);
    } else {
      BilledCrowdReachable(cfg, n, k - 1);
      CrowdIsBilled(cfg, n, k - 1);
      ReachableStep(cfg, Crowd(n, k - 1), n + CREDIT, n + CREDIT, InvoicesIssued(1, [k - 1]));
    }
  }

  lemma {:induction false} Numbers(below: set<nat>, n: nat)
    requires forall i: nat :: i in below <==> i < n
    ensures |below| == n
    decreases n
  {
    if n == 0 {
      assert below == {};
    } else {
      Numbers(below - {n - 1}, n - 1);
    }
  }

  /** Whatever the sweep's limit, a run leads to a merchant whose debt no sequence of reminder sweeps ever
      warns about: a full page of others owes for longer. */
  lemma NeverWarned(cfg: Config, limit: nat)
    ensures exists db, clock :: ReachableAt(cfg, db, clock) && Warnable(db, limit)
              && forall sweeps, t :: !Told(Sweeps(db, limit, sweeps), limit, t, InApp)
  {
    var n := limit + 1;
    var db := Crowd(n, n);
    BilledCrowdReachable(cfg, n, n);
    forall i: nat ensures i in DueEarlier(db, limit) <==> i < limit {
      if i < limit { assert Warnable(db, i); }
    }
    Numbers(DueEarlier(db, limit), limit);
    forall sweeps, t ensures !Told(Sweeps(db, limit, sweeps), limit, t, InApp) {
      StarvedForever(db, limit, sweeps, limit, t);
    }
    assert Warnable(db, limit);
  }
}
