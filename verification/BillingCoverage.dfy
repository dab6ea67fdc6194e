/** The coverage chain: where a subscription's windows lie relative to the end of its coverage, and
    why that end never moves backwards. */
module BillingCoverage {
  import opened Common
  import opened BillingModel
  import opened BillingInvariant
  import opened BillingRuns

  /** No window starts after coverage ends; one that is more than a period behind was followed by a
      sweep; a parked purchase is the period before its end; any other unpaid invoice is for the
      very next window. */
  ghost predicate Placed(cfg: Config, subs: seq<Subscription>, clock: int, i: Invoice) {
    i.subscription < |subs| &&
    var s := subs[i.subscription];
    && i.periodStart <= s.nextBillingAt
    && (i.periodStart < s.nextBillingAt - CREDIT ==> s.nextBillingAt - CREDIT <= clock + cfg.Lead())
    && (s.status.SubPending? ==> i.periodStart == s.nextBillingAt - CREDIT)
    && (!s.status.SubPending? && i.Unpaid() ==> i.periodStart == s.nextBillingAt)
  }

  /** Of two windows of one subscription, the later one had entered its lead window. */
  ghost predicate Staggered(cfg: Config, invoices: seq<Invoice>, clock: int) {
    forall j, k :: 0 <= j < |invoices| && 0 <= k < |invoices| ==>
      (invoices[j].subscription == invoices[k].subscription && invoices[j].periodStart < invoices[k].periodStart
       ==> invoices[k].periodStart <= clock + cfg.Lead())
  }

  ghost predicate Chain(cfg: Config, db: Db, clock: int) {
    && (forall k :: 0 <= k < |db.invoices| ==> Placed(cfg, db.subs, clock, db.invoices[k]))
    && Staggered(cfg, db.invoices, clock)
  }

  /** No coverage end of an existing row moves back. */
  ghost predicate Forward(db: Db, after: Db) {
    |db.subs| <= |after.subs|
    && forall k :: 0 <= k < |db.subs| ==> db.subs[k].nextBillingAt <= after.subs[k].nextBillingAt
  }

  // ---------------------------------------------------------------------------
  // Steps that leave every coverage end alone
  // ---------------------------------------------------------------------------

  ghost predicate SameSchedule(db: Db, after: Db) {
    |db.subs| <= |after.subs|
    && forall k :: 0 <= k < |db.subs| ==> after.subs[k].nextBillingAt == db.subs[k].nextBillingAt
  }

  /** Coverage ends stay, a parked row that is retired takes its unpaid invoices with it, and at
      most one invoice is raised: for the next window inside its lead, or on a new row. */
  ghost predicate Quiet(cfg: Config, db: Db, after: Db, now: int) {
    && SameSchedule(db, after)
    && |db.invoices| <= |after.invoices| <= |db.invoices| + 1
    && (forall k :: 0 <= k < |db.subs| ==>
          (after.subs[k].status.SubPending? ==> db.subs[k].status.SubPending?))
    && (forall k :: 0 <= k < |db.invoices| ==>
          && after.invoices[k].subscription == db.invoices[k].subscription
          && after.invoices[k].periodStart == db.invoices[k].periodStart
          && (after.invoices[k].Unpaid() ==> db.invoices[k].Unpaid())
          && (after.invoices[k].Unpaid() && db.invoices[k].subscription < |db.subs|
              && db.subs[db.invoices[k].subscription].status.SubPending?
              ==> after.subs[db.invoices[k].subscription].status.SubPending?))
    && (|after.invoices| > |db.invoices| ==>
          var x := after.invoices[|db.invoices|];
          && Placed(cfg, after.subs, now, x)
          && (x.subscription < |db.subs| ==>
                x.periodStart == db.subs[x.subscription].nextBillingAt && x.periodStart <= now + cfg.Lead()))
  }

  lemma QuietKeeps(cfg: Config, db: Db, after: Db, clock: int, now: int)
    requires Chain(cfg, db, clock) && clock <= now && Quiet(cfg, db, after, now)
    ensures Chain(cfg, after, now)
  {
    forall k | 0 <= k < |after.invoices| ensures Placed(cfg, after.subs, now, after.invoices[k]) {
      if k < |db.invoices| { assert Placed(cfg, db.subs, clock, db.invoices[k]); }
    }
    forall j, k | 0 <= j < |after.invoices| && 0 <= k < |after.invoices|
        && after.invoices[j].subscription == after.invoices[k].subscription
        && after.invoices[j].periodStart < after.invoices[k].periodStart
      ensures after.invoices[k].periodStart <= now + cfg.Lead()
    {
      if k < |db.invoices| { assert Placed(cfg, db.subs, clock, db.invoices[k]); }
      if j < |db.invoices| { assert Placed(cfg, db.subs, clock, db.invoices[j]); }
    }
  }

  lemma {:induction false} IssueKeepsChain(cfg: Config, db: Db, clock: int, now: int, picked: seq<nat>)
    requires Chain(cfg, db, clock) && clock <= now
    requires forall j :: 0 <= j < |picked| ==>
               && picked[j] < |db.subs| && db.subs[picked[j]].plan < |db.plans| && db.subs[picked[j]].Live()
               && db.subs[picked[j]].nextBillingAt <= now + cfg.Lead()
    ensures Chain(cfg, IssueAll(db, picked), now) && IssueAll(db, picked).subs == db.subs
    decreases |picked|
  {
    if picked == [] {
      QuietKeeps(cfg, db, db, clock, now);
    } else {
      var next := IssueInvoice(db, picked[0], db.subs[picked[0]].nextBillingAt);
      QuietKeeps(cfg, db, next, clock, now);
      IssueKeepsChain(cfg, next, now, now, picked[1..]);
    }
  }

  // ---------------------------------------------------------------------------
  // Settlement, waiver and credit
  // ---------------------------------------------------------------------------

  /** A window that can still be granted is never behind the coverage end: an unpaid one by
      position, any other one because the sweep that followed it came after its grace line. */
  lemma GrantedWindowIsCurrent(cfg: Config, db: Db, clock: int, now: int, i: nat)
    requires Inv(cfg, db) && Chain(cfg, db, clock) && clock <= now && i < |db.invoices|
    requires cfg.Lead() + cfg.Grace() < CREDIT
    requires db.invoices[i].Unpaid() || !Lapsed(cfg, db.invoices[i], now)
    ensures var next := db.subs[db.invoices[i].subscription].nextBillingAt;
            db.invoices[i].periodEnd == next || db.invoices[i].periodStart == next
  {
    assert InvoiceOk(cfg, db, db.invoices[i]) && Placed(cfg, db.subs, clock, db.invoices[i]);
    var next := db.subs[db.invoices[i].subscription].nextBillingAt;
    GridApart(next, next, db.invoices[i].periodStart);
    if db.invoices[i].periodEnd < next { GridApart(next, next - CREDIT, db.invoices[i].periodStart); }
  }

  lemma GrantKeepsChain(cfg: Config, db: Db, clock: int, now: int, i: nat, x: Invoice)
    requires Inv(cfg, db) && Chain(cfg, db, clock) && clock <= now && i < |db.invoices|
    requires cfg.Lead() + cfg.Grace() < CREDIT && db.invoices[i].subscription < |db.subs|
    requires db.invoices[i].Unpaid() || !Lapsed(cfg, db.invoices[i], now)
    requires InvoiceStep(cfg, db.invoices[i], x) && !x.Unpaid() && !x.status.InvVoid?
    requires OneClaim(db.invoices[i := x])
    ensures var s := db.invoices[i].subscription;
            var after := db.(invoices := db.invoices[i := x],
                             subs := ExtendCoverage(Activate(db.subs, s, now), s, db.invoices[i].periodEnd));
            Chain(cfg, after, now) && Forward(db, after)
  {
    var s := db.invoices[i].subscription;
    var subs := ExtendCoverage(Activate(db.subs, s, now), s, db.invoices[i].periodEnd);
    var invoices := db.invoices[i := x];
    assert InvoiceOk(cfg, db, db.invoices[i]);
    GrantedWindowIsCurrent(cfg, db, clock, now, i);
    forall k | 0 <= k < |invoices| ensures Placed(cfg, subs, now, invoices[k]) {
      assert Placed(cfg, db.subs, clock, db.invoices[k]) && Placed(cfg, db.subs, clock, db.invoices[i]);
      if k != i && invoices[k].Unpaid() {
        assert invoices[i] == x && !Claims(invoices[k], invoices[i].subscription, invoices[i].periodStart);
      }
    }
  }

  // ---------------------------------------------------------------------------
  // Every step
  // ---------------------------------------------------------------------------

  lemma ReinstateQuiet(cfg: Config, db: Db, now: int, i: nat, payment: Option<nat>)
    requires i < |db.invoices| && db.invoices[i].subscription < |db.subs|
    ensures Quiet(cfg, db, Lift(Reinstate(db, i, payment, now), db.invoices[i].account), now)
  {}

  lemma SettleKeepsChain(cfg: Config, db: Db, clock: int, now: int, i: nat, payment: Option<nat>)
    requires Inv(cfg, db) && Chain(cfg, db, clock) && clock <= now && i < |db.invoices|
    requires cfg.Lead() + cfg.Grace() < CREDIT && db.invoices[i].subscription < |db.subs|
    ensures var after := Committed(db, SettleInvoice(cfg, db, i, payment, now));
            Chain(cfg, after, now) && Forward(db, after)
  {
    var inv := db.invoices[i];
    var after := Committed(db, SettleInvoice(cfg, db, i, payment, now));
    QuietKeeps(cfg, db, db, clock, now);
    if !inv.status.InvPaid? {
      if Lapsed(cfg, inv, now) {
        ReinstateQuiet(cfg, db, now, i, payment);
        QuietKeeps(cfg, db, after, clock, now);
      } else if after != db {
        var x := inv.(status := InvPaid, paidAt := Some(now));
        UpdateKeepsOneClaim(db.invoices, i, x);
        GrantKeepsChain(cfg, db, clock, now, i, x);
      }
    }
  }

  lemma ResolveKeepsChain(cfg: Config, db: Db, clock: int, now: int, i: nat, action: Resolution)
    requires Inv(cfg, db) && Chain(cfg, db, clock) && clock <= now && cfg.Lead() + cfg.Grace() < CREDIT
    ensures var after := Committed(db, ResolveInvoice(cfg, db, i, action, now));
            Chain(cfg, after, now) && Forward(db, after)
  {
    var after := Committed(db, ResolveInvoice(cfg, db, i, action, now));
    if i < |db.invoices| && db.invoices[i].Unpaid() && db.invoices[i].subscription < |db.subs| {
      var inv := db.invoices[i];
      assert InvoiceOk(cfg, db, inv);
      match action
      case MarkPaid => SettleKeepsChain(cfg, db, clock, now, i, None);
      case VoidIt => QuietKeeps(cfg, db, after, clock, now);
      case Waive =>
        UpdateKeepsOneClaim(db.invoices, i, inv.(status := InvWaived));
        GrantKeepsChain(cfg, db, clock, now, i, inv.(status := InvWaived));
      case Credit =>
        UpdateKeepsOneClaim(db.invoices, i, inv.(status := InvCredited));
        GrantKeepsChain(cfg, db, clock, now, i, inv.(status := InvCredited));
    } else {
      QuietKeeps(cfg, db, db, clock, now);
    }
  }

  lemma ConfirmKeepsChain(cfg: Config, db: Db, clock: int, now: int, p: nat)
    requires Inv(cfg, db) && Chain(cfg, db, clock) && clock <= now && cfg.Lead() + cfg.Grace() < CREDIT
    ensures var after := Committed(db, ConfirmPayment(cfg, db, p, now));
            Chain(cfg, after, now) && Forward(db, after)
  {
    QuietKeeps(cfg, db, db, clock, now);
    if p < |db.payments| {
      var marked := db.(payments := Confirmed(db.payments, p));
      PaymentsKeep(cfg, db, marked.payments);
      QuietKeeps(cfg, db, marked, clock, now);
      forall i: nat | i < |db.invoices| && db.invoices[i].subscription < |db.subs|
        ensures Chain(cfg, Committed(marked, SettleInvoice(cfg, marked, i, Some(p), now)), now)
        ensures Forward(db, Committed(marked, SettleInvoice(cfg, marked, i, Some(p), now)))
      {
        SettleKeepsChain(cfg, marked, now, now, i, Some(p));
      }
    }
  }

  /** Steps that neither settle nor sweep leave every coverage end alone. */
  lemma ChangePlanQuiet(cfg: Config, db: Db, a: nat, plan: nat, now: int)
    requires Inv(cfg, db)
    ensures Quiet(cfg, db, Committed(db, ChangePlan(db, a, plan, now)), now)
  {}

  lemma EnforceQuiet(cfg: Config, db: Db, now: int, limit: nat, enabled: bool, picked: seq<nat>, parked: set<nat>)
    ensures Quiet(cfg, db, EnforceSweep(cfg, db, now, limit, enabled, picked, parked), now)
  {}

  lemma MintQuiet(cfg: Config, db: Db, a: nat, i: nat, open: bool, inWindow: bool, kept: bool, now: int)
    ensures Quiet(cfg, db, Committed(db, MintCode(db, a, i, open, inWindow, kept)), now)
  {}

  lemma AdministrationQuiet(cfg: Config, db: Db, now: int, e: Event)
    requires IsAdministration(e)
    ensures Quiet(cfg, db, Step(cfg, db, now, e), now)
  {}

  lemma RowsQuiet(cfg: Config, db: Db, now: int, e: Event)
    requires e.RemindersRecorded? || e.CodeClosed? || e.PlanAssigned?
    ensures Quiet(cfg, db, Step(cfg, db, now, e), now)
  {}

  predicate Settles(e: Event) { e.PaymentConfirmed? || (e.InvoiceResolved? && !e.action.VoidIt?) }

  lemma StepQuiet(cfg: Config, db: Db, now: int, e: Event)
    requires Inv(cfg, db) && !e.InvoicesIssued? && !e.PaymentConfirmed? && !e.InvoiceResolved?
    ensures Quiet(cfg, db, Step(cfg, db, now, e), now)
  {
    match e
    case PlanChanged(a, p) => ChangePlanQuiet(cfg, db, a, p, now);
    case GraceEnforced(limit, enabled, picked, parked) => EnforceQuiet(cfg, db, now, limit, enabled, picked, parked);
    case CodeMinted(a, i, open, inWindow, kept) => MintQuiet(cfg, db, a, i, open, inWindow, kept, now);
    case SignedUp(_) => AdministrationQuiet(cfg, db, now, e);
    case PlanEdited(_, _) => AdministrationQuiet(cfg, db, now, e);
    case StandingSet(_, _) => AdministrationQuiet(cfg, db, now, e);
    case AdminSignedIn(_, _) => AdministrationQuiet(cfg, db, now, e);
    case RemindersRecorded(_, _, _) => RowsQuiet(cfg, db, now, e);
    case CodeClosed(_, _) => RowsQuiet(cfg, db, now, e);
    case PlanAssigned(_, _) => RowsQuiet(cfg, db, now, e);
  }

  /** The schedule moves only on settlement, waiver or credit. */
  lemma ScheduleMovesOnlyOnSettlement(cfg: Config, db: Db, now: int, e: Event, s: nat)
    requires Inv(cfg, db) && s < |db.subs|
    ensures s < |Step(cfg, db, now, e).subs|
    ensures Step(cfg, db, now, e).subs[s].nextBillingAt != db.subs[s].nextBillingAt ==> Settles(e)
  {
    StepKeepsInv(cfg, db, now, e);
    if e.InvoicesIssued? {
      if IsPage(IssuePool(cfg, db, now), BillingKey(db.subs), e.limit, e.picked) { IssueAllFrame(db, e.picked); }
    } else if !e.PaymentConfirmed? && !e.InvoiceResolved? {
      StepQuiet(cfg, db, now, e);
    }
  }

  lemma StepKeepsChain(cfg: Config, db: Db, clock: int, now: int, e: Event)
    requires Inv(cfg, db) && Chain(cfg, db, clock) && clock <= now && cfg.Lead() + cfg.Grace() < CREDIT
    ensures Chain(cfg, Step(cfg, db, now, e), now) && Forward(db, Step(cfg, db, now, e))
  {
    if e.InvoicesIssued? {
      if IsPage(IssuePool(cfg, db, now), BillingKey(db.subs), e.limit, e.picked) {
        IssueKeepsChain(cfg, db, clock, now, e.picked);
      } else {
        QuietKeeps(cfg, db, db, clock, now);
      }
    } else if e.PaymentConfirmed? {
      ConfirmKeepsChain(cfg, db, clock, now, e.payment);
    } else if e.InvoiceResolved? {
      ResolveKeepsChain(cfg, db, clock, now, e.invoice, e.action);
    } else {
      StepQuiet(cfg, db, now, e);
      QuietKeeps(cfg, db, Step(cfg, db, now, e), clock, now);
    }
  }

  lemma {:induction false} RunKeepsChain(cfg: Config, db: Db, clock: int, trace: seq<Tick>)
    requires Inv(cfg, db) && Chain(cfg, db, clock) && Ordered(clock, trace) && cfg.Lead() + cfg.Grace() < CREDIT
    ensures Chain(cfg, Run(cfg, db, trace), LastTime(clock, trace)) && Forward(db, Run(cfg, db, trace))
    decreases |trace|
  {
    if trace != [] {
      var next := Step(cfg, db, trace[0].now, trace[0].event);
      StepKeepsInv(cfg, db, trace[0].now, trace[0].event);
      StepKeepsChain(cfg, db, clock, trace[0].now, trace[0].event);
      RunKeepsChain(cfg, next, trace[0].now, trace[1..]);
    }
  }

  lemma ReachableChain(cfg: Config, db: Db, clock: int)
    requires ReachableAt(cfg, db, clock) && cfg.Lead() + cfg.Grace() < CREDIT
    ensures Inv(cfg, db) && Chain(cfg, db, clock)
  {
    var start, trace :| Ordered(start, trace) && Run(cfg, EMPTY, trace) == db && LastTime(start, trace) == clock;
    EmptyOk(cfg, start);
    RunKeepsInv(cfg, EMPTY, trace);
    RunKeepsChain(cfg, EMPTY, start, trace);
  }

  /** Where the lead and the grace together are shorter than the credit period, coverage never moves
      backwards along any continuation of any run. */
  lemma CoverageNeverMovesBack(cfg: Config, db: Db, clock: int, trace: seq<Tick>)
    requires ReachableAt(cfg, db, clock) && Ordered(clock, trace) && cfg.Lead() + cfg.Grace() < CREDIT
    ensures Forward(db, Run(cfg, db, trace))
  {
    ReachableChain(cfg, db, clock);
    RunKeepsChain(cfg, db, clock, trace);
  }

  /** An account in force owes at most one renewal, and it is for the window its coverage ends at. */
  lemma OneRenewalAtATime(cfg: Config, db: Db, clock: int, i: nat, j: nat)
    requires ReachableAt(cfg, db, clock) && cfg.Lead() + cfg.Grace() < CREDIT
    requires i < |db.invoices| && db.invoices[i].Unpaid() && j < |db.invoices| && db.invoices[j].Unpaid()
    requires db.invoices[i].subscription == db.invoices[j].subscription
    ensures i == j
    ensures db.invoices[i].subscription < |db.subs|
    ensures db.subs[db.invoices[i].subscription].Live() ==>
              db.invoices[i].periodStart == db.subs[db.invoices[i].subscription].nextBillingAt
  {
    ReachableChain(cfg, db, clock);
    assert Placed(cfg, db.subs, clock, db.invoices[i]) && Placed(cfg, db.subs, clock, db.invoices[j]);
    assert Claims(db.invoices[j], db.invoices[i].subscription, db.invoices[i].periodStart);
  }
}
