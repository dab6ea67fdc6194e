/** Every step the billing database can take, and what holds over whole runs. */
module BillingRuns {
  import opened Common
  import opened BillingModel
  import opened BillingInvariant
  import opened BillingDunning

  /** `picked` and `parked` are the rows the step's query returned; a page the query could not
      have returned is no step at all. */
  datatype Event =
    | SignedUp(free: Option<nat>)
    | PlanEdited(plan: nat, row: Plan)
    | StandingSet(account: nat, status: AccountStatus)
    | AdminSignedIn(account: nat, nudge: Option<nat>)
    | InvoicesIssued(limit: nat, picked: seq<nat>)
    | RemindersRecorded(limit: nat, picked: seq<nat>, emailOn: bool)
    | GraceEnforced(limit: nat, enabled: bool, picked: seq<nat>, parked: set<nat>)
    | PlanChanged(account: nat, plan: nat)
    | CodeMinted(account: nat, invoice: nat, open: bool, inWindow: bool, kept: bool)
    | CodeClosed(payment: nat, failed: bool)
    | PaymentConfirmed(payment: nat)
    | InvoiceResolved(invoice: nat, action: Resolution)
    | PlanAssigned(account: nat, plan: nat)

  /** The steps that record money: a confirmed code, or an operator's word. */
  predicate BooksMoney(e: Event) { e.PaymentConfirmed? || (e.InvoiceResolved? && e.action.MarkPaid?) }

  datatype Tick = Tick(now: int, event: Event)

  ghost function Step(cfg: Config, db: Db, now: int, e: Event): Db {
    match e
    case SignedUp(free) => SignUp(db, free, now)
    case PlanEdited(p, row) => EditPlan(db, p, row)
    case StandingSet(a, status) => Committed(db, SetStanding(db, a, status))
    case AdminSignedIn(a, nudge) => Committed(db, AdminSignIn(db, a, nudge))
    case InvoicesIssued(limit, picked) => IssueSweep(cfg, db, now, limit, picked)
    case RemindersRecorded(limit, picked, emailOn) => RemindSweep(db, now, limit, picked, emailOn)
    case GraceEnforced(limit, enabled, picked, parked) => EnforceSweep(cfg, db, now, limit, enabled, picked, parked)
    case PlanChanged(a, p) => Committed(db, ChangePlan(db, a, p, now))
    case CodeMinted(a, i, open, inWindow, kept) => Committed(db, MintCode(db, a, i, open, inWindow, kept))
    case CodeClosed(p, failed) => CloseCode(db, p, failed)
    case PaymentConfirmed(p) => Committed(db, ConfirmPayment(cfg, db, p, now))
    case InvoiceResolved(i, action) => Committed(db, ResolveInvoice(cfg, db, i, action, now))
    case PlanAssigned(a, p) => Committed(db, AssignPlan(db, a, p, now))
  }

  ghost function Run(cfg: Config, db: Db, trace: seq<Tick>): Db
    decreases |trace|
  {
    if trace == [] then db else Run(cfg, Step(cfg, db, trace[0].now, trace[0].event), trace[1..])
  }

  /** The clock never goes back along the run. */
  ghost predicate Ordered(clock: int, trace: seq<Tick>)
    decreases |trace|
  {
    trace == [] || (clock <= trace[0].now && Ordered(trace[0].now, trace[1..]))
  }

  ghost function LastTime(clock: int, trace: seq<Tick>): int {
    if trace == [] then clock else trace[|trace| - 1].now
  }

  /** `later` is a database some run from `db` ends in. */
  ghost predicate Leads(cfg: Config, db: Db, later: Db) {
    exists trace :: Run(cfg, db, trace) == later
  }

  ghost predicate Reachable(cfg: Config, db: Db) { Leads(cfg, EMPTY, db) }

  /** Reached at `clock` by a run whose clock never went back. */
  ghost predicate ReachableAt(cfg: Config, db: Db, clock: int) {
    exists start, trace :: Ordered(start, trace) && Run(cfg, EMPTY, trace) == db && LastTime(start, trace) == clock
  }

  lemma {:induction false} RunThenStep(cfg: Config, db: Db, clock: int, trace: seq<Tick>, t: Tick)
    ensures Run(cfg, db, trace + [t]) == Step(cfg, Run(cfg, db, trace), t.now, t.event)
    ensures Ordered(clock, trace) && LastTime(clock, trace) <= t.now ==> Ordered(clock, trace + [t])
    decreases |trace|
  {
    if trace == [] {
      assert trace + [t] == [t] && [t][1..] == [];
      assert Run(cfg, db, [t]) == Run(cfg, Step(cfg, db, t.now, t.event), []);
    } else {
      assert (trace + [t])[1..] == trace[1..] + [t];
      RunThenStep(cfg, Step(cfg, db, trace[0].now, trace[0].event), trace[0].now, trace[1..], t);
    }
  }

  lemma ReachableStart(cfg: Config, clock: int)
    ensures ReachableAt(cfg, EMPTY, clock)
  {
    assert Ordered(clock, []) && Run(cfg, EMPTY, []) == EMPTY && LastTime(clock, []) == clock;
  }

  lemma ReachableStep(cfg: Config, db: Db, clock: int, now: int, e: Event)
    requires ReachableAt(cfg, db, clock) && clock <= now
    ensures ReachableAt(cfg, Step(cfg, db, now, e), now)
  {
    var start, trace :| Ordered(start, trace) && Run(cfg, EMPTY, trace) == db && LastTime(start, trace) == clock;
    var longer := trace + [Tick(now, e)];
    RunThenStep(cfg, EMPTY, start, trace, Tick(now, e));
    assert Ordered(start, longer) && LastTime(start, longer) == now;
  }

  predicate IsSweep(e: Event) { e.InvoicesIssued? || e.RemindersRecorded? || e.GraceEnforced? }

  lemma SweepKeepsInv(cfg: Config, db: Db, now: int, e: Event)
    requires Inv(cfg, db) && IsSweep(e)
    ensures Inv(cfg, Step(cfg, db, now, e)) && Evolves(cfg, db, Step(cfg, db, now, e))
  {
    AccountsKeep(cfg, db, db.accounts);
    if e.InvoicesIssued? {
      if IsPage(IssuePool(cfg, db, now), BillingKey(db.subs), e.limit, e.picked) { IssueAllKeeps(cfg, db, e.picked); }
    } else if e.RemindersRecorded? {
      RemindersKeep(cfg, db, Step(cfg, db, now, e).reminders);
    } else {
      EnforceKeeps(cfg, db, now, e.limit, e.enabled, e.picked, e.parked);
    }
  }

  predicate IsAdministration(e: Event) { e.SignedUp? || e.PlanEdited? || e.StandingSet? || e.AdminSignedIn? }

  lemma AdministrationKeepsInv(cfg: Config, db: Db, now: int, e: Event)
    requires Inv(cfg, db) && IsAdministration(e)
    ensures Inv(cfg, Step(cfg, db, now, e)) && Evolves(cfg, db, Step(cfg, db, now, e))
  {
    if e.SignedUp? {
      SignUpKeeps(cfg, db, e.free, now);
    } else if e.PlanEdited? {
      EditPlanKeeps(cfg, db, e.plan, e.row);
    } else if e.StandingSet? {
      AccountsKeep(cfg, db, Step(cfg, db, now, e).accounts);
    } else {
      AdminSignInKeeps(cfg, db, e.account, e.nudge);
    }
  }

  lemma StepKeepsInv(cfg: Config, db: Db, now: int, e: Event)
    requires Inv(cfg, db)
    ensures Inv(cfg, Step(cfg, db, now, e)) && Evolves(cfg, db, Step(cfg, db, now, e))
  {
    if IsSweep(e) {
      SweepKeepsInv(cfg, db, now, e);
    } else if IsAdministration(e) {
      AdministrationKeepsInv(cfg, db, now, e);
    } else {
      match e
      case PlanChanged(a, p) => ChangePlanKeeps(cfg, db, a, p, now);
      case CodeMinted(a, i, open, inWindow, kept) => MintKeeps(cfg, db, a, i, open, inWindow, kept);
      case CodeClosed(p, failed) => CloseCodeKeeps(cfg, db, p, failed);
      case PaymentConfirmed(p) => ConfirmKeeps(cfg, db, p, now);
      case InvoiceResolved(i, action) => ResolveKeeps(cfg, db, i, action, now);
      case PlanAssigned(a, p) => AssignKeeps(cfg, db, a, p, now);
    }
  }

  lemma RemindersKeep(cfg: Config, db: Db, reminders: seq<Reminder>)
    requires Inv(cfg, db)
    ensures Evolves(cfg, db, db.(reminders := reminders)) && Inv(cfg, db.(reminders := reminders))
  {
    AllPaidInTime(cfg, db);
    Preserved(cfg, db, db.(reminders := reminders));
  }

  /** Only the reminder sweep writes reminders. */
  lemma OtherStepsKeepReminders(cfg: Config, db: Db, now: int, e: Event)
    requires Inv(cfg, db) && !e.RemindersRecorded?
    ensures Step(cfg, db, now, e).reminders == db.reminders
  {
    if e.InvoicesIssued? && IsPage(IssuePool(cfg, db, now), BillingKey(db.subs), e.limit, e.picked) {
      IssueAllFrame(db, e.picked);
    }
  }

  /** The issue sweep writes invoices and nothing else. */
  lemma {:induction false} IssueAllFrame(db: Db, picked: seq<nat>)
    requires forall j :: 0 <= j < |picked| ==> picked[j] < |db.subs| && db.subs[picked[j]].plan < |db.plans|
    ensures IssueAll(db, picked) == db.(invoices := IssueAll(db, picked).invoices)
    decreases |picked|
  {
    if picked != [] {
      IssueAllFrame(IssueInvoice(db, picked[0], db.subs[picked[0]].nextBillingAt), picked[1..]);
    }
  }

  lemma StepKeepsHistory(cfg: Config, db: Db, clock: int, now: int, e: Event)
    requires Inv(cfg, db) && History(db, clock) && clock <= now
    ensures History(Step(cfg, db, now, e), now)
  {
    if e.RemindersRecorded? {
      RemindSweepKeeps(db, clock, now, e.limit, e.picked, e.emailOn);
    } else {
      StepKeepsInv(cfg, db, now, e);
      OtherStepsKeepReminders(cfg, db, now, e);
      HistoryFrame(cfg, db, Step(cfg, db, now, e), clock, now);
    }
  }

  lemma EmptyOk(cfg: Config, clock: int)
    ensures Inv(cfg, EMPTY) && History(EMPTY, clock)
  {}

  /** Every run keeps the invariant, and evolves each row only as one step may: windows and amounts
      never change, an invoice is never reopened, and a paid one is final. */
  lemma {:induction false} RunKeepsInv(cfg: Config, db: Db, trace: seq<Tick>)
    requires Inv(cfg, db)
    ensures Inv(cfg, Run(cfg, db, trace)) && Evolves(cfg, db, Run(cfg, db, trace))
    decreases |trace|
  {
    if trace == [] {
      AccountsKeep(cfg, db, db.accounts);
    } else {
      var next := Step(cfg, db, trace[0].now, trace[0].event);
      StepKeepsInv(cfg, db, trace[0].now, trace[0].event);
      RunKeepsInv(cfg, next, trace[1..]);
      EvolvesTransitive(cfg, db, next, Run(cfg, db, trace));
    }
  }

  lemma LeadsKeepsInv(cfg: Config, db: Db, later: Db)
    requires Inv(cfg, db) && Leads(cfg, db, later)
    ensures Inv(cfg, later) && Evolves(cfg, db, later)
  {
    var trace :| Run(cfg, db, trace) == later;
    RunKeepsInv(cfg, db, trace);
  }

  lemma ReachableInv(cfg: Config, db: Db)
    requires Reachable(cfg, db)
    ensures Inv(cfg, db)
  {
    EmptyOk(cfg, 0);
    LeadsKeepsInv(cfg, EMPTY, db);
  }

  lemma ReachableAtInv(cfg: Config, db: Db, clock: int)
    requires ReachableAt(cfg, db, clock)
    ensures Reachable(cfg, db) && Inv(cfg, db)
  {
    ReachableInv(cfg, db);
  }

  lemma {:induction false} ReachableRun(cfg: Config, db: Db, clock: int, trace: seq<Tick>)
    requires ReachableAt(cfg, db, clock) && Ordered(clock, trace)
    ensures ReachableAt(cfg, Run(cfg, db, trace), LastTime(clock, trace))
    decreases |trace|
  {
    if trace != [] {
      ReachableStep(cfg, db, clock, trace[0].now, trace[0].event);
      ReachableRun(cfg, Step(cfg, db, trace[0].now, trace[0].event), trace[0].now, trace[1..]);
    }
  }

  /** Paid means served: in every run a paid invoice was paid no later than its grace line, for a
      window of exactly one credit period, and no later step changes the row. */
  lemma PaidMeansServed(cfg: Config, db: Db, later: Db, i: nat)
    requires Reachable(cfg, db) && Leads(cfg, db, later) && i < |db.invoices| && db.invoices[i].status.InvPaid?
    ensures db.invoices[i].paidAt.Some? && db.invoices[i].paidAt.value <= db.invoices[i].dueAt + cfg.Grace()
    ensures db.invoices[i].periodEnd == db.invoices[i].periodStart + CREDIT
    ensures i < |later.invoices| && later.invoices[i] == db.invoices[i]
  {
    ReachableInv(cfg, db);
    assert InvoiceOk(cfg, db, db.invoices[i]);
    LeadsKeepsInv(cfg, db, later);
    assert InvoiceStep(cfg, db.invoices[i], later.invoices[i]);
  }

  /** In every run an account has at most one subscription in force, and the windows of one
      subscription lie on one 30-day grid where those that are not void never overlap. */
  lemma OneLiveAndDisjointWindows(cfg: Config, db: Db)
    requires Reachable(cfg, db)
    ensures forall j, k :: 0 <= j < |db.subs| && 0 <= k < |db.subs| ==>
              (db.subs[j].Live() && db.subs[k].Live() && db.subs[j].account == db.subs[k].account ==> j == k)
    ensures forall j: nat, k: nat :: j < |db.invoices| && k < |db.invoices| ==>
              (db.invoices[j].subscription == db.invoices[k].subscription ==>
                WindowsApart(db.invoices[j], db.invoices[k], j != k))
  {
    ReachableInv(cfg, db);
    forall j: nat, k: nat | j < |db.invoices| && k < |db.invoices|
        && db.invoices[j].subscription == db.invoices[k].subscription
      ensures WindowsApart(db.invoices[j], db.invoices[k], j != k)
    {
      WindowsDisjoint(cfg, db, j, k);
    }
  }

  ghost predicate WindowsApart(i: Invoice, j: Invoice, distinct: bool) {
    && (i.periodStart - j.periodStart) % CREDIT == 0
    && (distinct && !i.status.InvVoid? && !j.status.InvVoid?
        ==> i.periodEnd <= j.periodStart || j.periodEnd <= i.periodStart)
  }

  lemma {:induction false} RunKeepsHistory(cfg: Config, db: Db, clock: int, trace: seq<Tick>)
    requires Inv(cfg, db) && History(db, clock) && Ordered(clock, trace)
    ensures History(Run(cfg, db, trace), LastTime(clock, trace))
    decreases |trace|
  {
    if trace != [] {
      StepKeepsInv(cfg, db, trace[0].now, trace[0].event);
      StepKeepsHistory(cfg, db, clock, trace[0].now, trace[0].event);
      RunKeepsHistory(cfg, Step(cfg, db, trace[0].now, trace[0].event), trace[0].now, trace[1..]);
    }
  }

  lemma ReachableHistory(cfg: Config, db: Db, clock: int)
    requires ReachableAt(cfg, db, clock)
    ensures History(db, clock)
  {
    var start, trace :| Ordered(start, trace) && Run(cfg, EMPTY, trace) == db && LastTime(start, trace) == clock;
    EmptyOk(cfg, start);
    RunKeepsHistory(cfg, EMPTY, start, trace);
  }

  /** Over any run whose clock never goes back, two reminders about one invoice on one channel were
      sent at different instants, and the later one names a strictly more advanced tier. */
  lemma RemindersAdvance(cfg: Config, db: Db, clock: int, j: nat, k: nat)
    requires ReachableAt(cfg, db, clock) && j < k < |db.reminders|
    requires db.reminders[j].invoice == db.reminders[k].invoice && db.reminders[j].channel == db.reminders[k].channel
    ensures db.reminders[j].sentAt < db.reminders[k].sentAt
    ensures TierRank(db.reminders[j].tier) < TierRank(db.reminders[k].tier)
  {
    ReachableHistory(cfg, db, clock);
    OneRowPerSweep(db, clock, j, k);
  }
}
