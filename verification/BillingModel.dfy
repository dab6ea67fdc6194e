/** The plan-billing tables and the steps that change them.

  A table with an autoincrement key is a sequence whose index is the row id; rows are
  never deleted. Instants are whole microseconds, the resolution of a timestamp column.
  Every step is a function on the whole database: it either commits (`Done`) or is
  refused, and a refused step (an HTTP error or a constraint violation that rolls the
  transaction back) changes nothing.
 */
module BillingModel {
  import opened Common

  const DAY: int := 86_400_000_000
  const CREDIT: int := 30 * DAY

  /** The two policy settings the lifecycle reads. A negative setting counts as zero. */
  datatype Config = Config(leadDays: int, graceDays: int) {
    function Lead(): int { if leadDays < 0 then 0 else leadDays * DAY }
    function Grace(): int { if graceDays < 0 then 0 else graceDays * DAY }
  }

  datatype AccountStatus = AccountActive | AccountRestricted | AccountSuspended
  datatype Account = Account(status: AccountStatus, isPlatformAdmin: bool)

  datatype Plan = Plan(fee: int, isPublic: bool, isActive: bool)

  datatype SubscriptionStatus = SubPending | SubTrial | SubActive | SubCanceled
  datatype Subscription = Subscription(
    account: nat, plan: nat, status: SubscriptionStatus,
    startedAt: Option<int>, canceledAt: Option<int>, nextBillingAt: int, createdAt: int)
  {
    /** In force: the only rows `_get_active_sub` and the sweeps read. */
    predicate Live() { status.SubTrial? || status.SubActive? }

    function Cancel(now: int): Subscription { this.(status := SubCanceled, canceledAt := Some(now)) }
  }

  datatype InvoiceStatus = InvOpen | InvDraft | InvIssued | InvPaid | InvVoid | InvWaived | InvCredited
  datatype VoidReason = Downgraded | Superseded | GraceExpired | Operator
  datatype Invoice = Invoice(
    account: nat, subscription: nat, periodStart: int, periodEnd: int, dueAt: int,
    status: InvoiceStatus, baseFee: int, total: int, paidAt: Option<int>,
    voidedAt: Option<int>, voidReason: Option<VoidReason>, payment: Option<nat>)
  {
    /** `draft` and `issued` are read as unpaid and never written. */
    predicate Unpaid() { status.InvOpen? || status.InvDraft? || status.InvIssued? }

    function Voided(reason: VoidReason, now: int): Invoice {
      this.(status := InvVoid, voidReason := Some(reason), voidedAt := Some(now))
    }
  }

  /** `PayPending` covers `scanned`; only `PayPaid` has settled. */
  datatype PaymentStatus = PayPending | PayExpired | PayFailed | PaySuperseded | PayPaid

  /** A payable code: the invoice its metadata names and, for a reissue, the code it replaces. */
  datatype Payment = Payment(status: PaymentStatus, invoice: nat, reissuedFrom: Option<nat>) {
    /** What a new code is minted in place of. */
    predicate Dead() { status.PayExpired? || status.PayFailed? }
  }

  datatype Tier = Due3 | Due1 | DueToday | Overdue1 | Overdue3 | OverdueFinal
  datatype Channel = InApp | Email
  datatype Reminder = Reminder(invoice: nat, tier: Tier, channel: Channel, sentAt: int)

  /** The whole billing database. `codes` is the payment index on the idempotency key
      `INV-<id>-<month>`: the first code ever minted for an invoice. */
  datatype Db = Db(
    accounts: seq<Account>, plans: seq<Plan>, subs: seq<Subscription>, invoices: seq<Invoice>,
    payments: seq<Payment>, codes: map<nat, nat>, reminders: seq<Reminder>)

  const EMPTY: Db := Db([], [], [], [], [], map[], [])

  datatype Error =
    | Unauthorized | AccountNotFound | PlanNotFound | PlanNotAvailable | PlanUnchanged
    | OpenInvoiceUnpaid | InvoiceNotFound | InvoiceAlreadyPaid | InvoiceAlreadyResolved
    | BillingNotOpen | PaymentNotFound | PaymentTerminal | WindowTaken | AmbiguousPayment

  datatype Outcome = Done(db: Db) | Refused(error: Error)

  function Committed(before: Db, r: Outcome): Db {
    if r.Done? then r.db else before
  }

  // ---------------------------------------------------------------------------
  // Pieces shared by several steps
  // ---------------------------------------------------------------------------

  /** `lift_billing_hold`: clears a freeze and nothing else. */
  function LiftHold(accounts: seq<Account>, a: nat): seq<Account> {
    if a < |accounts| && accounts[a].status.AccountRestricted?
    then accounts[a := accounts[a].(status := AccountActive)]
    else accounts
  }

  /** `retire_live_subscriptions`: every row of the account in force is canceled. */
  function RetireLive(subs: seq<Subscription>, a: nat, now: int): seq<Subscription> {
    seq(|subs|, k requires 0 <= k < |subs| =>
      if subs[k].account == a && subs[k].Live() then subs[k].Cancel(now) else subs[k])
  }

  /** `activate_subscription`: a pending row goes in force and replaces what was; any other row
      is left alone. */
  function Activate(subs: seq<Subscription>, s: nat, now: int): seq<Subscription>
    requires s < |subs|
  {
    if subs[s].status.SubPending? then
      var started := if subs[s].startedAt.Some? then subs[s].startedAt else Some(now);
      RetireLive(subs, subs[s].account, now)[s := subs[s].(status := SubActive, startedAt := started)]
    else subs
  }

  /** `extend_coverage`: the only writer of `next_billing_at` on an existing row. */
  function ExtendCoverage(subs: seq<Subscription>, s: nat, end: int): seq<Subscription>
    requires s < |subs|
  {
    subs[s := subs[s].(nextBillingAt := end)]
  }

  /** `_void_open_invoices`: every unpaid invoice of the account is retired. */
  function VoidUnpaid(invoices: seq<Invoice>, a: nat, now: int): seq<Invoice> {
    seq(|invoices|, k requires 0 <= k < |invoices| =>
      if invoices[k].account == a && invoices[k].Unpaid() then invoices[k].Voided(Downgraded, now) else invoices[k])
  }

  /** The partial unique index: a row that is not void claims its (subscription, period_start). */
  predicate Claims(i: Invoice, s: nat, start: int) {
    i.subscription == s && i.periodStart == start && !i.status.InvVoid?
  }

  predicate Claimed(invoices: seq<Invoice>, s: nat, start: int) {
    exists k :: 0 <= k < |invoices| && Claims(invoices[k], s, start)
  }

  predicate OnPlan(subs: seq<Subscription>, a: nat, plan: nat) {
    exists k :: 0 <= k < |subs| && subs[k].account == a && subs[k].Live() && subs[k].plan == plan
  }

  predicate HasUnpaid(invoices: seq<Invoice>, a: nat) {
    exists k :: 0 <= k < |invoices| && invoices[k].account == a && invoices[k].Unpaid()
  }

  function NewSubscription(a: nat, plan: nat, status: SubscriptionStatus, now: int): Subscription {
    Subscription(a, plan, status, if status.SubPending? then None else Some(now), None, now + CREDIT, now)
  }

  function NewInvoice(a: nat, s: nat, fee: int, start: int): Invoice {
    Invoice(a, s, start, start + CREDIT, start, InvOpen, fee, fee, None, None, None, None)
  }

  // ---------------------------------------------------------------------------
  // Signup, catalogue and standing
  // ---------------------------------------------------------------------------

  /** A new account, on the free plan when the catalogue has one. */
  function SignUp(db: Db, free: Option<nat>, now: int): Db {
    var accounts := db.accounts + [Account(AccountActive, false)];
    if free.Some? && free.value < |db.plans|
    then db.(accounts := accounts, subs := db.subs + [NewSubscription(|db.accounts|, free.value, SubActive, now)])
    else db.(accounts := accounts)
  }

  function EditPlan(db: Db, p: nat, plan: Plan): Db {
    if p < |db.plans| then db.(plans := db.plans[p := plan]) else db.(plans := db.plans + [plan])
  }

  /** An operator's decision about the account's standing. */
  function SetStanding(db: Db, a: nat, status: AccountStatus): Outcome {
    if a < |db.accounts| then Done(db.(accounts := db.accounts[a := db.accounts[a].(status := status)]))
    else Refused(AccountNotFound)
  }

  /** A listed address signing in becomes a platform admin, and a free-plan admin is nudged onto
      another plan by rewriting its live row in place. */
  function AdminSignIn(db: Db, a: nat, nudge: Option<nat>): Outcome {
    if a >= |db.accounts| then Refused(AccountNotFound) else
    var accounts := db.accounts[a := db.accounts[a].(isPlatformAdmin := true)];
    if nudge.Some? && nudge.value < |db.plans| then
      Done(db.(accounts := accounts,
               subs := seq(|db.subs|, k requires 0 <= k < |db.subs| =>
                 if db.subs[k].account == a && db.subs[k].Live()
                 then db.subs[k].(plan := nudge.value, status := SubActive) else db.subs[k])))
    else Done(db.(accounts := accounts))
  }

  // ---------------------------------------------------------------------------
  // Issue sweep
  // ---------------------------------------------------------------------------

  /** The row the issue sweep selects: in force, billable, inside its lead window, unclaimed. */
  predicate DueForIssue(cfg: Config, db: Db, now: int, s: nat) {
    && s < |db.subs|
    && db.subs[s].Live()
    && db.subs[s].plan < |db.plans|
    && db.plans[db.subs[s].plan].fee > 0
    && db.subs[s].nextBillingAt <= now + cfg.Lead()
    && !Claimed(db.invoices, s, db.subs[s].nextBillingAt)
  }

  ghost function IssuePool(cfg: Config, db: Db, now: int): set<nat> {
    set s | 0 <= s < |db.subs| && DueForIssue(cfg, db, now, s)
  }

  /** `issue_invoice` for one window of a subscription. */
  function IssueInvoice(db: Db, s: nat, start: int): Db
    requires s < |db.subs| && db.subs[s].plan < |db.plans|
  {
    var fee := db.plans[db.subs[s].plan].fee;
    if fee <= 0 || Claimed(db.invoices, s, start) then db
    else db.(invoices := db.invoices + [NewInvoice(db.subs[s].account, s, fee, start)])
  }

  /** The loop of `issue_due_invoices` over the selected rows. */
  function IssueAll(db: Db, picked: seq<nat>): Db
    requires forall j :: 0 <= j < |picked| ==> picked[j] < |db.subs| && db.subs[picked[j]].plan < |db.plans|
    decreases |picked|
  {
    if picked == [] then db
    else IssueAll(IssueInvoice(db, picked[0], db.subs[picked[0]].nextBillingAt), picked[1..])
  }

  // ---------------------------------------------------------------------------
  // Ordered, limited selection
  // ---------------------------------------------------------------------------

  /** What `ORDER BY key LIMIT limit` may return from `pool`: distinct rows, smallest keys first,
      nothing smaller left behind, and a short page only when the pool is exhausted. */
  ghost predicate IsPage(pool: set<nat>, key: nat -> int, limit: nat, picked: seq<nat>) {
    && (forall j :: 0 <= j < |picked| ==> picked[j] in pool)
    && (forall j, k :: 0 <= j < k < |picked| ==> picked[j] != picked[k] && key(picked[j]) <= key(picked[k]))
    && |picked| <= limit
    && (forall j, x :: 0 <= j < |picked| && x in pool && x !in picked ==> key(picked[j]) <= key(x))
    && (|picked| < limit ==> forall x :: x in pool ==> x in picked)
  }

  /** What `LIMIT limit` without an order may return: any rows of `pool`, as many as there are up to
      the limit. */
  ghost predicate IsBatch(pool: set<nat>, limit: nat, rows: set<nat>) {
    rows <= pool && |rows| == Min(limit, |pool|)
  }

  function BillingKey(subs: seq<Subscription>): nat -> int {
    (s: nat) => if s < |subs| then subs[s].nextBillingAt else 0
  }

  function DueKey(invoices: seq<Invoice>): nat -> int {
    (i: nat) => if i < |invoices| then invoices[i].dueAt else 0
  }

  ghost function IssueSweep(cfg: Config, db: Db, now: int, limit: nat, picked: seq<nat>): Db {
    if IsPage(IssuePool(cfg, db, now), BillingKey(db.subs), limit, picked) then IssueAll(db, picked) else db
  }

  // ---------------------------------------------------------------------------
  // Enforcement sweep
  // ---------------------------------------------------------------------------

  /** `_unpaid_invoice_query`: unpaid, on a subscription in force, on an active account. */
  predicate Dunned(db: Db, exemptAdmins: bool, i: nat) {
    && i < |db.invoices|
    && db.invoices[i].Unpaid()
    && db.invoices[i].subscription < |db.subs|
    && db.subs[db.invoices[i].subscription].Live()
    && db.invoices[i].account < |db.accounts|
    && db.accounts[db.invoices[i].account].status.AccountActive?
    && (exemptAdmins ==> !db.accounts[db.invoices[i].account].isPlatformAdmin)
  }

  ghost function DunnedPool(db: Db, exemptAdmins: bool): set<nat> {
    set i | 0 <= i < |db.invoices| && Dunned(db, exemptAdmins, i)
  }

  predicate GraceOver(cfg: Config, i: Invoice, now: int) { i.dueAt + cfg.Grace() <= now }

  ghost function FreezeTargets(cfg: Config, db: Db, picked: seq<nat>, now: int): set<nat> {
    set i | i in picked && i < |db.invoices| && GraceOver(cfg, db.invoices[i], now) :: db.invoices[i].account
  }

  ghost function Freeze(accounts: seq<Account>, targets: set<nat>): seq<Account> {
    seq(|accounts|, a requires 0 <= a < |accounts| =>
      if a in targets then accounts[a].(status := AccountRestricted) else accounts[a])
  }

  const EXPIRY_LIMIT: nat := 500

  /** A purchase nobody paid for within one credit period. */
  predicate Abandoned(db: Db, now: int, s: nat) {
    s < |db.subs| && db.subs[s].status.SubPending? && db.subs[s].createdAt <= now - CREDIT
  }

  ghost function AbandonedPool(db: Db, now: int): set<nat> {
    set s | 0 <= s < |db.subs| && Abandoned(db, now, s)
  }

  /** `_expire_abandoned_purchases` over the selected rows. */
  ghost function Expire(db: Db, parked: set<nat>, now: int): Db {
    db.(subs := seq(|db.subs|, k requires 0 <= k < |db.subs| =>
          if k in parked then db.subs[k].Cancel(now) else db.subs[k]),
        invoices := seq(|db.invoices|, k requires 0 <= k < |db.invoices| =>
          if db.invoices[k].subscription in parked && db.invoices[k].Unpaid()
          then db.invoices[k].Voided(Superseded, now) else db.invoices[k]))
  }

  ghost function EnforceSweep(cfg: Config, db: Db, now: int, limit: nat, enabled: bool,
                              picked: seq<nat>, parked: set<nat>): Db
  {
    if IsPage(DunnedPool(db, true), DueKey(db.invoices), limit, picked)
      && IsBatch(AbandonedPool(db, now), EXPIRY_LIMIT, parked) then
      var frozen := if enabled then Freeze(db.accounts, FreezeTargets(cfg, db, picked, now)) else db.accounts;
      Expire(db.(accounts := frozen), parked, now)
    else db
  }

  // ---------------------------------------------------------------------------
  // Settlement
  // ---------------------------------------------------------------------------

  predicate Lapsed(cfg: Config, i: Invoice, paidAt: int) { paidAt > i.dueAt + cfg.Grace() }

  /** `_reinstate`: the lapsed claim is voided and a fresh, already paid window is granted from
      `paidAt` on a new subscription; the payment reference moves with it. */
  function Reinstate(db: Db, i: nat, payment: Option<nat>, paidAt: int): Db
    requires i < |db.invoices| && db.invoices[i].subscription < |db.subs|
  {
    var lapsed := db.invoices[i];
    var granted := Invoice(lapsed.account, |db.subs|, paidAt, paidAt + CREDIT, paidAt, InvPaid,
                           lapsed.baseFee, lapsed.total, Some(paidAt), None, None, payment);
    var retired := lapsed.Voided(GraceExpired, paidAt).(payment := if payment.Some? then None else lapsed.payment);
    db.(subs := RetireLive(db.subs, lapsed.account, paidAt)
              + [NewSubscription(lapsed.account, db.subs[lapsed.subscription].plan, SubActive, paidAt)],
        invoices := db.invoices[i := retired] + [granted])
  }

  /** `settle_invoice` without the hold. */
  function Pay(db: Db, i: nat, paidAt: int): Db
    requires i < |db.invoices| && db.invoices[i].subscription < |db.subs|
  {
    var inv := db.invoices[i];
    db.(invoices := db.invoices[i := inv.(status := InvPaid, paidAt := Some(paidAt))],
        subs := ExtendCoverage(Activate(db.subs, inv.subscription, paidAt), inv.subscription, inv.periodEnd))
  }

  function Lift(db: Db, a: nat): Db { db.(accounts := LiftHold(db.accounts, a)) }

  /** `settle_invoice`. Paying a void invoice whose window was raised again meets the partial
      unique index, and the transaction is rolled back. */
  function SettleInvoice(cfg: Config, db: Db, i: nat, payment: Option<nat>, paidAt: int): Outcome
    requires i < |db.invoices| && db.invoices[i].subscription < |db.subs|
  {
    var inv := db.invoices[i];
    if inv.status.InvPaid? then Done(db)
    else if Lapsed(cfg, inv, paidAt) then Done(Lift(Reinstate(db, i, payment, paidAt), inv.account))
    else if inv.status.InvVoid? && Claimed(db.invoices, inv.subscription, inv.periodStart) then Refused(WindowTaken)
    else Done(Lift(Pay(db, i, paidAt), inv.account))
  }

  predicate RefersTo(i: Invoice, p: nat) { i.payment == Some(p) }

  /** `settle_invoice_for_payment`: the invoice that references the code is settled. Two rows
      referencing one code make the lookup fail. */
  ghost function SettleForPayment(cfg: Config, db: Db, p: nat, paidAt: int): Outcome {
    if i, j :| 0 <= i < j < |db.invoices| && RefersTo(db.invoices[i], p) && RefersTo(db.invoices[j], p)
    then Refused(AmbiguousPayment)
    else if i :| 0 <= i < |db.invoices| && RefersTo(db.invoices[i], p) && db.invoices[i].subscription < |db.subs|
    then SettleInvoice(cfg, db, i, Some(p), paidAt)
    else Done(db)
  }

  /** The code is paid, and every replacement minted for it that was not is retired. */
  function Confirmed(payments: seq<Payment>, p: nat): seq<Payment> {
    seq(|payments|, k requires 0 <= k < |payments| =>
      if k == p then payments[k].(status := PayPaid)
      else if payments[k].reissuedFrom == Some(p) && (payments[k].status.PayPending? || payments[k].status.PayExpired?)
      then payments[k].(status := PaySuperseded)
      else payments[k])
  }

  /** `mark_paid` as far as billing sees it: a code that is not terminal becomes paid and settles
      its invoice in the same transaction. */
  ghost function ConfirmPayment(cfg: Config, db: Db, p: nat, now: int): Outcome {
    if p >= |db.payments| then Refused(PaymentNotFound)
    else if db.payments[p].status.PayPaid? || db.payments[p].status.PayFailed? then Refused(PaymentTerminal)
    else SettleForPayment(cfg, db.(payments := Confirmed(db.payments, p)), p, now)
  }

  /** A code that was never paid runs out, or the rail reports it failed. */
  function CloseCode(db: Db, p: nat, failed: bool): Db {
    if p < |db.payments| && db.payments[p].status.PayPending?
    then db.(payments := db.payments[p := db.payments[p].(status := if failed then PayFailed else PayExpired)]) else db
  }

  // ---------------------------------------------------------------------------
  // Plan change, code minting and the operator's routes
  // ---------------------------------------------------------------------------

  /** `change_plan` for a plan with nothing to collect: in force at once, debts written off. */
  function ChangeToFree(db: Db, a: nat, plan: nat, now: int): Db {
    db.(accounts := LiftHold(db.accounts, a),
        invoices := VoidUnpaid(db.invoices, a, now),
        subs := RetireLive(db.subs, a, now) + [NewSubscription(a, plan, SubActive, now)])
  }

  /** `change_plan` for a paid plan: parked as pending behind its first invoice. */
  function Park(db: Db, a: nat, plan: nat, now: int): Db
    requires plan < |db.plans|
  {
    db.(subs := db.subs + [NewSubscription(a, plan, SubPending, now)],
        invoices := db.invoices + [NewInvoice(a, |db.subs|, db.plans[plan].fee, now)])
  }

  /** What a frozen merchant's paid choice clears away first. */
  function WriteOff(db: Db, a: nat, now: int): Db {
    db.(invoices := VoidUnpaid(db.invoices, a, now), subs := RetireLive(db.subs, a, now))
  }

  function ChangePlan(db: Db, a: nat, plan: nat, now: int): Outcome {
    if a >= |db.accounts| || db.accounts[a].status.AccountSuspended? then Refused(Unauthorized)
    else if plan >= |db.plans| then Refused(PlanNotFound)
    else if !db.plans[plan].isPublic || !db.plans[plan].isActive then Refused(PlanNotAvailable)
    else if OnPlan(db.subs, a, plan) then Refused(PlanUnchanged)
    else if db.plans[plan].fee <= 0 then Done(ChangeToFree(db, a, plan, now))
    else if !HasUnpaid(db.invoices, a) then Done(Park(db, a, plan, now))
    else if !db.accounts[a].status.AccountRestricted? then Refused(OpenInvoiceUnpaid)
    else Done(Park(WriteOff(db, a, now), a, plan, now))
  }

  /** The latest code numbered below `n` that was reissued from `p` and still waits for its money. */
  function Successor(payments: seq<Payment>, p: nat, n: nat): (s: Option<nat>)
    requires n <= |payments|
    ensures s.Some? ==> s.value < n && payments[s.value].reissuedFrom == Some(p) && payments[s.value].status.PayPending?
    ensures s.None? ==> forall k :: 0 <= k < n && payments[k].reissuedFrom == Some(p) ==>
            !payments[k].status.PayPending?
  {
    if n == 0 then None
    else if payments[n - 1].reissuedFrom == Some(p) && payments[n - 1].status.PayPending? then Some(n - 1)
    else Successor(payments, p, n - 1)
  }

  datatype Minted = Minted(payments: seq<Payment>, codes: map<nat, nat>, code: nat)

  /** `_invoice_payment`: the invoice's code is reused while it lives and reissued when dead, the
      reissue being its live successor while that is in its own window; an invoice without a code is
      given the one of its idempotency key. */
  function CodeFor(db: Db, i: nat, inWindow: bool): Minted
    requires i < |db.invoices|
  {
    var stored := db.invoices[i].payment;
    var next := |db.payments|;
    if stored.Some? && stored.value < |db.payments| then
      var live := Successor(db.payments, stored.value, |db.payments|);
      if !db.payments[stored.value].Dead() then Minted(db.payments, db.codes, stored.value)
      else if live.Some? && inWindow then Minted(db.payments, db.codes, live.value)
      else Minted(db.payments + [Payment(PayPending, i, stored)], db.codes, next)
    else if i in db.codes then Minted(db.payments, db.codes, db.codes[i])
    else Minted(db.payments + [Payment(PayPending, i, None)], db.codes[i := next], next)
  }

  /** `get_invoice_khqr`. `open` says that the HQ store resolves and the rail mints, `inWindow` that a
      live successor has not outlived its window. The code is committed before the invoice points at
      it: `kept` says whether the second commit happens. */
  function MintCode(db: Db, a: nat, i: nat, open: bool, inWindow: bool, kept: bool): Outcome {
    if a >= |db.accounts| || db.accounts[a].status.AccountSuspended? then Refused(Unauthorized)
    else if i >= |db.invoices| || db.invoices[i].account != a then Refused(InvoiceNotFound)
    else if db.invoices[i].status.InvPaid? then Refused(InvoiceAlreadyPaid)
    else if !open then Refused(BillingNotOpen)
    else
      var m := CodeFor(db, i, inWindow);
      var status := if db.invoices[i].Unpaid() then InvOpen else db.invoices[i].status;
      var pointed := db.invoices[i := db.invoices[i].(status := status, payment := Some(m.code))];
      Done(db.(payments := m.payments, codes := m.codes, invoices := if kept then pointed else db.invoices))
  }

  datatype Resolution = MarkPaid | Waive | Credit | VoidIt

  /** A waiver or a credit: the coverage is granted, no money is recorded. */
  function Forgive(db: Db, i: nat, status: InvoiceStatus, now: int): Db
    requires i < |db.invoices| && db.invoices[i].subscription < |db.subs|
  {
    var inv := db.invoices[i];
    db.(invoices := db.invoices[i := inv.(status := status)],
        subs := ExtendCoverage(Activate(db.subs, inv.subscription, now), inv.subscription, inv.periodEnd))
  }

  function ResolveInvoice(cfg: Config, db: Db, i: nat, action: Resolution, now: int): Outcome {
    if i >= |db.invoices| || db.invoices[i].subscription >= |db.subs| then Refused(InvoiceNotFound)
    else if !db.invoices[i].Unpaid() then Refused(InvoiceAlreadyResolved)
    else
      var inv := db.invoices[i];
      match action
      case MarkPaid => SettleInvoice(cfg, db, i, None, now)
      case VoidIt => Done(Lift(db.(invoices := db.invoices[i := inv.Voided(Operator, now)]), inv.account))
      case Waive => Done(Lift(Forgive(db, i, InvWaived, now), inv.account))
      case Credit => Done(Lift(Forgive(db, i, InvCredited, now), inv.account))
  }

  /** `assign_account_plan`: the current row is canceled and the named plan is in force, with no
      invoice. Open invoices of the replaced row stay open. */
  function AssignPlan(db: Db, a: nat, plan: nat, now: int): Outcome {
    if a >= |db.accounts| then Refused(AccountNotFound)
    else if plan >= |db.plans| then Refused(PlanNotFound)
    else if OnPlan(db.subs, a, plan) then Refused(PlanUnchanged)
    else Done(db.(subs := RetireLive(db.subs, a, now) + [NewSubscription(a, plan, SubActive, now)]))
  }
}
