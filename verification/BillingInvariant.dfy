/** What every reachable database satisfies, with no assumption on the clock or the settings. */
module BillingInvariant {
  import opened Common
  import opened BillingModel

  /** At most one subscription of an account is in force. */
  ghost predicate OneLive(subs: seq<Subscription>) {
    forall j, k :: 0 <= j < |subs| && 0 <= k < |subs| ==>
      (subs[j].Live() && subs[k].Live() && subs[j].account == subs[k].account ==> j == k)
  }

  /** At most one invoice that is not void per subscription and window. */
  ghost predicate OneClaim(invoices: seq<Invoice>) {
    forall j, k :: 0 <= j < |invoices| && 0 <= k < |invoices| ==>
      (!invoices[j].status.InvVoid? && Claims(invoices[k], invoices[j].subscription, invoices[j].periodStart)
       ==> j == k)
  }

  ghost predicate SubscriptionOk(db: Db, s: Subscription) {
    s.account < |db.accounts| && s.plan < |db.plans|
  }

  /** The window is one credit period, due at its start, on the 30-day grid of the subscription's
      coverage end. Money is recorded on paid rows only, and never for a window that had lapsed. */
  ghost predicate InvoiceOk(cfg: Config, db: Db, i: Invoice) {
    && i.subscription < |db.subs|
    && i.account == db.subs[i.subscription].account
    && (i.payment.Some? ==> i.payment.value < |db.payments|)
    && i.periodEnd == i.periodStart + CREDIT
    && i.dueAt == i.periodStart
    && (db.subs[i.subscription].nextBillingAt - i.periodStart) % CREDIT == 0
    && PaidInTime(cfg, i)
  }

  predicate PaidInTime(cfg: Config, i: Invoice) {
    && (i.status.InvPaid? <==> i.paidAt.Some?)
    && (i.paidAt.Some? ==> i.paidAt.value <= i.dueAt + cfg.Grace())
  }

  /** Code `p` was minted for invoice `k`. */
  predicate MintedFor(payments: seq<Payment>, p: nat, k: nat) { p < |payments| && payments[p].invoice == k }

  predicate Settled(payments: seq<Payment>, p: nat) { p < |payments| && payments[p].status.PayPaid? }

  /** A code and its reissues were minted for one invoice, and an invoice points at a code of its own
      or at one that has been paid. */
  ghost predicate Owned(invoices: seq<Invoice>, payments: seq<Payment>, codes: map<nat, nat>) {
    && (forall k :: 0 <= k < |invoices| && invoices[k].payment.Some? ==>
          MintedFor(payments, invoices[k].payment.value, k) || Settled(payments, invoices[k].payment.value))
    && (forall j :: j in codes ==> j < |invoices| && MintedFor(payments, codes[j], j))
    && (forall p :: 0 <= p < |payments| ==> payments[p].invoice < |invoices|)
    && (forall p :: 0 <= p < |payments| && payments[p].reissuedFrom.Some? ==>
          payments[p].reissuedFrom.value < p
            && MintedFor(payments, payments[p].reissuedFrom.value, payments[p].invoice))
  }

  ghost predicate Inv(cfg: Config, db: Db) {
    && (forall k :: 0 <= k < |db.subs| ==> SubscriptionOk(db, db.subs[k]))
    && (forall k :: 0 <= k < |db.invoices| ==> InvoiceOk(cfg, db, db.invoices[k]))
    && OneLive(db.subs)
    && OneClaim(db.invoices)
    && Owned(db.invoices, db.payments, db.codes)
  }

  // ---------------------------------------------------------------------------
  // What one step may do to a row
  // ---------------------------------------------------------------------------

  /** A subscription keeps its owner and its grid, and never comes back from `canceled` or to
      `pending`. */
  ghost predicate SubscriptionStep(s: Subscription, t: Subscription) {
    && t.account == s.account && t.createdAt == s.createdAt
    && (t.nextBillingAt - s.nextBillingAt) % CREDIT == 0
    && (s.status.SubCanceled? ==> t.status.SubCanceled?)
    && (t.status.SubPending? ==> s.status.SubPending?)
  }

  /** An invoice keeps its window and its amount, is never reopened, and a paid one is final. */
  ghost predicate InvoiceStep(cfg: Config, i: Invoice, j: Invoice) {
    && j.account == i.account && j.subscription == i.subscription
    && j.periodStart == i.periodStart && j.periodEnd == i.periodEnd && j.dueAt == i.dueAt
    && j.baseFee == i.baseFee && j.total == i.total
    && (i.status.InvPaid? ==> j == i)
    && (j.Unpaid() ==> i.Unpaid())
    && PaidInTime(cfg, j)
  }

  /** A code keeps what it was minted for, and a paid one stays paid. */
  ghost predicate PaymentsStep(p: seq<Payment>, q: seq<Payment>) {
    |p| <= |q| && forall k :: 0 <= k < |p| ==>
      q[k].invoice == p[k].invoice && q[k].reissuedFrom == p[k].reissuedFrom
        && (p[k].status.PayPaid? ==> q[k].status.PayPaid?)
  }

  /** The effect of a step on the existing rows of every table. */
  ghost predicate Evolves(cfg: Config, db: Db, after: Db) {
    && |db.accounts| <= |after.accounts| && |db.plans| <= |after.plans|
    && |db.subs| <= |after.subs| && |db.invoices| <= |after.invoices|
    && PaymentsStep(db.payments, after.payments)
    && (forall k :: 0 <= k < |db.subs| ==> SubscriptionStep(db.subs[k], after.subs[k]))
    && (forall k :: 0 <= k < |db.invoices| ==> InvoiceStep(cfg, db.invoices[k], after.invoices[k]))
  }

  /** Existing rows keep or give up their code; a new row carries none, or one already paid. */
  ghost predicate CodesKept(db: Db, after: Db) {
    && after.codes == db.codes && |after.payments| == |db.payments|
    && |db.invoices| <= |after.invoices|
    && (forall k :: 0 <= k < |db.invoices| ==>
          after.invoices[k].payment == db.invoices[k].payment || after.invoices[k].payment.None?)
    && (forall k :: |db.invoices| <= k < |after.invoices| && after.invoices[k].payment.Some?
          ==> Settled(after.payments, after.invoices[k].payment.value))
  }

  lemma GridStep(a: int, b: int, c: int)
    requires (a - c) % CREDIT == 0 && (b - a) % CREDIT == 0
    ensures (b - c) % CREDIT == 0
  {}

  lemma GridApart(n: int, a: int, b: int)
    requires (n - a) % CREDIT == 0 && (n - b) % CREDIT == 0
    ensures (a - b) % CREDIT == 0 && (a == b || a + CREDIT <= b || b + CREDIT <= a)
  {
    var x, y := (n - a) / CREDIT, (n - b) / CREDIT;
    assert a - b == CREDIT * (y - x);
  }

  /** Two windows of one subscription are whole credit periods apart, and two that are not void
      do not overlap. */
  lemma WindowsDisjoint(cfg: Config, db: Db, j: nat, k: nat)
    requires Inv(cfg, db) && j < |db.invoices| && k < |db.invoices|
    requires db.invoices[j].subscription == db.invoices[k].subscription
    ensures (db.invoices[j].periodStart - db.invoices[k].periodStart) % CREDIT == 0
    ensures j != k && !db.invoices[j].status.InvVoid? && !db.invoices[k].status.InvVoid? ==>
              || db.invoices[j].periodEnd <= db.invoices[k].periodStart
              || db.invoices[k].periodEnd <= db.invoices[j].periodStart
  {
    assert InvoiceOk(cfg, db, db.invoices[j]) && InvoiceOk(cfg, db, db.invoices[k]);
    GridApart(db.subs[db.invoices[j].subscription].nextBillingAt, db.invoices[j].periodStart,
      db.invoices[k].periodStart);
    assert !db.invoices[j].status.InvVoid? && !db.invoices[k].status.InvVoid? && j != k ==>
      !Claims(db.invoices[k], db.invoices[j].subscription, db.invoices[j].periodStart);
  }

  lemma InvoiceRowKept(cfg: Config, db: Db, after: Db, k: nat)
    requires Evolves(cfg, db, after) && k < |db.invoices| && InvoiceOk(cfg, db, db.invoices[k])
    requires after.invoices[k].payment.Some? ==> after.invoices[k].payment.value < |after.payments|
    ensures InvoiceOk(cfg, after, after.invoices[k])
  {
    var i := db.invoices[k];
    assert InvoiceStep(cfg, i, after.invoices[k]);
    assert SubscriptionStep(db.subs[i.subscription], after.subs[i.subscription]);
    GridStep(db.subs[i.subscription].nextBillingAt, after.subs[i.subscription].nextBillingAt, i.periodStart);
  }

  lemma OwnedKept(db: Db, after: Db)
    requires Owned(db.invoices, db.payments, db.codes)
    requires PaymentsStep(db.payments, after.payments) && CodesKept(db, after)
    ensures Owned(after.invoices, after.payments, after.codes)
  {
    forall k | 0 <= k < |after.invoices| && after.invoices[k].payment.Some?
      ensures MintedFor(after.payments, after.invoices[k].payment.value, k)
              || Settled(after.payments, after.invoices[k].payment.value)
    {
      if k < |db.invoices| { assert after.invoices[k].payment == db.invoices[k].payment; }
    }
  }

  /** A step that evolves the rows and keeps the two uniqueness rules keeps the invariant. */
  lemma Preserved(cfg: Config, db: Db, after: Db)
    requires Inv(cfg, db) && Evolves(cfg, db, after) && CodesKept(db, after)
    requires forall k :: 0 <= k < |after.subs| ==> SubscriptionOk(after, after.subs[k])
    requires forall k :: |db.invoices| <= k < |after.invoices| ==> InvoiceOk(cfg, after, after.invoices[k])
    requires OneLive(after.subs) && OneClaim(after.invoices)
    ensures Inv(cfg, after)
  {
    OwnedKept(db, after);
    forall k | 0 <= k < |after.invoices|
      ensures InvoiceOk(cfg, after, after.invoices[k])
    {
      if k < |db.invoices| {
        assert InvoiceOk(cfg, db, db.invoices[k]);
        InvoiceRowKept(cfg, db, after, k);
      }
    }
  }

  // ---------------------------------------------------------------------------
  // The two uniqueness rules, table by table
  // ---------------------------------------------------------------------------

  predicate NoLive(subs: seq<Subscription>, a: nat) {
    forall k :: 0 <= k < |subs| && subs[k].account == a ==> !subs[k].Live()
  }

  lemma RetireLeavesNone(subs: seq<Subscription>, a: nat, now: int)
    requires OneLive(subs)
    ensures OneLive(RetireLive(subs, a, now)) && NoLive(RetireLive(subs, a, now), a)
  {}

  lemma AppendKeepsOneLive(subs: seq<Subscription>, s: Subscription)
    requires OneLive(subs) && (s.Live() ==> NoLive(subs, s.account))
    ensures OneLive(subs + [s])
  {}

  lemma ActivateKeepsOneLive(subs: seq<Subscription>, s: nat, now: int, end: int)
    requires OneLive(subs) && s < |subs|
    ensures OneLive(ExtendCoverage(Activate(subs, s, now), s, end))
  {
    if subs[s].status.SubPending? {
      var retired := RetireLive(subs, subs[s].account, now);
      RetireLeavesNone(subs, subs[s].account, now);
      var after := ExtendCoverage(Activate(subs, s, now), s, end);
      assert forall k :: 0 <= k < |subs| && k != s ==> after[k] == retired[k];
      assert after[s].account == subs[s].account;
    }
  }

  /** Voiding rows, or leaving them, frees windows and claims none. */
  ghost predicate OnlyVoids(invoices: seq<Invoice>, after: seq<Invoice>) {
    && |after| == |invoices|
    && forall k :: 0 <= k < |invoices| ==>
         && after[k].subscription == invoices[k].subscription
         && after[k].periodStart == invoices[k].periodStart
         && (invoices[k].status.InvVoid? ==> after[k].status.InvVoid?)
  }

  lemma VoidingKeepsOneClaim(invoices: seq<Invoice>, after: seq<Invoice>)
    requires OneClaim(invoices) && OnlyVoids(invoices, after)
    ensures OneClaim(after)
  {}

  lemma AppendKeepsOneClaim(invoices: seq<Invoice>, x: Invoice)
    requires OneClaim(invoices) && !Claimed(invoices, x.subscription, x.periodStart)
    ensures OneClaim(invoices + [x])
  {
    assert forall k :: 0 <= k < |invoices| ==> !Claims(invoices[k], x.subscription, x.periodStart);
  }

  lemma UpdateKeepsOneClaim(invoices: seq<Invoice>, i: nat, x: Invoice)
    requires OneClaim(invoices) && i < |invoices|
    requires x.subscription == invoices[i].subscription && x.periodStart == invoices[i].periodStart
    requires invoices[i].status.InvVoid? ==> x.status.InvVoid? || !Claimed(invoices, x.subscription, x.periodStart)
    ensures OneClaim(invoices[i := x])
  {
    assert forall k :: 0 <= k < |invoices| && Claims(invoices[k], x.subscription, x.periodStart)
                       ==> Claimed(invoices, x.subscription, x.periodStart);
  }

  // ---------------------------------------------------------------------------
  // Every step keeps the invariant
  // ---------------------------------------------------------------------------

  lemma AllPaidInTime(cfg: Config, db: Db)
    requires Inv(cfg, db)
    ensures forall k :: 0 <= k < |db.invoices| ==> PaidInTime(cfg, db.invoices[k])
  {
    forall k | 0 <= k < |db.invoices| ensures PaidInTime(cfg, db.invoices[k]) {
      assert InvoiceOk(cfg, db, db.invoices[k]);
    }
  }

  lemma SignUpKeeps(cfg: Config, db: Db, free: Option<nat>, now: int)
    requires Inv(cfg, db)
    ensures Evolves(cfg, db, SignUp(db, free, now)) && Inv(cfg, SignUp(db, free, now))
  {
    AllPaidInTime(cfg, db);
    var s := NewSubscription(|db.accounts|, if free.Some? then free.value else 0, SubActive, now);
    assert NoLive(db.subs, |db.accounts|) by {
      forall k | 0 <= k < |db.subs| ensures db.subs[k].account != |db.accounts| {
        assert SubscriptionOk(db, db.subs[k]);
      }
    }
    AppendKeepsOneLive(db.subs, s);
    Preserved(cfg, db, SignUp(db, free, now));
  }

  lemma EditPlanKeeps(cfg: Config, db: Db, p: nat, plan: Plan)
    requires Inv(cfg, db)
    ensures Evolves(cfg, db, EditPlan(db, p, plan)) && Inv(cfg, EditPlan(db, p, plan))
  {
    AllPaidInTime(cfg, db);
    Preserved(cfg, db, EditPlan(db, p, plan));
  }

  /** Steps that only rewrite account rows: standing, freeze and unfreeze. */
  lemma AccountsKeep(cfg: Config, db: Db, accounts: seq<Account>)
    requires Inv(cfg, db) && |accounts| == |db.accounts|
    ensures Evolves(cfg, db, db.(accounts := accounts)) && Inv(cfg, db.(accounts := accounts))
  {
    AllPaidInTime(cfg, db);
    Preserved(cfg, db, db.(accounts := accounts));
  }

  lemma AdminSignInKeeps(cfg: Config, db: Db, a: nat, nudge: Option<nat>)
    requires Inv(cfg, db)
    ensures Evolves(cfg, db, Committed(db, AdminSignIn(db, a, nudge)))
    ensures Inv(cfg, Committed(db, AdminSignIn(db, a, nudge)))
  {
    AllPaidInTime(cfg, db);
    var after := Committed(db, AdminSignIn(db, a, nudge));
    forall k | 0 <= k < |after.subs| ensures SubscriptionOk(after, after.subs[k]) {
      assert SubscriptionOk(db, db.subs[k]);
    }
    Preserved(cfg, db, after);
  }

  lemma IssueInvoiceKeeps(cfg: Config, db: Db, s: nat)
    requires Inv(cfg, db) && s < |db.subs| && db.subs[s].plan < |db.plans|
    ensures Evolves(cfg, db, IssueInvoice(db, s, db.subs[s].nextBillingAt))
    ensures Inv(cfg, IssueInvoice(db, s, db.subs[s].nextBillingAt))
  {
    AllPaidInTime(cfg, db);
    var after := IssueInvoice(db, s, db.subs[s].nextBillingAt);
    if after != db {
      AppendKeepsOneClaim(db.invoices, after.invoices[|db.invoices|]);
      Preserved(cfg, db, after);
    }
  }

  lemma {:induction false} IssueAllKeeps(cfg: Config, db: Db, picked: seq<nat>)
    requires Inv(cfg, db)
    requires forall j :: 0 <= j < |picked| ==> picked[j] < |db.subs| && db.subs[picked[j]].plan < |db.plans|
    ensures Evolves(cfg, db, IssueAll(db, picked)) && Inv(cfg, IssueAll(db, picked))
    decreases |picked|
  {
    AllPaidInTime(cfg, db);
    if picked != [] {
      var next := IssueInvoice(db, picked[0], db.subs[picked[0]].nextBillingAt);
      IssueInvoiceKeeps(cfg, db, picked[0]);
      IssueAllKeeps(cfg, next, picked[1..]);
      EvolvesTransitive(cfg, db, next, IssueAll(db, picked));
    }
  }

  lemma EvolvesTransitive(cfg: Config, a: Db, b: Db, c: Db)
    requires Evolves(cfg, a, b) && Evolves(cfg, b, c)
    ensures Evolves(cfg, a, c)
  {
    forall k | 0 <= k < |a.subs| ensures SubscriptionStep(a.subs[k], c.subs[k]) {
      assert SubscriptionStep(a.subs[k], b.subs[k]) && SubscriptionStep(b.subs[k], c.subs[k]);
      GridStep(b.subs[k].nextBillingAt, c.subs[k].nextBillingAt, a.subs[k].nextBillingAt);
    }
    forall k | 0 <= k < |a.invoices| ensures InvoiceStep(cfg, a.invoices[k], c.invoices[k]) {
      assert InvoiceStep(cfg, a.invoices[k], b.invoices[k]) && InvoiceStep(cfg, b.invoices[k], c.invoices[k]);
    }
  }

  lemma ExpireKeeps(cfg: Config, db: Db, parked: set<nat>, now: int)
    requires Inv(cfg, db)
    ensures Evolves(cfg, db, Expire(db, parked, now)) && Inv(cfg, Expire(db, parked, now))
  {
    AllPaidInTime(cfg, db);
    var after := Expire(db, parked, now);
    VoidingKeepsOneClaim(db.invoices, after.invoices);
    forall k | 0 <= k < |after.subs| ensures SubscriptionOk(after, after.subs[k]) {
      assert SubscriptionOk(db, db.subs[k]);
    }
    Preserved(cfg, db, after);
  }

  lemma EnforceKeeps(cfg: Config, db: Db, now: int, limit: nat, enabled: bool, picked: seq<nat>, parked: set<nat>)
    requires Inv(cfg, db)
    ensures Evolves(cfg, db, EnforceSweep(cfg, db, now, limit, enabled, picked, parked))
    ensures Inv(cfg, EnforceSweep(cfg, db, now, limit, enabled, picked, parked))
  {
    var frozen := if enabled then Freeze(db.accounts, FreezeTargets(cfg, db, picked, now)) else db.accounts;
    AccountsKeep(cfg, db, db.accounts);
    AccountsKeep(cfg, db, frozen);
    ExpireKeeps(cfg, db.(accounts := frozen), parked, now);
    EvolvesTransitive(cfg, db, db.(accounts := frozen), Expire(db.(accounts := frozen), parked, now));
  }

  lemma LiftKeeps(cfg: Config, db: Db, after: Db, a: nat)
    requires Evolves(cfg, db, after) && Inv(cfg, after)
    ensures Evolves(cfg, db, Lift(after, a)) && Inv(cfg, Lift(after, a))
  {
    AccountsKeep(cfg, after, LiftHold(after.accounts, a));
    EvolvesTransitive(cfg, db, after, Lift(after, a));
  }

  lemma ReinstateKeepsOneClaim(cfg: Config, db: Db, i: nat, payment: Option<nat>, paidAt: int)
    requires Inv(cfg, db) && i < |db.invoices| && db.invoices[i].subscription < |db.subs|
    ensures OneClaim(Reinstate(db, i, payment, paidAt).invoices)
  {
    var after := Reinstate(db, i, payment, paidAt);
    UpdateKeepsOneClaim(db.invoices, i, after.invoices[i]);
    var granted := after.invoices[|db.invoices|];
    assert !Claimed(db.invoices[i := after.invoices[i]], granted.subscription, granted.periodStart) by {
      forall k | 0 <= k < |db.invoices| ensures db.invoices[k].subscription != |db.subs| {
        assert InvoiceOk(cfg, db, db.invoices[k]);
      }
    }
    AppendKeepsOneClaim(db.invoices[i := after.invoices[i]], granted);
  }

  lemma ReinstateKeeps(cfg: Config, db: Db, i: nat, payment: Option<nat>, paidAt: int)
    requires Inv(cfg, db) && i < |db.invoices| && !db.invoices[i].status.InvPaid?
    requires db.invoices[i].subscription < |db.subs|
    requires payment.Some? ==> Settled(db.payments, payment.value)
    ensures Evolves(cfg, db, Reinstate(db, i, payment, paidAt)) && Inv(cfg, Reinstate(db, i, payment, paidAt))
  {
    AllPaidInTime(cfg, db);
    var inv := db.invoices[i];
    assert InvoiceOk(cfg, db, inv) && SubscriptionOk(db, db.subs[inv.subscription]);
    var after := Reinstate(db, i, payment, paidAt);
    ReplacedSubs(db, after.subs[|db.subs|], paidAt);
    ReinstateKeepsOneClaim(cfg, db, i, payment, paidAt);
    forall k | 0 <= k < |after.subs| ensures SubscriptionOk(after, after.subs[k]) {
      assert SubscriptionOk(db, after.subs[k]);
    }
    Preserved(cfg, db, after);
  }

  /** Paying in time and forgiving do the same thing to the tables, up to the status written. */
  lemma GrantKeeps(cfg: Config, db: Db, i: nat, x: Invoice, now: int)
    requires Inv(cfg, db) && i < |db.invoices| && db.invoices[i].subscription < |db.subs|
    requires InvoiceStep(cfg, db.invoices[i], x) && x.payment == db.invoices[i].payment
    requires db.invoices[i].status.InvVoid? ==> !Claimed(db.invoices, x.subscription, x.periodStart)
    ensures var s := db.invoices[i].subscription;
            var after := db.(invoices := db.invoices[i := x],
                             subs := ExtendCoverage(Activate(db.subs, s, now), s, db.invoices[i].periodEnd));
            Evolves(cfg, db, after) && Inv(cfg, after)
  {
    AllPaidInTime(cfg, db);
    var s := db.invoices[i].subscription;
    assert InvoiceOk(cfg, db, db.invoices[i]);
    var subs := ExtendCoverage(Activate(db.subs, s, now), s, db.invoices[i].periodEnd);
    var after := db.(invoices := db.invoices[i := x], subs := subs);
    ActivateKeepsOneLive(db.subs, s, now, db.invoices[i].periodEnd);
    UpdateKeepsOneClaim(db.invoices, i, x);
    forall k | 0 <= k < |subs|
      ensures SubscriptionStep(db.subs[k], subs[k]) && SubscriptionOk(after, subs[k])
    {
      assert SubscriptionOk(db, db.subs[k]);
    }
    Preserved(cfg, db, after);
  }

  lemma SettleKeeps(cfg: Config, db: Db, i: nat, payment: Option<nat>, paidAt: int)
    requires Inv(cfg, db) && i < |db.invoices| && db.invoices[i].subscription < |db.subs|
    requires payment.Some? ==> Settled(db.payments, payment.value)
    ensures Evolves(cfg, db, Committed(db, SettleInvoice(cfg, db, i, payment, paidAt)))
    ensures Inv(cfg, Committed(db, SettleInvoice(cfg, db, i, payment, paidAt)))
  {
    var inv := db.invoices[i];
    AccountsKeep(cfg, db, db.accounts);
    if !inv.status.InvPaid? {
      if Lapsed(cfg, inv, paidAt) {
        ReinstateKeeps(cfg, db, i, payment, paidAt);
        LiftKeeps(cfg, db, Reinstate(db, i, payment, paidAt), inv.account);
      } else if !(inv.status.InvVoid? && Claimed(db.invoices, inv.subscription, inv.periodStart)) {
        GrantKeeps(cfg, db, i, inv.(status := InvPaid, paidAt := Some(paidAt)), paidAt);
        LiftKeeps(cfg, db, Pay(db, i, paidAt), inv.account);
      }
    }
  }

  lemma PaymentsKeep(cfg: Config, db: Db, payments: seq<Payment>)
    requires Inv(cfg, db) && PaymentsStep(db.payments, payments) && |payments| == |db.payments|
    ensures Evolves(cfg, db, db.(payments := payments)) && Inv(cfg, db.(payments := payments))
  {
    AllPaidInTime(cfg, db);
    Preserved(cfg, db, db.(payments := payments));
  }

  lemma ConfirmKeeps(cfg: Config, db: Db, p: nat, now: int)
    requires Inv(cfg, db)
    ensures Evolves(cfg, db, Committed(db, ConfirmPayment(cfg, db, p, now)))
    ensures Inv(cfg, Committed(db, ConfirmPayment(cfg, db, p, now)))
  {
    AccountsKeep(cfg, db, db.accounts);
    if p < |db.payments| {
      var marked := db.(payments := Confirmed(db.payments, p));
      PaymentsKeep(cfg, db, marked.payments);
      forall i: nat | i < |db.invoices| && db.invoices[i].subscription < |db.subs|
        ensures Inv(cfg, Committed(marked, SettleInvoice(cfg, marked, i, Some(p), now)))
        ensures Evolves(cfg, db, Committed(marked, SettleInvoice(cfg, marked, i, Some(p), now)))
      {
        SettleKeeps(cfg, marked, i, Some(p), now);
        EvolvesTransitive(cfg, db, marked, Committed(marked, SettleInvoice(cfg, marked, i, Some(p), now)));
      }
    }
  }

  lemma CloseCodeKeeps(cfg: Config, db: Db, p: nat, failed: bool)
    requires Inv(cfg, db)
    ensures Evolves(cfg, db, CloseCode(db, p, failed)) && Inv(cfg, CloseCode(db, p, failed))
  {
    AccountsKeep(cfg, db, db.accounts);
    PaymentsKeep(cfg, db, CloseCode(db, p, failed).payments);
  }

  lemma ReplacedSubs(db: Db, s: Subscription, now: int)
    requires OneLive(db.subs) && SubscriptionOk(db, s)
    requires forall k :: 0 <= k < |db.subs| ==> SubscriptionOk(db, db.subs[k])
    ensures var subs := RetireLive(db.subs, s.account, now) + [s];
            && OneLive(subs)
            && (forall k :: 0 <= k < |subs| ==> SubscriptionOk(db, subs[k]))
            && (forall k :: 0 <= k < |db.subs| ==> SubscriptionStep(db.subs[k], subs[k]))
  {
    var retired := RetireLive(db.subs, s.account, now);
    RetireLeavesNone(db.subs, s.account, now);
    AppendKeepsOneLive(retired, s);
    forall k | 0 <= k < |retired| ensures SubscriptionOk(db, retired[k]) { assert SubscriptionOk(db, db.subs[k]); }
  }

  /** Canceling what is in force and starting `s` in its place; debts may be voided with it. */
  lemma ReplaceKeeps(cfg: Config, db: Db, s: Subscription, invoices: seq<Invoice>, now: int)
    requires Inv(cfg, db) && SubscriptionOk(db, s)
    requires invoices == db.invoices || invoices == VoidUnpaid(db.invoices, s.account, now)
    ensures var after := db.(invoices := invoices, subs := RetireLive(db.subs, s.account, now) + [s]);
            Evolves(cfg, db, after) && Inv(cfg, after)
  {
    AllPaidInTime(cfg, db);
    ReplacedSubs(db, s, now);
    VoidingKeepsOneClaim(db.invoices, invoices);
    var after := db.(invoices := invoices, subs := RetireLive(db.subs, s.account, now) + [s]);
    forall k | 0 <= k < |after.subs| ensures SubscriptionOk(after, after.subs[k]) {
      assert SubscriptionOk(db, after.subs[k]);
    }
    Preserved(cfg, db, after);
  }

  lemma WriteOffKeeps(cfg: Config, db: Db, a: nat, now: int)
    requires Inv(cfg, db)
    ensures Evolves(cfg, db, WriteOff(db, a, now)) && Inv(cfg, WriteOff(db, a, now))
  {
    AllPaidInTime(cfg, db);
    var after := WriteOff(db, a, now);
    RetireLeavesNone(db.subs, a, now);
    VoidingKeepsOneClaim(db.invoices, after.invoices);
    forall k | 0 <= k < |after.subs| ensures SubscriptionOk(after, after.subs[k]) {
      assert SubscriptionOk(db, db.subs[k]);
    }
    Preserved(cfg, db, after);
  }

  lemma ParkKeeps(cfg: Config, db: Db, a: nat, plan: nat, now: int)
    requires Inv(cfg, db) && a < |db.accounts| && plan < |db.plans|
    ensures Evolves(cfg, db, Park(db, a, plan, now)) && Inv(cfg, Park(db, a, plan, now))
  {
    AllPaidInTime(cfg, db);
    var after := Park(db, a, plan, now);
    AppendKeepsOneLive(db.subs, after.subs[|db.subs|]);
    assert !Claimed(db.invoices, |db.subs|, now) by {
      forall k | 0 <= k < |db.invoices| ensures db.invoices[k].subscription != |db.subs| {
        assert InvoiceOk(cfg, db, db.invoices[k]);
      }
    }
    AppendKeepsOneClaim(db.invoices, after.invoices[|db.invoices|]);
    forall k | 0 <= k < |after.subs| ensures SubscriptionOk(after, after.subs[k]) {
      if k < |db.subs| { assert SubscriptionOk(db, db.subs[k]); }
    }
    Preserved(cfg, db, after);
  }

  lemma FreeKeeps(cfg: Config, db: Db, a: nat, plan: nat, now: int)
    requires Inv(cfg, db) && a < |db.accounts| && plan < |db.plans|
    ensures Evolves(cfg, db, ChangeToFree(db, a, plan, now)) && Inv(cfg, ChangeToFree(db, a, plan, now))
  {
    var free := NewSubscription(a, plan, SubActive, now);
    ReplaceKeeps(cfg, db, free, VoidUnpaid(db.invoices, a, now), now);
    var replaced := db.(invoices := VoidUnpaid(db.invoices, a, now), subs := RetireLive(db.subs, a, now) + [free]);
    LiftKeeps(cfg, db, replaced, a);
  }

  lemma FrozenParkKeeps(cfg: Config, db: Db, a: nat, plan: nat, now: int)
    requires Inv(cfg, db) && a < |db.accounts| && plan < |db.plans|
    ensures var after := Park(WriteOff(db, a, now), a, plan, now);
            Evolves(cfg, db, after) && Inv(cfg, after)
  {
    WriteOffKeeps(cfg, db, a, now);
    ParkKeeps(cfg, WriteOff(db, a, now), a, plan, now);
    EvolvesTransitive(cfg, db, WriteOff(db, a, now), Park(WriteOff(db, a, now), a, plan, now));
  }

  lemma ChangePlanKeeps(cfg: Config, db: Db, a: nat, plan: nat, now: int)
    requires Inv(cfg, db)
    ensures Evolves(cfg, db, Committed(db, ChangePlan(db, a, plan, now)))
    ensures Inv(cfg, Committed(db, ChangePlan(db, a, plan, now)))
  {
    AccountsKeep(cfg, db, db.accounts);
    if a < |db.accounts| && plan < |db.plans| {
      FreeKeeps(cfg, db, a, plan, now);
      ParkKeeps(cfg, db, a, plan, now);
      FrozenParkKeeps(cfg, db, a, plan, now);
    }
  }

  lemma AppendOwned(invoices: seq<Invoice>, payments: seq<Payment>, codes: map<nat, nat>, x: Payment)
    requires Owned(invoices, payments, codes) && x.invoice < |invoices|
    requires x.reissuedFrom.Some? ==> MintedFor(payments, x.reissuedFrom.value, x.invoice)
    ensures PaymentsStep(payments, payments + [x]) && Owned(invoices, payments + [x], codes)
    ensures Owned(invoices, payments + [x], codes[x.invoice := |payments|])
  {}

  /** The code minted for an invoice is its own or paid, and a new one extends the index. */
  lemma CodeForOwned(cfg: Config, db: Db, i: nat, inWindow: bool)
    requires Inv(cfg, db) && i < |db.invoices|
    ensures var m := CodeFor(db, i, inWindow);
            && PaymentsStep(db.payments, m.payments) && Owned(db.invoices, m.payments, m.codes)
            && (MintedFor(m.payments, m.code, i) || Settled(m.payments, m.code))
  {
    var stored := db.invoices[i].payment;
    AppendOwned(db.invoices, db.payments, db.codes, Payment(PayPending, i, None));
    if stored.Some? && !Settled(db.payments, stored.value) {
      AppendOwned(db.invoices, db.payments, db.codes, Payment(PayPending, i, stored));
    }
  }

  /** Pointing an invoice at a code of its own, or at a paid one, keeps the index. */
  lemma RepointKeeps(invoices: seq<Invoice>, payments: seq<Payment>, codes: map<nat, nat>, i: nat, x: Invoice)
    requires Owned(invoices, payments, codes) && i < |invoices| && x.payment.Some?
    requires MintedFor(payments, x.payment.value, i) || Settled(payments, x.payment.value)
    ensures Owned(invoices[i := x], payments, codes)
  {}

  lemma MintEvolves(cfg: Config, db: Db, a: nat, i: nat, open: bool, inWindow: bool, kept: bool)
    requires Inv(cfg, db)
    ensures var after := Committed(db, MintCode(db, a, i, open, inWindow, kept));
            && Evolves(cfg, db, after) && after.subs == db.subs && OneClaim(after.invoices)
            && after.accounts == db.accounts && after.plans == db.plans && |after.invoices| == |db.invoices|
            && Owned(after.invoices, after.payments, after.codes)
  {
    AllPaidInTime(cfg, db);
    var after := Committed(db, MintCode(db, a, i, open, inWindow, kept));
    if i < |db.invoices| {
      CodeForOwned(cfg, db, i, inWindow);
      var m := CodeFor(db, i, inWindow);
      var status := if db.invoices[i].Unpaid() then InvOpen else db.invoices[i].status;
      var x := db.invoices[i].(status := status, payment := Some(m.code));
      RepointKeeps(db.invoices, m.payments, m.codes, i, x);
      UpdateKeepsOneClaim(db.invoices, i, x);
      assert after.invoices == db.invoices[i := x] || after.invoices == db.invoices;
    }
  }

  lemma MintKeeps(cfg: Config, db: Db, a: nat, i: nat, open: bool, inWindow: bool, kept: bool)
    requires Inv(cfg, db)
    ensures Evolves(cfg, db, Committed(db, MintCode(db, a, i, open, inWindow, kept)))
    ensures Inv(cfg, Committed(db, MintCode(db, a, i, open, inWindow, kept)))
  {
    var after := Committed(db, MintCode(db, a, i, open, inWindow, kept));
    MintEvolves(cfg, db, a, i, open, inWindow, kept);
    forall k | 0 <= k < |after.subs| ensures SubscriptionOk(after, after.subs[k]) {
      assert SubscriptionOk(db, db.subs[k]);
    }
    forall k | 0 <= k < |after.invoices| ensures InvoiceOk(cfg, after, after.invoices[k]) {
      assert InvoiceOk(cfg, db, db.invoices[k]);
      InvoiceRowKept(cfg, db, after, k);
    }
  }

  lemma ResolveKeeps(cfg: Config, db: Db, i: nat, action: Resolution, now: int)
    requires Inv(cfg, db)
    ensures Evolves(cfg, db, Committed(db, ResolveInvoice(cfg, db, i, action, now)))
    ensures Inv(cfg, Committed(db, ResolveInvoice(cfg, db, i, action, now)))
  {
    AccountsKeep(cfg, db, db.accounts);
    if i < |db.invoices| && db.invoices[i].Unpaid() {
      var inv := db.invoices[i];
      assert InvoiceOk(cfg, db, inv);
      match action
      case MarkPaid => SettleKeeps(cfg, db, i, None, now);
      case VoidIt =>
        var voided := db.(invoices := db.invoices[i := inv.Voided(Operator, now)]);
        AllPaidInTime(cfg, db);
        VoidingKeepsOneClaim(db.invoices, voided.invoices);
        Preserved(cfg, db, voided);
        LiftKeeps(cfg, db, voided, inv.account);
      case Waive =>
        GrantKeeps(cfg, db, i, inv.(status := InvWaived), now);
        LiftKeeps(cfg, db, Forgive(db, i, InvWaived, now), inv.account);
      case Credit =>
        GrantKeeps(cfg, db, i, inv.(status := InvCredited), now);
        LiftKeeps(cfg, db, Forgive(db, i, InvCredited, now), inv.account);
    }
  }

  lemma AssignKeeps(cfg: Config, db: Db, a: nat, plan: nat, now: int)
    requires Inv(cfg, db)
    ensures Evolves(cfg, db, Committed(db, AssignPlan(db, a, plan, now)))
    ensures Inv(cfg, Committed(db, AssignPlan(db, a, plan, now)))
  {
    AccountsKeep(cfg, db, db.accounts);
    if a < |db.accounts| && plan < |db.plans| {
      ReplaceKeeps(cfg, db, NewSubscription(a, plan, SubActive, now), db.invoices, now);
    }
  }
}
