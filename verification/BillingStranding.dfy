/** When an account can be frozen with nothing left to pay: exactly which steps bring that about. */
module BillingStranding {
  import opened Common
  import opened BillingModel
  import opened BillingInvariant
  import opened BillingRuns
  import opened BillingSweeps

  /** Frozen, and no invoice to pay the way out with. */
  ghost predicate Stranded(db: Db, a: nat) {
    a < |db.accounts| && db.accounts[a].status.AccountRestricted? && !HasUnpaid(db.invoices, a)
  }

  /** An enforcement sweep that ran on the rows its queries could have returned. */
  ghost predicate Effective(db: Db, now: int, e: Event)
    requires e.GraceEnforced?
  {
    && IsPage(DunnedPool(db, true), DueKey(db.invoices), e.limit, e.picked)
    && IsBatch(AbandonedPool(db, now), EXPIRY_LIMIT, e.parked)
  }

  /** All that the account owes is for purchases in `parked`. */
  ghost predicate OwesOnlyFor(db: Db, a: nat, parked: set<nat>) {
    forall k :: 0 <= k < |db.invoices| && db.invoices[k].account == a && db.invoices[k].Unpaid() ==>
      db.invoices[k].subscription in parked
  }

  /** What strands an account: an operator restricts one that owes nothing, or a sweep expires every
      purchase a frozen one still owes for. */
  ghost predicate Strands(db: Db, now: int, e: Event, a: nat) {
    a < |db.accounts| &&
    match e
    case StandingSet(b, status) => b == a && status.AccountRestricted? && !HasUnpaid(db.invoices, a)
    case GraceEnforced(_, _, _, parked) =>
      db.accounts[a].status.AccountRestricted? && Effective(db, now, e) && OwesOnlyFor(db, a, parked)
    case _ => false
  }

  // ---------------------------------------------------------------------------
  // Enforcement
  // ---------------------------------------------------------------------------

  lemma DebtSurvives(cfg: Config, db: Db, accounts: seq<Account>, now: int, parked: set<nat>, a: nat, i: nat)
    requires parked <= AbandonedPool(db, now) && FreezingDebt(cfg, db, now, a, i)
    ensures FreezingDebt(cfg, Expire(db.(accounts := accounts), parked, now), now, a, i)
  {
    assert db.invoices[i].subscription !in parked;
  }

  /** A freeze leaves the debt it is keyed on: it is on a subscription in force, and expiry ends only
      pending ones. */
  lemma FreezeLeavesTheDebt(cfg: Config, db: Db, now: int, e: Event, a: nat)
    requires Inv(cfg, db) && e.GraceEnforced? && a < |db.accounts| && !db.accounts[a].status.AccountRestricted?
    requires a < |Step(cfg, db, now, e).accounts| && Step(cfg, db, now, e).accounts[a].status.AccountRestricted?
    ensures exists i :: FreezingDebt(cfg, Step(cfg, db, now, e), now, a, i)
    ensures HasUnpaid(Step(cfg, db, now, e).invoices, a)
  {
    EnforceAccounts(cfg, db, now, e.limit, e.enabled, e.picked, e.parked, a);
    var i :| FreezingDebt(cfg, db, now, a, i);
    DebtSurvives(cfg, db, Step(cfg, db, now, e).accounts, now, e.parked, a, i);
  }

  lemma EnforceStrandsExactlyWhen(cfg: Config, db: Db, now: int, e: Event, a: nat)
    requires Inv(cfg, db) && e.GraceEnforced? && a < |db.accounts| && !Stranded(db, a)
    ensures Stranded(Step(cfg, db, now, e), a) <==> Strands(db, now, e, a)
  {
    var after := Step(cfg, db, now, e);
    EnforceAccounts(cfg, db, now, e.limit, e.enabled, e.picked, e.parked, a);
    if after.accounts[a].status.AccountRestricted? && !db.accounts[a].status.AccountRestricted? {
      FreezeLeavesTheDebt(cfg, db, now, e, a);
    } else if Effective(db, now, e) {
      ExpiryStrandsExactlyWhen(db, after.accounts, now, e.parked, a);
    }
  }

  lemma ExpiryStrandsExactlyWhen(db: Db, accounts: seq<Account>, now: int, parked: set<nat>, a: nat)
    ensures !HasUnpaid(Expire(db.(accounts := accounts), parked, now).invoices, a) <==> OwesOnlyFor(db, a, parked)
  {
    var after := Expire(db.(accounts := accounts), parked, now).invoices;
    if !OwesOnlyFor(db, a, parked) {
      var k :| 0 <= k < |db.invoices| && db.invoices[k].account == a && db.invoices[k].Unpaid()
               && db.invoices[k].subscription !in parked;
      assert after[k] == db.invoices[k];
    }
  }

  // ---------------------------------------------------------------------------
  // No other step strands an account
  // ---------------------------------------------------------------------------

  /** Row `k` is a debt of the account after the step as well. */
  ghost predicate StillOwed(after: Db, a: nat, k: nat) {
    k < |after.invoices| && after.invoices[k].account == a && after.invoices[k].Unpaid()
  }

  /** A settlement either leaves the account's debts alone or lifts its freeze. */
  lemma SettleKeepsDebt(cfg: Config, db: Db, i: nat, payment: Option<nat>, now: int, a: nat, k: nat)
    requires Inv(cfg, db) && i < |db.invoices| && db.invoices[i].subscription < |db.subs| && StillOwed(db, a, k)
    requires a < |db.accounts|
    ensures var after := Committed(db, SettleInvoice(cfg, db, i, payment, now));
            |after.accounts| == |db.accounts|
              && (after.accounts[a].status.AccountRestricted? ==> StillOwed(after, a, k))
  {}

  lemma ConfirmKeepsDebt(cfg: Config, db: Db, p: nat, now: int, a: nat, k: nat)
    requires Inv(cfg, db) && StillOwed(db, a, k) && a < |db.accounts|
    ensures var after := Committed(db, ConfirmPayment(cfg, db, p, now));
            |after.accounts| == |db.accounts|
              && (after.accounts[a].status.AccountRestricted? ==> StillOwed(after, a, k))
  {
    if p < |db.payments| {
      var marked := db.(payments := Confirmed(db.payments, p));
      PaymentsKeep(cfg, db, marked.payments);
      forall i: nat | i < |db.invoices| && db.invoices[i].subscription < |db.subs|
        ensures var after := Committed(marked, SettleInvoice(cfg, marked, i, Some(p), now));
                |after.accounts| == |db.accounts|
                  && (after.accounts[a].status.AccountRestricted? ==> StillOwed(after, a, k))
      {
        SettleKeepsDebt(cfg, marked, i, Some(p), now, a, k);
      }
    }
  }

  lemma ResolveKeepsDebt(cfg: Config, db: Db, i: nat, action: Resolution, now: int, a: nat, k: nat)
    requires Inv(cfg, db) && StillOwed(db, a, k) && a < |db.accounts|
    ensures var after := Committed(db, ResolveInvoice(cfg, db, i, action, now));
            |after.accounts| == |db.accounts|
              && (after.accounts[a].status.AccountRestricted? ==> StillOwed(after, a, k))
  {
    if i < |db.invoices| && db.invoices[i].subscription < |db.subs| { SettleKeepsDebt(cfg, db, i, None, now, a, k); }
  }

  /** A plan change of a frozen account lifts the freeze or raises the debt it leaves. */
  lemma PlanChangeKeepsDebt(db: Db, b: nat, plan: nat, now: int, a: nat)
    requires HasUnpaid(db.invoices, a) && a < |db.accounts|
    ensures var after := Committed(db, ChangePlan(db, b, plan, now));
            |after.accounts| == |db.accounts|
              && (after.accounts[a].status.AccountRestricted? ==> HasUnpaid(after.invoices, a))
  {
    var k :| 0 <= k < |db.invoices| && db.invoices[k].account == a && db.invoices[k].Unpaid();
    var after := Committed(db, ChangePlan(db, b, plan, now));
    if |after.invoices| > |db.invoices| && b == a {
      assert StillOwed(after, a, |db.invoices|);
    } else if b != a {
      assert after.invoices[k] == db.invoices[k];
    }
  }

  lemma {:induction false} IssueKeepsDebt(db: Db, picked: seq<nat>, a: nat, k: nat)
    requires forall j :: 0 <= j < |picked| ==> picked[j] < |db.subs| && db.subs[picked[j]].plan < |db.plans|
    requires StillOwed(db, a, k)
    ensures StillOwed(IssueAll(db, picked), a, k)
    decreases |picked|
  {
    if picked != [] {
      IssueKeepsDebt(IssueInvoice(db, picked[0], db.subs[picked[0]].nextBillingAt), picked[1..], a, k);
    }
  }

  lemma MintKeepsDebt(db: Db, b: nat, i: nat, open: bool, inWindow: bool, kept: bool, a: nat, k: nat)
    requires StillOwed(db, a, k)
    ensures StillOwed(Committed(db, MintCode(db, b, i, open, inWindow, kept)), a, k)
  {}

  /** Apart from enforcement and operator decisions, an account that stays frozen still owes. */
  lemma OtherStepsKeepDebt(cfg: Config, db: Db, now: int, e: Event, a: nat)
    requires Inv(cfg, db) && !e.StandingSet? && !e.GraceEnforced? && a < |db.accounts| && HasUnpaid(db.invoices, a)
    requires a < |Step(cfg, db, now, e).accounts| && Step(cfg, db, now, e).accounts[a].status.AccountRestricted?
    ensures HasUnpaid(Step(cfg, db, now, e).invoices, a)
  {
    var k :| 0 <= k < |db.invoices| && db.invoices[k].account == a && db.invoices[k].Unpaid();
    var after := Step(cfg, db, now, e);
    assert StillOwed(db, a, k);
    if e.PlanChanged? {
      PlanChangeKeepsDebt(db, e.account, e.plan, now, a);
    } else {
      assert StillOwed(after, a, k) by { RowStaysOwed(cfg, db, now, e, a, k); }
    }
  }

  lemma RowStaysOwed(cfg: Config, db: Db, now: int, e: Event, a: nat, k: nat)
    requires Inv(cfg, db) && !e.StandingSet? && !e.GraceEnforced? && !e.PlanChanged? && a < |db.accounts|
    requires StillOwed(db, a, k)
    requires a < |Step(cfg, db, now, e).accounts| && Step(cfg, db, now, e).accounts[a].status.AccountRestricted?
    ensures StillOwed(Step(cfg, db, now, e), a, k)
  {
    match e
    case InvoicesIssued(limit, picked) =>
      if IsPage(IssuePool(cfg, db, now), BillingKey(db.subs), limit, picked) { IssueKeepsDebt(db, picked, a, k); }
    case CodeMinted(b, i, open, inWindow, kept) => MintKeepsDebt(db, b, i, open, inWindow, kept, a, k);
    case PaymentConfirmed(p) => ConfirmKeepsDebt(cfg, db, p, now, a, k);
    case InvoiceResolved(i, action) => ResolveKeepsDebt(cfg, db, i, action, now, a, k);
    case _ =>
  }

  // ---------------------------------------------------------------------------
  // Every step, every run
  // ---------------------------------------------------------------------------

  /** From a database where the account is not stranded, a step strands it exactly when it is one of
      the two above. */
  lemma StrandedExactlyWhen(cfg: Config, db: Db, now: int, e: Event, a: nat)
    requires Inv(cfg, db) && !Stranded(db, a)
    ensures Stranded(Step(cfg, db, now, e), a) <==> Strands(db, now, e, a)
  {
    var after := Step(cfg, db, now, e);
    if e.GraceEnforced? {
      if a < |db.accounts| { EnforceStrandsExactlyWhen(cfg, db, now, e, a); }
    } else if !e.StandingSet? {
      OtherAccounts(cfg, db, now, e);
      if a < |db.accounts| && after.accounts[a].status.AccountRestricted? { OtherStepsKeepDebt(cfg, db, now, e, a); }
    }
  }

  /** At no instant of the run is the account stranded. */
  ghost predicate NeverStranded(cfg: Config, db: Db, trace: seq<Tick>, a: nat)
    decreases |trace|
  {
    && !Stranded(db, a)
    && (trace == [] || NeverStranded(cfg, Step(cfg, db, trace[0].now, trace[0].event), trace[1..], a))
  }

  ghost predicate NothingStrands(cfg: Config, db: Db, trace: seq<Tick>, a: nat)
    decreases |trace|
  {
    trace == [] ||
    (!Strands(db, trace[0].now, trace[0].event, a)
     && NothingStrands(cfg, Step(cfg, db, trace[0].now, trace[0].event), trace[1..], a))
  }

  lemma {:induction false} RunStrandsExactlyWhen(cfg: Config, db: Db, trace: seq<Tick>, a: nat)
    requires Inv(cfg, db) && !Stranded(db, a)
    ensures NeverStranded(cfg, db, trace, a) <==> NothingStrands(cfg, db, trace, a)
    decreases |trace|
  {
    if trace != [] {
      var next := Step(cfg, db, trace[0].now, trace[0].event);
      StepKeepsInv(cfg, db, trace[0].now, trace[0].event);
      StrandedExactlyWhen(cfg, db, trace[0].now, trace[0].event, a);
      if !Stranded(next, a) { RunStrandsExactlyWhen(cfg, next, trace[1..], a); }
    }
  }

  /** Along every run, a frozen account always has something to pay if and only if no operator
      restricts it while it owes nothing and no sweep expires all it owes for. */
  lemma FrozenOwesExactlyWhen(cfg: Config, trace: seq<Tick>, a: nat)
    ensures NeverStranded(cfg, EMPTY, trace, a) <==> NothingStrands(cfg, EMPTY, trace, a)
  {
    EmptyOk(cfg, 0);
    RunStrandsExactlyWhen(cfg, EMPTY, trace, a);
  }
}
