/** The batched sweeps: what a freeze rests on and leaves alone, and why repeating a sweep at one
    instant converges. */
module BillingSweeps {
  import opened Common
  import opened BillingModel
  import opened BillingInvariant
  import opened BillingRuns

  // ---------------------------------------------------------------------------
  // Freeze soundness
  // ---------------------------------------------------------------------------

  /** The debt a freeze is keyed on: unpaid, on coverage in force, past its grace. */
  ghost predicate FreezingDebt(cfg: Config, db: Db, now: int, a: nat, i: nat) {
    && i < |db.invoices| && db.invoices[i].account == a && db.invoices[i].Unpaid()
    && db.invoices[i].subscription < |db.subs| && db.subs[db.invoices[i].subscription].Live()
    && db.invoices[i].dueAt + cfg.Grace() <= now
  }

  /** What a step other than enforcement or an operator's decision may do to an account: nothing,
      lift a freeze, or make it a platform admin. */
  ghost predicate AccountStep(x: Account, y: Account) {
    || y == x
    || (x.status.AccountRestricted? && y == x.(status := AccountActive))
    || y == x.(isPlatformAdmin := true)
  }

  ghost predicate AccountsStep(db: Db, after: Db) {
    && |db.accounts| <= |after.accounts|
    && (forall a :: 0 <= a < |db.accounts| ==> AccountStep(db.accounts[a], after.accounts[a]))
    && (forall a :: |db.accounts| <= a < |after.accounts| ==> after.accounts[a].status.AccountActive?)
  }

  lemma SettleAccounts(cfg: Config, db: Db, i: nat, payment: Option<nat>, now: int)
    requires i < |db.invoices| && db.invoices[i].subscription < |db.subs|
    ensures AccountsStep(db, Committed(db, SettleInvoice(cfg, db, i, payment, now)))
  {}

  lemma ConfirmAccounts(cfg: Config, db: Db, p: nat, now: int)
    ensures AccountsStep(db, Committed(db, ConfirmPayment(cfg, db, p, now)))
  {
    if p < |db.payments| {
      var marked := db.(payments := Confirmed(db.payments, p));
      forall i: nat | i < |db.invoices| && db.invoices[i].subscription < |db.subs|
        ensures AccountsStep(db, Committed(marked, SettleInvoice(cfg, marked, i, Some(p), now)))
      {
        SettleAccounts(cfg, marked, i, Some(p), now);
      }
    }
  }

  lemma ResolveAccounts(cfg: Config, db: Db, i: nat, action: Resolution, now: int)
    ensures AccountsStep(db, Committed(db, ResolveInvoice(cfg, db, i, action, now)))
  {
    if i < |db.invoices| && db.invoices[i].subscription < |db.subs| { SettleAccounts(cfg, db, i, None, now); }
  }

  lemma OtherAccounts(cfg: Config, db: Db, now: int, e: Event)
    requires Inv(cfg, db) && !e.StandingSet? && !e.GraceEnforced?
    ensures AccountsStep(db, Step(cfg, db, now, e))
  {
    if e.InvoicesIssued? {
      if IsPage(IssuePool(cfg, db, now), BillingKey(db.subs), e.limit, e.picked) { IssueAllFrame(db, e.picked); }
    } else if e.PaymentConfirmed? {
      ConfirmAccounts(cfg, db, e.payment, now);
    } else if e.InvoiceResolved? {
      ResolveAccounts(cfg, db, e.invoice, e.action, now);
    }
  }

  /** The sweep changes an account only by freezing it over a debt past its grace. */
  lemma EnforceAccounts(
      cfg: Config, db: Db, now: int, limit: nat, enabled: bool, picked: seq<nat>, parked: set<nat>, a: nat)
    requires a < |db.accounts|
    ensures var after := EnforceSweep(cfg, db, now, limit, enabled, picked, parked);
            && |after.accounts| == |db.accounts|
            && (after.accounts[a] != db.accounts[a] ==>
                  && enabled && after.accounts[a] == db.accounts[a].(status := AccountRestricted)
                  && db.accounts[a].status.AccountActive? && !db.accounts[a].isPlatformAdmin
                  && exists i :: FreezingDebt(cfg, db, now, a, i))
  {
    var after := EnforceSweep(cfg, db, now, limit, enabled, picked, parked);
    if after.accounts[a] != db.accounts[a] {
      assert a in FreezeTargets(cfg, db, picked, now);
      var i :| i in picked && i < |db.invoices| && GraceOver(cfg, db.invoices[i], now) && db.invoices[i].account == a;
      assert i in DunnedPool(db, true) && Dunned(db, true, i);
      assert FreezingDebt(cfg, db, now, a, i);
    }
  }

  /** Apart from an operator's own decision, only the enabled enforcement sweep freezes, only an
      active account that is not a platform admin, and only over a debt past its grace. */
  lemma EveryFreezeIsOwed(cfg: Config, db: Db, now: int, e: Event, a: nat)
    requires Inv(cfg, db) && a < |db.accounts| && !e.StandingSet?
    requires !db.accounts[a].status.AccountRestricted?
    requires a < |Step(cfg, db, now, e).accounts| && Step(cfg, db, now, e).accounts[a].status.AccountRestricted?
    ensures e.GraceEnforced? && e.enabled
    ensures db.accounts[a].status.AccountActive? && !db.accounts[a].isPlatformAdmin
    ensures exists i :: FreezingDebt(cfg, db, now, a, i)
  {
    if e.GraceEnforced? {
      EnforceAccounts(cfg, db, now, e.limit, e.enabled, e.picked, e.parked, a);
    } else {
      OtherAccounts(cfg, db, now, e);
      assert false;
    }
  }

  /** Billing never lifts a suspension and never revokes or freezes a platform admin. */
  lemma StandingIsTheOperators(cfg: Config, db: Db, now: int, e: Event, a: nat)
    requires Inv(cfg, db) && a < |db.accounts| && !e.StandingSet?
    ensures a < |Step(cfg, db, now, e).accounts|
    ensures db.accounts[a].status.AccountSuspended? <==> Step(cfg, db, now, e).accounts[a].status.AccountSuspended?
    ensures db.accounts[a].isPlatformAdmin ==> Step(cfg, db, now, e).accounts[a].isPlatformAdmin
    ensures db.accounts[a].isPlatformAdmin && !db.accounts[a].status.AccountRestricted? ==>
              !Step(cfg, db, now, e).accounts[a].status.AccountRestricted?
  {
    if e.GraceEnforced? {
      EnforceAccounts(cfg, db, now, e.limit, e.enabled, e.picked, e.parked, a);
    } else {
      OtherAccounts(cfg, db, now, e);
      assert AccountStep(db.accounts[a], Step(cfg, db, now, e).accounts[a]);
    }
  }

  /** Over any run in which no operator changes standings: suspended accounts stay suspended and
      platform admins are never restricted. */
  lemma {:induction false} RunKeepsStandings(cfg: Config, db: Db, trace: seq<Tick>, a: nat)
    requires Inv(cfg, db) && a < |db.accounts| && forall k :: 0 <= k < |trace| ==> !trace[k].event.StandingSet?
    ensures a < |Run(cfg, db, trace).accounts|
    ensures db.accounts[a].status.AccountSuspended? <==> Run(cfg, db, trace).accounts[a].status.AccountSuspended?
    ensures db.accounts[a].isPlatformAdmin && !db.accounts[a].status.AccountRestricted? ==>
              !Run(cfg, db, trace).accounts[a].status.AccountRestricted?
    decreases |trace|
  {
    if trace != [] {
      StepKeepsInv(cfg, db, trace[0].now, trace[0].event);
      StandingIsTheOperators(cfg, db, trace[0].now, trace[0].event, a);
      RunKeepsStandings(cfg, Step(cfg, db, trace[0].now, trace[0].event), trace[1..], a);
    }
  }

  /** A freeze takes one field: every subscription that is not an abandoned purchase, and every
      invoice outside those purchases, is left as it was. */
  lemma FreezeFrame(cfg: Config, db: Db, now: int, limit: nat, enabled: bool, picked: seq<nat>, parked: set<nat>)
    ensures var after := EnforceSweep(cfg, db, now, limit, enabled, picked, parked);
            && |after.subs| == |db.subs| && |after.invoices| == |db.invoices|
            && after.plans == db.plans && after.payments == db.payments && after.codes == db.codes
            && (forall k: nat :: k < |db.subs| && !Abandoned(db, now, k) ==> after.subs[k] == db.subs[k])
            && (forall i :: 0 <= i < |db.invoices| && !Abandoned(db, now, db.invoices[i].subscription)
                  ==> after.invoices[i] == db.invoices[i])
            && (!enabled ==> after.accounts == db.accounts)
  {}

  // ---------------------------------------------------------------------------
  // Repeated issue sweeps
  // ---------------------------------------------------------------------------

  /** After the loop exactly the selected rows have their current window claimed as well. */
  lemma {:induction false} IssueAllClaims(db: Db, picked: seq<nat>, s: nat)
    requires forall j :: 0 <= j < |picked| ==> picked[j] < |db.subs| && db.subs[picked[j]].plan < |db.plans|
                                               && db.plans[db.subs[picked[j]].plan].fee > 0
    requires s < |db.subs|
    ensures Claimed(IssueAll(db, picked).invoices, s, db.subs[s].nextBillingAt) <==>
              Claimed(db.invoices, s, db.subs[s].nextBillingAt) || s in picked
    decreases |picked|
  {
    if picked != [] {
      var start := db.subs[picked[0]].nextBillingAt;
      var next := IssueInvoice(db, picked[0], start);
      IssueOneClaims(db, picked[0], s);
      IssueAllClaims(next, picked[1..], s);
    }
  }

  lemma IssueOneClaims(db: Db, t: nat, s: nat)
    requires t < |db.subs| && db.subs[t].plan < |db.plans| && db.plans[db.subs[t].plan].fee > 0 && s < |db.subs|
    ensures Claimed(IssueInvoice(db, t, db.subs[t].nextBillingAt).invoices, s, db.subs[s].nextBillingAt) <==>
              Claimed(db.invoices, s, db.subs[s].nextBillingAt) || s == t
  {
    var after := IssueInvoice(db, t, db.subs[t].nextBillingAt);
    if after != db {
      assert Claims(after.invoices[|db.invoices|], t, db.subs[t].nextBillingAt);
      forall k | 0 <= k < |db.invoices| ensures after.invoices[k] == db.invoices[k] {}
      if k :| 0 <= k < |db.invoices| && Claims(db.invoices[k], s, db.subs[s].nextBillingAt) {
        assert Claims(after.invoices[k], s, db.subs[s].nextBillingAt);
      }
    }
  }

  /** One sweep takes its page out of the pool and puts nothing in. */
  lemma IssueSweepShrinks(cfg: Config, db: Db, now: int, limit: nat, picked: seq<nat>)
    requires IsPage(IssuePool(cfg, db, now), BillingKey(db.subs), limit, picked)
    ensures var after := IssueSweep(cfg, db, now, limit, picked);
            && after == db.(invoices := after.invoices)
            && IssuePool(cfg, after, now) == IssuePool(cfg, db, now) - (set s | s in picked)
            && (limit > 0 && IssuePool(cfg, db, now) != {} ==> picked != [])
            && (IssuePool(cfg, db, now) == {} ==> after == db)
  {
    var after := IssueSweep(cfg, db, now, limit, picked);
    IssueAllFrame(db, picked);
    forall s: nat | s < |db.subs|
      ensures DueForIssue(cfg, after, now, s) <==> DueForIssue(cfg, db, now, s) && s !in picked
    {
      IssueAllClaims(db, picked, s);
    }
    assert picked != [] ==> picked[0] in IssuePool(cfg, db, now);
    assert limit > 0 && picked == [] ==> forall s :: s in IssuePool(cfg, db, now) ==> s in picked;
  }

  ghost function IssueSweeps(cfg: Config, db: Db, now: int, limit: nat, pages: seq<seq<nat>>): Db
    decreases |pages|
  {
    if pages == [] then db else IssueSweeps(cfg, IssueSweep(cfg, db, now, limit, pages[0]), now, limit, pages[1..])
  }

  /** Each sweep saw the database the previous one left. */
  ghost predicate IssuePages(cfg: Config, db: Db, now: int, limit: nat, pages: seq<seq<nat>>)
    decreases |pages|
  {
    pages == [] ||
    (IsPage(IssuePool(cfg, db, now), BillingKey(db.subs), limit, pages[0])
     && IssuePages(cfg, IssueSweep(cfg, db, now, limit, pages[0]), now, limit, pages[1..]))
  }

  /** At a fixed instant, at most as many sweeps as there are due subscriptions, of any positive batch
      size, empty the pool; each one that was due then holds exactly one invoice that is not void for
      its current window, and a further sweep changes nothing. */
  lemma {:induction false} IssueSweepsConverge(cfg: Config, db: Db, now: int, limit: nat, pages: seq<seq<nat>>)
    requires Inv(cfg, db) && limit > 0 && IssuePages(cfg, db, now, limit, pages)
    requires |pages| >= |IssuePool(cfg, db, now)|
    ensures var after := IssueSweeps(cfg, db, now, limit, pages);
            && Inv(cfg, after) && after == db.(invoices := after.invoices)
            && IssuePool(cfg, after, now) == {}
            && (forall s :: s in IssuePool(cfg, db, now) ==> Claimed(after.invoices, s, db.subs[s].nextBillingAt))
            && (forall page :: IssueSweep(cfg, after, now, limit, page) == after)
    decreases |pages|
  {
    var pool := IssuePool(cfg, db, now);
    if pool == {} || pages == [] {
      forall page ensures IssueSweep(cfg, db, now, limit, page) == db {
        if IsPage(pool, BillingKey(db.subs), limit, page) { IssueSweepShrinks(cfg, db, now, limit, page); }
      }
      if pages != [] {
        IssueSweepShrinks(cfg, db, now, limit, pages[0]);
        IssueSweepsConverge(cfg, db, now, limit, pages[1..]);
      }
    } else {
      var next := IssueSweep(cfg, db, now, limit, pages[0]);
      IssueSweepShrinks(cfg, db, now, limit, pages[0]);
      IssueAllKeeps(cfg, db, pages[0]);
      assert IssuePool(cfg, next, now) < pool by { assert pages[0][0] in pool; }
      SmallerSet(IssuePool(cfg, next, now), pool);
      IssueSweepsConverge(cfg, next, now, limit, pages[1..]);
      SweepsKeepClaims(cfg, db, now, limit, pages);
    }
  }

  lemma SmallerSet(a: set<nat>, b: set<nat>)
    requires a < b
    ensures |a| < |b|
  {
    assert b == a + (b - a) && b - a != {};
  }

  /** What the first sweep claims stays claimed, and what it leaves is claimed by a later one. */
  lemma SweepsKeepClaims(cfg: Config, db: Db, now: int, limit: nat, pages: seq<seq<nat>>)
    requires pages != [] && IssuePages(cfg, db, now, limit, pages)
    requires var next := IssueSweep(cfg, db, now, limit, pages[0]);
             var after := IssueSweeps(cfg, next, now, limit, pages[1..]);
             && IssuePool(cfg, after, now) == {} && after == next.(invoices := after.invoices)
    ensures var after := IssueSweeps(cfg, db, now, limit, pages);
            forall s :: s in IssuePool(cfg, db, now) ==> Claimed(after.invoices, s, db.subs[s].nextBillingAt)
  {
    var next := IssueSweep(cfg, db, now, limit, pages[0]);
    var after := IssueSweeps(cfg, db, now, limit, pages);
    IssueSweepShrinks(cfg, db, now, limit, pages[0]);
    forall s | s in IssuePool(cfg, db, now) ensures Claimed(after.invoices, s, db.subs[s].nextBillingAt) {
      assert s !in IssuePool(cfg, after, now);
    }
  }

  // ---------------------------------------------------------------------------
  // Repeated enforcement
  // ---------------------------------------------------------------------------

  /** The accounts the enforcement still has to freeze. */
  ghost function Freezable(cfg: Config, db: Db, now: int): set<nat> {
    set i | i in DunnedPool(db, true) && GraceOver(cfg, db.invoices[i], now) :: db.invoices[i].account
  }

  /** A sweep neither adds nor moves a debt on live coverage. */
  lemma DunnedAfter(cfg: Config, db: Db, now: int, limit: nat, picked: seq<nat>, parked: set<nat>, i: nat)
    requires IsPage(DunnedPool(db, true), DueKey(db.invoices), limit, picked)
    requires IsBatch(AbandonedPool(db, now), EXPIRY_LIMIT, parked)
    requires i < |db.invoices|
    ensures var after := EnforceSweep(cfg, db, now, limit, true, picked, parked);
            && |after.invoices| == |db.invoices| && after.invoices[i].dueAt == db.invoices[i].dueAt
            && after.invoices[i].account == db.invoices[i].account
            && (Dunned(after, true, i) <==>
                  Dunned(db, true, i) && db.invoices[i].account !in FreezeTargets(cfg, db, picked, now))
  {
    var after := EnforceSweep(cfg, db, now, limit, true, picked, parked);
    if db.invoices[i].subscription in parked {
      assert Abandoned(db, now, db.invoices[i].subscription);
    }
  }

  /** One enabled sweep freezes the accounts on its page that are past their grace, and at least one
      whenever any is left. */
  lemma EnforceSweepShrinks(cfg: Config, db: Db, now: int, limit: nat, picked: seq<nat>, parked: set<nat>)
    requires IsPage(DunnedPool(db, true), DueKey(db.invoices), limit, picked)
    requires IsBatch(AbandonedPool(db, now), EXPIRY_LIMIT, parked)
    ensures var after := EnforceSweep(cfg, db, now, limit, true, picked, parked);
            && Freezable(cfg, after, now) == Freezable(cfg, db, now) - FreezeTargets(cfg, db, picked, now)
            && (limit > 0 && Freezable(cfg, db, now) != {} ==> Freezable(cfg, after, now) < Freezable(cfg, db, now))
            && (Freezable(cfg, db, now) == {} ==> after.accounts == db.accounts)
  {
    var after := EnforceSweep(cfg, db, now, limit, true, picked, parked);
    var targets := FreezeTargets(cfg, db, picked, now);
    forall i: nat | i < |db.invoices|
      ensures |after.invoices| == |db.invoices|
      ensures i in DunnedPool(after, true) <==> i in DunnedPool(db, true) && db.invoices[i].account !in targets
      ensures after.invoices[i].account == db.invoices[i].account && after.invoices[i].dueAt == db.invoices[i].dueAt
    {
      DunnedAfter(cfg, db, now, limit, picked, parked, i);
    }
    FreezableMinus(cfg, db, after, now, targets);
    assert targets <= Freezable(cfg, db, now);
    if limit > 0 && Freezable(cfg, db, now) != {} {
      FirstIsOver(cfg, db, now, limit, picked);
    }
  }

  lemma FreezableMinus(cfg: Config, db: Db, after: Db, now: int, targets: set<nat>)
    requires |after.invoices| == |db.invoices| || |db.invoices| == 0
    requires |db.invoices| == 0 ==> after.invoices == []
    requires forall i: nat :: i < |db.invoices| ==>
               && (i in DunnedPool(after, true) <==> i in DunnedPool(db, true) && db.invoices[i].account !in targets)
               && after.invoices[i].account == db.invoices[i].account && after.invoices[i].dueAt == db.invoices[i].dueAt
    ensures Freezable(cfg, after, now) == Freezable(cfg, db, now) - targets
  {
    forall a | a in Freezable(cfg, after, now) ensures a in Freezable(cfg, db, now) - targets {
      var i :| i in DunnedPool(after, true) && GraceOver(cfg, after.invoices[i], now) && after.invoices[i].account == a;
      assert i in DunnedPool(db, true) && GraceOver(cfg, db.invoices[i], now);
    }
    forall a | a in Freezable(cfg, db, now) - targets ensures a in Freezable(cfg, after, now) {
      var i :| i in DunnedPool(db, true) && GraceOver(cfg, db.invoices[i], now) && db.invoices[i].account == a;
      assert i in DunnedPool(after, true) && GraceOver(cfg, after.invoices[i], now);
    }
  }

  /** The oldest debt comes first on the page, so if any is past its grace the first one is. */
  lemma FirstIsOver(cfg: Config, db: Db, now: int, limit: nat, picked: seq<nat>)
    requires IsPage(DunnedPool(db, true), DueKey(db.invoices), limit, picked) && limit > 0
    requires Freezable(cfg, db, now) != {}
    ensures Freezable(cfg, db, now) * FreezeTargets(cfg, db, picked, now) != {}
  {
    var i :| i in DunnedPool(db, true) && GraceOver(cfg, db.invoices[i], now);
    assert picked != [];
    var first := picked[0];
    assert DueKey(db.invoices)(first) <= DueKey(db.invoices)(i) by {
      if i in picked { var j :| 0 <= j < |picked| && picked[j] == i; }
    }
    assert first in DunnedPool(db, true) && GraceOver(cfg, db.invoices[first], now);
    assert db.invoices[first].account in Freezable(cfg, db, now) * FreezeTargets(cfg, db, picked, now);
  }

  ghost function EnforceSweeps(
      cfg: Config, db: Db, now: int, limit: nat, enabled: bool, pages: seq<(seq<nat>, set<nat>)>): Db
    decreases |pages|
  {
    if pages == [] then db
    else
      var next := EnforceSweep(cfg, db, now, limit, enabled, pages[0].0, pages[0].1);
      EnforceSweeps(cfg, next, now, limit, enabled, pages[1..])
  }

  /** Each sweep saw the database the previous one left. */
  ghost predicate EnforcePages(
      cfg: Config, db: Db, now: int, limit: nat, enabled: bool, pages: seq<(seq<nat>, set<nat>)>)
    decreases |pages|
  {
    pages == [] ||
    (IsPage(DunnedPool(db, true), DueKey(db.invoices), limit, pages[0].0)
     && IsBatch(AbandonedPool(db, now), EXPIRY_LIMIT, pages[0].1)
     && var next := EnforceSweep(cfg, db, now, limit, enabled, pages[0].0, pages[0].1);
        EnforcePages(cfg, next, now, limit, enabled, pages[1..]))
  }

  /** At a fixed instant with the flag on, at most as many sweeps as there are accounts to freeze, of
      any positive batch size, leave no account that is past its grace unfrozen. */
  lemma {:induction false} EnforceSweepsConverge(
      cfg: Config, db: Db, now: int, limit: nat, pages: seq<(seq<nat>, set<nat>)>)
    requires limit > 0 && EnforcePages(cfg, db, now, limit, true, pages) && |pages| >= |Freezable(cfg, db, now)|
    ensures var after := EnforceSweeps(cfg, db, now, limit, true, pages);
            && Freezable(cfg, after, now) == {}
            && forall page, parked ::
               EnforceSweep(cfg, after, now, limit, true, page, parked).accounts == after.accounts
    decreases |pages|
  {
    if pages != [] {
      var next := EnforceSweep(cfg, db, now, limit, true, pages[0].0, pages[0].1);
      EnforceSweepShrinks(cfg, db, now, limit, pages[0].0, pages[0].1);
      if Freezable(cfg, db, now) != {} { SmallerSet(Freezable(cfg, next, now), Freezable(cfg, db, now)); }
      EnforceSweepsConverge(cfg, next, now, limit, pages[1..]);
    } else {
      forall page, parked ensures EnforceSweep(cfg, db, now, limit, true, page, parked).accounts == db.accounts {
        if IsPage(DunnedPool(db, true), DueKey(db.invoices), limit, page)
           && IsBatch(AbandonedPool(db, now), EXPIRY_LIMIT, parked)
        {
          EnforceSweepShrinks(cfg, db, now, limit, page, parked);
        }
      }
    }
  }

  // ---------------------------------------------------------------------------
  // Repeated expiry
  // ---------------------------------------------------------------------------

  /** The purchase is over: canceled, with nothing left to pay. */
  ghost predicate Over(db: Db, s: nat) {
    && s < |db.subs| && db.subs[s].status.SubCanceled?
    && (forall k :: 0 <= k < |db.invoices| && db.invoices[k].subscription == s ==> !db.invoices[k].Unpaid())
  }

  lemma ExpiryLeaves(db: Db, now: int, accounts: seq<Account>, parked: set<nat>)
    ensures AbandonedPool(Expire(db.(accounts := accounts), parked, now), now) == AbandonedPool(db, now) - parked
  {}

  lemma ExpiryEnds(db: Db, now: int, accounts: seq<Account>, parked: set<nat>, s: nat)
    requires s < |db.subs| && (s in parked || Over(db, s))
    ensures Over(Expire(db.(accounts := accounts), parked, now), s)
  {}

  lemma LeftOver(pool: set<nat>, taken: set<nat>)
    requires IsBatch(pool, EXPIRY_LIMIT, taken)
    ensures |pool - taken| == Max(0, |pool| - EXPIRY_LIMIT)
  {
    assert pool == (pool - taken) + taken;
  }

  /** One sweep, whatever the flag, takes min(500, all) abandoned purchases out of the pool and ends
      them; none enters it, and one that is over stays over. */
  lemma ExpirySweepShrinks(cfg: Config, db: Db, now: int, limit: nat, enabled: bool, picked: seq<nat>, parked: set<nat>)
    requires IsPage(DunnedPool(db, true), DueKey(db.invoices), limit, picked)
    requires IsBatch(AbandonedPool(db, now), EXPIRY_LIMIT, parked)
    ensures var after := EnforceSweep(cfg, db, now, limit, enabled, picked, parked);
            && AbandonedPool(after, now) == AbandonedPool(db, now) - parked
            && |AbandonedPool(after, now)| == Max(0, |AbandonedPool(db, now)| - EXPIRY_LIMIT)
            && (forall s: nat :: s in parked || Over(db, s) ==> Over(after, s))
  {
    var accounts := EnforceSweep(cfg, db, now, limit, enabled, picked, parked).accounts;
    ExpiryLeaves(db, now, accounts, parked);
    LeftOver(AbandonedPool(db, now), parked);
    forall s: nat | s in parked || Over(db, s) ensures Over(Expire(db.(accounts := accounts), parked, now), s) {
      ExpiryEnds(db, now, accounts, parked, s);
    }
  }

  /** At a fixed instant, enough sweeps to cover all abandoned purchases at 500 a sweep end every one
      of them, whether freezing is enabled or not, and leave none. */
  lemma {:induction false} ExpirySweepsConverge(
      cfg: Config, db: Db, now: int, limit: nat, enabled: bool, pages: seq<(seq<nat>, set<nat>)>)
    requires EnforcePages(cfg, db, now, limit, enabled, pages) && EXPIRY_LIMIT * |pages| >= |AbandonedPool(db, now)|
    ensures var after := EnforceSweeps(cfg, db, now, limit, enabled, pages);
            && AbandonedPool(after, now) == {}
            && (forall s: nat :: s in AbandonedPool(db, now) || Over(db, s) ==> Over(after, s))
    decreases |pages|
  {
    if pages != [] {
      ExpirySweepShrinks(cfg, db, now, limit, enabled, pages[0].0, pages[0].1);
      var next := EnforceSweep(cfg, db, now, limit, enabled, pages[0].0, pages[0].1);
      ExpirySweepsConverge(cfg, next, now, limit, enabled, pages[1..]);
    }
  }

  // ---------------------------------------------------------------------------
  // The same, in the rows' own fields
  // ---------------------------------------------------------------------------

  /** Some invoice that is not void is for the window `start` of subscription `s`. */
  ghost predicate Billed(db: Db, s: nat, start: int) {
    exists k :: 0 <= k < |db.invoices| && db.invoices[k].subscription == s && db.invoices[k].periodStart == start
                && !db.invoices[k].status.InvVoid?
  }

  lemma {:induction false} SmallPool(pool: set<nat>, n: nat)
    requires forall x :: x in pool ==> x < n
    ensures |pool| <= n
    decreases n
  {
    if n == 0 {
      assert pool == {};
    } else {
      var rest := pool - {n - 1};
      SmallPool(rest, n - 1);
      assert pool <= rest + {n - 1};
      SubsetSize(pool, rest + {n - 1});
    }
  }

  lemma SubsetSize(a: set<nat>, b: set<nat>)
    requires a <= b
    ensures |a| <= |b|
  {
    assert b == a + (b - a);
  }

  /** Enough issue sweeps leave every subscription in force on a paid plan, whose coverage ends within the
      lead, with an invoice for that window. */
  lemma EveryRenewalIsRaised(cfg: Config, db: Db, now: int, limit: nat, pages: seq<seq<nat>>, s: nat)
    requires Inv(cfg, db) && limit > 0 && IssuePages(cfg, db, now, limit, pages) && |pages| >= |db.subs|
    requires s < |db.subs| && (db.subs[s].status.SubActive? || db.subs[s].status.SubTrial?)
    requires db.subs[s].plan < |db.plans| && db.plans[db.subs[s].plan].fee > 0
    requires db.subs[s].nextBillingAt <= now + cfg.Lead()
    ensures Billed(IssueSweeps(cfg, db, now, limit, pages), s, db.subs[s].nextBillingAt)
  {
    var start, after := db.subs[s].nextBillingAt, IssueSweeps(cfg, db, now, limit, pages);
    SmallPool(IssuePool(cfg, db, now), |db.subs|);
    IssueSweepsConverge(cfg, db, now, limit, pages);
    assert !DueForIssue(cfg, after, now, s) by { assert s !in IssuePool(cfg, after, now); }
    var k :| 0 <= k < |after.invoices| && Claims(after.invoices[k], s, start);
    assert !after.invoices[k].status.InvVoid?;
  }

  /** A sweep takes the subscriptions that are due soonest, and all of them when its limit allows. */
  lemma IssueTakesTheOldestFirst(cfg: Config, db: Db, now: int, limit: nat, picked: seq<nat>, j: nat, s: nat)
    requires IsPage(IssuePool(cfg, db, now), BillingKey(db.subs), limit, picked) && s < |db.subs|
    requires db.subs[s].Live() && db.subs[s].plan < |db.plans| && db.plans[db.subs[s].plan].fee > 0
    requires db.subs[s].nextBillingAt <= now + cfg.Lead() && !Billed(db, s, db.subs[s].nextBillingAt) && s !in picked
    ensures |picked| == limit
    ensures j < limit ==> picked[j] < |db.subs| && db.subs[picked[j]].nextBillingAt <= db.subs[s].nextBillingAt
  {
    assert DueForIssue(cfg, db, now, s);
    assert s in IssuePool(cfg, db, now);
    if j < limit { assert picked[j] in IssuePool(cfg, db, now); }
  }

  /** Enough enabled sweeps leave no active account, other than a platform admin's, with an unpaid invoice
      on coverage in force whose grace is over. */
  lemma EveryOverdueAccountIsFrozen(
      cfg: Config, db: Db, now: int, limit: nat, pages: seq<(seq<nat>, set<nat>)>, a: nat, i: nat)
    requires limit > 0 && EnforcePages(cfg, db, now, limit, true, pages) && |pages| >= |db.accounts|
    ensures var after := EnforceSweeps(cfg, db, now, limit, true, pages);
            a < |after.accounts| && after.accounts[a].status.AccountActive? && !after.accounts[a].isPlatformAdmin ==>
              !FreezingDebt(cfg, after, now, a, i)
  {
    var pool, after := Freezable(cfg, db, now), EnforceSweeps(cfg, db, now, limit, true, pages);
    SmallPool(pool, |db.accounts|);
    EnforceSweepsConverge(cfg, db, now, limit, pages);
    if a < |after.accounts| && after.accounts[a].status.AccountActive? && !after.accounts[a].isPlatformAdmin
       && FreezingDebt(cfg, after, now, a, i)
    {
      DebtIsFreezable(cfg, after, now, a, i);
    }
  }

  lemma DebtIsFreezable(cfg: Config, db: Db, now: int, a: nat, i: nat)
    requires a < |db.accounts| && db.accounts[a].status.AccountActive? && !db.accounts[a].isPlatformAdmin
    requires FreezingDebt(cfg, db, now, a, i)
    ensures a in Freezable(cfg, db, now)
  {
    assert i in DunnedPool(db, true) && GraceOver(cfg, db.invoices[i], now);
  }

  // ---------------------------------------------------------------------------
  // How long a purchase is kept
  // ---------------------------------------------------------------------------

  /** A purchase nobody paid for is ended by an enforcement sweep only, and only once it is a whole credit
      period old. */
  lemma PurchaseEndsOnlyByAge(cfg: Config, db: Db, now: int, e: Event, s: nat)
    requires Inv(cfg, db) && s < |db.subs| && db.subs[s].status.SubPending?
    requires s < |Step(cfg, db, now, e).subs| && Step(cfg, db, now, e).subs[s].status.SubCanceled?
    ensures e.GraceEnforced? && db.subs[s].createdAt + CREDIT <= now
  {
    if e.GraceEnforced? {
      if s in e.parked { assert e.parked <= AbandonedPool(db, now) ==> s in AbandonedPool(db, now); }
    } else if e.InvoicesIssued? {
      if IsPage(IssuePool(cfg, db, now), BillingKey(db.subs), e.limit, e.picked) { IssueAllFrame(db, e.picked); }
      assert false;
    } else {
      PendingSurvives(cfg, db, now, e, s);
      assert false;
    }
  }

  lemma SettleLeavesPending(cfg: Config, db: Db, i: nat, payment: Option<nat>, now: int, s: nat)
    requires i < |db.invoices| && db.invoices[i].subscription < |db.subs| && s < |db.subs|
    requires db.subs[s].status.SubPending?
    ensures var after := Committed(db, SettleInvoice(cfg, db, i, payment, now));
            s < |after.subs| && !after.subs[s].status.SubCanceled?
  {}

  lemma ConfirmLeavesPending(cfg: Config, db: Db, p: nat, now: int, s: nat)
    requires s < |db.subs| && db.subs[s].status.SubPending?
    ensures var after := Committed(db, ConfirmPayment(cfg, db, p, now));
            s < |after.subs| && !after.subs[s].status.SubCanceled?
  {
    if p < |db.payments| {
      var marked := db.(payments := Confirmed(db.payments, p));
      forall i: nat | i < |db.invoices| && db.invoices[i].subscription < |db.subs|
        ensures var after := Committed(marked, SettleInvoice(cfg, marked, i, Some(p), now));
                s < |after.subs| && !after.subs[s].status.SubCanceled?
      {
        SettleLeavesPending(cfg, marked, i, Some(p), now, s);
      }
    }
  }

  lemma ResolveLeavesPending(cfg: Config, db: Db, i: nat, action: Resolution, now: int, s: nat)
    requires s < |db.subs| && db.subs[s].status.SubPending?
    ensures var after := Committed(db, ResolveInvoice(cfg, db, i, action, now));
            s < |after.subs| && !after.subs[s].status.SubCanceled?
  {
    if i < |db.invoices| && db.invoices[i].subscription < |db.subs| { SettleLeavesPending(cfg, db, i, None, now, s); }
  }

  lemma PendingSurvives(cfg: Config, db: Db, now: int, e: Event, s: nat)
    requires s < |db.subs| && db.subs[s].status.SubPending? && !e.GraceEnforced? && !e.InvoicesIssued?
    ensures s < |Step(cfg, db, now, e).subs| && !Step(cfg, db, now, e).subs[s].status.SubCanceled?
  {
    if e.PaymentConfirmed? {
      ConfirmLeavesPending(cfg, db, e.payment, now, s);
    } else if e.InvoiceResolved? {
      ResolveLeavesPending(cfg, db, e.invoice, e.action, now, s);
    }
  }

  /** A younger purchase and its invoices are left as they were by every enforcement sweep. */
  lemma YoungPurchaseIsKept(
      cfg: Config, db: Db, now: int, limit: nat, enabled: bool, picked: seq<nat>, parked: set<nat>, s: nat)
    requires s < |db.subs| && db.subs[s].status.SubPending? && now < db.subs[s].createdAt + CREDIT
    ensures var after := EnforceSweep(cfg, db, now, limit, enabled, picked, parked);
            && |after.subs| == |db.subs| && |after.invoices| == |db.invoices| && after.subs[s] == db.subs[s]
            && forall k :: 0 <= k < |db.invoices| && db.invoices[k].subscription == s ==>
                 after.invoices[k] == db.invoices[k]
  {
    assert s !in AbandonedPool(db, now);
  }

  /** Enough sweeps end every purchase that is a whole credit period old. */
  lemma EveryOldPurchaseEnds(
      cfg: Config, db: Db, now: int, limit: nat, enabled: bool, pages: seq<(seq<nat>, set<nat>)>, s: nat)
    requires EnforcePages(cfg, db, now, limit, enabled, pages) && 500 * |pages| >= |db.subs|
    requires s < |db.subs| && db.subs[s].status.SubPending? && db.subs[s].createdAt + CREDIT <= now
    ensures Over(EnforceSweeps(cfg, db, now, limit, enabled, pages), s)
  {
    SmallPool(AbandonedPool(db, now), |db.subs|);
    ExpirySweepsConverge(cfg, db, now, limit, enabled, pages);
    assert s in AbandonedPool(db, now);
  }
}
