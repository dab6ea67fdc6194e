/** Two payable codes never stand for one sale once it is paid: over every run, what a paid code was
    replaced by cannot be waiting for money. */
module BillingCodes {
  import opened Common
  import opened BillingModel
  import opened BillingInvariant
  import opened BillingRuns

  /** No reissue of a paid code is pending or merely expired. */
  ghost predicate ReissuesRetired(payments: seq<Payment>) {
    forall p :: 0 <= p < |payments| && payments[p].reissuedFrom.Some? ==>
      !(&& payments[p].reissuedFrom.value < |payments| && payments[payments[p].reissuedFrom.value].status.PayPaid?
        && (payments[p].status.PayPending? || payments[p].status.PayExpired?))
  }

  /** A confirmation pays the one code, supersedes its reissues that could still be paid, and changes no
      other code. */
  lemma ConfirmationRetiresReissues(payments: seq<Payment>, p: nat, k: nat)
    requires p < |payments| && k < |payments|
    ensures var after := Confirmed(payments, p);
            && |after| == |payments| && after[k] == payments[k].(status := after[k].status)
            && after[k].status ==
                 (if k == p then PayPaid
                  else if payments[k].reissuedFrom == Some(p)
                          && (payments[k].status.PayPending? || payments[k].status.PayExpired?) then PaySuperseded
                  else payments[k].status)
  {}

  lemma ConfirmKeepsRetired(payments: seq<Payment>, p: nat)
    requires ReissuesRetired(payments) && p < |payments|
    requires forall k :: 0 <= k < |payments| && payments[k].reissuedFrom.Some? ==> payments[k].reissuedFrom.value < k
    ensures ReissuesRetired(Confirmed(payments, p))
  {}

  lemma SettleKeepsPayments(cfg: Config, db: Db, i: nat, payment: Option<nat>, now: int)
    requires i < |db.invoices| && db.invoices[i].subscription < |db.subs|
    ensures Committed(db, SettleInvoice(cfg, db, i, payment, now)).payments == db.payments
  {}

  lemma ConfirmPayments(cfg: Config, db: Db, p: nat, now: int)
    ensures var after := Committed(db, ConfirmPayment(cfg, db, p, now)).payments;
            after == db.payments || (p < |db.payments| && after == Confirmed(db.payments, p))
  {
    if p < |db.payments| {
      var marked := db.(payments := Confirmed(db.payments, p));
      forall i: nat | i < |db.invoices| && db.invoices[i].subscription < |db.subs|
        ensures Committed(marked, SettleInvoice(cfg, marked, i, Some(p), now)).payments == marked.payments
      {
        SettleKeepsPayments(cfg, marked, i, Some(p), now);
      }
    }
  }

  lemma ResolvePayments(cfg: Config, db: Db, i: nat, action: Resolution, now: int)
    ensures Committed(db, ResolveInvoice(cfg, db, i, action, now)).payments == db.payments
  {
    if i < |db.invoices| && db.invoices[i].subscription < |db.subs| { SettleKeepsPayments(cfg, db, i, None, now); }
  }

  lemma MintKeepsRetired(db: Db, a: nat, i: nat, open: bool, inWindow: bool, kept: bool)
    requires ReissuesRetired(db.payments)
    ensures ReissuesRetired(Committed(db, MintCode(db, a, i, open, inWindow, kept)).payments)
  {}

  lemma CloseKeepsRetired(db: Db, p: nat, failed: bool)
    requires ReissuesRetired(db.payments)
    ensures ReissuesRetired(CloseCode(db, p, failed).payments)
  {}

  lemma StepKeepsRetired(cfg: Config, db: Db, now: int, e: Event)
    requires Inv(cfg, db) && ReissuesRetired(db.payments)
    ensures ReissuesRetired(Step(cfg, db, now, e).payments)
  {
    if e.PaymentConfirmed? {
      ConfirmPayments(cfg, db, e.payment, now);
      if e.payment < |db.payments| { ConfirmKeepsRetired(db.payments, e.payment); }
    } else if e.InvoiceResolved? {
      ResolvePayments(cfg, db, e.invoice, e.action, now);
    } else if e.CodeMinted? {
      MintKeepsRetired(db, e.account, e.invoice, e.open, e.inWindow, e.kept);
    } else if e.CodeClosed? {
      CloseKeepsRetired(db, e.payment, e.failed);
    } else if e.InvoicesIssued? {
      if IsPage(IssuePool(cfg, db, now), BillingKey(db.subs), e.limit, e.picked) { IssueAllFrame(db, e.picked); }
    }
  }

  lemma {:induction false} RunKeepsRetired(cfg: Config, db: Db, trace: seq<Tick>)
    requires Inv(cfg, db) && ReissuesRetired(db.payments)
    ensures ReissuesRetired(Run(cfg, db, trace).payments)
    decreases |trace|
  {
    if trace != [] {
      StepKeepsRetired(cfg, db, trace[0].now, trace[0].event);
      StepKeepsInv(cfg, db, trace[0].now, trace[0].event);
      RunKeepsRetired(cfg, Step(cfg, db, trace[0].now, trace[0].event), trace[1..]);
    }
  }

  /** In every run, a paid code has no reissue that is pending or merely expired. */
  lemma PaidSaleHasNoOpenCode(cfg: Config, trace: seq<Tick>)
    ensures ReissuesRetired(Run(cfg, EMPTY, trace).payments)
  {
    EmptyOk(cfg, 0);
    RunKeepsRetired(cfg, EMPTY, trace);
  }
}
