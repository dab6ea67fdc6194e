# Verified model of ChmabaPay's stateful core

ChmabaPay sells plans to merchants, mints KHQR payment codes for them, and tells their systems about
payments. This project models the parts of it whose correctness is about whole runs, and proves what
those runs keep.

**Plan billing** (`Billing*.dfy`). Accounts, subscriptions, invoices, payable codes and reminders are
tables. The steps are signup, catalogue edits, operator decisions, the issue, reminder and enforcement
sweeps, plan change, code minting, payment confirmation, operator resolution and plan assignment.
`BillingModel` holds the rows and one function per step; `BillingInvariant` what every step keeps;
`BillingRuns` runs of steps; `BillingRoutes` what each route refuses and leaves behind; `BillingStamps`
that the instants on rows are those of the steps that wrote them; `BillingCoverage`, `BillingSettlement`,
`BillingMoney`, `BillingCodes`, `BillingSweeps`, `BillingStranding`, `BillingDunning` and
`BillingReminders` the promises made to merchants; `BillingWitnesses` runs that show where a promise
stops; `BillingService` the loops that rewrite rows in place, each proved equal to its step function.
Time is whole microseconds, a credit period is 30 days, lead and grace are parameters. A code is
committed before its invoice points at it, so minting has a step that stops between the two commits.

**KHQR payloads** (`Khqr*.dfy`). The tag-length-value printer and parser, the greedy packing of
Tag 62 and its private block, both payload builders, what a reader finds under each tag (`KhqrLookup`),
the UTF-8 bytes (`KhqrUtf8`) and the CRC-16 of section 4.7.3 "CRC (ID 63)" of the EMVCo QR Code
Specification for Payment Systems, Merchant-Presented Mode.

**Controllers** (`RateLimit`, `LoginLockout`, `WebhookOutbox`, `WebhookDelivery`, `WebhookService`,
`AlertEdges`). The fixed-window limiter, the sign-in lockout, webhook delivery with retries and operator
resets, and the alert watcher. Their results are bounds on every sequence of calls, what each call does,
and when.

`dafny verify dfyconfig.toml` checks everything.

## What the proofs found

- Coverage never moves backwards on any run exactly when lead plus grace is shorter than 30 days
  (`BillingWitnesses.CoverageIsMonotoneExactlyWhen`). At longer settings two renewals can be waived
  ahead of time and the first one then paid inside its grace, which moves the end of coverage back.
- A payment in time for an invoice whose subscription was canceled is booked and puts nothing in force,
  although `settle_invoice` promises to put the coverage it bought in force. `assign_account_plan`
  leaves such invoices open (`BillingWitnesses.PaidForNothing`,
  `BillingSettlement.PaidIsInForceExactlyWhen`).
- Money can arrive that no invoice books: a wallet pays a code that ran out and was replaced. The
  invoice stays unpaid, the replacement is superseded, and asking for a code again returns that one
  (`BillingWitnesses.MoneyStrays`). `BillingMoney.ConfirmationBooksExactlyWhen` says when a payment is
  booked, and `BillingMoney.MoneyIsConserved` accounts for the rest.
- After a lapsed invoice is reinstated, asking for the code of the void one finds the first code again
  under its idempotency key. If that code was paid, two invoices refer to one payment
  (`BillingWitnesses.CodeShared`); it is the only way this happens
  (`BillingWitnesses.CodesStayDistinct`, `BillingWitnesses.MintKeepsCodesDistinctExactlyWhen`), and
  never for a code that is still unpaid. If it ran out, the merchant is handed a dead code
  (`BillingWitnesses.DeadCodeFromTheKey`, `BillingRoutes.MintedCodeIsUsableExactlyWhen`).
- A void invoice whose window was raised again cannot be paid inside its grace: the unique index rolls
  the confirmation back and the code stays unpaid (`BillingWitnesses.PaymentRolledBack`,
  `BillingSettlement.ConfirmationRefusedExactlyWhen`). After the grace line the same payment commits
  (`BillingSettlement.ConfirmationAfterGraceReinstates`).
- A restricted account with nothing left to pay is reachable (`BillingWitnesses.FrozenWithoutDebt`).
  Along a run it happens exactly when an operator restricts an account that owes nothing, or a sweep
  expires every purchase a frozen one still owes for (`BillingStranding.FrozenOwesExactlyWhen`). It is
  still no dead end (`BillingSettlement.FreezeHasNoDeadEnd`).
- The reminder sweep takes the `limit` oldest debts and never passes over those it has already warned
  about. A merchant behind a full page of older debts is therefore not warned, however often the sweep
  runs, while those debts stand (`BillingWitnesses.NeverWarned`, `BillingReminders.StarvedForever`). A
  warning is certain exactly when at most `limit` debts are due no later
  (`BillingReminders.ToldForSureExactlyWhen`).
- `build_khqr_payload` packs the private block of an ordinary payment to 97 characters, which Tag 62
  cannot hold, so such a payload has no Tag 50 (`KhqrIntegrity.OrdinaryPaymentLosesItsPrivateBlock`);
  the lengths of the request tell when (`KhqrIntegrity.PrivateBlockReachesExactlyWhen`). The router's
  builder packs to 95 and never loses a packed sub-tag.
- The rate limiter admits at most twice the limit less one in any 60 seconds, and that is reached.
- The sign-in lockout lets ten guesses an hour through, and that is reached; truncating the wait to
  whole seconds does not raise the bound.
- While the external probe fails, the alert watcher resolves nothing, including a worker whose
  heartbeat is back (`AlertEdges.RecoveryWaitsForTheProbe`, `AlertEdges.RecoveryIsHeldBack`).

## Model

| member | source | states |
|---|---|---|
| BillingRuns.StepKeepsInv | src/chmabapay/services/billing.py:311-1372 | every step of the machine keeps the invariant (one live subscription per account, one live invoice per window, windows of one credit period on the subscription's grid, paid only within grace, an unpaid code only on the invoice it was minted for) and changes each row only as a row may change |
| BillingRuns.RunKeepsInv | src/chmabapay/services/billing.py:1-1372 | the same over every run; a subscription never leaves `canceled`, an invoice is never reopened and never changes its window or amount |
| BillingRuns.PaidMeansServed | src/chmabapay/services/billing.py:1142-1279 | in every run a paid invoice has `paid_at <= due_at + grace`, a window of exactly one credit period, and no later run changes the row |
| BillingRuns.OneLiveAndDisjointWindows | src/chmabapay/services/billing.py:1282-1372 | in every reachable database at most one subscription of an account is in force, and windows of one subscription lie on one 30-day grid, disjoint where not void |
| BillingRuns.RemindersAdvance | src/chmabapay/services/billing.py:612-778 | over any run with a clock that never goes back, reminders about one invoice on one channel have strictly later instants and strictly more advanced tiers |
| BillingRuns.OtherStepsKeepReminders | src/chmabapay/services/billing.py:612-679 | only the reminder sweep writes reminders |
| BillingStamps.StepStamps | src/chmabapay/services/billing.py:1015-1190 | every step stamps the rows it turns: paid, canceled, voided, started and created rows carry the instant of that step, a void row also the reason the step gives, and nothing else moves these fields |
| BillingStamps.SettlementStampsThePayment | src/chmabapay/services/billing.py:1142-1279 | a settlement committed at `now` leaves `now` on the row it turns paid, in time on the invoice itself, after the lapse on a new one that starts and is due at `now`, at the same amounts |
| BillingStamps.PaidAtIsThePayment | src/chmabapay/services/billing.py:1142-1279 | in every run a paid invoice became paid at exactly the instant it carries, on a confirmed code or an operator payment |
| BillingStamps.CanceledAtIsTheStep | src/chmabapay/services/billing.py:1282-1311 | in every run a canceled subscription was canceled at exactly the instant it carries |
| BillingStamps.VoidedAtIsTheStep | src/chmabapay/services/billing.py:1193-1279 | in every run a void invoice carries the instant and the reason of a step that voided it |
| BillingStamps.PurchasesAreKept | src/chmabapay/services/billing.py:1001-1051 | in every run a purchase that was never in force is canceled no earlier than 30 days after it was made |
| BillingInvariant.SignUpKeeps | src/chmabapay/routers/auth.py:196-215 | signup keeps the invariant |
| BillingInvariant.AdminSignInKeeps | src/chmabapay/routers/auth.py:318-363 | the admin nudge, which rewrites the live row in place, keeps it |
| BillingInvariant.IssueAllKeeps | src/chmabapay/services/billing.py:406-448 | an issue sweep over any selected rows keeps it |
| BillingInvariant.EnforceKeeps | src/chmabapay/services/billing.py:907-1051 | enforcement with its expiry keeps it |
| BillingInvariant.SettleKeeps | src/chmabapay/services/billing.py:1104-1190 | settlement keeps it on both sides of the lapse line |
| BillingInvariant.ReinstateKeeps | src/chmabapay/services/billing.py:1193-1279 | reinstatement keeps it, including the moved payment reference |
| BillingInvariant.ConfirmKeeps | src/chmabapay/services/payments.py:904-951 | confirming a payment keeps it |
| BillingInvariant.ChangePlanKeeps | src/chmabapay/routers/billing.py:242-420 | free, paid and frozen plan change keep it |
| BillingInvariant.MintKeeps | src/chmabapay/routers/billing.py:515-618 | minting keeps it, with dead codes reissued, live successors reused, idempotency keys honoured and either commit lost |
| BillingInvariant.ResolveKeeps | src/chmabapay/routers/admin.py:1077-1146 | waiver, credit, void and operator payment keep it |
| BillingInvariant.AssignKeeps | src/chmabapay/routers/admin.py:593-661 | operator assignment keeps it |
| BillingInvariant.UpdateKeepsOneClaim | src/chmabapay/models.py:412-420 | rewriting one invoice keeps one live claim per window when its new row is void, was already live, or its window is free |
| BillingInvariant.WindowsDisjoint | src/chmabapay/models.py:412-420 | windows of one subscription are on one grid and, where not void, disjoint |
| BillingCoverage.RunKeepsChain | src/chmabapay/services/billing.py:371-460 | with lead + grace under 30 days, over every ordered run each window lies at or behind the coverage end, a pending row's first window is the one before its end, any other unpaid one is the very next |
| BillingCoverage.GrantedWindowIsCurrent | src/chmabapay/services/billing.py:1314-1333 | a window that can still be granted is the current or the next one |
| BillingCoverage.ScheduleMovesOnlyOnSettlement | src/chmabapay/services/billing.py:1314-1333 | `next_billing_at` of an existing row changes only on a confirmed payment, an operator payment, a waiver or a credit |
| BillingCoverage.CoverageNeverMovesBack | src/chmabapay/services/billing.py:1104-1190 | with lead + grace under 30 days no continuation of any run moves a coverage end back |
| BillingCoverage.OneRenewalAtATime | src/chmabapay/services/billing.py:371-460 | a subscription has at most one unpaid invoice, for the window its coverage ends at when it is live |
| BillingWitnesses.CoverageMovesBackOtherwise | src/chmabapay/routers/admin.py:1132-1146 | otherwise some run moves coverage back |
| BillingWitnesses.CoverageIsMonotoneExactlyWhen | src/chmabapay/services/billing.py:1314-1333 | monotone coverage if and only if lead + grace < 30 days |
| BillingWitnesses.PaidForNothing | src/chmabapay/routers/admin.py:623-661 | a reachable run books money on a canceled subscription and grants nothing |
| BillingWitnesses.CodeShared | src/chmabapay/services/payments.py:311-320 | a reachable run has two invoices refer to one payment |
| BillingWitnesses.MintKeepsCodesDistinctExactlyWhen | src/chmabapay/routers/billing.py:515-556 | minting keeps all codes distinct if and only if the invoice's key does not lead to a code another invoice holds |
| BillingWitnesses.SettlementKeepsCodesDistinct | src/chmabapay/services/billing.py:1238-1262 | settlement keeps each payment on at most one invoice although reinstatement moves the reference |
| BillingWitnesses.CodesStayDistinct | src/chmabapay/services/billing.py:1238-1262 | so does every other step except minting |
| BillingWitnesses.PaymentRolledBack | src/chmabapay/models.py:412-420 | a reachable confirmation is refused by the unique index and leaves the code pending |
| BillingWitnesses.MoneyStrays | src/chmabapay/services/payments.py:809-846 | a reachable run has a paid code, its invoice unpaid and pointing at a superseded one, nothing booked, and no other code to be had |
| BillingWitnesses.DeadCodeFromTheKey | src/chmabapay/routers/billing.py:515-556 | a reachable run has minting return a code that ran out |
| BillingWitnesses.FrozenWithoutDebt | src/chmabapay/services/billing.py:1001-1051 | a restricted account with no unpaid invoice is reachable |
| BillingWitnesses.NeverWarned | src/chmabapay/services/billing.py:573-609 | at every limit a reachable run leaves a merchant whose debt no sequence of reminder sweeps ever warns about |
| BillingSettlement.SettlementDelivers | src/chmabapay/services/billing.py:1104-1279 | settling an invoice on a pending or live subscription, or one that lapsed, leaves exactly one subscription in force, on the bought plan, covered until at least `paid_at` + credit − grace, and the account not restricted |
| BillingSettlement.PaidIsInForceExactlyWhen | src/chmabapay/services/billing.py:1336-1372 | the paid row's subscription is in force if and only if the invoice's was not canceled or the payment came after the lapse; otherwise what is in force does not change |
| BillingSettlement.ConfirmIsSettle | src/chmabapay/services/payments.py:904-951 | confirming a code that can still be paid settles the invoice it was minted for if that one still points at it, and otherwise only marks the code; no other invoice can point at it |
| BillingSettlement.ConfirmationIsUnambiguous | src/chmabapay/services/billing.py:1054-1079 | in every run an unpaid code is pointed at only by the invoice it was minted for, so the lookup never fails |
| BillingSettlement.ConfirmationRefusedExactlyWhen | src/chmabapay/models.py:412-420 | in every run confirming a code is refused if and only if there is no such code, it is paid or failed, or its invoice still points at it, is void, is inside its grace, and has had its window raised again |
| BillingSettlement.ConfirmationAfterGraceReinstates | src/chmabapay/services/billing.py:1193-1279 | in every run the same confirmation after the grace line commits and grants a whole period from the payment on, alone in force, on a new paid invoice of the same total |
| BillingMoney.SettlementBooksTheTotal | src/chmabapay/services/billing.py:1142-1190 | a settlement adds exactly the invoice's total to the paid total |
| BillingMoney.RevenueMovesOnlyOnSettlement | src/chmabapay/services/billing.py:1104-1190 | no other step changes the paid total |
| BillingMoney.ConfirmationBooksExactlyWhen | src/chmabapay/services/payments.py:904-951 | a committed confirmation books the total of the invoice its code was minted for if and only if that invoice still points at the code and is not paid; otherwise only the code changes |
| BillingMoney.MoneyIsConserved | src/chmabapay/services/billing.py:1054-1190 | over every run the paid total grows by what confirmed codes were minted to collect and operators recorded, less what arrived on a code whose invoice points elsewhere or is already paid |
| BillingMoney.ConfirmedOnce | src/chmabapay/services/payments.py:904-951 | in every run a confirmation that books an invoice books it once; a retry is refused and settling again finds the same database |
| BillingSettlement.SettlingTwiceIsSettlingOnce | src/chmabapay/services/billing.py:1054-1079 | settling a payment again at any instant changes nothing |
| BillingSettlement.FreezeHasNoDeadEnd | src/chmabapay/routers/billing.py:267-420 | from every frozen state a run can reach, any public active plan other than the current one leads, by the merchant's own steps and a clock that never goes back, to an active account on that plan, however late the payment |
| BillingSettlement.WayOutSteps | src/chmabapay/routers/auth.py:373-408 | that way out is change plan, mint and pay, in order of time |
| BillingSweeps.EveryFreezeIsOwed | src/chmabapay/services/billing.py:940-980 | apart from an operator's decision only the enabled sweep freezes, only an active account that is no platform admin, only over an unpaid invoice on live coverage with `due_at + grace` past |
| BillingSweeps.EnforceAccounts | src/chmabapay/services/billing.py:940-980 | the sweep changes an account only by such a freeze |
| BillingSweeps.StandingIsTheOperators | src/chmabapay/services/billing.py:1082-1101 | no billing step suspends, lifts a suspension, or freezes a platform admin |
| BillingSweeps.RunKeepsStandings | src/chmabapay/services/billing.py:907-1101 | the same over every run without operator decisions |
| BillingSweeps.FreezeFrame | src/chmabapay/services/billing.py:907-1051 | enforcement leaves every subscription and invoice outside abandoned purchases as it was |
| BillingSweeps.IssueSweepShrinks | src/chmabapay/services/billing.py:406-448 | a sweep removes exactly its page from the due subscriptions, and takes something whenever any is due |
| BillingSweeps.IssueSweepsConverge | src/chmabapay/services/billing.py:406-448 | at a fixed time at most as many sweeps as due subscriptions, of any positive limit, claim the current window of each and then change nothing |
| BillingSweeps.EveryRenewalIsRaised | src/chmabapay/services/billing.py:371-448 | enough sweeps leave every subscription in force on a plan with a fee, whose coverage ends within the lead, with a live invoice for that window |
| BillingSweeps.IssueTakesTheOldestFirst | src/chmabapay/services/billing.py:406-430 | a subscription due for its renewal is left out only by a full page of others that end no later |
| BillingSweeps.EnforceSweepShrinks | src/chmabapay/services/billing.py:592-609 | an enabled sweep freezes exactly the overdue accounts of its page, at least one whenever any is left |
| BillingSweeps.EnforceSweepsConverge | src/chmabapay/services/billing.py:940-980 | repeated enforcement leaves no eligible account unfrozen and then freezes nobody |
| BillingSweeps.EveryOverdueAccountIsFrozen | src/chmabapay/services/billing.py:907-980 | enough enabled sweeps leave no active account but a platform admin's with an unpaid invoice on coverage in force and `due_at + grace` past |
| BillingSweeps.ExpirySweepShrinks | src/chmabapay/services/billing.py:1001-1051 | one sweep, enabled or not, ends min(500, all) abandoned purchases: canceled, nothing unpaid; none enters the pool |
| BillingSweeps.ExpirySweepsConverge | src/chmabapay/services/billing.py:1001-1051 | enough sweeps to cover them at 500 each end every abandoned purchase and leave none |
| BillingSweeps.PurchaseEndsOnlyByAge | src/chmabapay/services/billing.py:1015-1027 | whatever the step, a pending subscription is canceled only by the enforcement sweep and only with `created_at` + 30 days past |
| BillingSweeps.YoungPurchaseIsKept | src/chmabapay/services/billing.py:1015-1027 | every enforcement sweep leaves a younger pending subscription and all its invoices as they were |
| BillingSweeps.EveryOldPurchaseEnds | src/chmabapay/services/billing.py:1001-1051 | enough sweeps cancel every pending subscription that is 30 days old and void what it owed |
| BillingStranding.StrandedExactlyWhen | src/chmabapay/services/billing.py:907-1051 | a step leaves a frozen account with nothing to pay if and only if an operator restricts one that owes nothing or an effective sweep expires every purchase a frozen one owes for |
| BillingStranding.FreezeLeavesTheDebt | src/chmabapay/services/billing.py:940-980 | a freeze leaves the unpaid invoice on live coverage it is keyed on |
| BillingStranding.FrozenOwesExactlyWhen | src/chmabapay/services/billing.py:907-1051 | along every run a frozen account always has something to pay if and only if none of those steps occurs |
| BillingDunning.ClockStateIsLatestThreshold | src/chmabapay/services/billing.py:78-87 | the derived tier is the one threshold that is reached with every later one still ahead |
| BillingDunning.ClockStateAdvances | src/chmabapay/services/billing.py:494-533 | it never regresses as time advances, and an older debt is never less urgent |
| BillingDunning.DeriveState | src/chmabapay/services/billing.py:494-533 | the tier loop computes it; suspended outranks restricted |
| BillingDunning.RemindSweepKeeps | src/chmabapay/services/billing.py:612-778 | a sweep records only tiers that are true at that instant, each (invoice, channel) strictly advancing |
| BillingDunning.OneRowPerSweep | src/chmabapay/services/billing.py:536-558 | two rows of one invoice and channel differ in instant and tier, so a sweep adds at most one |
| BillingReminders.TierDays | src/chmabapay/services/billing.py:78-87 | the tiers begin 3 and 1 days before, on, and 1, 3 and 6 days after the due date |
| BillingReminders.ReminderIsWritten | src/chmabapay/services/billing.py:612-778 | after a sweep every unpaid invoice on its page, on live coverage of an active account, has the tier it has reached on record in the app, and by email where that channel is on |
| BillingReminders.SweepAddsOnlyWarranted | src/chmabapay/services/billing.py:612-778 | a sweep adds only such rows, stamped with its instant, and rewrites none |
| BillingReminders.ToldForSureExactlyWhen | src/chmabapay/services/billing.py:592-640 | whatever page the query returns a warnable invoice's new tier is recorded, if and only if at most `limit` warnable invoices are due no later |
| BillingReminders.ToldByEverySweep | src/chmabapay/services/billing.py:612-679 | then every one of any number of sweeps leaves the tier of its instant on record |
| BillingReminders.StarvedForever | src/chmabapay/services/billing.py:592-640 | with `limit` warnable invoices due before it an invoice is told nothing by any sequence of sweeps |
| BillingDunning.DeriveNotice | src/chmabapay/services/billing.py:781-850 | the notice shown is the oldest debt's state, no other row is more urgent, a frozen account is always told, a suspended one never |
| BillingService.SelectPage | src/chmabapay/services/billing.py:592-609 | ordered, limited selection: distinct rows of the pool, smallest keys first, nothing smaller left out, short only when exhausted |
| BillingService.Billing.constructor | src/chmabapay/services/billing.py:1-1372 | empty tables satisfy the invariant |
| BillingService.Billing.LiftBillingHold | src/chmabapay/services/billing.py:1082-1101 | clears a restriction and nothing else, and says whether it did |
| BillingService.Billing.RetireLiveSubscriptions | src/chmabapay/services/billing.py:1282-1311 | cancels exactly the account's live rows |
| BillingService.Billing.ActivateSubscription | src/chmabapay/services/billing.py:1336-1372 | a pending row replaces what was live; any other row is left alone |
| BillingService.Billing.VoidOpenInvoices | src/chmabapay/routers/billing.py:153-185 | voids exactly the account's unpaid invoices |
| BillingService.Billing.FindInvoiceForWindow | src/chmabapay/services/billing.py:272-287 | finds a live claim on the window if and only if there is one |
| BillingService.Billing.FindOpenInvoice | src/chmabapay/services/billing.py:290-308 | the account's first unpaid invoice, if there is one |
| BillingService.Billing.GetActiveSub | src/chmabapay/routers/billing.py:102-116 | the one live row, if there is one |
| BillingService.Billing.IssueOne | src/chmabapay/services/billing.py:311-368 | raises one open invoice for the window unless the plan is free or the window claimed |
| BillingService.Billing.IssueDueInvoices | src/chmabapay/services/billing.py:371-460 | the sweep of a page of due subscriptions; keeps the invariant |
| BillingService.Billing.ExpireAbandonedPurchases | src/chmabapay/services/billing.py:1001-1051 | cancels as many abandoned purchases as the limit allows and voids their unpaid invoices |
| BillingService.Billing.FreezeOverdue | src/chmabapay/services/billing.py:940-980 | selects the page of debts and freezes those past their grace when enabled |
| BillingService.Billing.EnforceGrace | src/chmabapay/services/billing.py:907-998 | the enforcement sweep with its expiry of up to 500 purchases; keeps the invariant |
| BillingService.Billing.RecordDueReminders | src/chmabapay/services/billing.py:612-778 | the reminder sweep on both channels; writes reminders only |
| BillingService.Billing.ReinstateLapsed | src/chmabapay/services/billing.py:1193-1279 | voids the lapsed claim and grants a paid window from the payment on |
| BillingService.Billing.Settle | src/chmabapay/services/billing.py:1104-1190 | settlement with its rollback; keeps the invariant |
| BillingService.Billing.RetireSuccessors | src/chmabapay/services/payments.py:809-846 | marks the code paid and supersedes its unpaid replacements |
| BillingService.Billing.MarkPaid | src/chmabapay/services/payments.py:904-951 | code and invoice settle together or not at all; keeps the invariant |
| BillingService.Billing.Change | src/chmabapay/routers/billing.py:242-420 | plan change with every refusal; keeps the invariant |
| BillingService.Billing.FindSuccessor | src/chmabapay/services/payments.py:446-465 | the latest pending successor of a code, if there is one |
| BillingService.Billing.InvoicePayment | src/chmabapay/routers/billing.py:515-556 | the code of an invoice: reused, reissued, or by its key |
| BillingService.Billing.Mint | src/chmabapay/routers/billing.py:559-618 | the route with its two commits and every refusal; keeps the invariant |
| BillingService.Billing.Resolve | src/chmabapay/routers/admin.py:1077-1146 | operator resolution with every refusal; keeps the invariant |
| BillingService.Billing.Assign | src/chmabapay/routers/admin.py:593-661 | operator assignment with every refusal; keeps the invariant |
| BillingRoutes.FreePlanTakesOver | src/chmabapay/routers/billing.py:288-330 | a free plan is the one in force at once for a whole period, exactly the unpaid invoices become void, a freeze is lifted, other accounts are untouched |
| BillingRoutes.SignUpStartsFree | src/chmabapay/routers/auth.py:196-215 | a new account is active, no admin, and on the free plan alone for a whole period, or on none where there is no free plan |
| BillingRoutes.AdminSignInMovesThePlanOnly | src/chmabapay/routers/auth.py:318-363 | an admin's sign-in flags the account and moves what is in force to the named plan; no schedule, invoice or other account changes |
| BillingRoutes.PlanChangeRefusedExactlyWhen | src/chmabapay/routers/billing.py:242-330 | refused if and only if the account is unknown or suspended, the plan unknown, hidden or inactive, the account is on it, or it costs something while an account that is not frozen owes an invoice |
| BillingRoutes.AssignmentRefusedExactlyWhen | src/chmabapay/routers/admin.py:593-622 | refused if and only if the account or the plan is unknown or the account is on it |
| BillingRoutes.ResolutionRefusedExactlyWhen | src/chmabapay/routers/admin.py:1077-1146 | where the invariant holds, refused if and only if the invoice is unknown, paid, void, waived or credited |
| BillingRoutes.MintRefusedExactlyWhen | src/chmabapay/routers/billing.py:559-600 | refused if and only if the account is unknown or suspended, the invoice is not its own or is paid, or codes cannot be minted |
| BillingRoutes.MintChooses | src/chmabapay/routers/billing.py:515-556 | the code an invoice is given: the one it holds unless that ran out or failed, then a pending reissue of it, then the code of its key, then a new one under its key |
| BillingCodes.ConfirmationRetiresReissues | src/chmabapay/services/payments.py:809-846 | a confirmation pays the one code, supersedes exactly its pending and expired reissues, and changes no other |
| BillingCodes.PaidSaleHasNoOpenCode | src/chmabapay/services/payments.py:809-846 | in every run a paid code has no reissue that is pending or expired |
| BillingRoutes.PaidPlanIsParked | src/chmabapay/routers/billing.py:332-420 | a paid plan is parked behind one invoice of its fee, the account's only unpaid one; what is in force stays unless a frozen debt was written off; a freeze is not lifted |
| BillingRoutes.AssignedPlanTakesOver | src/chmabapay/routers/admin.py:593-661 | an assigned plan is the one in force for a whole period; invoices and standing do not change |
| BillingRoutes.ForgivenessIsInForceExactlyWhen | src/chmabapay/routers/admin.py:1103-1146 | a waiver or credit marks the one row, records no payment, lifts a freeze and moves the subscription's end to the window's; the subscription is then alone in force if and only if it had not been canceled, otherwise what is in force does not change |
| BillingRoutes.VoidingWritesOff | src/chmabapay/routers/admin.py:1103-1146 | a void frees the window, moves no coverage, lifts a freeze |
| BillingRoutes.MintedCodeIsUsableExactlyWhen | src/chmabapay/routers/billing.py:515-600 | the invoice ends with a code of its own or a paid one, withdrawn if and only if it held a superseded code or its idempotency key leads to a withdrawn one; no other invoice and no existing code changes |
| BillingRoutes.InterruptedMintIsResumed | src/chmabapay/services/payments.py:422-470 | a mint that stops between its two commits is resumed by the next one, which finds the code left behind and mints no other |
| BillingRoutes.SweepRaisesRenewals | src/chmabapay/services/billing.py:311-460 | a sweep raises only open invoices for the next window of live subscriptions at their plan's fee, starting within the lead, and changes none |
| KhqrTlv.ParseTlv | src/chmabapay/khqr.py:61-80 | the index loop reads exactly the fields of the recursive parser, which the round trips below are about |
| KhqrTlv.TlvWrites | src/chmabapay/khqr.py:54-58 | the text is the tag, the length as two decimal digits, and the value; it fails exactly on more than 99 characters |
| KhqrTlv.RoundTrip | src/chmabapay/khqr.py:54-80 | parsing printed fields followed by anything gives the fields back, then the rest's |
| KhqrTlv.ParsePrint | src/chmabapay/khqr.py:54-80 | parse after print is the identity on two-digit tags and values of at most 99 characters |
| KhqrTlv.PrintParse | src/chmabapay/khqr.py:61-80 | printing what was parsed gives the consumed prefix back, where lengths are written as two digits |
| KhqrCrc.Crc16 | src/chmabapay/khqr.py:42-51 | the nested loops compute the byte-wise CRC |
| KhqrCrc.CrcIsBitSerial | src/chmabapay/khqr.py:42-51 | which is the bit-serial division register run over the message's bits |
| KhqrCrc.CrcIsRemainder | src/chmabapay/khqr.py:42-51 | and that is the remainder, on division by x^16 + x^12 + x^5 + 1, of the message moved up sixteen places with the initial value added into its first sixteen |
| KhqrCrc.BurstDetected | src/chmabapay/khqr.py:42-51 | two different messages of one length whose bits differ only within 16 consecutive positions have different CRCs, from any initial value |
| KhqrCrc.TwoByteErrorDetected | src/chmabapay/khqr.py:42-51 | changing one byte or two adjacent bytes changes the CRC |
| KhqrPayload.KeptFits | src/chmabapay/khqr.py:143-172 | a packed block never exceeds its budget |
| KhqrPayload.KeptOrOverflows | src/chmabapay/routers/khqr.py:186-227 | every part offered is in the finished block or would overflow it |
| KhqrPayload.KeptInOrder | src/chmabapay/khqr.py:154-172 | what is kept is the offer, in its order, with some parts left out |
| KhqrPayload.Pack | src/chmabapay/routers/khqr.py:186-227 | the packing loop prints exactly the greedily kept parts, and fails exactly when some offered value is too long |
| KhqrPayload.BuildPayload | src/chmabapay/khqr.py:100-201 | the builder yields the sealed body, or fails exactly when some value cannot be measured |
| KhqrPayload.PayloadParses | src/chmabapay/khqr.py:174-201 | every payload parses to its fields in order closed by Tag 63, and its last four characters are the CRC of everything before them; what each field says is `KhqrLookup.PayloadSays` |
| KhqrPayload.NestedTemplatesParse | src/chmabapay/khqr.py:127-172 | Tag 62 and its private block parse to the parts kept, so the round trip holds at all three levels |
| KhqrPayload.PrivateBlockWholeOrAbsent | src/chmabapay/khqr.py:143-172 | Tag 62 is at most 99 characters and holds the block whole if and only if it is non-empty and at most 95, otherwise not at all |
| KhqrPayload.RouterBlockReachesPayload | src/chmabapay/routers/khqr.py:186-227 | in the router's builder every packed private sub-tag reaches the payload |
| KhqrLookup.PayloadSays | src/chmabapay/khqr.py:174-201 | looked up on the text of every payload, each of Tags 00, 01, 30, 52, 53, 54, 58, 59, 60 and 63 occurs once, 53 with the currency code, 54 with the amount, 58 with KH, 59 with the first 99 characters of the name, 63 with the CRC; 62 is there exactly when its template is not empty, 99 exactly when the form is not the direct one |
| KhqrLookup.AccountTemplateSays | src/chmabapay/khqr.py:131-135 | Tag 30 gives the switch under 00, the merchant's account under 01 and the bank's label under 02, each once |
| KhqrLookup.TemplateSays | src/chmabapay/khqr.py:163-172 | Tag 62 gives the bill under 01 and the terminal under 03, each once, or has no room left for it |
| KhqrLookup.PrivateBlockSays | src/chmabapay/khqr.py:143-161 | under every private sub-tag the block gives the value due there, once, or has no room left for it; sub-tags with nothing to say are absent |
| KhqrLookup.EssentialsComeFirst | src/chmabapay/routers/khqr.py:186-213 | a block with room for scheme, bill, reference and expiry holds them all, however long the client id |
| KhqrLookup.ValidityTemplateSays | src/chmabapay/khqr.py:188-197 | Tag 99 gives the issue in milliseconds under 00 and 30 days later under 01, as decimal numbers |
| KhqrLookup.ClocksSay | src/chmabapay/khqr.py:150-156 | the terminal is the last nine digits of the issue second; issue and expiry are written in full |
| KhqrIntegrity.HexInjective | src/chmabapay/khqr.py:199-201 | different CRCs print different check characters |
| KhqrIntegrity.ChecksumWritesRemainder | src/chmabapay/khqr.py:199-201 | the four check characters write, in upper-case hexadecimal, that remainder of the bytes before them from sixteen ones |
| KhqrUtf8.Utf8Decodes | src/chmabapay/khqr.py:199-200 | the bytes the CRC is taken over decode, as section 3 of RFC 3629 says, to the code points of the text, for every text |
| KhqrUtf8.Utf8Injective | src/chmabapay/khqr.py:199-200 | so different texts are checked over different bytes |
| KhqrIntegrity.CorruptionDetected | src/chmabapay/khqr.py:199-201 | a text whose bytes differ from a payload's by one burst of at most 16 bits fails the check |
| KhqrIntegrity.AdjacentCharactersDetected | src/chmabapay/khqr.py:199-201 | changing one or two adjacent characters of an ASCII payload is always noticed |
| KhqrIntegrity.PrivateBlockReachesExactlyWhen | src/chmabapay/khqr.py:143-172 | at ten-digit instants the payload carries Tag 50 if and only if the greedy fill of the sizes that bill, reference and client id give is at most 95 |
| KhqrIntegrity.OrdinaryPaymentLosesItsPrivateBlock | src/chmabapay/khqr.py:143-172 | for every request with a 24-character bill and ten-digit epoch seconds the packed block has 97 characters and the payload no Tag 50 |
| KhqrIntegrity.BuildsExactlyWhen | src/chmabapay/khqr.py:100-201 | for every request at an instant of at most ten digits, under either budget, the build succeeds if and only if the account has at most 63 characters and every other offered part at most 99 |
| KhqrIntegrity.TagsDump | src/chmabapay/routers/khqr.py:93-110 | the dump holds, per tag, the last field parsed, nested to the private block |
| KhqrIntegrity.DumpShowsEveryTag | src/chmabapay/routers/khqr.py:93-110 | where no tag repeats it shows every field of every level |
| RateLimit.RateLimiter.Hit | src/chmabapay/ratelimit.py:136-151 | counts in the current or a new window; allowed, remaining and retry time follow from the counter; no other key changes |
| RateLimit.KeysAreIndependent | src/chmabapay/ratelimit.py:136-151 | a key's counter depends only on its own requests |
| RateLimit.KeyInjective | src/chmabapay/ratelimit.py:136-143 | different rules or identities never share a key, rule names holding no colon |
| RateLimit.WindowAdmitsAtMostLimit | src/chmabapay/ratelimit.py:136-151 | each window admits at most the limit |
| RateLimit.RefusedOnlyWhenSpent | src/chmabapay/ratelimit.py:124-151 | in every run with a clock that never goes back a request is refused only if its key made at least `limit` requests in the 60 seconds before it |
| RateLimit.RunBound | src/chmabapay/ratelimit.py:124-151 | over every run with a clock that never goes back, any half-open 60 seconds serve a rule and identity at most 2·limit − 1 requests |
| RateLimit.IntervalBoundIsReached | src/chmabapay/ratelimit.py:124-151 | and some run reaches that |
| LoginLockout.Lockout.LockedFor | src/chmabapay/ratelimit.py:194-199 | the whole seconds left, zero for a forgotten entry |
| LoginLockout.Lockout.RecordFailure | src/chmabapay/ratelimit.py:201-213 | counts, locks from the threshold on, resets the hour; the caller is told the whole lock |
| LoginLockout.LockedOnlyAfterThreshold | src/chmabapay/ratelimit.py:184-213 | in every run a sign-in is turned away only after at least `threshold` wrong passwords for that account |
| LoginLockout.LockDoubles | src/chmabapay/ratelimit.py:201-213 | the lock is 60 seconds doubled for each failure past the threshold, at most an hour |
| LoginLockout.HourlyBound | src/chmabapay/ratelimit.py:184-213 | over every sequence of sign-ins to any accounts, from any state, an hour without a success sees at most threshold + 5 wrong passwords reach the check |
| LoginLockout.TenAnHour | src/chmabapay/routers/auth.py:659-679 | ten at the default threshold |
| LoginLockout.TenIsReached | src/chmabapay/ratelimit.py:37-39 | some run reaches ten |
| LoginLockout.Spread | src/chmabapay/ratelimit.py:201-213 | after a failure the entry outlives the hour, so each further failure waits out the lock before it less one second |
| WebhookOutbox.RunKeeps | src/chmabapay/webhooks.py:147-298 | every run keeps: attempts equal the posts since the last reset, a row is successful exactly when one of those was accepted, a retry is due its backoff after the last post; rows never move and go exactly with their endpoint |
| WebhookOutbox.OneRowPerSubscriber | src/chmabapay/webhooks.py:136-189 | in every run an event has a row for an endpoint if and only if at enqueue that was present, active, of the account, and its list was empty, held a star or held the kind, and it still exists; and never two |
| WebhookOutbox.ListedKindIsDelivered | src/chmabapay/webhooks.py:136-189 | in every run an active endpoint of the account that lists a kind has a row for each event of it while the endpoint exists |
| WebhookOutbox.UnlistedKindIsNot | src/chmabapay/webhooks.py:136-189 | in every run a list that holds neither star nor kind gets no row |
| WebhookOutbox.PostsBetweenResets | src/chmabapay/webhooks.py:230-266 | in every run any stretch without a reset of a delivery posts it at most max(1, max attempts) times |
| WebhookOutbox.GivenUpExactlyWhen | src/chmabapay/webhooks.py:249-266 | in every run a delivery is failed if and only if its whole budget since the last reset was posted with none accepted, and successful if and only if one was accepted |
| WebhookOutbox.NeverSentAgain | src/chmabapay/routers/admin.py:2048-2063 | in every run an accepted delivery is posted again only after a reset that included successes |
| WebhookOutbox.RetriesBackOff | src/chmabapay/webhooks.py:258-266 | in every run consecutive posts of a delivery without a reset between them are at least min(2^n, 3600) seconds apart |
| WebhookOutbox.DueIdsAre | src/chmabapay/webhooks.py:280-290 | the sweep's query holds exactly the pending or retrying rows whose time has come |
| WebhookDelivery.TakenExactlyWhen | src/chmabapay/webhooks.py:280-290 | a sweep takes a row if and only if it waits and fewer than `batch` rows before it do |
| WebhookDelivery.WaitingRowIsPosted | src/chmabapay/webhooks.py:230-298 | such a row is posted: accepted on 200 to 299, given up once its attempts reach the maximum, else due again min(2^n, 3600) seconds after the answer; no other row changes |
| WebhookDelivery.SweepPostsItsPage | src/chmabapay/webhooks.py:269-298 | what leaves the process is one post per such row in order of id, and nothing else |
| WebhookDelivery.NewRowsWait | src/chmabapay/webhooks.py:147-189 | the rows of a new event wait to be posted at once; no other row changes |
| WebhookDelivery.RedeliveryResetsExactly | src/chmabapay/routers/admin.py:2019-2063 | redelivery resets exactly the payment's rows, accepted ones only when asked |
| WebhookDelivery.RetryResetsExactlyWhen | src/chmabapay/routers/admin.py:2222-2291 | a retry resets its one row if and only if it exists, is not accepted unless asked for, and is not due already with its whole budget |
| WebhookService.Webhooks.EnqueueEvent | src/chmabapay/webhooks.py:147-189 | adds the event and its fan-out; the duplicate look-up never hits |
| WebhookService.Webhooks.DeliverOne | src/chmabapay/webhooks.py:230-266 | one post and its consequence, or `failed` without a post when a row it needs is missing |
| WebhookService.Webhooks.ProcessDueDeliveries | src/chmabapay/webhooks.py:269-298 | posts the first `batch` due rows in order |
| WebhookService.Webhooks.RedeliverPayment | src/chmabapay/routers/admin.py:2019-2063 | resets the payment's rows, successes only when asked; nothing when there is none |
| WebhookService.Webhooks.RetryDelivery | src/chmabapay/routers/admin.py:2222-2291 | resets one row, and is quiet on a success not asked for and on a row already due |
| AlertEdges.FiresExactlyWhen | src/chmabapay/alerts.py:410-511 | after a check a condition fires if and only if it was measured true, or could not be measured and was firing |
| AlertEdges.MessagesAlternate | src/chmabapay/alerts.py:513-539 | in every run the messages per condition alternate raised and resolved starting with raised, each pair agrees on the start time, and raised exceed resolved by one exactly while firing |
| AlertEdges.StartNeverMoves | src/chmabapay/alerts.py:513-539 | a condition that keeps firing keeps its start time |
| AlertEdges.RaisedAtTheCheck | src/chmabapay/alerts.py:513-539 | a condition a check raises starts at the instant of that check |
| AlertEdges.NewestReadingIsKept | src/chmabapay/alerts.py:519-526 | after a check the table shows the newest reading of every condition it found |
| AlertEdges.FailedMeasurementResolvesNothing | src/chmabapay/alerts.py:465-511 | a failed measurement never resolves what it measures |
| AlertEdges.RecoveryWaitsForTheProbe | src/chmabapay/alerts.py:494-511 | a recovered worker stays reported exactly while the external probe fails |
| AlertEdges.RecoveryIsHeldBack | src/chmabapay/alerts.py:494-511 | two checks of any watcher after which a beating worker is still reported down |
| AlertEdges.AlertWatcher.Evaluate | src/chmabapay/alerts.py:410-511 | the conditions of one reading, or none where the check raises |
| AlertEdges.AlertWatcher.CheckOnce | src/chmabapay/alerts.py:513-539 | reports the edges; a check that raises changes nothing |

## Left out

- Invoice rows from before the lifecycle, with no subscription or no due date: every modelled invoice has both.
- Usage and overage counts, store caps, audit rows, announcements, reminder detail and email texts: bookkeeping beside the state machine.
- The free-plan lookup at signup and the admin address list are inputs; catalogue edits and operator standings are arbitrary decisions, so the guard for the last admin is not modelled.
- Payment reversal, and the double-charge alert that follows a confirmation, are not modelled; a code runs out or fails at any time.
- Concurrency between replicas: steps are atomic, and a unique key that would be violated rolls the step back.
- One instant per step: the clock is not read twice inside a step.
- BillingService.Billing.Mint: the expiry instant of a code is not kept, so whether a live successor is still in its window is an input.
- BillingService.Billing.ExpireAbandonedPurchases: the source's query has a limit and no order, so which abandoned rows a full page takes is left open.
- KhqrTlv.ParseTlv: digits and blanks outside ASCII, which the source's `isdigit` and `int` also accept, are not read.
- KhqrPayload.BuildPayload: amount formatting and the currency lookup are inputs, and so is the clock.
- KhqrTlv.PrintParse: needs lengths written as two digits, because the parser also accepts a sign or a blank there and printing would normalise it.
- RateLimit.RateLimiter.Hit: eviction under memory pressure and the timer of the cache are not modelled; the lifetime of an entry equals its window.
- LoginLockout.HourlyBound: eviction under memory pressure is not modelled, and attempts come one after the other.
- The worker that posts deliveries in production (`workers/w2_webhook_sender.py`), its job queue and HTTP signing: `webhooks.py` is modelled.
- WebhookService.Webhooks.EnqueueEvent: event ids are taken to be new, as random identifiers are.
- Endpoint creation, editing and deletion appear as functions of the outbox model only.
- Alert texts and delivery: a send is taken to return, whatever it reports.
- Routing of requests to limits, the checkout page, QR images, reports, tickets, migrations and the web client.
