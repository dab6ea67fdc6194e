/** The dunning clock: what a merchant is owed about an invoice, what the platform recorded
    having said, and the one notice the portal shows. */
module BillingDunning {
  import opened Common
  import opened BillingModel
  import opened BillingInvariant

  /** A derived state; its position in the order of urgency is its rank. */
  datatype Notice = Issuance | AtTier(tier: Tier) | Frozen

  const TIER_OFFSETS: seq<(Tier, int)> :=
    [(Due3, -3 * DAY), (Due1, -1 * DAY), (DueToday, 0),
     (Overdue1, 1 * DAY), (Overdue3, 3 * DAY), (OverdueFinal, 6 * DAY)]

  function TierRank(t: Tier): nat {
    match t
    case Due3 => 1 case Due1 => 2 case DueToday => 3
    case Overdue1 => 4 case Overdue3 => 5 case OverdueFinal => 6
  }

  function Rank(n: Notice): nat {
    match n case Issuance => 0 case AtTier(t) => TierRank(t) case Frozen => 7
  }

  function Offset(t: Tier): int { TIER_OFFSETS[TierRank(t) - 1].1 }

  /** The most advanced threshold reached at `now`. */
  function ClockState(due: int, now: int): Notice {
    if now >= due + 6 * DAY then AtTier(OverdueFinal)
    else if now >= due + 3 * DAY then AtTier(Overdue3)
    else if now >= due + DAY then AtTier(Overdue1)
    else if now >= due then AtTier(DueToday)
    else if now >= due - DAY then AtTier(Due1)
    else if now >= due - 3 * DAY then AtTier(Due3)
    else Issuance
  }

  /** `suspended` is asked about before `restricted`. */
  function DerivedState(account: Option<Account>, i: Invoice, now: int): Option<Notice> {
    if account.None? || !i.Unpaid() || account.value.status.AccountSuspended? then None
    else if account.value.status.AccountRestricted? then Some(Frozen)
    else Some(ClockState(i.dueAt, now))
  }

  /** The state names a tier exactly when that tier's instant has come and no later one has. */
  lemma ClockStateIsLatestThreshold(due: int, now: int, t: Tier)
    ensures ClockState(due, now) == AtTier(t) <==>
              now >= due + Offset(t) && forall u: Tier :: TierRank(u) > TierRank(t) ==> now < due + Offset(u)
    ensures ClockState(due, now) == Issuance <==> forall u: Tier :: now < due + Offset(u)
  {
    assert Offset(Due3) == -3 * DAY && Offset(Due1) == -DAY && Offset(DueToday) == 0;
    assert Offset(Overdue1) == DAY && Offset(Overdue3) == 3 * DAY && Offset(OverdueFinal) == 6 * DAY;
  }

  /** Time never takes a warning back, and an older debt is never the less urgent one. */
  lemma ClockStateAdvances(due: int, earlier: int, now: int, olderDue: int)
    requires earlier <= now && olderDue <= due
    ensures Rank(ClockState(due, earlier)) <= Rank(ClockState(due, now)) <= Rank(ClockState(olderDue, now))
  {}

  /** `derived_state` as the source computes it: the last tier of the table whose offset has passed. */
  method DeriveState(account: Option<Account>, i: Invoice, now: int) returns (state: Option<Notice>)
    ensures state == DerivedState(account, i, now)
  {
    if account.None? || !i.Unpaid() { return None; }
    if account.value.status.AccountSuspended? { return None; }
    if account.value.status.AccountRestricted? { return Some(Frozen); }
    var reached := Issuance;
    for k := 0 to |TIER_OFFSETS|
      invariant reached == Issuance || exists t :: reached == AtTier(t)
      invariant Rank(reached) <= k
      invariant Rank(reached) > 0 ==> now >= i.dueAt + TIER_OFFSETS[Rank(reached) - 1].1
      invariant forall j :: Rank(reached) <= j < k ==> now < i.dueAt + TIER_OFFSETS[j].1
    {
      if now >= i.dueAt + TIER_OFFSETS[k].1 {
        reached := AtTier(TIER_OFFSETS[k].0);
      }
    }
    forall u: Tier | TierRank(u) > Rank(reached) ensures now < i.dueAt + Offset(u) {}
    ClockStateIsLatestThreshold(i.dueAt, now, if reached.AtTier? then reached.tier else Due3);
    state := Some(reached);
  }

  // ---------------------------------------------------------------------------
  // The reminder record
  // ---------------------------------------------------------------------------

  predicate Recorded(reminders: seq<Reminder>, i: nat, t: Tier, c: Channel) {
    exists k :: 0 <= k < |reminders| && reminders[k].invoice == i && reminders[k].tier == t && reminders[k].channel == c
  }

  /** One row of the sweep: the tier reached is written unless this channel already carried it. */
  function RecordOne(db: Db, i: nat, now: int, c: Channel): Db
    requires i < |db.invoices| && db.invoices[i].account < |db.accounts|
  {
    var state := DerivedState(Some(db.accounts[db.invoices[i].account]), db.invoices[i], now);
    if state.Some? && state.value.AtTier? && !Recorded(db.reminders, i, state.value.tier, c)
    then db.(reminders := db.reminders + [Reminder(i, state.value.tier, c, now)])
    else db
  }

  function RecordAll(db: Db, picked: seq<nat>, now: int, c: Channel): (r: Db)
    requires forall j :: 0 <= j < |picked| ==>
            picked[j] < |db.invoices| && db.invoices[picked[j]].account < |db.accounts|
    ensures r == db.(reminders := r.reminders)
    decreases |picked|
  {
    if picked == [] then db else RecordAll(RecordOne(db, picked[0], now, c), picked[1..], now, c)
  }

  /** `record_due_reminders`: the in-app rows, then the email rows where the channel is on. */
  ghost function RemindSweep(db: Db, now: int, limit: nat, picked: seq<nat>, emailOn: bool): Db {
    if IsPage(DunnedPool(db, false), DueKey(db.invoices), limit, picked) then
      var inApp := RecordAll(db, picked, now, InApp);
      if emailOn then RecordAll(inApp, picked, now, Email) else inApp
    else db
  }

  /** Every row states the tier that was true when it was written. */
  ghost predicate ReminderOk(db: Db, clock: int, r: Reminder) {
    r.invoice < |db.invoices| && r.sentAt <= clock
    && ClockState(db.invoices[r.invoice].dueAt, r.sentAt) == AtTier(r.tier)
  }

  /** Within one invoice and channel the recorded tiers strictly advance, so none repeats. */
  ghost predicate Advancing(reminders: seq<Reminder>) {
    forall j, k :: 0 <= j < k < |reminders| ==>
      (reminders[j].invoice == reminders[k].invoice && reminders[j].channel == reminders[k].channel
       ==> TierRank(reminders[j].tier) < TierRank(reminders[k].tier))
  }

  ghost predicate History(db: Db, clock: int) {
    && (forall k :: 0 <= k < |db.reminders| ==> ReminderOk(db, clock, db.reminders[k]))
    && Advancing(db.reminders)
  }

  lemma RecordOneKeeps(db: Db, clock: int, i: nat, now: int, c: Channel)
    requires History(db, clock) && clock <= now && i < |db.invoices| && db.invoices[i].account < |db.accounts|
    ensures History(RecordOne(db, i, now, c), now)
  {
    var after := RecordOne(db, i, now, c);
    forall k | 0 <= k < |db.reminders| ensures ReminderOk(after, now, db.reminders[k]) {
      assert ReminderOk(db, clock, db.reminders[k]);
    }
    if after != db {
      forall k | 0 <= k < |db.reminders| && db.reminders[k].invoice == i && db.reminders[k].channel == c
        ensures TierRank(db.reminders[k].tier) < TierRank(after.reminders[|db.reminders|].tier)
      {
        assert ReminderOk(db, clock, db.reminders[k]);
        ClockStateAdvances(db.invoices[i].dueAt, db.reminders[k].sentAt, now, db.invoices[i].dueAt);
      }
    }
  }

  lemma {:induction false} RecordAllKeeps(db: Db, clock: int, picked: seq<nat>, now: int, c: Channel)
    requires History(db, clock) && clock <= now
    requires forall j :: 0 <= j < |picked| ==>
            picked[j] < |db.invoices| && db.invoices[picked[j]].account < |db.accounts|
    ensures History(RecordAll(db, picked, now, c), now)
    decreases |picked|
  {
    if picked == [] {
      forall k | 0 <= k < |db.reminders| ensures ReminderOk(db, now, db.reminders[k]) {
        assert ReminderOk(db, clock, db.reminders[k]);
      }
    } else {
      RecordOneKeeps(db, clock, picked[0], now, c);
      RecordAllKeeps(RecordOne(db, picked[0], now, c), now, picked[1..], now, c);
    }
  }

  lemma RemindSweepKeeps(db: Db, clock: int, now: int, limit: nat, picked: seq<nat>, emailOn: bool)
    requires History(db, clock) && clock <= now
    ensures History(RemindSweep(db, now, limit, picked, emailOn), now)
  {
    RecordAllKeeps(db, clock, [], now, InApp);
    if IsPage(DunnedPool(db, false), DueKey(db.invoices), limit, picked) {
      RecordAllKeeps(db, clock, picked, now, InApp);
      RecordAllKeeps(RecordAll(db, picked, now, InApp), now, picked, now, Email);
    }
  }

  /** A step that records nothing keeps the history, because no step moves a due date. */
  lemma HistoryFrame(cfg: Config, db: Db, after: Db, clock: int, now: int)
    requires History(db, clock) && clock <= now && Evolves(cfg, db, after) && after.reminders == db.reminders
    ensures History(after, now)
  {
    forall k | 0 <= k < |after.reminders| ensures ReminderOk(after, now, after.reminders[k]) {
      assert ReminderOk(db, clock, db.reminders[k]);
      assert InvoiceStep(cfg, db.invoices[db.reminders[k].invoice], after.invoices[db.reminders[k].invoice]);
    }
  }

  /** The same invoice is never reminded twice on one channel at one instant, so a sweep adds at
      most one row per invoice and channel. */
  lemma OneRowPerSweep(db: Db, clock: int, j: nat, k: nat)
    requires History(db, clock) && j < k < |db.reminders|
    requires db.reminders[j].invoice == db.reminders[k].invoice && db.reminders[j].channel == db.reminders[k].channel
    ensures db.reminders[j].sentAt < db.reminders[k].sentAt && db.reminders[j].tier != db.reminders[k].tier
  {
    var due := db.invoices[db.reminders[j].invoice].dueAt;
    assert ReminderOk(db, clock, db.reminders[j]) && ReminderOk(db, clock, db.reminders[k]);
    if db.reminders[k].sentAt <= db.reminders[j].sentAt {
      ClockStateAdvances(due, db.reminders[k].sentAt, db.reminders[j].sentAt, due);
    }
  }

  // ---------------------------------------------------------------------------
  // The one notice
  // ---------------------------------------------------------------------------

  /** What `derive_notices` reads: the account's unpaid invoices on subscriptions in force. */
  predicate Noticed(db: Db, a: nat, i: nat) {
    && i < |db.invoices| && db.invoices[i].account == a && db.invoices[i].Unpaid()
    && db.invoices[i].subscription < |db.subs| && db.subs[db.invoices[i].subscription].Live()
  }

  /** The query result: all of them, oldest due date first. */
  ghost predicate NoticeRows(db: Db, a: nat, rows: seq<nat>) {
    && (forall k :: 0 <= k < |rows| ==> Noticed(db, a, rows[k]))
    && (forall i: nat :: Noticed(db, a, i) ==> i in rows)
    && (forall j, k :: 0 <= j < k < |rows| ==> db.invoices[rows[j]].dueAt <= db.invoices[rows[k]].dueAt)
  }

  /** Whole days until due, rounded down as a timedelta's `days` is. */
  function DaysUntil(due: int, now: int): int { (due - now) / DAY }

  /** `_notice_rank` compared: a more advanced state, or the same state and an older debt. */
  predicate MoreUrgent(a: Notice, aDays: int, b: Notice, bDays: int) {
    Rank(a) > Rank(b) || (Rank(a) == Rank(b) && -aDays > -bDays)
  }

  lemma DaysMonotone(due: int, olderDue: int, now: int)
    requires olderDue <= due
    ensures DaysUntil(olderDue, now) <= DaysUntil(due, now)
  {}

  /** `derive_notices`. The search for the most urgent row always ends on the oldest debt, a
      frozen account is told so whether or not a debt remains, and a suspended one is told
      nothing. */
  method DeriveNotice(db: Db, a: nat, now: int, rows: seq<nat>) returns (notice: Option<(Notice, Option<nat>)>)
    requires a < |db.accounts| && NoticeRows(db, a, rows)
    ensures db.accounts[a].status.AccountRestricted? ==>
              notice == Some((Frozen, if rows == [] then None else Some(rows[0])))
    ensures db.accounts[a].status.AccountSuspended? ==> notice == None
    ensures db.accounts[a].status.AccountActive? ==>
              if rows == [] then notice == None
              else notice == Some((ClockState(db.invoices[rows[0]].dueAt, now), Some(rows[0])))
    ensures db.accounts[a].status.AccountActive? ==> forall i :: i in rows ==>
              Rank(ClockState(db.invoices[i].dueAt, now)) <= Rank(notice.value.0)
  {
    if db.accounts[a].status.AccountRestricted? {
      return Some((Frozen, if rows == [] then None else Some(rows[0])));
    }
    notice := None;
    for k := 0 to |rows|
      invariant db.accounts[a].status.AccountSuspended? || k == 0 ==> notice == None
      invariant db.accounts[a].status.AccountActive? && k > 0 ==>
                  notice == Some((ClockState(db.invoices[rows[0]].dueAt, now), Some(rows[0])))
      invariant db.accounts[a].status.AccountActive? ==> forall j :: 0 <= j < k ==>
                  Rank(ClockState(db.invoices[rows[j]].dueAt, now)) <= Rank(notice.value.0)
    {
      var state := DeriveState(Some(db.accounts[a]), db.invoices[rows[k]], now);
      if state.Some? {
        ClockStateAdvances(db.invoices[rows[k]].dueAt, now, now, db.invoices[rows[0]].dueAt);
        DaysMonotone(db.invoices[rows[k]].dueAt, db.invoices[rows[0]].dueAt, now);
        if notice.None?
           || MoreUrgent(state.value, DaysUntil(db.invoices[rows[k]].dueAt, now),
                         notice.value.0, DaysUntil(db.invoices[notice.value.1.value].dueAt, now))
        {
          notice := Some((state.value, Some(rows[k])));
        }
      }
    }
  }
}
