/** That warnings are given: which invoices a reminder sweep reaches, and what it writes about them. */
module BillingReminders {
  import opened Common
  import opened BillingModel
  import opened BillingInvariant
  import opened BillingDunning
  import opened BillingRuns

  // ---------------------------------------------------------------------------
  // What is written
  // ---------------------------------------------------------------------------

  /** The days from the due date at which each tier begins. */
  lemma TierDays()
    ensures Offset(Due3) == -3 * DAY && Offset(Due1) == -1 * DAY && Offset(DueToday) == 0
    ensures Offset(Overdue1) == 1 * DAY && Offset(Overdue3) == 3 * DAY && Offset(OverdueFinal) == 6 * DAY
    ensures DAY == 24 * 3600 * 1_000_000
  {}

  /** The tier has begun and no later one has. */
  ghost predicate TierReached(due: int, t: Tier, now: int) {
    due + Offset(t) <= now && forall u: Tier :: TierRank(u) > TierRank(t) ==> now < due + Offset(u)
  }

  /** An invoice a merchant is to be warned about: unpaid, on a subscription in force, of an active account. */
  ghost predicate Warnable(db: Db, i: nat) {
    && i < |db.invoices| && db.invoices[i].Unpaid() && db.invoices[i].subscription < |db.subs|
    && (db.subs[db.invoices[i].subscription].status.SubActive? || db.subs[db.invoices[i].subscription].status.SubTrial?)
    && db.invoices[i].account < |db.accounts| && db.accounts[db.invoices[i].account].status.AccountActive?
  }

  /** The record that the merchant was told. */
  ghost predicate Told(db: Db, i: nat, t: Tier, c: Channel) {
    exists k :: 0 <= k < |db.reminders|
      && db.reminders[k].invoice == i && db.reminders[k].tier == t && db.reminders[k].channel == c
  }

  lemma WarnableIsDunned(db: Db, i: nat)
    ensures Warnable(db, i) <==> i in DunnedPool(db, false)
  {}

  lemma RecordOneWrites(db: Db, i: nat, now: int, c: Channel, t: Tier)
    requires Warnable(db, i) && TierReached(db.invoices[i].dueAt, t, now)
    ensures Told(RecordOne(db, i, now, c), i, t, c)
  {
    ClockStateIsLatestThreshold(db.invoices[i].dueAt, now, t);
    var after := RecordOne(db, i, now, c);
    if after == db {
      assert Recorded(db.reminders, i, t, c);
    } else {
      assert after.reminders[|db.reminders|] == Reminder(i, t, c, now);
    }
  }

  lemma RecordOneKeepsTold(db: Db, j: nat, now: int, c: Channel, i: nat, t: Tier, d: Channel)
    requires j < |db.invoices| && db.invoices[j].account < |db.accounts| && Told(db, i, t, d)
    ensures Told(RecordOne(db, j, now, c), i, t, d)
  {
    var k :| 0 <= k < |db.reminders|
             && db.reminders[k].invoice == i && db.reminders[k].tier == t && db.reminders[k].channel == d;
    assert RecordOne(db, j, now, c).reminders[k] == db.reminders[k];
  }

  lemma {:induction false} RecordAllKeepsTold(
      db: Db, picked: seq<nat>, now: int, c: Channel, i: nat, t: Tier, d: Channel)
    requires forall j :: 0 <= j < |picked| ==>
            picked[j] < |db.invoices| && db.invoices[picked[j]].account < |db.accounts|
    requires Told(db, i, t, d)
    ensures Told(RecordAll(db, picked, now, c), i, t, d)
    decreases |picked|
  {
    if picked != [] {
      RecordOneKeepsTold(db, picked[0], now, c, i, t, d);
      RecordAllKeepsTold(RecordOne(db, picked[0], now, c), picked[1..], now, c, i, t, d);
    }
  }

  lemma {:induction false} RecordAllWrites(db: Db, picked: seq<nat>, now: int, c: Channel, i: nat, t: Tier)
    requires forall j :: 0 <= j < |picked| ==>
            picked[j] < |db.invoices| && db.invoices[picked[j]].account < |db.accounts|
    requires i in picked && Warnable(db, i) && TierReached(db.invoices[i].dueAt, t, now)
    ensures Told(RecordAll(db, picked, now, c), i, t, c)
    decreases |picked|
  {
    var next := RecordOne(db, picked[0], now, c);
    if picked[0] == i {
      RecordOneWrites(db, i, now, c, t);
      RecordAllKeepsTold(next, picked[1..], now, c, i, t, c);
    } else {
      RecordAllWrites(next, picked[1..], now, c, i, t);
    }
  }

  /** After a sweep, every warnable invoice on its page has its current tier on record in the app, and by
      email where that channel is on. */
  lemma ReminderIsWritten(db: Db, now: int, limit: nat, picked: seq<nat>, emailOn: bool, i: nat, t: Tier)
    requires IsPage(DunnedPool(db, false), DueKey(db.invoices), limit, picked)
    requires i in picked && Warnable(db, i) && TierReached(db.invoices[i].dueAt, t, now)
    ensures Told(RemindSweep(db, now, limit, picked, emailOn), i, t, InApp)
    ensures emailOn ==> Told(RemindSweep(db, now, limit, picked, emailOn), i, t, Email)
  {
    RecordAllWrites(db, picked, now, InApp, i, t);
    var inApp := RecordAll(db, picked, now, InApp);
    if emailOn {
      RecordAllWrites(inApp, picked, now, Email, i, t);
      RecordAllKeepsTold(inApp, picked, now, Email, i, t, InApp);
    }
  }

  // ---------------------------------------------------------------------------
  // Nothing else is written
  // ---------------------------------------------------------------------------

  /** A row a sweep may add: now, about an invoice on its page, at the tier it has reached. */
  ghost predicate Warranted(db: Db, r: Reminder, now: int, picked: seq<nat>, c: Channel) {
    && r.sentAt == now && r.channel == c && r.invoice in picked
    && Warnable(db, r.invoice) && TierReached(db.invoices[r.invoice].dueAt, r.tier, now)
  }

  lemma {:induction false} RecordAllOnlyWarranted(db: Db, picked: seq<nat>, now: int, c: Channel)
    requires forall j :: 0 <= j < |picked| ==>
            picked[j] < |db.invoices| && db.invoices[picked[j]].account < |db.accounts|
    requires forall j :: 0 <= j < |picked| ==> Warnable(db, picked[j])
    ensures var after := RecordAll(db, picked, now, c).reminders;
            && |db.reminders| <= |after| && after[..|db.reminders|] == db.reminders
            && forall k :: |db.reminders| <= k < |after| ==> Warranted(db, after[k], now, picked, c)
    decreases |picked|
  {
    if picked != [] {
      var next := RecordOne(db, picked[0], now, c);
      RecordAllOnlyWarranted(next, picked[1..], now, c);
      var after := RecordAll(db, picked, now, c).reminders;
      assert after[..|db.reminders|] == after[..|next.reminders|][..|db.reminders|];
      forall k | |db.reminders| <= k < |after| ensures Warranted(db, after[k], now, picked, c) {
        if k < |next.reminders| {
          assert after[k] == next.reminders[k];
          ClockStateIsLatestThreshold(db.invoices[picked[0]].dueAt, now, after[k].tier);
        } else {
          assert Warranted(next, after[k], now, picked[1..], c);
        }
      }
    }
  }

  /** Every row a sweep adds is warranted, in the app or, where that channel is on, by email. */
  lemma SweepAddsOnlyWarranted(db: Db, now: int, limit: nat, picked: seq<nat>, emailOn: bool)
    ensures var after := RemindSweep(db, now, limit, picked, emailOn).reminders;
            && |db.reminders| <= |after| && after[..|db.reminders|] == db.reminders
            && forall k :: |db.reminders| <= k < |after| ==>
                 || Warranted(db, after[k], now, picked, InApp)
                 || (emailOn && Warranted(db, after[k], now, picked, Email))
  {
    if IsPage(DunnedPool(db, false), DueKey(db.invoices), limit, picked) {
      forall j | 0 <= j < |picked| ensures Warnable(db, picked[j]) { WarnableIsDunned(db, picked[j]); }
      RecordAllOnlyWarranted(db, picked, now, InApp);
      var inApp := RecordAll(db, picked, now, InApp);
      RecordAllOnlyWarranted(inApp, picked, now, Email);
      var after := RemindSweep(db, now, limit, picked, emailOn).reminders;
      assert after[..|db.reminders|] == after[..|inApp.reminders|][..|db.reminders|];
      forall k | |db.reminders| <= k < |after|
        ensures Warranted(db, after[k], now, picked, InApp) || (emailOn && Warranted(db, after[k], now, picked, Email))
      {
        if k < |inApp.reminders| {
          assert after[k] == inApp.reminders[k];
        } else {
          assert Warranted(inApp, after[k], now, picked, Email);
        }
      }
    }
  }

  // ---------------------------------------------------------------------------
  // Which invoices a sweep reaches
  // ---------------------------------------------------------------------------

  /** The rows of the pool that an ordered query may return before `i` or with it. */
  ghost function NoLater(pool: set<nat>, key: nat -> int, i: nat): set<nat> { set j | j in pool && key(j) <= key(i) }

  ghost function Members(s: seq<nat>): set<nat> { set x | x in s }

  lemma {:induction false} DistinctSize(s: seq<nat>)
    requires forall j, k :: 0 <= j < k < |s| ==> s[j] != s[k]
    ensures |Members(s)| == |s|
    decreases |s|
  {
    if s != [] {
      var front := s[..|s| - 1];
      DistinctSize(front);
      assert Members(s) == Members(front) + {s[|s| - 1]};
    }
  }

  lemma SubsetSize(a: set<nat>, b: set<nat>)
    requires a <= b
    ensures |a| <= |b|
  {
    assert b == a + (b - a);
  }

  lemma LeftOutMeansMany(pool: set<nat>, key: nat -> int, limit: nat, picked: seq<nat>, i: nat)
    requires IsPage(pool, key, limit, picked) && i in pool && i !in picked
    ensures |NoLater(pool, key, i)| > limit
  {
    DistinctSize(picked);
    assert Members(picked) + {i} <= NoLater(pool, key, i);
    SubsetSize(Members(picked) + {i}, NoLater(pool, key, i));
    assert |Members(picked) + {i}| == limit + 1;
  }

  lemma EarlyIsPicked(pool: set<nat>, key: nat -> int, limit: nat, picked: seq<nat>, i: nat)
    requires IsPage(pool, key, limit, picked) && i in pool && |NoLater(pool, key, i)| <= limit
    ensures i in picked
  {
    if i !in picked { LeftOutMeansMany(pool, key, limit, picked, i); }
  }

  /** The rows of the pool that every ordered answer returns before `i`. */
  ghost function Earlier(pool: set<nat>, key: nat -> int, i: nat): set<nat> { set j | j in pool && key(j) < key(i) }

  lemma PickedMeansFew(pool: set<nat>, key: nat -> int, limit: nat, picked: seq<nat>, i: nat)
    requires IsPage(pool, key, limit, picked) && i in picked
    ensures |Earlier(pool, key, i)| < limit
  {
    var at :| 0 <= at < |picked| && picked[at] == i;
    DistinctSize(picked);
    assert Earlier(pool, key, i) + {i} <= Members(picked);
    SubsetSize(Earlier(pool, key, i) + {i}, Members(picked));
  }

  lemma {:induction false} LeastOf(pool: set<nat>, key: nat -> int) returns (m: nat)
    requires pool != {}
    ensures m in pool && forall x :: x in pool ==> key(m) <= key(x)
    decreases |pool|
  {
    m :| m in pool;
    if pool != {m} {
      var n := LeastOf(pool - {m}, key);
      if key(n) < key(m) { m := n; }
    }
  }

  /** A query can always be answered. */
  lemma {:induction false} SomePage(pool: set<nat>, key: nat -> int, limit: nat) returns (picked: seq<nat>)
    ensures IsPage(pool, key, limit, picked) && (limit <= |pool| ==> |picked| == limit)
    decreases limit
  {
    if limit == 0 || pool == {} {
      picked := [];
    } else {
      var m := LeastOf(pool, key);
      var rest := SomePage(pool - {m}, key, limit - 1);
      picked := [m] + rest;
    }
  }

  /** With more rows before it than the limit takes, some answer leaves the row out. */
  lemma PageWithout(pool: set<nat>, key: nat -> int, limit: nat, i: nat) returns (picked: seq<nat>)
    requires i in pool && |NoLater(pool, key, i)| > limit
    ensures IsPage(pool, key, limit, picked) && i !in picked
  {
    var others := NoLater(pool, key, i) - {i};
    picked := SomePage(others, key, limit);
    forall x, j | 0 <= j < |picked| && x in pool && x !in picked ensures key(picked[j]) <= key(x) {
      assert picked[j] in others;
      if x !in others { assert x == i || key(x) > key(i); }
    }
  }

  /** How many warnable invoices are due no later than invoice `i`. */
  ghost function DueNoLater(db: Db, i: nat): set<nat>
    requires i < |db.invoices|
  {
    set j | 0 <= j < |db.invoices| && Warnable(db, j) && db.invoices[j].dueAt <= db.invoices[i].dueAt
  }

  lemma DueNoLaterIsNoLater(db: Db, i: nat)
    requires i < |db.invoices|
    ensures DueNoLater(db, i) == NoLater(DunnedPool(db, false), DueKey(db.invoices), i)
  {
    forall j: nat ensures j in DueNoLater(db, i) <==> j in NoLater(DunnedPool(db, false), DueKey(db.invoices), i) {
      WarnableIsDunned(db, j);
    }
  }

  /** The sweep's query does not pass over invoices it has already warned about. So whatever it returns, a
      sweep is sure to leave a warnable invoice's new tier on record if and only if at most `limit`
      warnable invoices are due no later. */
  lemma ToldForSureExactlyWhen(db: Db, now: int, limit: nat, emailOn: bool, i: nat, t: Tier)
    requires Warnable(db, i) && TierReached(db.invoices[i].dueAt, t, now) && !Told(db, i, t, InApp)
    ensures (forall picked :: IsPage(DunnedPool(db, false), DueKey(db.invoices), limit, picked) ==>
                                Told(RemindSweep(db, now, limit, picked, emailOn), i, t, InApp))
            <==> |DueNoLater(db, i)| <= limit
  {
    var pool, key := DunnedPool(db, false), DueKey(db.invoices);
    WarnableIsDunned(db, i);
    DueNoLaterIsNoLater(db, i);
    if |DueNoLater(db, i)| <= limit {
      forall picked | IsPage(pool, key, limit, picked)
        ensures Told(RemindSweep(db, now, limit, picked, emailOn), i, t, InApp)
      {
        EarlyIsPicked(pool, key, limit, picked, i);
        ReminderIsWritten(db, now, limit, picked, emailOn, i, t);
      }
    } else {
      var picked := PageWithout(pool, key, limit, i);
      PassedOver(db, now, limit, picked, emailOn, i, t);
    }
  }

  /** An invoice off the page is told nothing. */
  lemma PassedOver(db: Db, now: int, limit: nat, picked: seq<nat>, emailOn: bool, i: nat, t: Tier)
    requires i !in picked && !Told(db, i, t, InApp)
    ensures !Told(RemindSweep(db, now, limit, picked, emailOn), i, t, InApp)
  {
    SweepAddsOnlyWarranted(db, now, limit, picked, emailOn);
    var after := RemindSweep(db, now, limit, picked, emailOn).reminders;
    forall k | 0 <= k < |after| ensures after[k].invoice != i || after[k].tier != t || after[k].channel != InApp {
      assert k < |db.reminders| ==> after[k] == after[..|db.reminders|][k] == db.reminders[k];
    }
  }

  // ---------------------------------------------------------------------------
  // Repeated sweeps
  // ---------------------------------------------------------------------------

  /** One sweep: its instant, the page its query returned, whether email is on. */
  datatype Sweep = Sweep(now: int, picked: seq<nat>, emailOn: bool)

  ghost function Sweeps(db: Db, limit: nat, sweeps: seq<Sweep>): Db
    decreases |sweeps|
  {
    if sweeps == [] then db
    else Sweeps(RemindSweep(db, sweeps[0].now, limit, sweeps[0].picked, sweeps[0].emailOn), limit, sweeps[1..])
  }

  lemma SweepChangesRemindersOnly(db: Db, limit: nat, s: Sweep)
    ensures var after := RemindSweep(db, s.now, limit, s.picked, s.emailOn);
            after == db.(reminders := after.reminders)
  {}

  /** How many warnable invoices are due strictly before invoice `i`. */
  ghost function DueEarlier(db: Db, i: nat): set<nat>
    requires i < |db.invoices|
  {
    set j | 0 <= j < |db.invoices| && Warnable(db, j) && db.invoices[j].dueAt < db.invoices[i].dueAt
  }

  lemma DueEarlierIsEarlier(db: Db, i: nat)
    requires i < |db.invoices|
    ensures DueEarlier(db, i) == Earlier(DunnedPool(db, false), DueKey(db.invoices), i)
  {
    forall j: nat ensures j in DueEarlier(db, i) <==> j in Earlier(DunnedPool(db, false), DueKey(db.invoices), i) {
      WarnableIsDunned(db, j);
    }
  }

  /** With `limit` warnable invoices due before it, an invoice is never told anything, by however many
      sweeps at whatever instants, while those debts stand. */
  lemma {:induction false} StarvedForever(db: Db, limit: nat, sweeps: seq<Sweep>, i: nat, t: Tier)
    requires i < |db.invoices| && |DueEarlier(db, i)| >= limit && !Told(db, i, t, InApp)
    ensures !Told(Sweeps(db, limit, sweeps), i, t, InApp)
    decreases |sweeps|
  {
    if sweeps != [] {
      var s := sweeps[0];
      var next := RemindSweep(db, s.now, limit, s.picked, s.emailOn);
      SweepChangesRemindersOnly(db, limit, s);
      SamePool(db, next);
      DueEarlierIsEarlier(db, i);
      DueEarlierIsEarlier(next, i);
      if IsPage(DunnedPool(db, false), DueKey(db.invoices), limit, s.picked) {
        if i in s.picked { PickedMeansFew(DunnedPool(db, false), DueKey(db.invoices), limit, s.picked, i); }
        PassedOver(db, s.now, limit, s.picked, s.emailOn, i, t);
      }
      StarvedForever(next, limit, sweeps[1..], i, t);
    }
  }

  /** With at most `limit` warnable invoices due no later, every sweep leaves its current tier on record. */
  lemma {:induction false} ToldByEverySweep(db: Db, limit: nat, sweeps: seq<Sweep>, k: nat, i: nat, t: Tier)
    requires Warnable(db, i) && |DueNoLater(db, i)| <= limit && k < |sweeps|
    requires TierReached(db.invoices[i].dueAt, t, sweeps[k].now)
    requires forall j :: 0 <= j < |sweeps| ==>
            IsPage(DunnedPool(db, false), DueKey(db.invoices), limit, sweeps[j].picked)
    ensures Told(Sweeps(db, limit, sweeps), i, t, InApp)
    decreases |sweeps|
  {
    var s := sweeps[0];
    var next := RemindSweep(db, s.now, limit, s.picked, s.emailOn);
    SweepChangesRemindersOnly(db, limit, s);
    SamePool(db, next);
    if k == 0 {
      WarnableIsDunned(db, i);
      DueNoLaterIsNoLater(db, i);
      EarlyIsPicked(DunnedPool(db, false), DueKey(db.invoices), limit, s.picked, i);
      ReminderIsWritten(db, s.now, limit, s.picked, s.emailOn, i, t);
      SweepsKeepTold(next, limit, sweeps[1..], i, t);
    } else {
      DueNoLaterIsNoLater(db, i);
      DueNoLaterIsNoLater(next, i);
      ToldByEverySweep(next, limit, sweeps[1..], k - 1, i, t);
    }
  }

  lemma SamePool(db: Db, next: Db)
    requires next == db.(reminders := next.reminders)
    ensures DunnedPool(next, false) == DunnedPool(db, false)
  {}

  lemma {:induction false} SweepsKeepTold(db: Db, limit: nat, sweeps: seq<Sweep>, i: nat, t: Tier)
    requires Told(db, i, t, InApp)
    ensures Told(Sweeps(db, limit, sweeps), i, t, InApp)
    decreases |sweeps|
  {
    if sweeps != [] {
      var s := sweeps[0];
      SweepAddsOnlyWarranted(db, s.now, limit, s.picked, s.emailOn);
      var next := RemindSweep(db, s.now, limit, s.picked, s.emailOn);
      var k :| 0 <= k < |db.reminders| && db.reminders[k].invoice == i && db.reminders[k].tier == t
               && db.reminders[k].channel == InApp;
      assert next.reminders[k] == next.reminders[..|db.reminders|][k];
      SweepsKeepTold(next, limit, sweeps[1..], i, t);
    }
  }
}
