/** The password sign-in lockout, and how many guesses it lets through in an hour.

    Instants are seconds as real numbers. An entry is forgotten one hour after it was last written,
    and a wait is cut down to whole seconds, so a lock can be passed up to a second early. */
module LoginLockout {
  import opened Common

  const FAILURE_THRESHOLD: nat := 5
  const LOCK_BASE_SECONDS: nat := 60
  const LOCK_MAX_SECONDS: nat := 3600
  const LIFETIME: real := 3600.0

  datatype Failures = Failures(count: nat, lockedUntil: real, expires: real)

  /** The lock, in seconds, that the failure numbered `count` starts. */
  function Lock(threshold: nat, count: nat): nat
    requires count >= threshold
  {
    Min(LOCK_BASE_SECONDS * Pow2(count - threshold), LOCK_MAX_SECONDS)
  }

  predicate Remembered(failures: map<string, Failures>, email: string, now: real) {
    email in failures && now < failures[email].expires
  }

  /** The whole seconds left of a lock: zero in its last second. */
  function Wait(failures: map<string, Failures>, email: string, now: real): nat {
    if !Remembered(failures, email, now) || failures[email].lockedUntil < now then 0
    else (failures[email].lockedUntil - now).Floor
  }

  /** The entry after one more failure. */
  function Failed(threshold: nat, failures: map<string, Failures>, email: string, now: real): Failures {
    var before := if Remembered(failures, email, now) then failures[email] else Failures(0, 0.0, 0.0);
    var count := before.count + 1;
    var lockedUntil := if count >= threshold then now + Lock(threshold, count) as real else before.lockedUntil;
    Failures(count, lockedUntil, now + LIFETIME)
  }

  class Lockout {
    const threshold: nat
    var failures: map<string, Failures>

    constructor (threshold: nat)
      ensures this.threshold == threshold && failures == map[]
    {
      this.threshold := threshold;
      failures := map[];
    }

    /** `LoginLockout.locked_for`. */
    method LockedFor(email: string, now: real) returns (wait: nat)
      ensures wait == Wait(failures, email, now)
    {
      if email !in failures || failures[email].expires <= now { return 0; }
      var left := failures[email].lockedUntil - now;
      wait := if left < 0.0 then 0 else left.Floor;
    }

    /** `LoginLockout.record_failure`: from the threshold on, the caller is told the whole lock. */
    method RecordFailure(email: string, now: real) returns (wait: nat)
      modifies this
      ensures failures == old(failures)[email := Failed(threshold, old(failures), email, now)]
      ensures wait == Wait(failures, email, now)
      ensures failures[email].count >= threshold ==> wait == Lock(threshold, failures[email].count)
    {
      var entry := Failures(0, 0.0, 0.0);
      if email in failures && now < failures[email].expires { entry := failures[email]; }
      entry := entry.(count := entry.count + 1);
      if entry.count >= threshold {
        var backoff := LOCK_BASE_SECONDS * Pow2(entry.count - threshold);
        entry := entry.(lockedUntil := now + Min(backoff, LOCK_MAX_SECONDS) as real);
      }
      failures := failures[email := entry.(expires := now + LIFETIME)];
      wait := LockedFor(email, now);
    }

    /** `LoginLockout.clear`. */
    method Clear(email: string)
      modifies this
      ensures failures == old(failures) - {email}
    {
      failures := failures - {email};
    }
  }

  // ---------------------------------------------------------------------------
  // Runs of sign-in attempts
  // ---------------------------------------------------------------------------

  /** One sign-in: the lock is looked up at `checked`; past it, the password is judged at `judged`. */
  datatype Attempt = Attempt(email: string, checked: real, judged: real, correct: bool)

  predicate Passes(failures: map<string, Failures>, a: Attempt) {
    Wait(failures, a.email, a.checked) == 0
  }

  function SignIn(threshold: nat, failures: map<string, Failures>, a: Attempt): map<string, Failures> {
    if !Passes(failures, a) then failures
    else if a.correct then failures - {a.email}
    else failures[a.email := Failed(threshold, failures, a.email, a.judged)]
  }

  /** Attempts come one after the other, from `t` on. */
  ghost predicate Sequential(attempts: seq<Attempt>, t: real)
    decreases |attempts|
  {
    attempts == [] ||
    (t <= attempts[0].checked <= attempts[0].judged && Sequential(attempts[1..], attempts[0].judged))
  }

  /** Nobody signs in to `email` at an instant of [lo, hi). */
  ghost predicate NoSuccess(attempts: seq<Attempt>, email: string, lo: real, hi: real)
    decreases |attempts|
  {
    attempts == [] ||
    ((attempts[0].email == email && attempts[0].correct ==> attempts[0].judged < lo || hi <= attempts[0].judged)
     && NoSuccess(attempts[1..], email, lo, hi))
  }

  /** Wrong passwords for `email` that got past the lock at an instant of [lo, hi). */
  function Guesses(
      threshold: nat, failures: map<string, Failures>, attempts: seq<Attempt>, email: string, lo: real, hi: real): nat
    decreases |attempts|
  {
    if attempts == [] then 0
    else
      var a := attempts[0];
      (if a.email == email && Passes(failures, a) && !a.correct && lo <= a.judged < hi then 1 else 0)
      + Guesses(threshold, SignIn(threshold, failures, a), attempts[1..], email, lo, hi)
  }

  // ---------------------------------------------------------------------------
  // How far apart the failures must lie
  // ---------------------------------------------------------------------------

  /** The least time between the failure numbered `count` and the next. */
  function Gap(threshold: nat, count: nat): nat {
    if count < threshold || Lock(threshold, count) == 0 then 0 else Lock(threshold, count) - 1
  }

  /** The least time in which `n` failures follow the one numbered `count`. */
  function Needs(threshold: nat, count: nat, n: nat): nat
    decreases n
  {
    if n == 0 then 0 else Gap(threshold, count) + Needs(threshold, count + 1, n - 1)
  }

  lemma {:induction false} LaterNeedsMore(threshold: nat, count: nat, n: nat)
    ensures Needs(threshold, count, n) <= Needs(threshold, count + 1, n)
    decreases n
  {
    if n > 0 { LaterNeedsMore(threshold, count + 1, n - 1); }
  }

  lemma {:induction false} LeastFromOne(threshold: nat, count: nat, n: nat)
    requires count >= 1
    ensures Needs(threshold, 1, n) <= Needs(threshold, count, n)
    decreases count
  {
    if count > 1 {
      LeastFromOne(threshold, count - 1, n);
      LaterNeedsMore(threshold, count - 1, n);
    }
  }

  lemma {:induction false} MoreNeedsMore(threshold: nat, count: nat, n: nat, m: nat)
    requires n <= m
    ensures Needs(threshold, count, n) <= Needs(threshold, count, m)
    decreases n
  {
    if n > 0 { MoreNeedsMore(threshold, count + 1, n - 1, m - 1); }
  }

  lemma {:induction false} FreeBelowThreshold(threshold: nat, count: nat, n: nat)
    requires count <= threshold
    ensures Needs(threshold, count, threshold - count + n) == Needs(threshold, threshold, n)
    decreases threshold - count
  {
    if count < threshold { FreeBelowThreshold(threshold, count + 1, n); }
  }

  lemma Powers()
    ensures Pow2(0) == 1 && Pow2(1) == 2 && Pow2(2) == 4 && Pow2(3) == 8 && Pow2(4) == 16 && Pow2(5) == 32
  {
    assert Pow2(3) == 8;
  }

  /** From the threshold, six more failures take over an hour. */
  lemma SixTakeAnHour(threshold: nat)
    ensures Needs(threshold, threshold, 6) == 59 + 119 + 239 + 479 + 959 + 1919
  {
    Powers();
    var t := threshold;
    assert Needs(t, t + 6, 0) == 0;
    assert Needs(t, t + 5, 1) == 1919;
    assert Needs(t, t + 4, 2) == 959 + 1919;
    assert Needs(t, t + 3, 3) == 479 + 959 + 1919;
    assert Needs(t, t + 2, 4) == 239 + 479 + 959 + 1919;
    assert Needs(t, t + 1, 5) == 119 + 239 + 479 + 959 + 1919;
  }

  /** Whatever the count, `threshold + 5` further failures need more than an hour. */
  lemma HourIsTooShort(threshold: nat, count: nat, n: nat)
    requires count >= 1 && n >= threshold + 5
    ensures Needs(threshold, count, n) >= 3600
  {
    SixTakeAnHour(threshold);
    LeastFromOne(threshold, count, n);
    MoreNeedsMore(threshold, 1, threshold + 5, n);
    if threshold == 0 {
      assert Needs(0, 0, 6) == Gap(0, 0) + Needs(0, 1, 5);
      Powers();
    } else {
      FreeBelowThreshold(threshold, 1, 6);
    }
  }

  // ---------------------------------------------------------------------------
  // The bound over every run
  // ---------------------------------------------------------------------------

  lemma {:induction false} NoneAfter(
      threshold: nat, failures: map<string, Failures>, attempts: seq<Attempt>, email: string, lo: real, hi: real)
    requires Sequential(attempts, hi)
    ensures Guesses(threshold, failures, attempts, email, lo, hi) == 0
    decreases |attempts|
  {
    if attempts != [] {
      LaterIsStillLater(attempts[1..], attempts[0].judged, hi);
      NoneAfter(threshold, SignIn(threshold, failures, attempts[0]), attempts[1..], email, lo, hi);
    }
  }

  lemma LaterIsStillLater(attempts: seq<Attempt>, t: real, earlier: real)
    requires Sequential(attempts, t) && earlier <= t
    ensures Sequential(attempts, earlier)
  {}

  /** The entry a failure at `f` leaves. */
  ghost predicate SetAt(threshold: nat, failures: map<string, Failures>, email: string, f: real) {
    && email in failures && failures[email].expires == f + LIFETIME
    && (failures[email].count >= threshold ==>
          failures[email].lockedUntil == f + Lock(threshold, failures[email].count) as real)
  }

  /** A wrong password that gets past the lock inside the entry's lifetime comes a gap later and
      leaves the next entry. */
  lemma NextGuess(threshold: nat, failures: map<string, Failures>, a: Attempt, f: real)
    requires SetAt(threshold, failures, a.email, f) && Passes(failures, a) && !a.correct
    requires f <= a.checked <= a.judged < f + LIFETIME
    ensures var next := SignIn(threshold, failures, a);
            && SetAt(threshold, next, a.email, a.judged) && next[a.email].count == failures[a.email].count + 1
            && f + Gap(threshold, failures[a.email].count) as real <= a.judged
  {
    PassesLate(threshold, failures, a, f);
  }

  /** After a failure at `f` the entry outlives the interval, so each further failure there waits
      for the lock before it. */
  lemma {:induction false} Spread(
      threshold: nat, failures: map<string, Failures>, attempts: seq<Attempt>, email: string,
      f: real, lo: real, hi: real)
    requires Sequential(attempts, f) && lo <= f && hi <= f + LIFETIME
    requires SetAt(threshold, failures, email, f) && NoSuccess(attempts, email, lo, hi)
    ensures var n := Guesses(threshold, failures, attempts, email, lo, hi);
            n == 0 || f + Needs(threshold, failures[email].count, n) as real < hi
    decreases |attempts|
  {
    if attempts != [] {
      var a, rest := attempts[0], attempts[1..];
      var next := SignIn(threshold, failures, a);
      if a.email != email || !Passes(failures, a) {
        LaterIsStillLater(rest, a.judged, f);
        Spread(threshold, next, rest, email, f, lo, hi);
      } else if a.judged >= hi {
        LaterIsStillLater(rest, a.judged, hi);
        NoneAfter(threshold, next, rest, email, lo, hi);
      } else {
        NextGuess(threshold, failures, a, f);
        Spread(threshold, next, rest, email, a.judged, lo, hi);
      }
    }
  }

  /** An attempt that gets past the lock comes at least the gap after the failure that set it. */
  lemma PassesLate(threshold: nat, failures: map<string, Failures>, a: Attempt, f: real)
    requires Remembered(failures, a.email, a.checked) && Passes(failures, a) && f <= a.checked <= a.judged
    requires failures[a.email].count >= threshold ==>
            failures[a.email].lockedUntil == f + Lock(threshold, failures[a.email].count) as real
    ensures f + Gap(threshold, failures[a.email].count) as real <= a.judged
  {
    var until := failures[a.email].lockedUntil;
    if a.checked <= until { assert (until - a.checked).Floor == 0; }
  }

  /** In any run of sign-ins, over any mix of accounts and from any earlier state, an hour in which
      nobody signs in to an account sees at most `threshold + 5` wrong passwords for it reach the
      password check. */
  lemma {:induction false} HourlyBound(
      threshold: nat, failures: map<string, Failures>, attempts: seq<Attempt>, email: string, start: real, lo: real)
    requires Sequential(attempts, start) && NoSuccess(attempts, email, lo, lo + LIFETIME)
    ensures Guesses(threshold, failures, attempts, email, lo, lo + LIFETIME) <= threshold + 5
    decreases |attempts|
  {
    if attempts != [] {
      var a, rest, hi := attempts[0], attempts[1..], lo + LIFETIME;
      var next := SignIn(threshold, failures, a);
      if a.email == email && Passes(failures, a) && !a.correct && lo <= a.judged < hi {
        Spread(threshold, next, rest, email, a.judged, lo, hi);
        var n := Guesses(threshold, next, rest, email, lo, hi);
        if n >= threshold + 5 { HourIsTooShort(threshold, next[email].count, n); }
      } else {
        HourlyBound(threshold, next, rest, email, a.judged, lo);
      }
    }
  }

  /** At the default threshold: ten. */
  lemma TenAnHour(attempts: seq<Attempt>, email: string, start: real, lo: real)
    requires Sequential(attempts, start) && NoSuccess(attempts, email, lo, lo + LIFETIME)
    ensures Guesses(FAILURE_THRESHOLD, map[], attempts, email, lo, lo + LIFETIME) <= 10
  {
    HourlyBound(FAILURE_THRESHOLD, map[], attempts, email, start, lo);
  }

  // ---------------------------------------------------------------------------
  // The bound is reached
  // ---------------------------------------------------------------------------

  function Instants(): seq<real> { [0.0, 0.0, 0.0, 0.0, 0.0, 59.5, 179.0, 418.5, 898.0, 1857.5] }

  function Attack(email: string, from: nat): seq<Attempt>
    requires from <= 10
    decreases 10 - from
  {
    if from == 10 then [] else [Attempt(email, Instants()[from], Instants()[from], false)] + Attack(email, from + 1)
  }

  lemma {:induction false} AttackIsSequential(email: string, from: nat)
    requires from <= 10
    ensures Sequential(Attack(email, from), if from == 0 then 0.0 else Instants()[from - 1])
    ensures NoSuccess(Attack(email, from), email, 0.0, LIFETIME)
    decreases 10 - from
  {
    if from < 10 {
      AttackIsSequential(email, from + 1);
      assert Attack(email, from)[1..] == Attack(email, from + 1);
    }
  }

  /** The lock the first `count` failures of the attack leave, at each count. */
  lemma {:induction false} AttackContinues(email: string, failures: map<string, Failures>, from: nat)
    requires from <= 10
    requires if from == 0 then email !in failures else
               && email in failures && failures[email].count == from
               && failures[email].expires == Instants()[from - 1] + LIFETIME
               && failures[email].lockedUntil ==
                    if from < 5 then 0.0 else Instants()[from - 1] + Lock(5, from) as real
    ensures Guesses(5, failures, Attack(email, from), email, 0.0, LIFETIME) == 10 - from
    decreases 10 - from
  {
    if from < 10 {
      Powers();
      var a := Attempt(email, Instants()[from], Instants()[from], false);
      assert Attack(email, from)[0] == a && Attack(email, from)[1..] == Attack(email, from + 1);
      assert Passes(failures, a);
      AttackContinues(email, SignIn(5, failures, a), from + 1);
    }
  }

  /** Ten guesses in an hour are possible, so the bound cannot be lowered. */
  lemma TenIsReached(email: string)
    ensures Sequential(Attack(email, 0), 0.0) && NoSuccess(Attack(email, 0), email, 0.0, LIFETIME)
    ensures Guesses(FAILURE_THRESHOLD, map[], Attack(email, 0), email, 0.0, LIFETIME) == 10
  {
    AttackIsSequential(email, 0);
    AttackContinues(email, map[], 0);
  }

  // ---------------------------------------------------------------------------
  // Nobody is locked out for less
  // ---------------------------------------------------------------------------

  function After(threshold: nat, failures: map<string, Failures>, attempts: seq<Attempt>): map<string, Failures>
    decreases |attempts|
  {
    if attempts == [] then failures else After(threshold, SignIn(threshold, failures, attempts[0]), attempts[1..])
  }

  function CountOf(failures: map<string, Failures>, email: string): nat {
    if email in failures then failures[email].count else 0
  }

  /** Every attempt is judged in [0, hi). */
  ghost predicate Within(attempts: seq<Attempt>, hi: real)
    decreases |attempts|
  {
    attempts == [] || (0.0 <= attempts[0].checked && 0.0 <= attempts[0].judged < hi && Within(attempts[1..], hi))
  }

  /** A lock is only ever set from the threshold on. */
  ghost predicate LocksEarned(threshold: nat, failures: map<string, Failures>, email: string) {
    email in failures && failures[email].lockedUntil > 0.0 ==> failures[email].count >= threshold
  }

  lemma {:induction false} CountIsGuesses(
      threshold: nat, failures: map<string, Failures>, attempts: seq<Attempt>, email: string, hi: real)
    requires Within(attempts, hi) && LocksEarned(threshold, failures, email)
    ensures LocksEarned(threshold, After(threshold, failures, attempts), email)
    ensures CountOf(After(threshold, failures, attempts), email)
         <= CountOf(failures, email) + Guesses(threshold, failures, attempts, email, 0.0, hi)
    decreases |attempts|
  {
    if attempts != [] { CountIsGuesses(threshold, SignIn(threshold, failures, attempts[0]), attempts[1..], email, hi); }
  }

  /** In any run of sign-ins, an attempt is turned away only if at least `threshold` wrong passwords for
      that account reached the password check before. */
  lemma LockedOnlyAfterThreshold(threshold: nat, attempts: seq<Attempt>, a: Attempt, hi: real)
    requires Within(attempts, hi) && 0.0 <= a.checked && !Passes(After(threshold, map[], attempts), a)
    ensures Guesses(threshold, map[], attempts, a.email, 0.0, hi) >= threshold
  {
    CountIsGuesses(threshold, map[], attempts, a.email, hi);
  }

  /** The wait a lock imposes, from the failure that sets it: sixty seconds doubled for each failure past the
      threshold, and never more than an hour. */
  lemma LockDoubles(threshold: nat, count: nat)
    requires count >= threshold
    ensures Lock(threshold, count) == (if Pow2(count - threshold) <= 60 then 60 * Pow2(count - threshold) else 3600)
  {}
}
