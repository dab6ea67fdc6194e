/** The fixed-window limiter, and what it admits over any sequence of requests.

    Instants are seconds as real numbers. The cache's own expiry needs no state here: an entry is
    written when its window starts and lives one window, and a window that old is replaced anyway. */
module RateLimit {
  import opened Common

  const WINDOW_SECONDS: real := 60.0

  datatype Rule = Rule(name: string, limit: int)
  datatype Window = Window(started: real, count: nat)

  function Get<T>(m: map<string, T>, key: string): Option<T> { if key in m then Some(m[key]) else None }

  function Key(rule: Rule, identity: string): string { rule.name + ":" + identity }

  /** The window a request at `now` is counted in, with the request counted. */
  function Counted(w: Option<Window>, now: real): Window {
    if w.None? || now - w.value.started >= WINDOW_SECONDS then Window(now, 1)
    else Window(w.value.started, w.value.count + 1)
  }

  class RateLimiter {
    var windows: map<string, Window>

    constructor ()
      ensures windows == map[]
    {
      windows := map[];
    }

    /** `RateLimiter.hit`. */
    method Hit(rule: Rule, identity: string, now: real) returns (allowed: bool, remaining: int, retryAfter: int)
      modifies this
      ensures windows == old(windows)[Key(rule, identity) := Counted(Get(old(windows), Key(rule, identity)), now)]
      ensures allowed <==> windows[Key(rule, identity)].count <= rule.limit
      ensures remaining == Max(0, rule.limit - windows[Key(rule, identity)].count)
      ensures retryAfter == Max(1, (windows[Key(rule, identity)].started + WINDOW_SECONDS - now).Floor)
    {
      var key := Key(rule, identity);
      var window := Window(now, 0);
      if key in windows && now - windows[key].started < WINDOW_SECONDS { window := windows[key]; }
      window := Window(window.started, window.count + 1);
      windows := windows[key := window];
      var elapsed := now - window.started;
      allowed := window.count <= rule.limit;
      remaining := Max(0, rule.limit - window.count);
      retryAfter := Max(1, (WINDOW_SECONDS - elapsed).Floor);
    }
  }

  // ---------------------------------------------------------------------------
  // Keys do not affect each other
  // ---------------------------------------------------------------------------

  datatype Request = Request(rule: Rule, identity: string, now: real)

  function After(windows: map<string, Window>, requests: seq<Request>): map<string, Window>
    decreases |requests|
  {
    if requests == [] then windows
    else
      var key := Key(requests[0].rule, requests[0].identity);
      After(windows[key := Counted(Get(windows, key), requests[0].now)], requests[1..])
  }

  /** The instants of the requests counted under one key. */
  function TimesOf(requests: seq<Request>, key: string): seq<real> {
    if requests == [] then []
    else
      var q := requests[0];
      (if Key(q.rule, q.identity) == key then [q.now] else []) + TimesOf(requests[1..], key)
  }

  function Chain(w: Option<Window>, times: seq<real>): Option<Window>
    decreases |times|
  {
    if times == [] then w else Chain(Some(Counted(w, times[0])), times[1..])
  }

  /** The counter of a key depends on its own requests only. */
  lemma {:induction false} KeysAreIndependent(windows: map<string, Window>, requests: seq<Request>, key: string)
    ensures Get(After(windows, requests), key) == Chain(Get(windows, key), TimesOf(requests, key))
    decreases |requests|
  {
    if requests != [] {
      var k := Key(requests[0].rule, requests[0].identity);
      var next := windows[k := Counted(Get(windows, k), requests[0].now)];
      KeysAreIndependent(next, requests[1..], key);
      if k == key {
        var times := TimesOf(requests, key);
        assert times[1..] == TimesOf(requests[1..], key);
      } else {
        assert TimesOf(requests, key) == TimesOf(requests[1..], key);
      }
    }
  }

  /** Rule names hold no colon, so different rules or identities never share a counter. */
  lemma {:induction false} KeyInjective(r: Rule, i: string, s: Rule, j: string)
    requires ':' !in r.name && ':' !in s.name && Key(r, i) == Key(s, j)
    ensures r.name == s.name && i == j
  {
    var k := Key(r, i);
    assert k[|r.name|] == ':' && k[|s.name|] == ':';
    assert |r.name| == |s.name|;
    assert k[..|r.name|] == r.name && k[..|s.name|] == s.name;
    assert k[|r.name| + 1..] == i && k[|s.name| + 1..] == j;
  }

  // ---------------------------------------------------------------------------
  // How many requests an interval admits
  // ---------------------------------------------------------------------------

  ghost predicate Ordered(times: seq<real>) {
    forall i, j :: 0 <= i < j < |times| ==> times[i] <= times[j]
  }

  /** Requests admitted at an instant of [lo, hi). */
  function Admitted(w: Option<Window>, times: seq<real>, limit: int, lo: real, hi: real): nat
    decreases |times|
  {
    if times == [] then 0
    else
      var n := Counted(w, times[0]);
      (if lo <= times[0] < hi && n.count <= limit then 1 else 0) + Admitted(Some(n), times[1..], limit, lo, hi)
  }

  lemma {:induction false} NoneAfter(w: Option<Window>, times: seq<real>, limit: int, lo: real, hi: real)
    requires Ordered(times) && (times == [] || times[0] >= hi)
    ensures Admitted(w, times, limit, lo, hi) == 0
    decreases |times|
  {
    if times != [] { NoneAfter(Some(Counted(w, times[0])), times[1..], limit, lo, hi); }
  }

  /** Until a window ends it admits only what its counter leaves. */
  lemma {:induction false} WithinWindow(w: Window, times: seq<real>, limit: int, lo: real, hi: real)
    requires Ordered(times) && hi <= w.started + WINDOW_SECONDS
    ensures Admitted(Some(w), times, limit, lo, hi) <= Max(0, limit - w.count)
    decreases |times|
  {
    if times != [] {
      if times[0] - w.started >= WINDOW_SECONDS {
        NoneAfter(Some(w), times, limit, lo, hi);
      } else {
        WithinWindow(Counted(Some(w), times[0]), times[1..], limit, lo, hi);
      }
    }
  }

  /** Each window admits at most `limit` requests. */
  lemma WindowAdmitsAtMostLimit(w: Option<Window>, times: seq<real>, limit: int)
    requires Ordered(times) && times != [] && Counted(w, times[0]) == Window(times[0], 1)
    ensures Admitted(w, times, limit, times[0], times[0] + WINDOW_SECONDS) <= Max(0, limit)
  {
    WithinWindow(Window(times[0], 1), times[1..], limit, times[0], times[0] + WINDOW_SECONDS);
  }

  /** From inside the interval, the current window admits its rest and one new window its limit. */
  lemma {:induction false} AcrossOneBoundary(w: Window, times: seq<real>, limit: int, lo: real)
    requires Ordered(times) && (times == [] || lo <= times[0])
    ensures Admitted(Some(w), times, limit, lo, lo + WINDOW_SECONDS) <= Max(0, limit - w.count) + Max(0, limit)
    decreases |times|
  {
    if times != [] {
      var n := Counted(Some(w), times[0]);
      if times[0] - w.started >= WINDOW_SECONDS {
        WithinWindow(n, times[1..], limit, lo, lo + WINDOW_SECONDS);
      } else {
        AcrossOneBoundary(n, times[1..], limit, lo);
      }
    }
  }

  /** Any half-open interval of one window length admits fewer than twice the limit, whatever the
      counter started from. */
  lemma {:induction false} IntervalBound(w: Option<Window>, times: seq<real>, limit: int, lo: real)
    requires Ordered(times) && (w.Some? ==> w.value.count >= 1)
    ensures Admitted(w, times, limit, lo, lo + WINDOW_SECONDS) <= Max(0, 2 * limit - 1)
    decreases |times|
  {
    if times != [] {
      var n := Counted(w, times[0]);
      if times[0] < lo {
        IntervalBound(Some(n), times[1..], limit, lo);
      } else if w.Some? && n.started == w.value.started && n.count == w.value.count + 1 {
        AcrossOneBoundary(n, times[1..], limit, lo);
      } else {
        WithinWindow(n, times[1..], limit, lo, lo + WINDOW_SECONDS);
      }
    }
  }

  /** The bound is reached: `limit` requests late in one window, `limit` more at the start of the
      next. */
  function Burst(limit: nat): seq<real>
    requires limit >= 1
  {
    [0.0] + seq(limit - 1, _ => 59.0) + seq(limit, _ => 60.0)
  }

  lemma {:induction false} SteadyAdmits(w: Window, t: real, n: nat, rest: seq<real>, limit: nat, lo: real, hi: real)
    requires t - w.started < WINDOW_SECONDS && w.count + n <= limit && lo <= t < hi
    ensures Admitted(Some(w), seq(n, _ => t) + rest, limit, lo, hi)
         == n + Admitted(Some(Window(w.started, w.count + n)), rest, limit, lo, hi)
    decreases n
  {
    var times := seq(n, _ => t) + rest;
    if n == 0 {
      assert times == rest;
    } else {
      assert times[0] == t && times[1..] == seq(n - 1, _ => t) + rest;
      SteadyAdmits(Window(w.started, w.count + 1), t, n - 1, rest, limit, lo, hi);
    }
  }

  lemma IntervalBoundIsReached(limit: nat)
    requires limit >= 1
    ensures Ordered(Burst(limit))
    ensures Admitted(None, Burst(limit), limit, 59.0, 59.0 + WINDOW_SECONDS) == 2 * limit - 1
  {
    var late, newer := seq(limit - 1, _ => 59.0), seq(limit, _ => 60.0);
    var times := Burst(limit);
    assert times[0] == 0.0 && times[1..] == late + newer;
    SteadyAdmits(Window(0.0, 1), 59.0, limit - 1, newer, limit, 59.0, 119.0);
    var more := seq(limit - 1, _ => 60.0);
    assert newer[0] == 60.0 && newer[1..] == more && more == more + [];
    SteadyAdmits(Window(60.0, 1), 60.0, limit - 1, [], limit, 59.0, 119.0);
    assert Admitted(Some(Window(60.0, limit)), [], limit, 59.0, 119.0) == 0;
  }

  /** The requests of a whole run, over every key, that `hit` lets through at an instant of [lo, hi)
      under one rule and identity. */
  function Served(windows: map<string, Window>, requests: seq<Request>, key: string, lo: real, hi: real): nat
    decreases |requests|
  {
    if requests == [] then 0
    else
      var q := requests[0];
      var n := Counted(Get(windows, Key(q.rule, q.identity)), q.now);
      (if Key(q.rule, q.identity) == key && lo <= q.now < hi && n.count <= q.rule.limit then 1 else 0)
      + Served(windows[Key(q.rule, q.identity) := n], requests[1..], key, lo, hi)
  }

  /** What a run serves under one key is what the limiter admits of that key's own requests. */
  lemma {:induction false} ServedIsAdmitted(
      windows: map<string, Window>, requests: seq<Request>, key: string, limit: int, lo: real, hi: real)
    requires forall q <- requests :: Key(q.rule, q.identity) == key ==> q.rule.limit == limit
    ensures Served(windows, requests, key, lo, hi) == Admitted(Get(windows, key), TimesOf(requests, key), limit, lo, hi)
    decreases |requests|
  {
    if requests != [] {
      var q := requests[0];
      var k := Key(q.rule, q.identity);
      assert q in requests;
      var next := windows[k := Counted(Get(windows, k), q.now)];
      ServedIsAdmitted(next, requests[1..], key, limit, lo, hi);
      var times := TimesOf(requests, key);
      if k == key {
        assert times[0] == q.now && times[1..] == TimesOf(requests[1..], key);
      } else {
        assert times == TimesOf(requests[1..], key);
      }
    }
  }

  /** Over any run of requests with a clock that never goes back, each rule and identity is served
      fewer than twice its limit in any such interval, whatever the other callers do. */
  lemma RunBound(requests: seq<Request>, key: string, limit: int, lo: real)
    requires forall i, j :: 0 <= i < j < |requests| ==> requests[i].now <= requests[j].now
    requires forall q <- requests :: Key(q.rule, q.identity) == key ==> q.rule.limit == limit
    ensures Served(map[], requests, key, lo, lo + WINDOW_SECONDS) <= Max(0, 2 * limit - 1)
  {
    ServedIsAdmitted(map[], requests, key, limit, lo, lo + WINDOW_SECONDS);
    TimesOrdered(requests, key);
    IntervalBound(None, TimesOf(requests, key), limit, lo);
  }

  lemma {:induction false} TimesOrdered(requests: seq<Request>, key: string)
    requires forall i, j :: 0 <= i < j < |requests| ==> requests[i].now <= requests[j].now
    ensures Ordered(TimesOf(requests, key))
    ensures requests != [] ==> forall i :: 0 <= i < |TimesOf(requests, key)| ==>
            requests[0].now <= TimesOf(requests, key)[i]
    decreases |requests|
  {
    if requests != [] {
      TimesOrdered(requests[1..], key);
      if |requests| > 1 { assert requests[0].now <= requests[1].now; }
    }
  }

  // ---------------------------------------------------------------------------
  // Nobody is refused for less
  // ---------------------------------------------------------------------------

  /** How many instants of a sequence come after `t`. */
  function CountAfter(times: seq<real>, t: real): nat {
    if times == [] then 0
    else CountAfter(times[..|times| - 1], t) + (if times[|times| - 1] > t then 1 else 0)
  }

  lemma CountMore(times: seq<real>, x: real, t: real)
    ensures CountAfter(times + [x], t) == CountAfter(times, t) + if x > t then 1 else 0
  {
    assert (times + [x])[..|times|] == times;
  }

  lemma {:induction false} ChainMore(w: Option<Window>, times: seq<real>, x: real)
    ensures Chain(w, times + [x]) == Some(Counted(Chain(w, times), x))
    decreases |times|
  {
    if times == [] {
      assert times + [x] == [x] && [x][1..] == [];
      assert Chain(w, [x]) == Chain(Some(Counted(w, x)), []);
    } else {
      assert (times + [x])[1..] == times[1..] + [x];
      ChainMore(Some(Counted(w, times[0])), times[1..], x);
    }
  }

  /** A counter that started from nothing has counted only requests since its window began. */
  lemma {:induction false} CountsItsWindow(times: seq<real>, t: real)
    requires Ordered(times)
    requires Chain(None, times).Some? && t < Chain(None, times).value.started
    ensures Chain(None, times).value.count <= CountAfter(times, t)
    ensures times != [] && Chain(None, times).value.started <= times[|times| - 1]
    decreases |times|
  {
    var front, x := times[..|times| - 1], times[|times| - 1];
    assert times == front + [x];
    ChainMore(None, front, x);
    CountMore(front, x, t);
    var before := Chain(None, front);
    if before.Some? && x - before.value.started < WINDOW_SECONDS { CountsItsWindow(front, t); }
  }

  /** The counter of a key after a run. */
  function WindowAfter(requests: seq<Request>, key: string): Option<Window> { Get(After(map[], requests), key) }

  lemma WindowAfterIsChain(requests: seq<Request>, key: string)
    ensures WindowAfter(requests, key) == Chain(None, TimesOf(requests, key))
  {
    KeysAreIndependent(map[], requests, key);
  }

  /** In every run with a clock that never goes back, a request is refused only if its rule and identity
      made at least `limit` requests in the sixty seconds before it. */
  lemma RefusedOnlyWhenSpent(requests: seq<Request>, key: string, now: real, limit: int)
    requires forall i, j :: 0 <= i < j < |requests| ==> requests[i].now <= requests[j].now
    requires Counted(WindowAfter(requests, key), now).count > limit
    ensures CountAfter(TimesOf(requests, key), now - 60.0) >= limit
  {
    WindowAfterIsChain(requests, key);
    TimesOrdered(requests, key);
    RefusedOnTimes(TimesOf(requests, key), now, limit);
  }

  lemma RefusedOnTimes(times: seq<real>, now: real, limit: int)
    requires Ordered(times) && Counted(Chain(None, times), now).count > limit
    ensures CountAfter(times, now - WINDOW_SECONDS) >= limit
  {
    var w := Chain(None, times);
    if w.Some? && now - w.value.started < WINDOW_SECONDS { CountsItsWindow(times, now - WINDOW_SECONDS); }
  }
}
