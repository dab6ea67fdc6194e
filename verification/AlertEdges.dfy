/** The alert watcher: what is true now, and one message per edge.

    The firing table is a dictionary in insertion order, so a sequence of entries with distinct keys.
    Message texts are left as the data they are built from. */
module AlertEdges {
  import opened Common

  datatype Probe<+T> = Read(value: T) | Raises

  datatype Detail =
    | NeverStarted(queue: string)
    | Stalled(queue: string, age: real)
    | Backlog(waiting: int)
    | FailureRate(failed: nat, total: nat)
    | External(text: string)

  datatype Condition = Condition(key: string, detail: Detail)
  datatype Firing = Firing(condition: Condition, since: int)
  datatype Message = Raised(condition: Condition, since: int) | Resolved(firing: Firing)
  datatype Outcomes = Outcomes(failed: nat, total: nat)

  datatype Config = Config(
    queues: seq<string>, stallSeconds: real, backlogThreshold: int, failureRate: real, minSample: int)

  /** What the probes answer during one check. A probe the watcher was not given is `None`. */
  datatype Reading = Reading(
    now: real,
    heartbeats: Probe<map<string, real>>,
    backlog: Probe<int>,
    outcomes: Option<Probe<Outcomes>>,
    external: Option<Probe<seq<Condition>>>)

  datatype Watch = Watch(firing: seq<Firing>, sent: seq<Message>)

  const BACKLOG := "webhook_backlog"
  const FAILURES := "webhook_failure_rate"

  function StallKey(queue: string): string { "worker_stalled:" + queue }

  // ---------------------------------------------------------------------------
  // Evaluating
  // ---------------------------------------------------------------------------

  predicate Silent(cfg: Config, beats: map<string, real>, now: real, queue: string) {
    queue !in beats || now - beats[queue] > cfg.stallSeconds
  }

  function StallOf(beats: map<string, real>, now: real, queue: string): Condition {
    Condition(StallKey(queue), if queue in beats then Stalled(queue, now - beats[queue]) else NeverStarted(queue))
  }

  function Stalls(cfg: Config, beats: map<string, real>, now: real, n: nat): seq<Condition>
    requires n <= |cfg.queues|
  {
    if n == 0 then []
    else
      var queue := cfg.queues[n - 1];
      Stalls(cfg, beats, now, n - 1) + (if Silent(cfg, beats, now, queue) then [StallOf(beats, now, queue)] else [])
  }

  /** A sample of nothing against a minimum of nothing divides by zero. */
  predicate Undefined(cfg: Config, o: Outcomes) { o.total >= cfg.minSample && o.total == 0 }

  predicate Failing(cfg: Config, o: Outcomes) {
    o.total >= cfg.minSample && o.total > 0 && o.failed as real / o.total as real > cfg.failureRate
  }

  /** The check itself fails: nothing below catches these. */
  predicate Breaks(cfg: Config, r: Reading) {
    || r.heartbeats.Raises?
    || r.backlog.Raises?
    || (r.outcomes.Some? && r.outcomes.value.Read? && Undefined(cfg, r.outcomes.value.value))
  }

  function Entry(firing: seq<Firing>, key: string): seq<Condition> {
    if firing == [] then []
    else if firing[|firing| - 1].condition.key == key then [firing[|firing| - 1].condition]
    else Entry(firing[..|firing| - 1], key)
  }

  /** The firing conditions that `named` does not name, in table order. */
  function Kept(firing: seq<Firing>, named: set<string>): seq<Condition> {
    if firing == [] then []
    else
      var last := firing[|firing| - 1].condition;
      Kept(firing[..|firing| - 1], named) + (if last.key in named then [] else [last])
  }

  function Keys(conditions: seq<Condition>): set<string> { set c <- conditions :: c.key }

  /** The failure rate measured, or its last verdict when it could not be. */
  function RateVerdict(cfg: Config, firing: seq<Firing>, r: Reading): seq<Condition> {
    if r.outcomes.None? then []
    else if r.outcomes.value.Raises? then Entry(firing, FAILURES)
    else
      var o := r.outcomes.value.value;
      if Failing(cfg, o) then [Condition(FAILURES, FailureRate(o.failed, o.total))] else []
  }

  function Internal(cfg: Config, firing: seq<Firing>, r: Reading): seq<Condition>
    requires !Breaks(cfg, r)
  {
    Stalls(cfg, r.heartbeats.value, r.now, |cfg.queues|)
    + (if r.backlog.value > cfg.backlogThreshold then [Condition(BACKLOG, Backlog(r.backlog.value))] else [])
    + RateVerdict(cfg, firing, r)
  }

  function Conditions(cfg: Config, firing: seq<Firing>, r: Reading): seq<Condition>
    requires !Breaks(cfg, r)
  {
    var internal := Internal(cfg, firing, r);
    internal
    + (if r.external.None? then []
       else if r.external.value.Read? then r.external.value.value
       else Kept(firing, Keys(internal)))
  }

  // ---------------------------------------------------------------------------
  // Reporting the edges
  // ---------------------------------------------------------------------------

  /** The place of a key in the table, or the table's length. */
  function Place(firing: seq<Firing>, key: string): (i: nat)
    ensures i <= |firing|
    ensures i < |firing| ==> firing[i].condition.key == key
    ensures forall k :: 0 <= k < i ==> firing[k].condition.key != key
  {
    if firing == [] then 0
    else if firing[0].condition.key == key then 0
    else
      assert forall k :: 1 <= k < |firing| ==> firing[k] == firing[1..][k - 1];
      1 + Place(firing[1..], key)
  }

  function Report(w: Watch, c: Condition, at: int): Watch {
    var i := Place(w.firing, c.key);
    if i < |w.firing| then w.(firing := w.firing[i := w.firing[i].(condition := c)])
    else Watch(w.firing + [Firing(c, at)], w.sent + [Raised(c, at)])
  }

  function ReportAll(w: Watch, cs: seq<Condition>, at: int): Watch
    decreases |cs|
  {
    if cs == [] then w else Report(ReportAll(w, cs[..|cs| - 1], at), cs[|cs| - 1], at)
  }

  function Pop(w: Watch, i: nat): Watch
    requires i < |w.firing|
  {
    Watch(w.firing[..i] + w.firing[i + 1..], w.sent + [Resolved(w.firing[i])])
  }

  /** Clears, from place `i` on, every entry that is no longer active. */
  function Clear(w: Watch, active: set<string>, i: nat): Watch
    requires i <= |w.firing|
    decreases |w.firing| - i
  {
    if i == |w.firing| then w
    else if w.firing[i].condition.key in active then Clear(w, active, i + 1)
    else Clear(Pop(w, i), active, i)
  }

  /** `check_once`; a check that fails changes and sends nothing. */
  function Check(w: Watch, cfg: Config, r: Reading, at: int): Watch {
    if Breaks(cfg, r) then w
    else
      var cs := Conditions(cfg, w.firing, r);
      Clear(ReportAll(w, cs, at), Keys(cs), 0)
  }

  datatype Tick = Tick(reading: Reading, at: int)

  function Run(w: Watch, cfg: Config, ticks: seq<Tick>): Watch
    decreases |ticks|
  {
    if ticks == [] then w else Run(Check(w, cfg, ticks[0].reading, ticks[0].at), cfg, ticks[1..])
  }

  const QUIET := Watch([], [])

  ghost predicate Fires(w: Watch, key: string) { Listed(w.firing, key) }

  ghost predicate Listed(firing: seq<Firing>, key: string) {
    exists i :: 0 <= i < |firing| && firing[i].condition.key == key
  }

  // ---------------------------------------------------------------------------
  // What the messages may be
  // ---------------------------------------------------------------------------

  function KeyOf(m: Message): string { if m.Raised? then m.condition.key else m.firing.condition.key }
  function SinceOf(m: Message): int { if m.Raised? then m.since else m.firing.since }

  function Last(sent: seq<Message>, key: string): Option<Message> {
    if sent == [] then None
    else if KeyOf(sent[|sent| - 1]) == key then Some(sent[|sent| - 1])
    else Last(sent[..|sent| - 1], key)
  }

  /** A condition that `Last` shows raised and not yet resolved. */
  predicate Open(sent: seq<Message>, key: string) {
    Last(sent, key).Some? && Last(sent, key).value.Raised?
  }

  /** Raised only when not open; resolved only when open, with the start time it was raised with. */
  predicate MayFollow(sent: seq<Message>, m: Message) {
    if m.Raised? then !Open(sent, KeyOf(m))
    else Open(sent, KeyOf(m)) && SinceOf(Last(sent, KeyOf(m)).value) == SinceOf(m)
  }

  ghost predicate Edges(sent: seq<Message>) {
    forall p :: 0 <= p < |sent| ==> MayFollow(sent[..p], sent[p])
  }

  ghost predicate Distinct(firing: seq<Firing>) {
    forall i, j :: 0 <= i < j < |firing| ==> firing[i].condition.key != firing[j].condition.key
  }

  /** The table is what the messages say: firing exactly the open conditions, since they were raised. */
  ghost predicate Inv(w: Watch) {
    && Edges(w.sent)
    && Distinct(w.firing)
    && (forall i :: 0 <= i < |w.firing| ==>
          Open(w.sent, w.firing[i].condition.key)
          && SinceOf(Last(w.sent, w.firing[i].condition.key).value) == w.firing[i].since)
    && (forall key :: Open(w.sent, key) ==> Fires(w, key))
  }

  lemma Appended(sent: seq<Message>, m: Message)
    ensures forall key :: Last(sent + [m], key) == if KeyOf(m) == key then Some(m) else Last(sent, key)
    ensures Edges(sent) && MayFollow(sent, m) ==> Edges(sent + [m])
  {
    var s := sent + [m];
    assert s[|s| - 1] == m && s[..|s| - 1] == sent;
    if Edges(sent) && MayFollow(sent, m) {
      forall p | 0 <= p < |s| ensures MayFollow(s[..p], s[p]) {
        if p < |sent| { assert s[..p] == sent[..p]; } else { assert s[..p] == sent; }
      }
    }
  }

  lemma ReportFires(w: Watch, c: Condition, at: int)
    requires Distinct(w.firing)
    ensures Distinct(Report(w, c, at).firing)
    ensures forall key :: Fires(Report(w, c, at), key) <==> Fires(w, key) || key == c.key
  {
    var i, r := Place(w.firing, c.key), Report(w, c, at);
    assert r.firing[i].condition == c;
    forall key | Fires(w, key) ensures Fires(r, key) {
      var k :| 0 <= k < |w.firing| && w.firing[k].condition.key == key;
      assert r.firing[k].condition.key == key;
    }
    forall key | Fires(r, key) ensures Fires(w, key) || key == c.key {
      var k :| 0 <= k < |r.firing| && r.firing[k].condition.key == key;
      assert k < |w.firing| ==> w.firing[k].condition.key == key;
    }
  }

  lemma ReportKeeps(w: Watch, c: Condition, at: int)
    requires Inv(w)
    ensures Inv(Report(w, c, at))
  {
    Appended(w.sent, Raised(c, at));
    ReportFires(w, c, at);
    assert Place(w.firing, c.key) == |w.firing| ==> !Fires(w, c.key);
  }

  lemma {:induction false} ReportAllKeeps(w: Watch, cs: seq<Condition>, at: int)
    requires Inv(w)
    ensures Inv(ReportAll(w, cs, at))
    decreases |cs|
  {
    if cs != [] {
      ReportAllKeeps(w, cs[..|cs| - 1], at);
      ReportKeeps(ReportAll(w, cs[..|cs| - 1], at), cs[|cs| - 1], at);
    }
  }

  lemma {:induction false} ReportAllFires(w: Watch, cs: seq<Condition>, at: int, key: string)
    requires Distinct(w.firing)
    ensures Distinct(ReportAll(w, cs, at).firing)
    ensures Fires(ReportAll(w, cs, at), key) <==> Fires(w, key) || key in Keys(cs)
    decreases |cs|
  {
    if cs != [] {
      var front, last := cs[..|cs| - 1], cs[|cs| - 1];
      ReportAllFires(w, front, at, key);
      ReportFires(ReportAll(w, front, at), last, at);
      assert cs == front + [last];
      KeysConcat(front, [last]);
    }
  }

  lemma PopFires(w: Watch, i: nat)
    requires Distinct(w.firing) && i < |w.firing|
    ensures Distinct(Pop(w, i).firing)
    ensures forall key :: Fires(Pop(w, i), key) <==> Fires(w, key) && key != w.firing[i].condition.key
  {
    var r := Pop(w, i);
    assert forall k :: 0 <= k < |r.firing| ==> r.firing[k] == if k < i then w.firing[k] else w.firing[k + 1];
    forall key | Fires(w, key) && key != w.firing[i].condition.key ensures Fires(r, key) {
      var k :| 0 <= k < |w.firing| && w.firing[k].condition.key == key;
      assert r.firing[if k < i then k else k - 1].condition.key == key;
    }
    forall key | Fires(r, key) ensures Fires(w, key) && key != w.firing[i].condition.key {
      var k :| 0 <= k < |r.firing| && r.firing[k].condition.key == key;
      assert w.firing[if k < i then k else k + 1].condition.key == key;
    }
  }

  lemma PopKeeps(w: Watch, i: nat)
    requires Inv(w) && i < |w.firing|
    ensures Inv(Pop(w, i))
  {
    var r := Pop(w, i);
    Appended(w.sent, Resolved(w.firing[i]));
    PopFires(w, i);
    forall k | 0 <= k < |r.firing|
      ensures Open(r.sent, r.firing[k].condition.key)
              && SinceOf(Last(r.sent, r.firing[k].condition.key).value) == r.firing[k].since
    {
      assert r.firing[k] == w.firing[if k < i then k else k + 1];
    }
  }

  lemma {:induction false} ClearKeeps(w: Watch, active: set<string>, i: nat)
    requires Inv(w) && i <= |w.firing|
    ensures Inv(Clear(w, active, i))
    decreases |w.firing| - i
  {
    if i < |w.firing| && w.firing[i].condition.key in active {
      ClearKeeps(w, active, i + 1);
    } else if i < |w.firing| {
      PopKeeps(w, i);
      ClearKeeps(Pop(w, i), active, i);
    }
  }

  lemma {:induction false} ClearFires(w: Watch, active: set<string>, i: nat, key: string)
    requires Distinct(w.firing) && i <= |w.firing|
    requires forall k :: 0 <= k < i ==> w.firing[k].condition.key in active
    ensures Fires(Clear(w, active, i), key) <==> Fires(w, key) && key in active
    decreases |w.firing| - i
  {
    if i < |w.firing| && w.firing[i].condition.key in active {
      ClearFires(w, active, i + 1, key);
    } else if i < |w.firing| {
      PopFires(w, i);
      ClearFires(Pop(w, i), active, i, key);
    }
  }

  /** After a check that could be made, exactly the conditions it found are firing. */
  lemma CheckKeeps(w: Watch, cfg: Config, r: Reading, at: int)
    requires Inv(w)
    ensures Inv(Check(w, cfg, r, at))
    ensures !Breaks(cfg, r) ==>
              forall key :: Fires(Check(w, cfg, r, at), key) <==> key in Keys(Conditions(cfg, w.firing, r))
  {
    if !Breaks(cfg, r) {
      var cs := Conditions(cfg, w.firing, r);
      ReportAllKeeps(w, cs, at);
      ClearKeeps(ReportAll(w, cs, at), Keys(cs), 0);
      forall key ensures Fires(Check(w, cfg, r, at), key) <==> key in Keys(cs) {
        ReportAllFires(w, cs, at, key);
        ClearFires(ReportAll(w, cs, at), Keys(cs), 0, key);
      }
    }
  }

  lemma {:induction false} RunKeeps(w: Watch, cfg: Config, ticks: seq<Tick>)
    requires Inv(w)
    ensures Inv(Run(w, cfg, ticks))
    decreases |ticks|
  {
    if ticks != [] {
      CheckKeeps(w, cfg, ticks[0].reading, ticks[0].at);
      RunKeeps(Check(w, cfg, ticks[0].reading, ticks[0].at), cfg, ticks[1..]);
    }
  }

  // ---------------------------------------------------------------------------
  // When a condition fires
  // ---------------------------------------------------------------------------

  ghost predicate WorkerSilent(cfg: Config, r: Reading, key: string)
    requires r.heartbeats.Read?
  {
    exists i :: 0 <= i < |cfg.queues| && key == "worker_stalled:" + cfg.queues[i]
      && (|| cfg.queues[i] !in r.heartbeats.value
          || r.now - r.heartbeats.value[cfg.queues[i]] > cfg.stallSeconds)
  }

  /** The conditions a check finds, said without the lists it builds: what its probes measured, and
      what was firing and could not be measured. */
  ghost predicate Holds(w: Watch, cfg: Config, r: Reading, key: string)
    requires !Breaks(cfg, r)
  {
    || WorkerSilent(cfg, r, key)
    || (key == "webhook_backlog" && r.backlog.value > cfg.backlogThreshold)
    || (key == "webhook_failure_rate" && r.outcomes.Some? && r.outcomes.value.Read?
        && var o := r.outcomes.value.value;
           o.total >= cfg.minSample && o.total > 0 && o.failed as real / o.total as real > cfg.failureRate)
    || (key == "webhook_failure_rate" && r.outcomes.Some? && r.outcomes.value.Raises? && Fires(w, key))
    || (r.external.Some? && r.external.value.Read? && key in Keys(r.external.value.value))
    || (r.external.Some? && r.external.value.Raises? && Fires(w, key))
  }

  lemma {:induction false} StallKeys(cfg: Config, beats: map<string, real>, now: real, n: nat, key: string)
    requires n <= |cfg.queues|
    ensures key in Keys(Stalls(cfg, beats, now, n))
            <==> exists i :: 0 <= i < n && key == StallKey(cfg.queues[i]) && Silent(cfg, beats, now, cfg.queues[i])
  {
    if n > 0 {
      StallKeys(cfg, beats, now, n - 1, key);
      var more := if Silent(cfg, beats, now, cfg.queues[n - 1]) then [StallOf(beats, now, cfg.queues[n - 1])] else [];
      KeysConcat(Stalls(cfg, beats, now, n - 1), more);
    }
  }

  lemma KeysConcat(a: seq<Condition>, b: seq<Condition>)
    ensures Keys(a + b) == Keys(a) + Keys(b)
  {
  }

  lemma ListedLast(firing: seq<Firing>, key: string)
    requires firing != []
    ensures Listed(firing, key) <==> Listed(firing[..|firing| - 1], key) || firing[|firing| - 1].condition.key == key
  {
    var front := firing[..|firing| - 1];
    if Listed(front, key) {
      var i :| 0 <= i < |front| && front[i].condition.key == key;
      assert firing[i].condition.key == key;
    }
    if i :| 0 <= i < |firing| && firing[i].condition.key == key {
      assert i < |front| ==> front[i].condition.key == key;
    }
  }

  lemma {:induction false} EntryKeys(firing: seq<Firing>, key: string, k: string)
    ensures k in Keys(Entry(firing, key)) <==> k == key && Listed(firing, key)
    decreases |firing|
  {
    if firing != [] {
      ListedLast(firing, key);
      EntryKeys(firing[..|firing| - 1], key, k);
    }
  }

  lemma {:induction false} KeptKeys(firing: seq<Firing>, named: set<string>, key: string)
    ensures key in Keys(Kept(firing, named)) <==> key !in named && Listed(firing, key)
    decreases |firing|
  {
    if firing != [] {
      var front, last := firing[..|firing| - 1], firing[|firing| - 1].condition;
      ListedLast(firing, key);
      KeptKeys(front, named, key);
      KeysConcat(Kept(front, named), [last]);
    }
  }

  lemma RateKeys(w: Watch, cfg: Config, r: Reading, key: string)
    ensures key in Keys(RateVerdict(cfg, w.firing, r)) <==>
            || (key == FAILURES && r.outcomes.Some? && r.outcomes.value.Read? && Failing(cfg, r.outcomes.value.value))
            || (key == FAILURES && r.outcomes.Some? && r.outcomes.value.Raises? && Fires(w, key))
  {
    EntryKeys(w.firing, FAILURES, key);
  }

  lemma InternalKeys(w: Watch, cfg: Config, r: Reading, key: string)
    requires !Breaks(cfg, r)
    ensures key in Keys(Internal(cfg, w.firing, r)) <==>
            || WorkerSilent(cfg, r, key)
            || (key == BACKLOG && r.backlog.value > cfg.backlogThreshold)
            || key in Keys(RateVerdict(cfg, w.firing, r))
  {
    var stalls := Stalls(cfg, r.heartbeats.value, r.now, |cfg.queues|);
    var backlog := if r.backlog.value > cfg.backlogThreshold
      then [Condition(BACKLOG, Backlog(r.backlog.value))] else [];
    StallKeys(cfg, r.heartbeats.value, r.now, |cfg.queues|, key);
    KeysConcat(stalls + backlog, RateVerdict(cfg, w.firing, r));
    KeysConcat(stalls, backlog);
  }

  lemma ConditionsKeys(w: Watch, cfg: Config, r: Reading, key: string)
    requires !Breaks(cfg, r)
    ensures key in Keys(Conditions(cfg, w.firing, r)) <==> Holds(w, cfg, r, key)
  {
    InternalKeys(w, cfg, r, key);
    RateKeys(w, cfg, r, key);
    var internal := Internal(cfg, w.firing, r);
    if r.external.Some? && r.external.value.Read? {
      KeysConcat(internal, r.external.value.value);
    } else if r.external.Some? {
      KeysConcat(internal, Kept(w.firing, Keys(internal)));
      KeptKeys(w.firing, Keys(internal), key);
    } else {
      assert Conditions(cfg, w.firing, r) == internal;
    }
  }

  /** After a check, a condition is firing exactly when it was measured true, or could not be
      measured and was firing already. */
  lemma FiresExactlyWhen(w: Watch, cfg: Config, r: Reading, at: int, key: string)
    requires Inv(w) && !Breaks(cfg, r)
    ensures Fires(Check(w, cfg, r, at), key) <==> Holds(w, cfg, r, key)
  {
    CheckKeeps(w, cfg, r, at);
    ConditionsKeys(w, cfg, r, key);
  }

  // ---------------------------------------------------------------------------
  // What a reader gets
  // ---------------------------------------------------------------------------

  /** The messages about one condition. */
  function About(sent: seq<Message>, key: string): seq<Message> {
    if sent == [] then []
    else About(sent[..|sent| - 1], key) + (if KeyOf(sent[|sent| - 1]) == key then [sent[|sent| - 1]] else [])
  }

  function RaisedCount(sent: seq<Message>, key: string): nat {
    if sent == [] then 0
    else
      var m := sent[|sent| - 1];
      RaisedCount(sent[..|sent| - 1], key) + (if KeyOf(m) == key && m.Raised? then 1 else 0)
  }

  function ResolvedCount(sent: seq<Message>, key: string): nat {
    if sent == [] then 0
    else
      var m := sent[|sent| - 1];
      ResolvedCount(sent[..|sent| - 1], key) + (if KeyOf(m) == key && m.Resolved? then 1 else 0)
  }

  lemma EdgesFront(sent: seq<Message>)
    requires Edges(sent) && sent != []
    ensures Edges(sent[..|sent| - 1]) && MayFollow(sent[..|sent| - 1], sent[|sent| - 1])
  {
    var front := sent[..|sent| - 1];
    forall p | 0 <= p < |front| ensures MayFollow(front[..p], front[p]) { assert front[..p] == sent[..p]; }
  }

  lemma {:induction false} EdgesBalance(sent: seq<Message>, key: string)
    requires Edges(sent)
    ensures RaisedCount(sent, key) - ResolvedCount(sent, key) == if Open(sent, key) then 1 else 0
    decreases |sent|
  {
    if sent != [] {
      EdgesFront(sent);
      EdgesBalance(sent[..|sent| - 1], key);
    }
  }

  ghost predicate Alternating(about: seq<Message>) {
    && (forall i :: 0 <= i < |about| ==> (about[i].Raised? <==> i % 2 == 0))
    && (forall i :: 0 < i < |about| && about[i].Resolved? ==> SinceOf(about[i]) == SinceOf(about[i - 1]))
  }

  lemma {:induction false} EdgesAlternate(sent: seq<Message>, key: string)
    requires Edges(sent)
    ensures Alternating(About(sent, key))
    ensures var about := About(sent, key);
            Last(sent, key) == if about == [] then None else Some(about[|about| - 1])
    decreases |sent|
  {
    if sent != [] {
      EdgesFront(sent);
      var front, m := sent[..|sent| - 1], sent[|sent| - 1];
      EdgesAlternate(front, key);
      if KeyOf(m) == key { AlternatingMore(About(front, key), m); }
    }
  }

  lemma AlternatingMore(about: seq<Message>, m: Message)
    requires Alternating(about)
    requires if about != [] && about[|about| - 1].Raised?
             then m.Resolved? && SinceOf(m) == SinceOf(about[|about| - 1])
             else m.Raised?
    ensures Alternating(about + [m])
  {
    var more := about + [m];
    assert |about| > 0 ==> (about[|about| - 1].Raised? <==> (|about| - 1) % 2 == 0);
    assert forall i :: 0 <= i < |about| ==> more[i] == about[i];
  }

  /** In every run the messages about a condition are raised, resolved, raised, ...; each pair agrees
      on when it started; and raised exceed resolved by one exactly while it is firing. */
  lemma MessagesAlternate(cfg: Config, ticks: seq<Tick>, key: string)
    ensures var w := Run(QUIET, cfg, ticks);
            && Alternating(About(w.sent, key))
            && RaisedCount(w.sent, key) - ResolvedCount(w.sent, key) == if Fires(w, key) then 1 else 0
  {
    RunKeeps(QUIET, cfg, ticks);
    var w := Run(QUIET, cfg, ticks);
    EdgesAlternate(w.sent, key);
    EdgesBalance(w.sent, key);
    if Fires(w, key) {
      var i :| 0 <= i < |w.firing| && w.firing[i].condition.key == key;
      assert Open(w.sent, key);
    }
  }

  /** The start time the table holds for a firing condition. */
  ghost predicate FiresSince(w: Watch, key: string, since: int) {
    exists i :: 0 <= i < |w.firing| && w.firing[i].condition.key == key && w.firing[i].since == since
  }

  lemma ReportSince(w: Watch, c: Condition, at: int, key: string, since: int)
    requires FiresSince(w, key, since)
    ensures FiresSince(Report(w, c, at), key, since)
  {
    var i :| 0 <= i < |w.firing| && w.firing[i].condition.key == key && w.firing[i].since == since;
    var r := Report(w, c, at).firing;
    assert r[i].condition.key == key && r[i].since == since;
  }

  lemma {:induction false} ReportAllSince(w: Watch, cs: seq<Condition>, at: int, key: string, since: int)
    requires FiresSince(w, key, since)
    ensures FiresSince(ReportAll(w, cs, at), key, since)
    decreases |cs|
  {
    if cs != [] {
      ReportAllSince(w, cs[..|cs| - 1], at, key, since);
      ReportSince(ReportAll(w, cs[..|cs| - 1], at), cs[|cs| - 1], at, key, since);
    }
  }

  lemma {:induction false} ClearSince(w: Watch, active: set<string>, i: nat, key: string, since: int)
    requires FiresSince(w, key, since) && i <= |w.firing| && key in active
    ensures FiresSince(Clear(w, active, i), key, since)
    decreases |w.firing| - i
  {
    if i < |w.firing| && w.firing[i].condition.key in active {
      ClearSince(w, active, i + 1, key, since);
    } else if i < |w.firing| {
      var k :| 0 <= k < |w.firing| && w.firing[k].condition.key == key && w.firing[k].since == since;
      var r := Pop(w, i).firing;
      assert r[if k < i then k else k - 1] == w.firing[k];
      ClearSince(Pop(w, i), active, i, key, since);
    }
  }

  /** A condition that was firing and still is has the same start time: a check never moves it. */
  lemma StartNeverMoves(w: Watch, cfg: Config, r: Reading, at: int, key: string, since: int)
    requires Inv(w) && FiresSince(w, key, since) && Fires(Check(w, cfg, r, at), key)
    ensures FiresSince(Check(w, cfg, r, at), key, since)
  {
    if !Breaks(cfg, r) {
      CheckKeeps(w, cfg, r, at);
      var cs := Conditions(cfg, w.firing, r);
      ReportAllSince(w, cs, at, key, since);
      ClearSince(ReportAll(w, cs, at), Keys(cs), 0, key, since);
    }
  }

  // ---------------------------------------------------------------------------
  // What a check says
  // ---------------------------------------------------------------------------

  /** A message a check at `at` may add: one that starts now, or the end of an entry of the table. */
  predicate SaidAt(m: Message, at: int) { m.Raised? ==> m.since == at }

  ghost predicate SaidOnly(w: Watch, after: Watch, at: int) {
    && |w.sent| <= |after.sent| && after.sent[..|w.sent|] == w.sent
    && forall k :: |w.sent| <= k < |after.sent| ==> SaidAt(after.sent[k], at)
  }

  lemma SaidMore(w: Watch, mid: Watch, after: Watch, at: int)
    requires SaidOnly(w, mid, at) && SaidOnly(mid, after, at)
    ensures SaidOnly(w, after, at)
  {
    assert after.sent[..|w.sent|] == after.sent[..|mid.sent|][..|w.sent|];
    forall k | |w.sent| <= k < |after.sent| ensures SaidAt(after.sent[k], at) {
      if k < |mid.sent| { assert after.sent[k] == after.sent[..|mid.sent|][k] == mid.sent[k]; }
    }
  }

  lemma {:induction false} ReportAllSays(w: Watch, cs: seq<Condition>, at: int)
    ensures SaidOnly(w, ReportAll(w, cs, at), at)
    decreases |cs|
  {
    if cs != [] {
      ReportAllSays(w, cs[..|cs| - 1], at);
      SaidMore(w, ReportAll(w, cs[..|cs| - 1], at), ReportAll(w, cs, at), at);
    }
  }

  lemma {:induction false} ClearSays(w: Watch, active: set<string>, i: nat, at: int)
    requires i <= |w.firing|
    ensures SaidOnly(w, Clear(w, active, i), at)
    decreases |w.firing| - i
  {
    if i < |w.firing| && w.firing[i].condition.key in active {
      ClearSays(w, active, i + 1, at);
    } else if i < |w.firing| {
      ClearSays(Pop(w, i), active, i, at);
      SaidMore(w, Pop(w, i), Clear(w, active, i), at);
    }
  }

  /** A condition that a check raises starts at the instant of that check. */
  lemma RaisedAtTheCheck(w: Watch, cfg: Config, r: Reading, at: int)
    ensures SaidOnly(w, Check(w, cfg, r, at), at)
  {
    if !Breaks(cfg, r) {
      var cs := Conditions(cfg, w.firing, r);
      ReportAllSays(w, cs, at);
      ClearSays(ReportAll(w, cs, at), Keys(cs), 0, at);
      SaidMore(w, ReportAll(w, cs, at), Check(w, cfg, r, at), at);
    }
  }

  /** The last condition of a list with a given key. */
  function NewestOf(cs: seq<Condition>, key: string): Option<Condition> {
    if cs == [] then None
    else if cs[|cs| - 1].key == key then Some(cs[|cs| - 1])
    else NewestOf(cs[..|cs| - 1], key)
  }

  ghost predicate Shows(w: Watch, c: Condition) { exists i :: 0 <= i < |w.firing| && w.firing[i].condition == c }

  lemma ReportShows(w: Watch, c: Condition, at: int, d: Condition)
    ensures Shows(Report(w, c, at), c)
    ensures Shows(w, d) && d.key != c.key ==> Shows(Report(w, c, at), d)
  {
    var i, r := Place(w.firing, c.key), Report(w, c, at);
    assert r.firing[i].condition == c;
    if Shows(w, d) && d.key != c.key {
      var k :| 0 <= k < |w.firing| && w.firing[k].condition == d;
      assert r.firing[k].condition == d;
    }
  }

  lemma {:induction false} ReportAllShows(w: Watch, cs: seq<Condition>, at: int, key: string)
    ensures NewestOf(cs, key).Some? ==> Shows(ReportAll(w, cs, at), NewestOf(cs, key).value)
    ensures NewestOf(cs, key).Some? ==> NewestOf(cs, key).value.key == key
    decreases |cs|
  {
    if cs != [] {
      var front, last := cs[..|cs| - 1], cs[|cs| - 1];
      ReportAllShows(w, front, at, key);
      if NewestOf(cs, key).Some? { ReportShows(ReportAll(w, front, at), last, at, NewestOf(cs, key).value); }
    }
  }

  lemma {:induction false} ClearShows(w: Watch, active: set<string>, i: nat, c: Condition)
    requires Shows(w, c) && i <= |w.firing| && c.key in active
    ensures Shows(Clear(w, active, i), c)
    decreases |w.firing| - i
  {
    if i < |w.firing| && w.firing[i].condition.key in active {
      ClearShows(w, active, i + 1, c);
    } else if i < |w.firing| {
      var k :| 0 <= k < |w.firing| && w.firing[k].condition == c;
      assert Pop(w, i).firing[if k < i then k else k - 1] == w.firing[k];
      ClearShows(Pop(w, i), active, i, c);
    }
  }

  /** After a check the table shows the newest reading of every condition it found, so a recovery message
      describes the state that cleared. */
  lemma NewestReadingIsKept(w: Watch, cfg: Config, r: Reading, at: int, key: string)
    requires !Breaks(cfg, r) && NewestOf(Conditions(cfg, w.firing, r), key).Some?
    ensures Shows(Check(w, cfg, r, at), NewestOf(Conditions(cfg, w.firing, r), key).value)
  {
    var cs := Conditions(cfg, w.firing, r);
    var c := NewestOf(cs, key).value;
    ReportAllShows(w, cs, at, key);
    NewestIsThere(cs, key);
    ClearShows(ReportAll(w, cs, at), Keys(cs), 0, c);
  }

  lemma {:induction false} NewestIsThere(cs: seq<Condition>, key: string)
    ensures NewestOf(cs, key).Some? ==> NewestOf(cs, key).value in cs
    decreases |cs|
  {
    if cs != [] { NewestIsThere(cs[..|cs| - 1], key); }
  }

  /** A measurement that fails resolves nothing it measures: the failure rate keeps its own verdict,
      a failed external probe keeps every verdict, a check that breaks keeps everything. */
  lemma FailedMeasurementResolvesNothing(w: Watch, cfg: Config, r: Reading, at: int, key: string)
    requires Inv(w) && Fires(w, key)
    requires Breaks(cfg, r) || r.external == Some(Raises) || (key == FAILURES && r.outcomes == Some(Raises))
    ensures Fires(Check(w, cfg, r, at), key)
  {
    if !Breaks(cfg, r) { FiresExactlyWhen(w, cfg, r, at, key); }
  }

  lemma StallKeyInjective(a: string, b: string)
    requires StallKey(a) == StallKey(b)
    ensures a == b
  {
    assert StallKey(a)[|"worker_stalled:"|..] == a && StallKey(b)[|"worker_stalled:"|..] == b;
  }

  lemma StallKeyIsItsOwn(queue: string)
    ensures StallKey(queue) != BACKLOG && StallKey(queue) != FAILURES
  {
    assert StallKey(queue)[1] == 'o' && BACKLOG[1] == 'e' && FAILURES[1] == 'e';
  }

  lemma SilentByItsOwnBeat(cfg: Config, r: Reading, queue: string)
    requires r.heartbeats.Read?
    ensures WorkerSilent(cfg, r, StallKey(queue)) <==>
            queue in cfg.queues && Silent(cfg, r.heartbeats.value, r.now, queue)
  {
    forall i | 0 <= i < |cfg.queues| && StallKey(queue) == StallKey(cfg.queues[i]) ensures cfg.queues[i] == queue {
      StallKeyInjective(queue, cfg.queues[i]);
    }
  }

  /** A worker whose heartbeat is back is still reported down while the external probe fails, and is
      resolved by the first check that can be made in full. */
  lemma RecoveryWaitsForTheProbe(w: Watch, cfg: Config, r: Reading, at: int, queue: string)
    requires Inv(w) && !Breaks(cfg, r) && Fires(w, StallKey(queue)) && !Silent(cfg, r.heartbeats.value, r.now, queue)
    requires r.external.Some? && r.external.value.Read? ==> StallKey(queue) !in Keys(r.external.value.value)
    ensures Fires(Check(w, cfg, r, at), StallKey(queue)) <==> r.external == Some(Raises)
  {
    FiresExactlyWhen(w, cfg, r, at, StallKey(queue));
    StallKeyIsItsOwn(queue);
    SilentByItsOwnBeat(cfg, r, queue);
  }

  /** Two checks of any watcher with a queue: the worker has not started; it has, and the probe fails. */
  function LateRecovery(cfg: Config, queue: string): seq<Tick> {
    [Tick(Reading(0.0, Read(map[]), Read(cfg.backlogThreshold), None, None), 0),
     Tick(Reading(0.0, Read(map[queue := 0.0]), Read(cfg.backlogThreshold), None, Some(Raises)), 1)]
  }

  /** After them the worker beats and is still reported down. */
  lemma RecoveryIsHeldBack(cfg: Config, queue: string)
    requires queue in cfg.queues && cfg.stallSeconds >= 0.0
    ensures Fires(Run(QUIET, cfg, LateRecovery(cfg, queue)), StallKey(queue))
    ensures var last := LateRecovery(cfg, queue)[1].reading;
            last.heartbeats.Read? && !Silent(cfg, last.heartbeats.value, last.now, queue)
  {
    var ticks := LateRecovery(cfg, queue);
    var down := Check(QUIET, cfg, ticks[0].reading, 0);
    SilentByItsOwnBeat(cfg, ticks[0].reading, queue);
    FiresExactlyWhen(QUIET, cfg, ticks[0].reading, 0, StallKey(queue));
    CheckKeeps(QUIET, cfg, ticks[0].reading, 0);
    RecoveryWaitsForTheProbe(down, cfg, ticks[1].reading, 1, queue);
    assert ticks[1..][1..] == [] && ticks[1..][0] == ticks[1];
    var end := Check(down, cfg, ticks[1].reading, 1);
    assert Run(end, cfg, []) == end;
    assert Run(down, cfg, ticks[1..]) == end;
  }

  // ---------------------------------------------------------------------------
  // The watcher
  // ---------------------------------------------------------------------------

  class AlertWatcher {
    const cfg: Config
    var firing: seq<Firing>
    var sent: seq<Message>

    ghost function State(): Watch
      reads this
    {
      Watch(firing, sent)
    }

    constructor (cfg: Config)
      ensures this.cfg == cfg && State() == QUIET
    {
      this.cfg := cfg;
      firing, sent := [], [];
    }

    /** The queue loop of `evaluate`. */
    method StalledWorkers(beats: map<string, real>, now: real) returns (conditions: seq<Condition>)
      ensures conditions == Stalls(cfg, beats, now, |cfg.queues|)
    {
      conditions := [];
      for n := 0 to |cfg.queues|
        invariant conditions == Stalls(cfg, beats, now, n)
      {
        var queue := cfg.queues[n];
        if queue !in beats {
          conditions := conditions + [Condition(StallKey(queue), NeverStarted(queue))];
        } else {
          var age := now - beats[queue];
          if age > cfg.stallSeconds { conditions := conditions + [Condition(StallKey(queue), Stalled(queue, age))]; }
        }
      }
    }

    /** What `evaluate` carries over when the external probe fails. */
    method CarriedOver(named: set<string>) returns (conditions: seq<Condition>)
      ensures conditions == Kept(firing, named)
    {
      conditions := [];
      for i := 0 to |firing|
        invariant conditions == Kept(firing[..i], named)
      {
        assert firing[..i + 1][..i] == firing[..i];
        if firing[i].condition.key !in named { conditions := conditions + [firing[i].condition]; }
      }
      assert firing[..|firing|] == firing;
    }

    /** `AlertWatcher.evaluate`: no value where it raises. */
    method Evaluate(r: Reading) returns (result: Option<seq<Condition>>)
      ensures result == if Breaks(cfg, r) then None else Some(Conditions(cfg, firing, r))
    {
      if r.heartbeats.Raises? { return None; }
      var conditions := StalledWorkers(r.heartbeats.value, r.now);
      if r.backlog.Raises? { return None; }
      if r.backlog.value > cfg.backlogThreshold {
        conditions := conditions + [Condition(BACKLOG, Backlog(r.backlog.value))];
      }
      if r.outcomes.Some? {
        if r.outcomes.value.Raises? {
          conditions := conditions + Entry(firing, FAILURES);
        } else {
          var o := r.outcomes.value.value;
          if o.total >= cfg.minSample {
            if o.total == 0 { return None; }
            if o.failed as real / o.total as real > cfg.failureRate {
              conditions := conditions + [Condition(FAILURES, FailureRate(o.failed, o.total))];
            }
          }
        }
      }
      assert conditions == Internal(cfg, firing, r);
      if r.external.Some? {
        var more := [];
        if r.external.value.Read? { more := r.external.value.value; } else { more := CarriedOver(Keys(conditions)); }
        conditions := conditions + more;
      }
      assert conditions == Conditions(cfg, firing, r);
      result := Some(conditions);
    }

    /** The first loop of `check_once`: what is down, new or still. */
    method ReportConditions(conditions: seq<Condition>, at: int)
      modifies this
      ensures State() == ReportAll(old(State()), conditions, at)
    {
      ghost var was := State();
      for n := 0 to |conditions|
        invariant State() == ReportAll(was, conditions[..n], at)
      {
        assert conditions[..n + 1][..n] == conditions[..n];
        var c := conditions[n];
        var i := Place(firing, c.key);
        if i < |firing| {
          firing := firing[i := firing[i].(condition := c)];
        } else {
          firing := firing + [Firing(c, at)];
          sent := sent + [Raised(c, at)];
        }
      }
      assert conditions[..|conditions|] == conditions;
    }

    /** The second loop of `check_once`: what has cleared. */
    method ResolveCleared(active: set<string>)
      modifies this
      ensures State() == Clear(old(State()), active, 0)
    {
      ghost var was := State();
      var i := 0;
      while i < |firing|
        invariant 0 <= i <= |firing| && Clear(State(), active, i) == Clear(was, active, 0)
        decreases |firing| - i
      {
        i := ClearOne(active, i);
      }
    }

    /** One turn of that loop: the place to look at next. */
    method ClearOne(active: set<string>, i: nat) returns (next: nat)
      requires i < |firing|
      modifies this
      ensures next <= |firing| && |firing| - next < |old(firing)| - i
      ensures Clear(State(), active, next) == Clear(old(State()), active, i)
    {
      if firing[i].condition.key in active { return i + 1; }
      Drop(i);
      return i;
    }

    method Drop(i: nat)
      requires i < |firing|
      modifies this
      ensures State() == Pop(old(State()), i)
    {
      sent := sent + [Resolved(firing[i])];
      firing := firing[..i] + firing[i + 1..];
    }

    /** `AlertWatcher.check_once`. */
    method CheckOnce(r: Reading, at: int) returns (ok: bool)
      modifies this
      ensures State() == Check(old(State()), cfg, r, at) && (ok <==> !Breaks(cfg, r))
    {
      var conditions := Evaluate(r);
      if conditions.None? { return false; }
      ReportConditions(conditions.value, at);
      ResolveCleared(Keys(conditions.value));
      ok := true;
    }
  }
}
