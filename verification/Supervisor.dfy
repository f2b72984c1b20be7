// internal/outline/client.go, MaintainReady: reconnect with exponential
// backoff, periodic probe and refresh, and the wait between rounds.
module Supervisor {
  import opened Text
  import opened NetAddr
  import opened Client

  // Durations and instants are integers in nanoseconds.
  const MAX_WAKE: int := 5_000_000_000
  const MIN_WAKE: int := 10_000_000

  datatype Plan = Plan(base: int, max: int, probeInterval: int, refreshEvery: int)

  // The local variables of the loop; None is the zero time.
  datatype Loop = Loop(delay: int, lastProbe: Option<int>, lastRefresh: Option<int>, needProbe: bool)

  // What one round of the loop meets: the outcomes of its possible rebuilds and
  // probes, the clock readings, and whether its wait ends by the wake channel.
  datatype Round = Round(
    conn: Rebuild, connProbe: DialOutcome, connNow: int, now: int,
    refresh: Rebuild, refreshProbe: DialOutcome, dueProbe: DialOutcome, wakeNow: int, woken: bool)

  // wait is None when the round continues without waiting; notes are the onChange calls.
  datatype Turn = Turn(client: State, loop: Loop, wait: Option<int>, notes: seq<bool>)

  datatype Phase = Done(turn: Turn) | Onward(client: State, loop: Loop, notes: seq<bool>)

  function Min(a: int, b: int): int {
    if a <= b then a else b
  }

  function Doubled(plan: Plan, delay: int): int {
    Min(delay * 2, plan.max)
  }

  function Start(plan: Plan, cfg: Settings): Loop {
    Loop(plan.base, None, None, cfg.probeAddr != "")
  }

  // nextWake; an instant that is never set counts as now.
  function NextWake(plan: Plan, cfg: Settings, lastProbe: int, lastRefresh: int, now: int): int {
    var d0 := plan.probeInterval - (now - lastProbe);
    var w0 := MAX_WAKE;
    var w1 := if cfg.probeAddr != "" && plan.probeInterval > 0 && d0 < w0 then (if d0 < 0 then 0 else d0) else w0;
    var d1 := plan.refreshEvery - (now - lastRefresh);
    var w2 := if plan.refreshEvery > 0 && d1 < w1 then (if d1 < 0 then 0 else d1) else w1;
    if w2 < MIN_WAKE then MIN_WAKE else w2
  }

  // The wait lies between the floor and the ceiling, never passes the next due
  // probe or refresh by more than the floor, and is not shorter than needed:
  // below the ceiling it ends at a due time or at the floor.
  lemma NextWakeBounds(plan: Plan, cfg: Settings, lastProbe: int, lastRefresh: int, now: int)
    ensures var w := NextWake(plan, cfg, lastProbe, lastRefresh, now);
      var probing := cfg.probeAddr != "" && plan.probeInterval > 0;
      var refreshing := plan.refreshEvery > 0;
      10_000_000 <= w <= 5_000_000_000 &&
      (probing && lastProbe + plan.probeInterval >= now ==> now + w <= lastProbe + plan.probeInterval + 10_000_000) &&
      (probing && lastProbe + plan.probeInterval < now ==> w == 10_000_000) &&
      (refreshing && lastRefresh + plan.refreshEvery >= now ==>
        now + w <= lastRefresh + plan.refreshEvery + 10_000_000) &&
      (refreshing && lastRefresh + plan.refreshEvery < now ==> w == 10_000_000) &&
      (w == 5_000_000_000 || w == 10_000_000 || (probing && now + w == lastProbe + plan.probeInterval) ||
       (refreshing && now + w == lastRefresh + plan.refreshEvery))
  {
  }

  // ---- One round ----

  // The part that brings a client that is not ready back, or runs the first probe.
  function ConnectPhase(plan: Plan, cfg: Settings, c: State, l: Loop, r: Round): Phase {
    if !c.ready then
      var conn := ConnectStep(c, r.conn);
      if !conn.ok then
        Done(Turn(conn.state, l.(delay := Doubled(plan, l.delay)), Some(l.delay), [false]))
      else
        var p := ProbeStep(conn.state, cfg, r.connProbe);
        if p.error.Some? then
          Done(Turn(ClearReady(p.state), l.(delay := Doubled(plan, l.delay)), Some(l.delay), [false]))
        else
          Onward(p.state, Loop(plan.base, Some(r.connNow), Some(r.connNow), false), [true])
    else if l.needProbe then
      var p := ProbeStep(c, cfg, r.connProbe);
      var l' := l.(needProbe := false, lastProbe := Some(r.connNow));
      if p.error.Some? && !p.state.ready then Done(Turn(p.state, l', None, [false])) else Onward(p.state, l', [])
    else Onward(c, l, [])
  }

  function OrNow(t: Option<int>, now: int): int {
    if t.Some? then t.value else now
  }

  function RefreshPhase(plan: Plan, cfg: Settings, c: State, l: Loop, notes: seq<bool>, r: Round): Phase
    requires l.lastRefresh.Some?
  {
    if plan.refreshEvery > 0 && r.now - l.lastRefresh.value >= plan.refreshEvery then
      var l' := l.(lastRefresh := Some(r.now));
      var f := RefreshStep(c, r.refresh);
      if !f.ok then Onward(f.state, l', notes)
      else
        var p := ProbeStep(f.state, cfg, r.refreshProbe);
        if p.error.Some? && !p.state.ready then Done(Turn(p.state, l', None, notes + [false]))
        else Onward(p.state, l', if p.state.ready then notes + [true] else notes)
    else Onward(c, l, notes)
  }

  function ProbePhase(plan: Plan, cfg: Settings, c: State, l: Loop, notes: seq<bool>, r: Round): Phase
    requires l.lastProbe.Some?
  {
    if cfg.probeAddr != "" && plan.probeInterval > 0 && r.now - l.lastProbe.value >= plan.probeInterval then
      var l' := l.(lastProbe := Some(r.now));
      var p := ProbeStep(c, cfg, r.dueProbe);
      if p.error.Some? && !p.state.ready then Done(Turn(p.state, l', None, notes + [false]))
      else Onward(p.state, l', notes)
    else Onward(c, l, notes)
  }

  function AfterWait(c: State, woken: bool): State {
    if woken then c.(wake := false) else c
  }

  function RoundStep(plan: Plan, cfg: Settings, c: State, l: Loop, r: Round): Turn {
    match ConnectPhase(plan, cfg, c, l, r)
    case Done(t) => if t.wait.Some? then t.(client := AfterWait(t.client, r.woken)) else t
    case Onward(c1, l1, n1) =>
      var l2 := l1.(lastRefresh := Some(OrNow(l1.lastRefresh, r.now)), lastProbe := Some(OrNow(l1.lastProbe, r.now)));
      match RefreshPhase(plan, cfg, c1, l2, n1, r)
      case Done(t) => t
      case Onward(c3, l3, n3) =>
        match ProbePhase(plan, cfg, c3, l3, n3, r)
        case Done(t) => t
        case Onward(c4, l4, n4) =>
          var wait := NextWake(plan, cfg, OrNow(l4.lastProbe, r.now), OrNow(l4.lastRefresh, r.now), r.wakeNow);
          Turn(AfterWait(c4, r.woken), l4, Some(wait), n4)
  }

  // ---- Backoff ----

  function Pow2(k: nat): (n: nat)
    ensures n > 0
  {
    if k == 0 then 1 else 2 * Pow2(k - 1)
  }

  function Backoff(plan: Plan, k: nat): int {
    Min(plan.base * Pow2(k), plan.max)
  }

  lemma BackoffDoubles(plan: Plan, k: nat)
    requires 0 < plan.base <= plan.max
    ensures Doubled(plan, Backoff(plan, k)) == Backoff(plan, k + 1)
  {
    var x := plan.base * Pow2(k);
    assert plan.base * Pow2(k + 1) == 2 * x;
  }

  // How a round ended its reconnect attempt, if it made one.
  datatype Attempt = NoAttempt | AttemptFailed | AttemptSucceeded

  function AttemptOf(cfg: Settings, c: State, r: Round): Attempt {
    if c.ready then NoAttempt
    else
      var conn := ConnectStep(c, r.conn);
      if !conn.ok || ProbeStep(conn.state, cfg, r.connProbe).error.Some? then AttemptFailed else AttemptSucceeded
  }

  // Failed attempts since the last success, counting this round.
  function NextFailures(cfg: Settings, c: State, r: Round, k: nat): nat {
    match AttemptOf(cfg, c, r)
    case NoAttempt => k
    case AttemptFailed => k + 1
    case AttemptSucceeded => 0
  }

  lemma RoundBackoff(plan: Plan, cfg: Settings, c: State, l: Loop, r: Round, k: nat)
    requires 0 < plan.base <= plan.max && l.delay == Backoff(plan, k)
    ensures var t := RoundStep(plan, cfg, c, l, r);
      t.loop.delay == Backoff(plan, NextFailures(cfg, c, r, k)) &&
      (AttemptOf(cfg, c, r).AttemptFailed? ==>
        t.wait == Some(Backoff(plan, k)) && t.notes == [false] && !t.client.ready)
  {
    BackoffDoubles(plan, k);
    assert Backoff(plan, 0) == plan.base;
  }

  function FailuresAfter(cfg: Settings, rounds: seq<(State, Round)>, k: nat): nat
    decreases |rounds|
  {
    if rounds == [] then k else FailuresAfter(cfg, rounds[1..], NextFailures(cfg, rounds[0].0, rounds[0].1, k))
  }

  function LoopAfter(plan: Plan, cfg: Settings, l: Loop, rounds: seq<(State, Round)>): Loop
    decreases |rounds|
  {
    if rounds == [] then l
    else LoopAfter(plan, cfg, RoundStep(plan, cfg, rounds[0].0, l, rounds[0].1).loop, rounds[1..])
  }

  // Over every run of rounds, whatever other goroutines do to the client in
  // between, the delay is min(base * 2^k, max) for the k failed attempts since
  // the loop's last successful one.
  lemma {:induction false} RunBackoff(plan: Plan, cfg: Settings, l: Loop, rounds: seq<(State, Round)>, k: nat)
    requires 0 < plan.base <= plan.max && l.delay == Backoff(plan, k)
    ensures LoopAfter(plan, cfg, l, rounds).delay == Backoff(plan, FailuresAfter(cfg, rounds, k))
    decreases |rounds|
  {
    if rounds != [] {
      RoundBackoff(plan, cfg, rounds[0].0, l, rounds[0].1, k);
      RunBackoff(plan, cfg, RoundStep(plan, cfg, rounds[0].0, l, rounds[0].1).loop, rounds[1..],
                 NextFailures(cfg, rounds[0].0, rounds[0].1, k));
    }
  }

  // ---- What a round does, from its inputs ----

  // The key of the client is dynamic and now expands to another key that gives a dialer.
  ghost predicate KeyMoved(c: State, r: Round) {
    "ssconf://" <= TrimSpace(c.accessKey) && r.refresh.dialerOk && r.refresh.expanded.Some? &&
    r.refresh.expanded.value != c.expandedKey
  }

  ghost predicate RefreshDue(plan: Plan, l: Loop, r: Round) {
    plan.refreshEvery > 0 && l.lastRefresh.Some? && r.now - l.lastRefresh.value >= plan.refreshEvery
  }

  // An immediate probe of this round counts as the last one.
  ghost predicate ProbeDue(plan: Plan, cfg: Settings, l: Loop, r: Round) {
    cfg.probeAddr != "" && plan.probeInterval > 0 &&
    if l.needProbe then r.now - r.connNow >= plan.probeInterval
    else l.lastProbe.Some? && r.now - l.lastProbe.value >= plan.probeInterval
  }

  // The failures counted after the immediate probe, if there is one.
  ghost function FirstFailures(cfg: Settings, c: State, l: Loop, r: Round): nat {
    if l.needProbe then FailuresAfterProbe(cfg, c.serverIP, c.failCount, r.connProbe) else c.failCount
  }

  ghost predicate Refreshes(plan: Plan, c: State, l: Loop, r: Round) {
    RefreshDue(plan, l, r) && KeyMoved(c, r)
  }

  ghost function ServerAfter(plan: Plan, c: State, l: Loop, r: Round): IP {
    if Refreshes(plan, c, l, r) then r.refresh.server else c.serverIP
  }

  // ... after the refresh, which starts a new count and probes the new dialer ...
  ghost function RefreshedFailures(plan: Plan, cfg: Settings, c: State, l: Loop, r: Round): nat {
    if Refreshes(plan, c, l, r) then FailuresAfterProbe(cfg, r.refresh.server, 0, r.refreshProbe)
    else FirstFailures(cfg, c, l, r)
  }

  // ... and after the periodic probe.
  ghost function LastFailures(plan: Plan, cfg: Settings, c: State, l: Loop, r: Round): nat {
    var k := RefreshedFailures(plan, cfg, c, l, r);
    if ProbeDue(plan, cfg, l, r) then FailuresAfterProbe(cfg, ServerAfter(plan, c, l, r), k, r.dueProbe) else k
  }

  lemma FirstPhase(plan: Plan, cfg: Settings, c: State, l: Loop, r: Round)
    requires Inv(c, cfg) && c.ready
    ensures var k := FirstFailures(cfg, c, l, r);
      var l1 := if l.needProbe then l.(needProbe := false, lastProbe := Some(r.connNow)) else l;
      ConnectPhase(plan, cfg, c, l, r) ==
        if k >= Limit(cfg) then Done(Turn(WithFailures(c, cfg, k), l1, None, [false]))
        else Onward(c.(failCount := k), l1, [])
  {
    ProbeExact(c, cfg, r.connProbe);
  }

  // The dialer a refresh leaves, with k failures counted.
  ghost function Refreshed(c: State, r: Round, k: nat): State
    requires r.refresh.expanded.Some?
  {
    c.(dialer := Some(|c.builds|), expandedKey := r.refresh.expanded.value, serverIP := r.refresh.server,
       builds := c.builds + [Build(r.refresh.expanded.value, r.refresh.server)], failCount := k, ready := true)
  }

  lemma SecondPhase(plan: Plan, cfg: Settings, c: State, l: Loop, r: Round)
    requires Inv(c, cfg) && c.ready && l.lastRefresh.Some?
    ensures var l' := if RefreshDue(plan, l, r) then l.(lastRefresh := Some(r.now)) else l;
      RefreshPhase(plan, cfg, c, l, [], r) ==
        if !Refreshes(plan, c, l, r) then Onward(c, l', [])
        else
          var k := FailuresAfterProbe(cfg, r.refresh.server, 0, r.refreshProbe);
          if k >= Limit(cfg) then Done(Turn(WithFailures(Refreshed(c, r, 0), cfg, k), l', None, [false]))
          else Onward(Refreshed(c, r, k), l', [true])
  {
    DynamicExact(c.accessKey);
    RefreshExact(c, r.refresh);
    if KeyMoved(c, r) {
      assert RefreshStep(c, r.refresh).state == Refreshed(c, r, 0);
      ProbeExact(Refreshed(c, r, 0), cfg, r.refreshProbe);
    }
  }

  lemma DynamicExact(key: string)
    ensures IsDynamicKey(key) <==> "ssconf://" <= TrimSpace(key)
  {
  }

  lemma ThirdPhase(plan: Plan, cfg: Settings, c: State, l: Loop, notes: seq<bool>, r: Round)
    requires Inv(c, cfg) && c.ready && l.lastProbe.Some? && !l.needProbe
    ensures var l' := if ProbeDue(plan, cfg, l, r) then l.(lastProbe := Some(r.now)) else l;
      var k := if ProbeDue(plan, cfg, l, r) then FailuresAfterProbe(cfg, c.serverIP, c.failCount, r.dueProbe)
               else c.failCount;
      ProbePhase(plan, cfg, c, l, notes, r) ==
        if k >= Limit(cfg) then Done(Turn(WithFailures(c, cfg, k), l', None, notes + [false]))
        else Onward(c.(failCount := k), l', notes)
  {
    ProbeExact(c, cfg, r.dueProbe);
  }

  // A round that finds the client ready, in full. The dialer is replaced
  // exactly by a due refresh of a key that moved, unless the immediate probe
  // already took the client down; the three probes reset the count or add one;
  // the client stays ready exactly while the count stays below the limit; each
  // change is reported, and each due instant is reset.
  lemma ReadyRound(plan: Plan, cfg: Settings, c: State, l: Loop, r: Round)
    requires Inv(c, cfg) && c.ready
    ensures if FirstFailures(cfg, c, l, r) < Limit(cfg)
            then LaterProbes(plan, cfg, c, l, r) && LaterDialer(plan, cfg, c, l, r)
            else
              var t := RoundStep(plan, cfg, c, l, r);
              t.client == WithFailures(c, cfg, FirstFailures(cfg, c, l, r)) && t.notes == [false] && t.wait.None? &&
              t.loop.lastRefresh == l.lastRefresh
  {
    FirstPhase(plan, cfg, c, l, r);
    if FirstFailures(cfg, c, l, r) < Limit(cfg) {
      LaterPhases(plan, cfg, c, l, r);
    }
  }

  ghost predicate LaterProbes(plan: Plan, cfg: Settings, c: State, l: Loop, r: Round) {
    var t := RoundStep(plan, cfg, c, l, r);
    var refreshed := Refreshes(plan, c, l, r);
    var k := RefreshedFailures(plan, cfg, c, l, r);
    var n := LastFailures(plan, cfg, c, l, r);
    if k >= Limit(cfg) then
      !t.client.ready && t.client.failCount == k && t.notes == [false] && t.wait.None?
    else
      (t.client.ready <==> n < Limit(cfg)) && t.client.failCount == n &&
      t.notes == (if refreshed then [true] else []) + (if n < Limit(cfg) then [] else [false]) &&
      (t.wait.Some? <==> t.client.ready) && (t.client.ready ==> t.client.wake == (c.wake && !r.woken)) &&
      !t.loop.needProbe && t.loop.lastProbe == Some(
        if ProbeDue(plan, cfg, l, r) then r.now else if l.needProbe then r.connNow else OrNow(l.lastProbe, r.now))
  }

  // The dialer and the clock of the refresh after such a round.
  ghost predicate LaterDialer(plan: Plan, cfg: Settings, c: State, l: Loop, r: Round) {
    var t := RoundStep(plan, cfg, c, l, r);
    t.loop.lastRefresh == Some(if RefreshDue(plan, l, r) then r.now else OrNow(l.lastRefresh, r.now)) &&
    if Refreshes(plan, c, l, r) then
      t.client.builds == c.builds + [Build(r.refresh.expanded.value, r.refresh.server)] &&
      t.client.dialer == Some(|c.builds|) && t.client.expandedKey == r.refresh.expanded.value &&
      t.client.serverIP == r.refresh.server
    else
      t.client.builds == c.builds && t.client.dialer == c.dialer && t.client.expandedKey == c.expandedKey &&
      t.client.serverIP == c.serverIP
  }

  lemma LaterPhases(plan: Plan, cfg: Settings, c: State, l: Loop, r: Round)
    requires Inv(c, cfg) && c.ready && FirstFailures(cfg, c, l, r) < Limit(cfg)
    ensures LaterProbes(plan, cfg, c, l, r) && LaterDialer(plan, cfg, c, l, r)
  {
    var c1 := c.(failCount := FirstFailures(cfg, c, l, r));
    var l1 := if l.needProbe then l.(needProbe := false, lastProbe := Some(r.connNow)) else l;
    var l2 := l1.(lastRefresh := Some(OrNow(l1.lastRefresh, r.now)), lastProbe := Some(OrNow(l1.lastProbe, r.now)));
    FirstPhase(plan, cfg, c, l, r);
    SecondPhase(plan, cfg, c1, l2, r);
    if Refreshes(plan, c, l, r) {
      MovedPhases(plan, cfg, c, l, r, c1, l1, l2);
    } else {
      SamePhases(plan, cfg, c, l, r, c1, l1, l2);
    }
  }

  lemma MovedPhases(plan: Plan, cfg: Settings, c: State, l: Loop, r: Round, c1: State, l1: Loop, l2: Loop)
    requires Inv(c1, cfg) && c1.ready && !l2.needProbe && Refreshes(plan, c, l, r)
    requires c1 == c.(failCount := c1.failCount)
    requires ConnectPhase(plan, cfg, c, l, r) == Onward(c1, l1, [])
    requires l1 == if l.needProbe then l.(needProbe := false, lastProbe := Some(r.connNow)) else l
    requires l2 == l1.(lastRefresh := Some(OrNow(l1.lastRefresh, r.now)), lastProbe := Some(OrNow(l1.lastProbe, r.now)))
    requires var k := RefreshedFailures(plan, cfg, c, l, r);
      var l3 := l2.(lastRefresh := Some(r.now));
      RefreshPhase(plan, cfg, c1, l2, [], r) ==
        if k >= Limit(cfg) then Done(Turn(WithFailures(Refreshed(c1, r, 0), cfg, k), l3, None, [false]))
        else Onward(Refreshed(c1, r, k), l3, [true])
    ensures LaterProbes(plan, cfg, c, l, r) && LaterDialer(plan, cfg, c, l, r)
  {
    var k := RefreshedFailures(plan, cfg, c, l, r);
    if k < Limit(cfg) {
      ThirdPhase(plan, cfg, Refreshed(c1, r, k), l2.(lastRefresh := Some(r.now)), [true], r);
    }
  }

  lemma SamePhases(plan: Plan, cfg: Settings, c: State, l: Loop, r: Round, c1: State, l1: Loop, l2: Loop)
    requires Inv(c1, cfg) && c1.ready && !l2.needProbe && !Refreshes(plan, c, l, r)
    requires c1 == c.(failCount := FirstFailures(cfg, c, l, r))
    requires ConnectPhase(plan, cfg, c, l, r) == Onward(c1, l1, [])
    requires l1 == if l.needProbe then l.(needProbe := false, lastProbe := Some(r.connNow)) else l
    requires l2 == l1.(lastRefresh := Some(OrNow(l1.lastRefresh, r.now)), lastProbe := Some(OrNow(l1.lastProbe, r.now)))
    requires RefreshPhase(plan, cfg, c1, l2, [], r) ==
      Onward(c1, if RefreshDue(plan, l2, r) then l2.(lastRefresh := Some(r.now)) else l2, [])
    ensures LaterProbes(plan, cfg, c, l, r) && LaterDialer(plan, cfg, c, l, r)
  {
    var l3 := if RefreshDue(plan, l2, r) then l2.(lastRefresh := Some(r.now)) else l2;
    ThirdPhase(plan, cfg, c1, l3, [], r);
  }

  // The client that Connect leaves with this key.
  ghost function Connected(c: State, r: Round, key: string): State {
    c.(dialer := Some(|c.builds|), expandedKey := key, serverIP := r.conn.server,
       builds := c.builds + [Build(key, r.conn.server)], failCount := 0, ready := true)
  }

  // A round that finds the client not ready connects with the expanded key or
  // the last static one. It waits the current delay without a dialer or after a
  // failed probe of it; otherwise it reports ready and goes on like a round
  // that finds a ready client, with both clocks just reset.
  lemma ColdRound(plan: Plan, cfg: Settings, c: State, l: Loop, r: Round)
    requires Inv(c, cfg) && !c.ready
    ensures var t := RoundStep(plan, cfg, c, l, r);
      var usable := r.conn.dialerOk && (r.conn.expanded.Some? || "ss://" <= c.expandedKey);
      var key := if r.conn.expanded.Some? then r.conn.expanded.value else c.expandedKey;
      var later := l.(delay := if l.delay * 2 <= plan.max then l.delay * 2 else plan.max);
      if !usable then t == Turn(c.(wake := c.wake && !r.woken), later, Some(l.delay), [false])
      else if cfg.probeAddr != "" && r.connProbe != Dialed(None) then
        !t.client.ready && t.client.builds == c.builds + [Build(key, r.conn.server)] &&
        t.loop == later && t.wait == Some(l.delay) && t.notes == [false]
      else
        var clocks := Loop(plan.base, Some(r.connNow), Some(r.connNow), false);
        var go := RoundStep(plan, cfg, Connected(c, r, key), clocks, r);
        t == go.(notes := [true] + go.notes)
  {
    var usable := r.conn.dialerOk && (r.conn.expanded.Some? || "ss://" <= c.expandedKey);
    var key := if r.conn.expanded.Some? then r.conn.expanded.value else c.expandedKey;
    var c1 := Connected(c, r, key);
    ConnectExact(c, r.conn);
    if usable {
      assert ConnectStep(c, r.conn).state == c1;
      ProbeExact(c1, cfg, r.connProbe);
      if cfg.probeAddr == "" || r.connProbe == Dialed(None) {
        GoesOn(plan, cfg, c1, Loop(plan.base, Some(r.connNow), Some(r.connNow), false), r);
      }
    }
  }

  // The later phases only append to the reports made before them.
  lemma GoesOn(plan: Plan, cfg: Settings, c: State, l: Loop, r: Round)
    requires l.lastRefresh.Some? && l.lastProbe.Some?
    ensures var p, q := RefreshPhase(plan, cfg, c, l, [], r), RefreshPhase(plan, cfg, c, l, [true], r);
      match p
      case Done(t) => q == Done(t.(notes := [true] + t.notes))
      case Onward(c', l', n) =>
        q == Onward(c', l', [true] + n) && l'.lastProbe.Some? &&
        match ProbePhase(plan, cfg, c', l', n, r)
        case Done(t) => ProbePhase(plan, cfg, c', l', [true] + n, r) == Done(t.(notes := [true] + t.notes))
        case Onward(c'', l'', n') => ProbePhase(plan, cfg, c', l', [true] + n, r) == Onward(c'', l'', [true] + n')
  {
    assert [true] + [] == [true];
    assert [true] + [false] == [true, false];
  }

  // ---- No refresh and no probe is late ----

  // The next round reads its clock at most lag after the wait of this one, and
  // this one spends at most lag between its two readings.
  ghost predicate Timely(r: Round, w: int, next: Round, lag: int) {
    r.now <= r.wakeNow <= r.now + lag && next.now <= r.wakeNow + w + lag
  }

  // After a round that leaves the client ready, whatever its probes and its
  // refresh met, the next round finds neither overdue by more than the floor of
  // the wait and the lags.
  lemma NextRoundOnTime(plan: Plan, cfg: Settings, c: State, l: Loop, r: Round, next: Round, lag: int)
    ensures var t := RoundStep(plan, cfg, c, l, r);
      t.client.ready && t.wait.Some? && Timely(r, t.wait.value, next, lag) ==>
        t.loop.lastRefresh.Some? && t.loop.lastProbe.Some? &&
        (plan.refreshEvery > 0 ==> next.now - t.loop.lastRefresh.value <= plan.refreshEvery + 10_000_000 + 2 * lag) &&
        (cfg.probeAddr != "" && plan.probeInterval > 0 ==>
          next.now - t.loop.lastProbe.value <= plan.probeInterval + 10_000_000 + 2 * lag)
  {
    var t := RoundStep(plan, cfg, c, l, r);
    if t.client.ready && t.wait.Some? && Timely(r, t.wait.value, next, lag) {
      NotOverdue(plan, cfg, c, l, r);
      NextWakeBounds(plan, cfg, t.loop.lastProbe.value, t.loop.lastRefresh.value, r.wakeNow);
    }
  }

  lemma NotOverdue(plan: Plan, cfg: Settings, c: State, l: Loop, r: Round)
    ensures var t := RoundStep(plan, cfg, c, l, r);
      t.client.ready && t.wait.Some? ==>
        t.loop.lastRefresh.Some? && t.loop.lastProbe.Some? &&
        t.wait == Some(NextWake(plan, cfg, t.loop.lastProbe.value, t.loop.lastRefresh.value, r.wakeNow)) &&
        (plan.refreshEvery > 0 ==> r.now - t.loop.lastRefresh.value < plan.refreshEvery) &&
        (cfg.probeAddr != "" && plan.probeInterval > 0 ==> r.now - t.loop.lastProbe.value < plan.probeInterval)
  {
    ConnectExact(c, r.conn);
    var p := ConnectPhase(plan, cfg, c, l, r);
    if p.Onward? {
      var l2 := p.loop.(lastRefresh := Some(OrNow(p.loop.lastRefresh, r.now)),
                        lastProbe := Some(OrNow(p.loop.lastProbe, r.now)));
      DueClocks(plan, cfg, p.client, l2, p.notes, r);
    } else {
      assert p.turn.wait.Some? ==> !p.turn.client.ready;
    }
  }

  lemma DueClocks(plan: Plan, cfg: Settings, c: State, l: Loop, notes: seq<bool>, r: Round)
    requires l.lastRefresh.Some? && l.lastProbe.Some?
    ensures var p := RefreshPhase(plan, cfg, c, l, notes, r);
      match p
      case Done(t) => t.wait.None?
      case Onward(c', l', n) =>
        l'.lastRefresh.Some? && l'.lastProbe.Some? &&
        (plan.refreshEvery > 0 ==> r.now - l'.lastRefresh.value < plan.refreshEvery) &&
        match ProbePhase(plan, cfg, c', l', n, r)
        case Done(t) => t.wait.None?
        case Onward(_, l'', _) =>
          l''.lastRefresh == l'.lastRefresh && l''.lastProbe.Some? &&
          (cfg.probeAddr != "" && plan.probeInterval > 0 ==> r.now - l''.lastProbe.value < plan.probeInterval)
  {
  }

  lemma {:induction false} LoopNext(plan: Plan, cfg: Settings, l: Loop, rounds: seq<(State, Round)>, i: nat)
    requires i < |rounds|
    ensures LoopAfter(plan, cfg, l, rounds[..i + 1]) ==
      RoundStep(plan, cfg, rounds[i].0, LoopAfter(plan, cfg, l, rounds[..i]), rounds[i].1).loop
    decreases i
  {
    var front := rounds[..i + 1];
    if i > 0 {
      var l' := RoundStep(plan, cfg, rounds[0].0, l, rounds[0].1).loop;
      LoopNext(plan, cfg, l', rounds[1..], i - 1);
      assert front[1..] == rounds[1..][..i];
      assert rounds[..i][1..] == rounds[1..][..i - 1];
    } else {
      assert front[1..] == [];
    }
  }

  // Over every run, whatever other goroutines do to the client in between.
  lemma RunOnTime(plan: Plan, cfg: Settings, l: Loop, rounds: seq<(State, Round)>, i: nat, lag: int)
    requires i + 1 < |rounds|
    ensures var t := RoundStep(plan, cfg, rounds[i].0, LoopAfter(plan, cfg, l, rounds[..i]), rounds[i].1);
      var l' := LoopAfter(plan, cfg, l, rounds[..i + 1]);
      t.client.ready && t.wait.Some? && Timely(rounds[i].1, t.wait.value, rounds[i + 1].1, lag) ==>
        l'.lastRefresh.Some? && l'.lastProbe.Some? &&
        (plan.refreshEvery > 0 ==>
          rounds[i + 1].1.now - l'.lastRefresh.value <= plan.refreshEvery + 10_000_000 + 2 * lag) &&
        (cfg.probeAddr != "" && plan.probeInterval > 0 ==>
          rounds[i + 1].1.now - l'.lastProbe.value <= plan.probeInterval + 10_000_000 + 2 * lag)
  {
    LoopNext(plan, cfg, l, rounds, i);
    NextRoundOnTime(plan, cfg, rounds[i].0, LoopAfter(plan, cfg, l, rounds[..i]), rounds[i].1, rounds[i + 1].1, lag);
  }

  // The loop starts with the base delay; its first round probes a ready client
  // at once, if a target is set, and refreshes nothing yet.
  lemma FirstRound(plan: Plan, cfg: Settings, c: State, r: Round)
    requires 0 < plan.base <= plan.max
    ensures var l := Start(plan, cfg);
      l.delay == Backoff(plan, 0) && !RefreshDue(plan, l, r) &&
      FirstFailures(cfg, c, l, r) == FailuresAfterProbe(cfg, c.serverIP, c.failCount, r.connProbe)
  {
    assert plan.base * Pow2(0) == plan.base;
  }

  // ---- The loop keeps the client's invariant ----

  function ClientOf(p: Phase): State {
    match p
    case Done(t) => t.client
    case Onward(c, _, _) => c
  }

  lemma ConnectPhaseFollows(plan: Plan, cfg: Settings, c: State, l: Loop, r: Round)
    requires Inv(c, cfg)
    ensures Follows(c, ClientOf(ConnectPhase(plan, cfg, c, l, r)), cfg)
  {
    ConnectFollows(c, cfg, r.conn);
    ProbeFollows(c, cfg, r.connProbe);
    ProbeFollows(ConnectStep(c, r.conn).state, cfg, r.connProbe);
  }

  lemma RefreshPhaseFollows(plan: Plan, cfg: Settings, c: State, l: Loop, notes: seq<bool>, r: Round)
    requires Inv(c, cfg) && l.lastRefresh.Some?
    ensures Follows(c, ClientOf(RefreshPhase(plan, cfg, c, l, notes, r)), cfg)
  {
    StepFollows(c, cfg, RefreshOp(r.refresh));
    ProbeFollows(RefreshStep(c, r.refresh).state, cfg, r.refreshProbe);
  }

  lemma ProbePhaseFollows(plan: Plan, cfg: Settings, c: State, l: Loop, notes: seq<bool>, r: Round)
    requires Inv(c, cfg) && l.lastProbe.Some?
    ensures Follows(c, ClientOf(ProbePhase(plan, cfg, c, l, notes, r)), cfg)
  {
    ProbeFollows(c, cfg, r.dueProbe);
  }

  // Every round keeps the client's invariant and spends at most the OnUnready
  // calls that rebuilds and the initial readiness pay for.
  lemma RoundFollows(plan: Plan, cfg: Settings, c: State, l: Loop, r: Round)
    requires Inv(c, cfg)
    ensures Follows(c, RoundStep(plan, cfg, c, l, r).client, cfg)
  {
    ConnectPhaseFollows(plan, cfg, c, l, r);
    var p1 := ConnectPhase(plan, cfg, c, l, r);
    if p1.Onward? {
      var l2 := p1.loop.(lastRefresh := Some(OrNow(p1.loop.lastRefresh, r.now)),
                         lastProbe := Some(OrNow(p1.loop.lastProbe, r.now)));
      RefreshPhaseFollows(plan, cfg, p1.client, l2, p1.notes, r);
      var p3 := RefreshPhase(plan, cfg, p1.client, l2, p1.notes, r);
      if p3.Onward? {
        ProbePhaseFollows(plan, cfg, p3.client, p3.loop, p3.notes, r);
      }
    }
  }

  // So does every run of the loop.
  lemma {:induction false} RoundsKeepInv(plan: Plan, cfg: Settings, c: State, l: Loop, rounds: seq<Round>)
    requires Inv(c, cfg)
    ensures Follows(c, Rounds(plan, cfg, c, l, rounds).client, cfg)
  {
    if rounds != [] {
      var h := Rounds(plan, cfg, c, l, rounds[..|rounds| - 1]);
      RoundsKeepInv(plan, cfg, c, l, rounds[..|rounds| - 1]);
      RoundFollows(plan, cfg, h.client, h.loop, rounds[|rounds| - 1]);
    }
  }

  // ---- The loop of the source ----

  datatype History = History(client: State, loop: Loop, waits: seq<Option<int>>, notes: seq<bool>)

  function Rounds(plan: Plan, cfg: Settings, c: State, l: Loop, rounds: seq<Round>): History {
    if rounds == [] then History(c, l, [], [])
    else
      var h := Rounds(plan, cfg, c, l, rounds[..|rounds| - 1]);
      var t := RoundStep(plan, cfg, h.client, h.loop, rounds[|rounds| - 1]);
      History(t.client, t.loop, h.waits + [t.wait], h.notes + t.notes)
  }

  // MaintainReady for as many rounds as run before the context is cancelled.
  method MaintainReady(client: Client, plan: Plan, rounds: seq<Round>)
    returns (waits: seq<Option<int>>, notes: seq<bool>, ghost last: Loop)
    requires client.Valid()
    modifies client
    ensures client.Valid()
    ensures History(client.View(), last, waits, notes) ==
      Rounds(plan, client.cfg, old(client.View()), Start(plan, client.cfg), rounds)
  {
    var l := Start(plan, client.cfg);
    waits, notes := [], [];
    for i := 0 to |rounds|
      invariant client.Valid()
      invariant History(client.View(), l, waits, notes) ==
        Rounds(plan, client.cfg, old(client.View()), Start(plan, client.cfg), rounds[..i])
    {
      assert rounds[..i + 1][..i] == rounds[..i];
      var wait, called;
      l, wait, called := OneRound(client, plan, l, rounds[i]);
      waits, notes := waits + [wait], notes + called;
    }
    assert rounds[..|rounds|] == rounds;
    last := l;
  }

  method OneRound(client: Client, plan: Plan, l: Loop, r: Round) returns (l': Loop, wait: Option<int>, notes: seq<bool>)
    requires client.Valid()
    modifies client
    ensures client.Valid()
    ensures Turn(client.View(), l', wait, notes) == RoundStep(plan, client.cfg, old(client.View()), l, r)
  {
    var go;
    l', wait, notes, go := ConnectRound(client, plan, l, r);
    if go {
      l' := l'.(lastRefresh := Some(OrNow(l'.lastRefresh, r.now)), lastProbe := Some(OrNow(l'.lastProbe, r.now)));
      l', notes, go := RefreshRound(client, plan, l', notes, r);
      if go {
        l', notes, go := ProbeRound(client, plan, l', notes, r);
        if go {
          wait := Some(NextWake(plan, client.cfg, OrNow(l'.lastProbe, r.now), OrNow(l'.lastRefresh, r.now), r.wakeNow));
        }
      }
    }
    if wait.Some? && r.woken {
      client.DrainWake();
    }
  }

  // go tells whether the round goes on; wait is meant only when it does not.
  method ConnectRound(client: Client, plan: Plan, l: Loop, r: Round)
    returns (l': Loop, wait: Option<int>, notes: seq<bool>, go: bool)
    requires client.Valid()
    modifies client
    ensures client.Valid()
    ensures ConnectPhase(plan, client.cfg, old(client.View()), l, r) ==
      if go then Onward(client.View(), l', notes) else Done(Turn(client.View(), l', wait, notes))
    ensures go ==> wait.None?
  {
    if !client.ready {
      var ok := client.Connect(r.conn);
      if !ok {
        return l.(delay := Doubled(plan, l.delay)), Some(l.delay), [false], false;
      }
      var err := client.Probe(r.connProbe);
      if err.Some? {
        client.MarkUnready();
        return l.(delay := Doubled(plan, l.delay)), Some(l.delay), [false], false;
      }
      return Loop(plan.base, Some(r.connNow), Some(r.connNow), false), None, [true], true;
    }
    if l.needProbe {
      l' := l.(needProbe := false, lastProbe := Some(r.connNow));
      var err := client.Probe(r.connProbe);
      if err.Some? && !client.ready {
        return l', None, [false], false;
      }
      return l', None, [], true;
    }
    return l, None, [], true;
  }

  method RefreshRound(client: Client, plan: Plan, l: Loop, before: seq<bool>, r: Round)
    returns (l': Loop, notes: seq<bool>, go: bool)
    requires client.Valid() && l.lastRefresh.Some? && l.lastProbe.Some?
    modifies client
    ensures client.Valid() && l'.lastProbe.Some?
    ensures RefreshPhase(plan, client.cfg, old(client.View()), l, before, r) ==
      if go then Onward(client.View(), l', notes) else Done(Turn(client.View(), l', None, notes))
  {
    l', notes := l, before;
    if plan.refreshEvery > 0 && r.now - l.lastRefresh.value >= plan.refreshEvery {
      l' := l.(lastRefresh := Some(r.now));
      var changed := client.RefreshIfChanged(r.refresh);
      if changed {
        var err := client.Probe(r.refreshProbe);
        if err.Some? && !client.ready {
          return l', notes + [false], false;
        }
        if client.ready {
          notes := notes + [true];
        }
      }
    }
    go := true;
  }

  method ProbeRound(client: Client, plan: Plan, l: Loop, before: seq<bool>, r: Round)
    returns (l': Loop, notes: seq<bool>, go: bool)
    requires client.Valid() && l.lastProbe.Some?
    modifies client
    ensures client.Valid()
    ensures ProbePhase(plan, client.cfg, old(client.View()), l, before, r) ==
      if go then Onward(client.View(), l', notes) else Done(Turn(client.View(), l', None, notes))
  {
    l', notes := l, before;
    if client.cfg.probeAddr != "" && plan.probeInterval > 0 && r.now - l.lastProbe.value >= plan.probeInterval {
      l' := l.(lastProbe := Some(r.now));
      var err := client.Probe(r.dueProbe);
      if err.Some? && !client.ready {
        return l', notes + [false], false;
      }
    }
    go := true;
  }
}
