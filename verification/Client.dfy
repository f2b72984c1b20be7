// internal/outline/client.go with every operation taken as atomic: dialer
// swap, failure counting and readiness. Key expansion, dialer construction,
// address resolution and dialing are outcomes chosen from outside.
module Client {
  import opened Text
  import opened NetAddr

  // ---- Outcomes of the outside world ----

  // What one rebuild attempt meets: the expanded key, whether a dialer could
  // be built from the key in use, and the address its host resolves to.
  datatype Rebuild = Rebuild(expanded: Option<string>, dialerOk: bool, server: IP)

  datatype DialError = DialError(timeout: bool, message: string)

  // A dial that gave up waiting for a slot, or the result of DialStream.
  datatype DialOutcome = NoSlot(error: DialError) | Dialed(error_: Option<DialError>)

  datatype Settings = Settings(probeAddr: string, probeFails: int)

  // A successful rebuild: the key the dialer was built from and the resolved server.
  datatype Build = Build(key: string, server: IP)

  // builds records every successful rebuild; the dialer is one of them.
  // unready counts OnUnready calls, wake is the one-slot wake channel.
  datatype State = State(
    accessKey: string,
    dialer: Option<nat>,
    expandedKey: string,
    serverIP: IP,
    ready: bool,
    failCount: nat,
    wake: bool,
    builds: seq<Build>,
    unready: nat)

  // ---- Keys and errors ----

  predicate HasPrefix(s: string, prefix: string) {
    |prefix| <= |s| && s[..|prefix|] == prefix
  }

  predicate ContainsText(s: string, t: string) {
    exists i :: 0 <= i <= |s| && HasPrefix(s[i..], t)
  }

  predicate ValidKey(key: string) {
    key != "" && !ContainsText(key, "***") && ' ' !in key && '\t' !in key && '\r' !in key && '\n' !in key &&
    (HasPrefix(key, "ss://") || HasPrefix(key, "ssconf://"))
  }

  predicate IsDynamicKey(key: string) {
    HasPrefix(TrimSpace(key), "ssconf://")
  }

  function ServerText(ip: IP): string {
    match ip
    case NilIP => ""
    case V4(a) => Dotted(a)
    case V6(t) => t
  }

  // ResolveServerIP: nothing for an empty key or one of several parts, otherwise
  // the answer for its host, which may be none.
  function ResolveServerIP(key: string, answer: IP): IP {
    if TrimSpace(key) == "" || '|' in key then NilIP else answer
  }

  predicate IsTransportFailure(server: IP, err: DialError) {
    err.timeout || (ServerText(server) != "" && ContainsText(err.message, ServerText(server))) ||
    ContainsText(err.message, "i/o timeout")
  }

  // Written in parts, because the solver unfolds only short literals.
  const NOT_READY: DialError := DialError(false, "outline " + "dialer " + "not ready")

  function Threshold(cfg: Settings): (n: nat)
    ensures n > 0
  {
    if cfg.probeFails > 0 then cfg.probeFails else 2
  }

  // ---- Operations as functions of the state ----

  datatype Outcome = Outcome(state: State, ok: bool)

  function ApplyExpanded(s: State, key: string, o: Rebuild): Outcome {
    if !o.dialerOk then Outcome(s, false)
    else Outcome(s.(dialer := Some(|s.builds|), expandedKey := key, serverIP := o.server,
                    failCount := 0, ready := true, builds := s.builds + [Build(key, o.server)]), true)
  }

  function ConnectStep(s: State, o: Rebuild): Outcome {
    var key :=
      if o.expanded.Some? then o.expanded
      else if s.expandedKey != "" && HasPrefix(s.expandedKey, "ss://") then Some(s.expandedKey)
      else None;
    if key.None? then Outcome(s.(ready := false), false)
    else
      var r := ApplyExpanded(s, key.value, o);
      if r.ok then r else Outcome(s.(ready := false), false)
  }

  function Kick(s: State): State {
    s.(wake := true)
  }

  function SetAccessKeyStep(s: State, raw: string, o: Rebuild): Outcome {
    var key := TrimSpace(raw);
    if !ValidKey(key) then Outcome(s, false)
    else
      var r := ConnectStep(s.(accessKey := key, ready := false), o);
      if r.ok then r else Outcome(Kick(r.state), false)
  }

  function NoteTunnelFailure(s: State, cfg: Settings): State {
    var s' := s.(failCount := s.failCount + 1);
    if s'.failCount >= Threshold(cfg) && s.ready
    then Kick(s'.(ready := false, unready := s.unready + 1))
    else s'
  }

  function NoteDialResult(s: State, cfg: Settings, err: Option<DialError>): State {
    if err.None? then s.(failCount := 0)
    else if !IsTransportFailure(s.serverIP, err.value) then s
    else NoteTunnelFailure(s, cfg)
  }

  datatype DialResult = DialResult(state: State, error: Option<DialError>)

  // DialContext for a TCP network.
  function DialStep(s: State, cfg: Settings, o: DialOutcome): DialResult {
    if !s.ready then DialResult(s, Some(NOT_READY))
    else match o
      case NoSlot(e) => DialResult(s, Some(e))
      case Dialed(err) =>
        if s.dialer.None? then DialResult(s, Some(NOT_READY))
        else DialResult(NoteDialResult(s, cfg, err), err)
  }

  // probe: any failure of the chosen target counts, but only once.
  function ProbeStep(s: State, cfg: Settings, o: DialOutcome): DialResult {
    if cfg.probeAddr == "" then DialResult(s, None)
    else
      var r := DialStep(s, cfg, o);
      if r.error.Some? && !IsTransportFailure(r.state.serverIP, r.error.value)
      then DialResult(NoteTunnelFailure(r.state, cfg), r.error) else r
  }

  function ReconnectStep(s: State, cfg: Settings, o: Rebuild, probe: DialOutcome): Outcome {
    var r := ConnectStep(s.(ready := false, failCount := 0), o);
    if !r.ok then Outcome(Kick(r.state), false)
    else
      var p := ProbeStep(r.state, cfg, probe);
      if p.error.Some? then Outcome(Kick(p.state.(ready := false)), false) else Outcome(Kick(p.state), true)
  }

  // refreshIfChanged; ok tells that the dialer was replaced.
  function RefreshStep(s: State, o: Rebuild): Outcome {
    if !IsDynamicKey(s.accessKey) || o.expanded.None? || o.expanded.value == s.expandedKey then Outcome(s, false)
    else ApplyExpanded(s, o.expanded.value, o)
  }

  // MaintainReady's own flip after a failed probe of a fresh dialer.
  function ClearReady(s: State): State {
    s.(ready := false)
  }

  datatype Op =
    | ConnectOp(o: Rebuild)
    | SetAccessKeyOp(raw: string, o: Rebuild)
    | DialOp(dial: DialOutcome)
    | ProbeOp(dial: DialOutcome)
    | ReconnectOp(o: Rebuild, dial: DialOutcome)
    | RefreshOp(o: Rebuild)
    | ClearReadyOp

  function Step(s: State, cfg: Settings, op: Op): State {
    match op
    case ConnectOp(o) => ConnectStep(s, o).state
    case SetAccessKeyOp(raw, o) => SetAccessKeyStep(s, raw, o).state
    case DialOp(d) => DialStep(s, cfg, d).state
    case ProbeOp(d) => ProbeStep(s, cfg, d).state
    case ReconnectOp(o, d) => ReconnectStep(s, cfg, o, d).state
    case RefreshOp(o) => RefreshStep(s, o).state
    case ClearReadyOp => ClearReady(s)
  }

  function Run(s: State, cfg: Settings, ops: seq<Op>): State
    decreases |ops|
  {
    if ops == [] then s else Run(Step(s, cfg, ops[0]), cfg, ops[1..])
  }

  // ---- Invariants ----

  // ready implies a dialer; the dialer, the expanded key and the server come
  // from one rebuild; ready implies a failure count below the threshold; and
  // each OnUnready call used up one successful rebuild.
  predicate Inv(s: State, cfg: Settings) {
    && (s.ready ==> s.dialer.Some?)
    && (s.dialer.Some? ==> s.dialer.value < |s.builds| && s.builds[s.dialer.value] == Build(s.expandedKey, s.serverIP))
    && (s.ready ==> s.failCount < Threshold(cfg))
    && Spent(s) <= 0
  }

  // OnUnready calls made or still possible, minus successful rebuilds.
  function Spent(s: State): int {
    s.unready + (if s.ready then 1 else 0) - |s.builds|
  }

  // s' follows s: the invariant holds, and every new OnUnready call was paid
  // for by a successful rebuild or by s being ready.
  predicate Follows(s: State, s': State, cfg: Settings) {
    Inv(s', cfg) && |s'.builds| >= |s.builds| && Spent(s') <= Spent(s)
  }

  lemma ConnectFollows(s: State, cfg: Settings, o: Rebuild)
    requires Inv(s, cfg)
    ensures Follows(s, ConnectStep(s, o).state, cfg)
    ensures ConnectStep(s, o).ok == ConnectStep(s, o).state.ready
  {
  }

  lemma NoteFollows(s: State, cfg: Settings)
    requires Inv(s, cfg)
    ensures Follows(s, NoteTunnelFailure(s, cfg), cfg)
  {
  }

  lemma DialFollows(s: State, cfg: Settings, d: DialOutcome)
    requires Inv(s, cfg)
    ensures Follows(s, DialStep(s, cfg, d).state, cfg)
  {
    NoteFollows(s, cfg);
  }

  lemma ProbeFollows(s: State, cfg: Settings, d: DialOutcome)
    requires Inv(s, cfg)
    ensures Follows(s, ProbeStep(s, cfg, d).state, cfg)
  {
    DialFollows(s, cfg, d);
    NoteFollows(DialStep(s, cfg, d).state, cfg);
  }

  lemma ReconnectFollows(s: State, cfg: Settings, o: Rebuild, d: DialOutcome)
    requires Inv(s, cfg)
    ensures Follows(s, ReconnectStep(s, cfg, o, d).state, cfg)
  {
    var cleared := s.(ready := false, failCount := 0);
    ConnectFollows(cleared, cfg, o);
    ProbeFollows(ConnectStep(cleared, o).state, cfg, d);
  }

  lemma StepFollows(s: State, cfg: Settings, op: Op)
    requires Inv(s, cfg)
    ensures Follows(s, Step(s, cfg, op), cfg)
  {
    match op
    case ConnectOp(o) => ConnectFollows(s, cfg, o);
    case SetAccessKeyOp(raw, o) => ConnectFollows(s.(accessKey := TrimSpace(raw), ready := false), cfg, o);
    case DialOp(d) => DialFollows(s, cfg, d);
    case ProbeOp(d) => ProbeFollows(s, cfg, d);
    case ReconnectOp(o, d) => ReconnectFollows(s, cfg, o, d);
    case RefreshOp(o) =>
    case ClearReadyOp =>
  }

  // Every reachable state satisfies the invariant, whatever the outcomes.
  lemma {:induction false} RunKeepsInv(s: State, cfg: Settings, ops: seq<Op>)
    requires Inv(s, cfg)
    ensures Inv(Run(s, cfg, ops), cfg)
    decreases |ops|
  {
    if ops != [] {
      StepFollows(s, cfg, ops[0]);
      RunKeepsInv(Step(s, cfg, ops[0]), cfg, ops[1..]);
    }
  }

  // The dialer in use is the one of the most recent successful rebuild.
  predicate UsesLast(s: State) {
    s.dialer == (if s.builds == [] then None else Some(|s.builds| - 1))
  }

  lemma ConnectUsesLast(s: State, o: Rebuild)
    requires UsesLast(s)
    ensures UsesLast(ConnectStep(s, o).state)
  {
  }

  lemma DialsKeepBuilds(s: State, cfg: Settings, d: DialOutcome)
    ensures DialStep(s, cfg, d).state.dialer == s.dialer && DialStep(s, cfg, d).state.builds == s.builds
    ensures ProbeStep(s, cfg, d).state.dialer == s.dialer && ProbeStep(s, cfg, d).state.builds == s.builds
  {
  }

  lemma StepUsesLast(s: State, cfg: Settings, op: Op)
    requires UsesLast(s)
    ensures UsesLast(Step(s, cfg, op))
  {
    match op
    case ConnectOp(o) => ConnectUsesLast(s, o);
    case SetAccessKeyOp(raw, o) => ConnectUsesLast(s.(accessKey := TrimSpace(raw), ready := false), o);
    case DialOp(d) => DialsKeepBuilds(s, cfg, d);
    case ProbeOp(d) => DialsKeepBuilds(s, cfg, d);
    case ReconnectOp(o, d) =>
      var cleared := s.(ready := false, failCount := 0);
      ConnectUsesLast(cleared, o);
      DialsKeepBuilds(ConnectStep(cleared, o).state, cfg, d);
    case RefreshOp(o) =>
    case ClearReadyOp =>
  }

  lemma {:induction false} RunKeepsLast(s: State, cfg: Settings, ops: seq<Op>)
    requires UsesLast(s)
    ensures UsesLast(Run(s, cfg, ops))
    decreases |ops|
  {
    if ops != [] {
      StepUsesLast(s, cfg, ops[0]);
      RunKeepsLast(Step(s, cfg, ops[0]), cfg, ops[1..]);
    }
  }

  // Failed rebuilds, probes and key changes never bring an older dialer back:
  // after any run, dialer, key and server are those of the last success.
  lemma RunUsesLast(s: State, cfg: Settings, ops: seq<Op>)
    requires Inv(s, cfg) && UsesLast(s)
    ensures var r := Run(s, cfg, ops);
      UsesLast(r) && (r.builds != [] ==> r.builds[|r.builds| - 1] == Build(r.expandedKey, r.serverIP))
  {
    RunKeepsLast(s, cfg, ops);
    RunKeepsInv(s, cfg, ops);
  }

  // ---- Which access key the dialer belongs to ----

  // The static key in use and the access key it was expanded from.
  datatype Origin = Origin(accessKey: string, key: string)

  // The expansion an operation built a dialer from, if it did.
  function FreshKey(s: State, op: Op): Option<string> {
    match op
    case ConnectOp(o) => if o.dialerOk then o.expanded else None
    case SetAccessKeyOp(raw, o) => if ValidKey(TrimSpace(raw)) && o.dialerOk then o.expanded else None
    case ReconnectOp(o, _) => if o.dialerOk then o.expanded else None
    case RefreshOp(o) => if RefreshStep(s, o).ok then o.expanded else None
    case _ => None
  }

  function NextOrigin(s: State, cfg: Settings, op: Op, origin: Origin): Origin {
    match FreshKey(s, op)
    case None => origin
    case Some(key) => Origin(Step(s, cfg, op).accessKey, key)
  }

  predicate InForce(s: State, origin: Origin) {
    origin.key == s.expandedKey && origin.accessKey == s.accessKey
  }

  // The access key is replaced by another one that cannot be expanded, or whose
  // expansion gives no dialer.
  predicate BareSwitch(s: State, op: Op) {
    op.SetAccessKeyOp? && ValidKey(TrimSpace(op.raw)) && TrimSpace(op.raw) != s.accessKey && FreshKey(s, op).None?
  }

  lemma ReconnectKeys(s: State, cfg: Settings, o: Rebuild, d: DialOutcome)
    ensures var r := ReconnectStep(s, cfg, o, d).state;
      r.accessKey == s.accessKey &&
      r.expandedKey == if o.dialerOk && o.expanded.Some? then o.expanded.value else s.expandedKey
  {
    var cleared := s.(ready := false, failCount := 0);
    ProbeKeys(ConnectStep(cleared, o).state, cfg, d);
  }

  lemma ProbeKeys(s: State, cfg: Settings, d: DialOutcome)
    ensures DialStep(s, cfg, d).state.accessKey == s.accessKey && DialStep(s, cfg, d).state.expandedKey == s.expandedKey
    ensures ProbeStep(s, cfg, d).state.accessKey == s.accessKey
    ensures ProbeStep(s, cfg, d).state.expandedKey == s.expandedKey
  {
  }

  // Every operation leaves a dialer key whose origin is known.
  lemma StepOrigin(s: State, cfg: Settings, op: Op, origin: Origin)
    requires origin.key == s.expandedKey
    ensures NextOrigin(s, cfg, op, origin).key == Step(s, cfg, op).expandedKey
    ensures InForce(s, origin) ==> (InForce(Step(s, cfg, op), NextOrigin(s, cfg, op, origin)) <==> !BareSwitch(s, op))
  {
    match op
    case ReconnectOp(o, d) => ReconnectKeys(s, cfg, o, d);
    case DialOp(d) => ProbeKeys(s, cfg, d);
    case ProbeOp(d) => ProbeKeys(s, cfg, d);
    case _ =>
  }

  function RunOrigin(s: State, cfg: Settings, ops: seq<Op>, origin: Origin): Origin
    decreases |ops|
  {
    if ops == [] then origin
    else RunOrigin(Step(s, cfg, ops[0]), cfg, ops[1..], NextOrigin(s, cfg, ops[0], origin))
  }

  ghost predicate InForceThroughout(s: State, cfg: Settings, ops: seq<Op>, origin: Origin)
    decreases |ops|
  {
    InForce(s, origin) &&
    (ops != [] ==> InForceThroughout(Step(s, cfg, ops[0]), cfg, ops[1..], NextOrigin(s, cfg, ops[0], origin)))
  }

  ghost predicate NoBareSwitch(s: State, cfg: Settings, ops: seq<Op>)
    decreases |ops|
  {
    ops != [] ==> !BareSwitch(s, ops[0]) && NoBareSwitch(Step(s, cfg, ops[0]), cfg, ops[1..])
  }

  // Over every run the static key in use is the expansion that RunOrigin names;
  // and it is that of the access key in force all the time if and only if no
  // switch to another access key went without a dialer of its own.
  lemma {:induction false} RunOriginExact(s: State, cfg: Settings, ops: seq<Op>, origin: Origin)
    requires origin.key == s.expandedKey
    ensures RunOrigin(s, cfg, ops, origin).key == Run(s, cfg, ops).expandedKey
    ensures InForce(s, origin) ==> (InForceThroughout(s, cfg, ops, origin) <==> NoBareSwitch(s, cfg, ops))
    decreases |ops|
  {
    if ops != [] {
      var s' := Step(s, cfg, ops[0]);
      var next := NextOrigin(s, cfg, ops[0], origin);
      StepOrigin(s, cfg, ops[0], origin);
      RunOriginExact(s', cfg, ops[1..], next);
      if InForce(s, origin) && BareSwitch(s, ops[0]) {
        assert !InForceThroughout(s', cfg, ops[1..], next);
      }
    }
  }

  // SetAccessKey reports success on a dialer of another access key exactly when
  // the new key cannot be expanded and a dialer of the remembered static key can
  // be built.
  lemma OldKeyReported(s: State, cfg: Settings, raw: string, o: Rebuild, origin: Origin)
    requires InForce(s, origin) && TrimSpace(raw) != s.accessKey
    ensures var op := SetAccessKeyOp(raw, o);
      SetAccessKeyStep(s, raw, o).ok && !InForce(Step(s, cfg, op), NextOrigin(s, cfg, op, origin)) <==>
        ValidKey(TrimSpace(raw)) && o.expanded.None? && o.dialerOk && HasPrefix(s.expandedKey, "ss://")
  {
    StepOrigin(s, cfg, SetAccessKeyOp(raw, o), origin);
    SetAccessKeyExact(s, raw, o);
  }

  // A refresh replaces the dialer exactly when the key is dynamic, expands to
  // another static key and a dialer can be built from that; then it does what
  // Connect does, otherwise it changes nothing, where Connect clears ready.
  lemma RefreshExact(s: State, o: Rebuild)
    ensures var r := RefreshStep(s, o);
      (r.ok <==> IsDynamicKey(s.accessKey) && o.expanded.Some? && o.expanded.value != s.expandedKey && o.dialerOk) &&
      r.state == (if r.ok then ConnectStep(s, o).state else s) &&
      (r.ok ==> r.state.ready && r.state.expandedKey == o.expanded.value && r.state.serverIP == o.server &&
                r.state.dialer == Some(|s.builds|) && r.state.builds == s.builds + [Build(o.expanded.value, o.server)])
  {
  }

  // Connect succeeds exactly when there is a key to use (the expanded one, or
  // the last static one) and a dialer can be built from it; the outcome decides
  // readiness, and a failure keeps dialer, key and server.
  lemma ConnectExact(s: State, o: Rebuild)
    ensures var r := ConnectStep(s, o);
      (r.ok <==> o.dialerOk && (o.expanded.Some? || HasPrefix(s.expandedKey, "ss://"))) &&
      r.state.ready == r.ok &&
      (r.ok ==>
        var key := if o.expanded.Some? then o.expanded.value else s.expandedKey;
        r.state.failCount == 0 && r.state.builds == s.builds + [Build(key, o.server)]) &&
      (!r.ok ==> r.state == ClearReady(s))
  {
  }

  // A rejected key changes nothing. An accepted one succeeds exactly when a
  // dialer can be built from its expansion, or, without one, from the last static
  // key, which then stays in use; it is kept for retry even when that fails, and
  // then the supervisor is woken.
  lemma SetAccessKeyExact(s: State, raw: string, o: Rebuild)
    ensures var r := SetAccessKeyStep(s, raw, o);
      if !ValidKey(TrimSpace(raw)) then r == Outcome(s, false)
      else r.state.accessKey == TrimSpace(raw) && r.state.ready == r.ok &&
           (r.ok <==> o.dialerOk && (o.expanded.Some? || HasPrefix(s.expandedKey, "ss://"))) &&
           (r.ok ==>
             r.state.expandedKey == (if o.expanded.Some? then o.expanded.value else s.expandedKey) &&
             r.state.serverIP == o.server && r.state.dialer == Some(|s.builds|)) &&
           (!r.ok ==>
             r.state.wake && r.state.dialer == s.dialer && r.state.expandedKey == s.expandedKey &&
             r.state.serverIP == s.serverIP)
  {
  }

  // Reconnect reports success exactly when the client ends up ready, needs a
  // passing probe when a target is set, and always wakes the supervisor.
  lemma ReconnectExact(s: State, cfg: Settings, o: Rebuild, probe: DialOutcome)
    ensures var r := ReconnectStep(s, cfg, o, probe);
      r.state.ready == r.ok && r.state.wake &&
      (r.ok <==>
        ConnectStep(s.(ready := false, failCount := 0), o).ok && (cfg.probeAddr == "" || probe == Dialed(None))) &&
      (r.ok ==> r.state.failCount == 0) &&
      (!ConnectStep(s.(ready := false, failCount := 0), o).ok ==>
        r.state == s.(ready := false, failCount := 0, wake := true))
  {
  }

  lemma {:induction false} RunConcat(s: State, cfg: Settings, a: seq<Op>, b: seq<Op>)
    ensures Run(s, cfg, a + b) == Run(Run(s, cfg, a), cfg, b)
    decreases |a|
  {
    if a == [] {
      assert a + b == b;
    } else {
      assert (a + b)[1..] == a[1..] + b;
      RunConcat(Step(s, cfg, a[0]), cfg, a[1..], b);
    }
  }

  lemma ContainedChar(s: string, t: string, c: char)
    requires c in t && ContainsText(s, t)
    ensures c in s
  {
    var i :| 0 <= i <= |s| && HasPrefix(s[i..], t);
    var k :| 0 <= k < |t| && t[k] == c;
    assert s[i..][..|t|][k] == c;
  }

  lemma NotReadyChars()
    ensures ':' !in NOT_READY.message && '.' !in NOT_READY.message && '/' !in NOT_READY.message
  {
    var a, b, c := "outline ", "dialer ", "not ready";
    assert ':' !in a && '.' !in a && '/' !in a;
    assert ':' !in b && '.' !in b && '/' !in b;
    assert ':' !in c && '.' !in c && '/' !in c;
    assert NOT_READY.message == a + b + c;
  }

  lemma TimeoutTextHasSlash()
    ensures '/' in "i/o timeout"
  {
    assert "i/o timeout"[1] == '/';
  }

  lemma ServerTextMark(server: IP)
    requires server != NilIP
    ensures '.' in ServerText(server) || ':' in ServerText(server)
  {
    if server.V4? && '.' !in Dotted(server.addr) {
      SplitDotted(server.addr);
      SplitWithout(Dotted(server.addr), '.');
    }
  }

  // "not ready" never reads as a transport failure, whatever the server is.
  lemma NotReadyIsNoTransportFailure(server: IP)
    ensures !IsTransportFailure(server, NOT_READY)
  {
    NotReadyChars();
    TimeoutTextHasSlash();
    var message := NOT_READY.message;
    if ContainsText(message, "i/o timeout") {
      ContainedChar(message, "i/o timeout", '/');
    }
    var text := ServerText(server);
    if text != "" && ContainsText(message, text) {
      ServerTextMark(server);
      ContainedChar(message, text, if '.' in text then '.' else ':');
    }
  }

  // ---- One dial and one probe, exactly ----

  // The text t occurs in s.
  ghost predicate Within(t: string, s: string) {
    exists front, back :: s == front + t + back
  }

  lemma ContainsExact(s: string, t: string)
    ensures ContainsText(s, t) <==> Within(t, s)
  {
    if ContainsText(s, t) {
      var i :| 0 <= i <= |s| && HasPrefix(s[i..], t);
      assert s == s[..i] + t + s[i..][|t|..];
    }
    if Within(t, s) {
      var front, back :| s == front + t + back;
      assert s[|front|..] == t + back;
      assert HasPrefix(s[|front|..], t);
    }
  }

  // A time-out, or an error whose text names a time-out or the server.
  ghost predicate ReadsAsTransport(server: IP, e: DialError) {
    e.timeout || Within("i/o timeout", e.message) ||
    (server.V4? && Within(Dotted(server.addr), e.message)) || (server.V6? && Within(server.text, e.message))
  }

  lemma TransportExact(server: IP, e: DialError)
    ensures IsTransportFailure(server, e) <==> ReadsAsTransport(server, e)
  {
    ContainsExact(e.message, "i/o timeout");
    ContainsExact(e.message, ServerText(server));
    if server.V4? {
      DottedChars(server.addr);
    }
  }

  // The access keys that are accepted: one of the two schemes, no white space
  // and no masked part.
  lemma KeyExact(key: string)
    ensures ValidKey(key) <==>
      ("ss://" <= key || "ssconf://" <= key) && !Within("***", key) &&
      forall c :: c in key ==> c != ' ' && c != '\t' && c != '\r' && c != '\n'
  {
    ContainsExact(key, "***");
  }

  // A key of one part resolves to what its host resolves to, any other to nothing.
  lemma ResolveExact(key: string, answer: IP)
    ensures ResolveServerIP(key, answer) == if '|' in key || AllBlank(key) then NilIP else answer
  {
    TrimSpaceExact(key);
    var front, back :| AllBlank(front) && AllBlank(back) && key == front + TrimSpace(key) + back;
    BlankParts(front, TrimSpace(key), back);
  }

  lemma BlankParts(front: string, t: string, back: string)
    requires AllBlank(front) && AllBlank(back) && !BlankEdge(t)
    ensures AllBlank(front + t + back) <==> t == ""
  {
    if t != "" {
      assert (front + t + back)[|front|] == t[0];
    }
  }

  // The number of failures at which a client stops being ready: two if nothing is set.
  ghost function Limit(cfg: Settings): nat {
    if cfg.probeFails > 0 then cfg.probeFails else 2
  }

  // s with n failures counted; reaching the limit is signalled once and wakes the supervisor.
  ghost function WithFailures(s: State, cfg: Settings, n: nat): State {
    if n < Limit(cfg) then s.(failCount := n)
    else s.(failCount := n, ready := false, unready := s.unready + 1, wake := true)
  }

  // A dial of a ready client: success clears the count, a transport failure
  // adds one, any other failure and a dial without a slot leave everything alone.
  lemma DialExact(s: State, cfg: Settings, o: DialOutcome)
    requires Inv(s, cfg) && s.ready
    ensures var r := DialStep(s, cfg, o);
      match o
      case NoSlot(e) => r == DialResult(s, Some(e))
      case Dialed(None) => r == DialResult(s.(failCount := 0), None)
      case Dialed(Some(e)) =>
        r == DialResult(if ReadsAsTransport(s.serverIP, e) then WithFailures(s, cfg, s.failCount + 1) else s, Some(e))
  {
    if o.Dialed? && o.error_.Some? {
      TransportExact(s.serverIP, o.error_.value);
    }
  }

  // The failures counted after a probe, from those counted before: none after a
  // success, one more after a failure, the same if the wait for a slot timed out.
  ghost function FailuresAfterProbe(cfg: Settings, server: IP, k: nat, o: DialOutcome): nat {
    if cfg.probeAddr == "" || (o.NoSlot? && ReadsAsTransport(server, o.error)) then k
    else if o == Dialed(None) then 0
    else k + 1
  }

  lemma ProbeExact(s: State, cfg: Settings, o: DialOutcome)
    requires Inv(s, cfg) && s.ready
    ensures var r := ProbeStep(s, cfg, o);
      r.state == WithFailures(s, cfg, FailuresAfterProbe(cfg, s.serverIP, s.failCount, o)) &&
      (r.error.None? <==> cfg.probeAddr == "" || o == Dialed(None))
  {
    if o.NoSlot? {
      TransportExact(s.serverIP, o.error);
    }
  }

  // A client that is not ready refuses every dial; its probe still counts.
  lemma RefusedExact(s: State, cfg: Settings, o: DialOutcome)
    requires !s.ready
    ensures DialStep(s, cfg, o) == DialResult(s, Some(NOT_READY))
    ensures cfg.probeAddr != "" ==>
      ProbeStep(s, cfg, o) == DialResult(s.(failCount := s.failCount + 1), Some(NOT_READY))
  {
    NotReadyIsNoTransportFailure(s.serverIP);
  }

  // A failed probe counts exactly once, except that a probe of a ready client
  // that timed out waiting for a slot does not count at all.
  lemma ProbeCountsOnce(s: State, cfg: Settings, o: DialOutcome)
    requires Inv(s, cfg) && cfg.probeAddr != ""
    ensures var r := ProbeStep(s, cfg, o);
      (r.error.None? ==> r.state == s.(failCount := 0)) &&
      (r.error.Some? ==>
        var uncounted := s.ready && o.NoSlot? && IsTransportFailure(s.serverIP, o.error);
        r.state.failCount == s.failCount + (if uncounted then 0 else 1))
  {
    NotReadyIsNoTransportFailure(s.serverIP);
  }

  // An ordinary dial that counts for nothing: refused, without a slot, or
  // failed by the destination rather than by the tunnel.
  predicate Ignored(s: State, op: Op) {
    match op
    case DialOp(NoSlot(_)) => true
    case DialOp(Dialed(err)) => !s.ready || s.dialer.None? || (err.Some? && !IsTransportFailure(s.serverIP, err.value))
    case _ => false
  }

  // The operations of a run without its ignored dials.
  function Significant(s: State, cfg: Settings, ops: seq<Op>): seq<Op>
    decreases |ops|
  {
    if ops == [] then []
    else
      var rest := Significant(Step(s, cfg, ops[0]), cfg, ops[1..]);
      if Ignored(s, ops[0]) then rest else [ops[0]] + rest
  }

  // Over every run, leaving out the ignored dials changes nothing at all.
  lemma {:induction false} DestinationErrorsIgnored(s: State, cfg: Settings, ops: seq<Op>)
    ensures Run(s, cfg, Significant(s, cfg, ops)) == Run(s, cfg, ops)
    decreases |ops|
  {
    if ops != [] {
      var rest := Significant(Step(s, cfg, ops[0]), cfg, ops[1..]);
      DestinationErrorsIgnored(Step(s, cfg, ops[0]), cfg, ops[1..]);
      if !Ignored(s, ops[0]) {
        assert ([ops[0]] + rest)[1..] == rest;
      }
    }
  }

  // No other dial is without effect, except a success when no failure was counted.
  lemma IgnoredExactly(s: State, cfg: Settings, d: DialOutcome)
    ensures DialStep(s, cfg, d).state == s <==> Ignored(s, DialOp(d)) || (d == Dialed(None) && s.failCount == 0)
  {
  }

  // ---- Unready signalling ----

  // Over every run, OnUnready fires at most once per successful rebuild, and
  // at most once between two of them.
  lemma {:induction false} RunUnready(s: State, cfg: Settings, ops: seq<Op>)
    requires Inv(s, cfg)
    ensures var s' := Run(s, cfg, ops);
      |s'.builds| >= |s.builds| && Spent(s') <= Spent(s)
    ensures |Run(s, cfg, ops).builds| == |s.builds| ==> Run(s, cfg, ops).unready <= s.unready + 1
    decreases |ops|
  {
    if ops != [] {
      StepFollows(s, cfg, ops[0]);
      RunUnready(Step(s, cfg, ops[0]), cfg, ops[1..]);
    }
  }

  // An operation that counts one failure while the client is ready.
  predicate CountsFailure(s: State, cfg: Settings, op: Op) {
    match op
    case DialOp(Dialed(err)) => err.Some? && IsTransportFailure(s.serverIP, err.value)
    case ProbeOp(Dialed(err)) => cfg.probeAddr != "" && err.Some?
    case _ => false
  }

  ghost predicate AllCount(s: State, cfg: Settings, ops: seq<Op>) {
    forall i :: 0 <= i < |ops| ==> CountsFailure(s, cfg, ops[i])
  }

  lemma CountedStep(s: State, cfg: Settings, op: Op)
    requires Inv(s, cfg) && CountsFailure(s, cfg, op)
    ensures var s' := Step(s, cfg, op);
      s'.serverIP == s.serverIP &&
      (if s.ready then s'.failCount == s.failCount + 1 && (s'.ready <==> s.failCount + 1 < Threshold(cfg))
       else !s'.ready)
  {
  }

  // After k counted failures in a row a ready client is still ready exactly
  // when the count stays below the threshold; so a run of threshold failures,
  // with no success or rebuild, leaves it not ready.
  lemma {:induction false} FailureRun(s: State, cfg: Settings, ops: seq<Op>)
    requires Inv(s, cfg) && AllCount(s, cfg, ops)
    ensures Run(s, cfg, ops).ready <==> s.ready && s.failCount + |ops| < Threshold(cfg)
    ensures |ops| >= Threshold(cfg) ==> !Run(s, cfg, ops).ready
    decreases |ops|
  {
    if ops != [] {
      CountedStep(s, cfg, ops[0]);
      StepFollows(s, cfg, ops[0]);
      forall i | 0 <= i < |ops[1..]|
        ensures CountsFailure(Step(s, cfg, ops[0]), cfg, ops[1..][i])
      {
        assert CountsFailure(s, cfg, ops[i + 1]);
      }
      FailureRun(Step(s, cfg, ops[0]), cfg, ops[1..]);
    }
  }

  lemma {:induction false} CountedKeepsServer(s: State, cfg: Settings, ops: seq<Op>)
    requires Inv(s, cfg) && AllCount(s, cfg, ops)
    ensures Run(s, cfg, ops).serverIP == s.serverIP
    decreases |ops|
  {
    if ops != [] {
      assert CountsFailure(s, cfg, ops[0]);
      CountedStep(s, cfg, ops[0]);
      StepFollows(s, cfg, ops[0]);
      forall i | 0 <= i < |ops[1..]|
        ensures CountsFailure(Step(s, cfg, ops[0]), cfg, ops[1..][i])
      {
        assert CountsFailure(s, cfg, ops[i + 1]);
      }
      CountedKeepsServer(Step(s, cfg, ops[0]), cfg, ops[1..]);
    }
  }

  lemma SuccessClears(s: State, cfg: Settings)
    requires Inv(s, cfg) && s.ready
    ensures Run(s, cfg, [DialOp(Dialed(None))]) == s.(failCount := 0)
  {
    var success := [DialOp(Dialed(None))];
    assert success[1..] == [];
    assert Run(s, cfg, success) == Step(s, cfg, success[0]);
  }

  // A success forgives: failures short of the threshold, one successful dial,
  // and failures short of the threshold again leave a fresh client ready.
  lemma SuccessForgives(s: State, cfg: Settings, before: seq<Op>, later: seq<Op>)
    requires Inv(s, cfg) && s.ready && AllCount(s, cfg, before) && AllCount(s, cfg, later)
    requires s.failCount + |before| < Threshold(cfg) && |later| < Threshold(cfg)
    ensures Run(s, cfg, before + [DialOp(Dialed(None))] + later).ready
  {
    var success := [DialOp(Dialed(None))];
    RunConcat(s, cfg, before + success, later);
    RunConcat(s, cfg, before, success);
    FailureRun(s, cfg, before);
    CountedKeepsServer(s, cfg, before);
    RunKeepsInv(s, cfg, before);
    var s1 := Run(s, cfg, before);
    SuccessClears(s1, cfg);
    RunKeepsInv(s1, cfg, success);
    var s2 := Run(s1, cfg, success);
    forall i | 0 <= i < |later|
      ensures CountsFailure(s2, cfg, later[i])
    {
      assert CountsFailure(s, cfg, later[i]);
    }
    FailureRun(s2, cfg, later);
  }

  // ---- The Client object ----

  class Client {
    const cfg: Settings
    var accessKey: string
    var dialer: Option<nat>
    var expandedKey: string
    var serverIP: IP
    var ready: bool
    var failCount: nat
    var wake: bool
    var unready: nat
    ghost var builds: seq<Build>
    var built: nat

    ghost function View(): State
      reads this
    {
      State(accessKey, dialer, expandedKey, serverIP, ready, failCount, wake, builds, unready)
    }

    ghost predicate Valid()
      reads this
    {
      Inv(View(), cfg) && built == |builds|
    }

    // New: a previously expanded static key is remembered, nothing is dialed.
    constructor (cfg: Settings, accessKey: string, lastExpanded: string, server: IP)
      ensures Valid() && !ready && this.cfg == cfg
      ensures dialer.None? && builds == [] && unready == 0
      ensures expandedKey == if HasPrefix(TrimSpace(lastExpanded), "ss://") then TrimSpace(lastExpanded) else ""
    {
      this.cfg := cfg;
      this.accessKey := accessKey;
      this.dialer := None;
      this.expandedKey := if HasPrefix(TrimSpace(lastExpanded), "ss://") then TrimSpace(lastExpanded) else "";
      this.serverIP := server;
      this.ready, this.failCount, this.wake, this.unready := false, 0, false, 0;
      this.builds, this.built := [], 0;
    }

    // applyExpanded
    method Apply(key: string, o: Rebuild) returns (ok: bool)
      requires built == |builds|
      modifies this
      ensures Outcome(View(), ok) == ApplyExpanded(old(View()), key, o)
      ensures built == |builds|
    {
      if !o.dialerOk {
        return false;
      }
      dialer := Some(built);
      expandedKey := key;
      serverIP := o.server;
      builds, built := builds + [Build(key, o.server)], built + 1;
      failCount := 0;
      ready := true;
      return true;
    }

    method Connect(o: Rebuild) returns (ok: bool)
      requires built == |builds|
      modifies this
      ensures Outcome(View(), ok) == ConnectStep(old(View()), o)
      ensures built == |builds| && (old(Valid()) ==> Valid())
    {
      ghost var before := View();
      if Inv(before, cfg) { StepFollows(before, cfg, ConnectOp(o)); }
      var prev := expandedKey;
      if o.expanded.None? {
        if prev != "" && HasPrefix(prev, "ss://") {
          ok := Apply(prev, o);
          if !ok {
            ready := false;
          }
          return;
        }
        ready := false;
        return false;
      }
      ok := Apply(o.expanded.value, o);
      if !ok {
        ready := false;
      }
    }

    method SetAccessKey(raw: string, o: Rebuild) returns (ok: bool)
      requires Valid()
      modifies this
      ensures Outcome(View(), ok) == SetAccessKeyStep(old(View()), raw, o)
      ensures Valid()
    {
      StepFollows(View(), cfg, SetAccessKeyOp(raw, o));
      var key := TrimSpace(raw);
      if !ValidKey(key) {
        return false;
      }
      accessKey := key;
      ready := false;
      ok := Connect(o);
      if !ok {
        wake := true;
      }
    }

    method NoteFailure()
      modifies this
      ensures View() == NoteTunnelFailure(old(View()), cfg) && built == old(built)
    {
      failCount := failCount + 1;
      if failCount >= Threshold(cfg) {
        if ready {
          ready := false;
          unready := unready + 1;
          wake := true;
        }
      }
    }

    method Dial(o: DialOutcome) returns (err: Option<DialError>)
      requires Valid()
      modifies this
      ensures DialResult(View(), err) == DialStep(old(View()), cfg, o)
      ensures Valid()
    {
      StepFollows(View(), cfg, DialOp(o));
      if !ready {
        return Some(NOT_READY);
      }
      if o.NoSlot? {
        return Some(o.error);
      }
      if dialer.None? {
        return Some(NOT_READY);
      }
      err := o.error_;
      if err.None? {
        failCount := 0;
      } else if IsTransportFailure(serverIP, err.value) {
        NoteFailure();
      }
    }

    method Probe(o: DialOutcome) returns (err: Option<DialError>)
      requires Valid()
      modifies this
      ensures DialResult(View(), err) == ProbeStep(old(View()), cfg, o)
      ensures Valid()
    {
      StepFollows(View(), cfg, ProbeOp(o));
      if cfg.probeAddr == "" {
        return None;
      }
      err := Dial(o);
      if err.Some? && !IsTransportFailure(serverIP, err.value) {
        NoteFailure();
      }
    }

    method Reconnect(o: Rebuild, probe: DialOutcome) returns (ok: bool)
      requires Valid()
      modifies this
      ensures Outcome(View(), ok) == ReconnectStep(old(View()), cfg, o, probe)
      ensures Valid()
    {
      StepFollows(View(), cfg, ReconnectOp(o, probe));
      ready := false;
      failCount := 0;
      ok := Connect(o);
      if !ok {
        wake := true;
        return;
      }
      if cfg.probeAddr != "" {
        var err := Probe(probe);
        if err.Some? {
          ready := false;
          wake := true;
          return false;
        }
      }
      wake := true;
    }

    method RefreshIfChanged(o: Rebuild) returns (changed: bool)
      requires Valid()
      modifies this
      ensures Outcome(View(), changed) == RefreshStep(old(View()), o)
      ensures Valid()
    {
      StepFollows(View(), cfg, RefreshOp(o));
      if !IsDynamicKey(accessKey) {
        return false;
      }
      if o.expanded.None? || o.expanded.value == expandedKey {
        return false;
      }
      changed := Apply(o.expanded.value, o);
    }

    // The receive from the wake channel that ends a wait.
    method DrainWake()
      requires Valid()
      modifies this`wake
      ensures View() == old(View()).(wake := false)
      ensures Valid()
    {
      wake := false;
    }

    method MarkUnready()
      requires Valid()
      modifies this
      ensures View() == ClearReady(old(View()))
      ensures Valid()
    {
      ready := false;
    }
  }
}
