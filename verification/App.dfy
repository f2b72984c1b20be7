// cmd/outline-gate/main.go: which tunnel server the pushed engine knows, over
// runs of everything that rebuilds the client's dialer or pushes an engine.
module App {
  import opened Text
  import opened NetAddr
  import opened Routing
  import opened PathDecider
  import opened Policy
  import opened Nft
  import Gateway
  import Client
  import Supervisor
  import BypassManager
  import Rules

  // What does not change while the process runs; sources are the host's own addresses.
  datatype Setup = Setup(
    settings: Client.Settings, plan: Supervisor.Plan, amneziaEndpoint: IP, sources: set<Addr>)

  // nets and pushed are what rebuildPush last read from the rule manager and the
  // client; the gateway holds the configuration, the engine and the kernel's table.
  datatype State = State(
    client: Client.State, loop: Supervisor.Loop, bypass: BypassManager.State,
    nets: seq<IPNet>, pushed: IP, gateway: Gateway.State)

  // What happens; faults are those of the nft calls the event makes.
  datatype Event =
    | Round(r: Supervisor.Round, first: Gateway.Faults, second: Gateway.Faults)  // of MaintainReady
    | Dial(d: Client.DialOutcome)                                                // a proxied connection
    | UiKey(raw: string, o: Client.Rebuild, faults: Gateway.Faults)              // a key replaced in the UI
    | Edit(op: BypassManager.Op, faults: Gateway.Faults)                         // of the bypass manager
    | Repush(faults: Gateway.Faults)                                             // backend switch, gateway start
    | Restart(o: Client.Rebuild, probe: Client.DialOutcome, fallback: Option<(string, Client.Rebuild)>,
              faults: Gateway.Faults)                                            // RestartServices
    | Apply(faults: Gateway.Faults)                                              // an attempt of the start loop
    | Reload(cfg: Config, readFault: bool, dns: BypassManager.Resolver, faults: Gateway.Faults)  // SIGHUP
    | Shutdown(del: Gateway.Fault)

  function PushedEngine(setup: Setup, s: State): Engine {
    NewWithBypass(s.gateway.cfg, s.nets, TunnelBypassIPs(s.pushed, setup.amneziaEndpoint))
  }

  // rebuildPush at a moment when the client uses the given server.
  function PushServer(setup: Setup, s: State, server: IP, f: Gateway.Faults): State {
    var s1 := s.(nets := BypassManager.Effective(s.bypass), pushed := server);
    var op := Gateway.UpdateEngineOp(Some(PushedEngine(setup, s1)), f);
    s1.(gateway := Gateway.Step(s.gateway, op).state)
  }

  function RebuildPush(setup: Setup, s: State, f: Gateway.Faults): State {
    PushServer(setup, s, s.client.serverIP, f)
  }

  function ApplyGateway(s: State, f: Gateway.Faults): State {
    s.(gateway := Gateway.ApplyStep(s.gateway, f).state)
  }

  function Dated(l: Supervisor.Loop, r: Supervisor.Round): Supervisor.Loop {
    var lastRefresh := Supervisor.OrNow(l.lastRefresh, r.now);
    l.(lastRefresh := Some(lastRefresh), lastProbe := Some(Supervisor.OrNow(l.lastProbe, r.now)))
  }

  // The servers the client uses at the onChange(true) calls of a round.
  function RoundPushes(setup: Setup, c: Client.State, l: Supervisor.Loop, r: Supervisor.Round): seq<IP> {
    match Supervisor.ConnectPhase(setup.plan, setup.settings, c, l, r)
    case Done(_) => []
    case Onward(c1, l1, n1) =>
      var early := if n1 != [] then [c1.serverIP] else [];
      match Supervisor.RefreshPhase(setup.plan, setup.settings, c1, Dated(l1, r), n1, r)
      case Done(_) => early
      case Onward(c3, _, n3) => if |n3| > |n1| then early + [c3.serverIP] else early
  }

  lemma FirstPhaseNotes(setup: Setup, c: Client.State, l: Supervisor.Loop, r: Supervisor.Round)
    ensures var p := Supervisor.ConnectPhase(setup.plan, setup.settings, c, l, r);
      if p.Done? then p.turn.notes == [false] else p.notes == [] || p.notes == [true]
  {
  }

  lemma RefreshNotes(setup: Setup, c: Client.State, l: Supervisor.Loop, n: seq<bool>, r: Supervisor.Round)
    requires l.lastRefresh.Some?
    ensures var p := Supervisor.RefreshPhase(setup.plan, setup.settings, c, l, n, r);
      if p.Done? then p.turn.notes == n + [false] else p.notes == n || p.notes == n + [true]
    ensures var p := Supervisor.RefreshPhase(setup.plan, setup.settings, c, l, n, r);
      p.Onward? ==> p.loop.lastProbe == l.lastProbe
  {
  }

  lemma LastPhaseNotes(setup: Setup, c: Client.State, l: Supervisor.Loop, n: seq<bool>, r: Supervisor.Round)
    requires l.lastProbe.Some?
    ensures match Supervisor.ProbePhase(setup.plan, setup.settings, c, l, n, r)
            case Done(t) => t.notes == n + [false]
            case Onward(_, _, n4) => n4 == n
  {
  }

  lemma CountReady(n: seq<bool>, b: bool)
    ensures multiset(n + [b])[true] == multiset(n)[true] + if b then 1 else 0
  {
  }

  function NotesOf(p: Supervisor.Phase): seq<bool> {
    match p
    case Done(t) => t.notes
    case Onward(_, _, n) => n
  }

  lemma CountPhases(n1: seq<bool>, p3: Supervisor.Phase, p4: Supervisor.Phase)
    requires n1 == [] || n1 == [true]
    requires if p3.Done? then NotesOf(p3) == n1 + [false] else NotesOf(p3) == n1 || NotesOf(p3) == n1 + [true]
    requires if p4.Done? then NotesOf(p4) == NotesOf(p3) + [false] else NotesOf(p4) == NotesOf(p3)
    ensures multiset(if p3.Done? then NotesOf(p3) else NotesOf(p4))[true] ==
      |n1| + if p3.Onward? && |NotesOf(p3)| > |n1| then 1 else 0
  {
    CountReady(n1, true);
    CountReady(n1, false);
    CountReady(NotesOf(p3), false);
  }

  // The part of a round after its first phase.
  lemma LaterNotes(setup: Setup, c: Client.State, l: Supervisor.Loop, n: seq<bool>, r: Supervisor.Round)
    requires (n == [] || n == [true]) && l.lastRefresh.Some? && l.lastProbe.Some?
    ensures var p3 := Supervisor.RefreshPhase(setup.plan, setup.settings, c, l, n, r);
      if p3.Done? then multiset(p3.turn.notes)[true] == |n|
      else
        p3.loop.lastProbe.Some? &&
        var p4 := Supervisor.ProbePhase(setup.plan, setup.settings, p3.client, p3.loop, p3.notes, r);
        multiset(NotesOf(p4))[true] == |n| + if |p3.notes| > |n| then 1 else 0
  {
    RefreshNotes(setup, c, l, n, r);
    var p3 := Supervisor.RefreshPhase(setup.plan, setup.settings, c, l, n, r);
    if p3.Onward? {
      LastPhaseNotes(setup, p3.client, p3.loop, p3.notes, r);
      CountPhases(n, p3, Supervisor.ProbePhase(setup.plan, setup.settings, p3.client, p3.loop, p3.notes, r));
    } else {
      CountReady(n, false);
    }
  }

  // A round pushes once for every report of being ready.
  lemma RoundPushesOnReady(setup: Setup, c: Client.State, l: Supervisor.Loop, r: Supervisor.Round)
    ensures |RoundPushes(setup, c, l, r)| ==
      multiset(Supervisor.RoundStep(setup.plan, setup.settings, c, l, r).notes)[true]
  {
    FirstPhaseNotes(setup, c, l, r);
    match Supervisor.ConnectPhase(setup.plan, setup.settings, c, l, r)
    case Done(_) =>
    case Onward(c1, l1, n1) => LaterNotes(setup, c1, Dated(l1, r), n1, r);
  }

  function RoundEvent(setup: Setup, s: State, r: Supervisor.Round, f: Gateway.Faults, g: Gateway.Faults): State {
    var t := Supervisor.RoundStep(setup.plan, setup.settings, s.client, s.loop, r);
    var servers := RoundPushes(setup, s.client, s.loop, r);
    var s0 := s.(client := t.client, loop := t.loop);
    var s1 := if |servers| > 0 then PushServer(setup, s0, servers[0], f) else s0;
    if |servers| > 1 then PushServer(setup, s1, servers[1], g) else s1
  }

  // RestartServices reconnects and falls back to the key of the reloaded configuration.
  function RestartClient(setup: Setup, c: Client.State, o: Client.Rebuild, probe: Client.DialOutcome,
                         fallback: Option<(string, Client.Rebuild)>): Client.Outcome {
    var r := Client.ReconnectStep(c, setup.settings, o, probe);
    if r.ok || fallback.None? || fallback.value.0 == r.state.accessKey then r
    else Client.SetAccessKeyStep(r.state, fallback.value.0, fallback.value.1)
  }

  function EditEvent(setup: Setup, s: State, op: BypassManager.Op, f: Gateway.Faults): State {
    var e := BypassManager.Step(s.bypass, op);
    if e.notified then RebuildPush(setup, s.(bypass := e.state), f) else s.(bypass := e.state)
  }

  // SIGHUP starts with an inactive gateway for the new configuration over the
  // same kernel ...
  function ReloadedGateway(setup: Setup, s: State, cfg: Config): State {
    var s1 := s.(nets := BypassManager.Effective(s.bypass), pushed := s.client.serverIP);
    var engine := NewWithBypass(cfg, s1.nets, TunnelBypassIPs(s1.pushed, setup.amneziaEndpoint));
    s1.(gateway := Gateway.Step(s.gateway, Gateway.ReplaceOp(cfg, engine)).state)
  }

  // ... reloads static networks and rules ...
  function Reloaded(setup: Setup, s: State, ev: Event): State
    requires ev.Reload?
  {
    var s1 := ReloadedGateway(setup, s, ev.cfg);
    var s2 := EditEvent(setup, s1, BypassManager.SetStaticOp(ev.cfg.bypassCIDRs), ev.faults);
    EditEvent(setup, s2, BypassManager.LoadOp(ev.readFault, ev.dns), ev.faults)
  }

  // ... and applies if the old gateway was active.
  function ReloadEvent(setup: Setup, s: State, ev: Event): State
    requires ev.Reload?
  {
    var s3 := Reloaded(setup, s, ev);
    if s.gateway.active then ApplyGateway(s3, ev.faults) else s3
  }

  function Step(setup: Setup, s: State, ev: Event): State {
    match ev
    case Round(r, f, g) => RoundEvent(setup, s, r, f, g)
    case Dial(d) => s.(client := Client.DialStep(s.client, setup.settings, d).state)
    case UiKey(raw, o, f) =>
      var r := Client.SetAccessKeyStep(s.client, raw, o);
      if r.ok then RebuildPush(setup, s.(client := r.state), f) else s.(client := r.state)
    case Edit(op, f) => EditEvent(setup, s, op, f)
    case Repush(f) => RebuildPush(setup, s, f)
    case Restart(o, probe, fallback, f) =>
      // the gateway is re-applied with the engine it has
      var r := RestartClient(setup, s.client, o, probe, fallback);
      if r.ok then ApplyGateway(s.(client := r.state), f) else s.(client := r.state)
    case Apply(f) => ApplyGateway(s, f)
    case Reload(_, _, _, _) => ReloadEvent(setup, s, ev)
    case Shutdown(del) => s.(gateway := Gateway.FlushStep(s.gateway, del).state)
  }

  function Run(setup: Setup, s: State, evs: seq<Event>): State
    decreases |evs|
  {
    if evs == [] then s else Run(setup, Step(setup, s, evs[0]), evs[1..])
  }

  lemma {:induction false} RunLast(setup: Setup, s: State, evs: seq<Event>)
    requires evs != []
    ensures Run(setup, s, evs) == Step(setup, Run(setup, s, evs[..|evs| - 1]), evs[|evs| - 1])
    decreases |evs|
  {
    if |evs| > 1 {
      RunLast(setup, Step(setup, s, evs[0]), evs[1..]);
      assert evs[1..][..|evs| - 2] == evs[..|evs| - 1][1..];
    } else {
      assert evs[..0] == [] && evs[1..] == [];
    }
  }

  function RoundsOf(evs: seq<Event>): seq<Supervisor.Round>
    requires forall ev :: ev in evs ==> ev.Round?
  {
    if evs == [] then [] else RoundsOf(evs[..|evs| - 1]) + [evs[|evs| - 1].r]
  }

  // Over rounds alone the client and the loop are those of MaintainReady; a
  // dial changes the client as its own operation does, and nothing else.
  lemma {:induction false} RoundsOnly(setup: Setup, s: State, evs: seq<Event>)
    requires forall ev :: ev in evs ==> ev.Round?
    ensures var h := Supervisor.Rounds(setup.plan, setup.settings, s.client, s.loop, RoundsOf(evs));
      Run(setup, s, evs).client == h.client && Run(setup, s, evs).loop == h.loop
    ensures forall d :: Step(setup, s, Dial(d)) == s.(client := Client.Step(s.client, setup.settings, Client.DialOp(d)))
  {
    if evs != [] {
      var front := evs[..|evs| - 1];
      RoundsOnly(setup, s, front);
      RunLast(setup, s, evs);
      assert RoundsOf(evs)[..|evs| - 1] == RoundsOf(front) by {
        RoundsLength(front);
      }
      RoundsLength(evs);
    }
  }

  lemma {:induction false} RoundsLength(evs: seq<Event>)
    requires forall ev :: ev in evs ==> ev.Round?
    ensures |RoundsOf(evs)| == |evs|
  {
    if evs != [] {
      RoundsLength(evs[..|evs| - 1]);
    }
  }

  // ---- The client's server and the pushed engine ----

  // Whenever the client takes dials, the pushed engine has the server address
  // the client resolved, or no server if it resolved none. Where the dialer
  // really dials is another matter: see DialLoops.
  predicate ReadyIsPushed(s: State) {
    s.client.ready ==> s.pushed == s.client.serverIP
  }

  // ---- Which events lose it ----

  predicate HasKey(c: Client.State, o: Client.Rebuild) {
    o.dialerOk && (o.expanded.Some? || Client.HasPrefix(c.expandedKey, "ss://"))
  }

  // A RestartServices call that brings the client up with another server than
  // the pushed one, at once or through the fallback key.
  predicate RestartMoves(setup: Setup, s: State, ev: Event) {
    ev.Restart? &&
    if HasKey(s.client, ev.o) && (setup.settings.probeAddr == "" || ev.probe == Client.Dialed(None))
    then ev.o.server != s.pushed
    else
      var failed := Client.ReconnectStep(s.client, setup.settings, ev.o, ev.probe).state;
      ev.fallback.Some? && ev.fallback.value.0 != s.client.accessKey &&
      Client.ValidKey(TrimSpace(ev.fallback.value.0)) &&
      HasKey(failed, ev.fallback.value.1) && ev.fallback.value.1.server != s.pushed
  }

  lemma DialKeepsServer(setup: Setup, c: Client.State, d: Client.DialOutcome)
    ensures Client.DialStep(c, setup.settings, d).state.serverIP == c.serverIP
    ensures Client.DialStep(c, setup.settings, d).state.ready ==> c.ready
    ensures Client.ProbeStep(c, setup.settings, d).state.serverIP == c.serverIP
    ensures Client.ProbeStep(c, setup.settings, d).state.ready ==> c.ready
    ensures Client.ProbeStep(c, setup.settings, d).state.accessKey == c.accessKey
  {
  }

  // After the first phase of a round that goes on, the server is pushed.
  lemma ConnectPushes(setup: Setup, s: State, r: Supervisor.Round)
    requires ReadyIsPushed(s)
    ensures match Supervisor.ConnectPhase(setup.plan, setup.settings, s.client, s.loop, r)
            case Done(t) => !t.client.ready
            case Onward(c1, _, n1) => c1.serverIP == if n1 != [] then c1.serverIP else s.pushed
  {
    DialKeepsServer(setup, s.client, r.connProbe);
  }

  lemma RefreshPushes(setup: Setup, c: Client.State, l: Supervisor.Loop, n: seq<bool>, r: Supervisor.Round)
    requires l.lastRefresh.Some?
    ensures match Supervisor.RefreshPhase(setup.plan, setup.settings, c, l, n, r)
            case Done(t) => !t.client.ready
            case Onward(c3, _, n3) => c3.ready && |n3| <= |n| ==> c3.serverIP == c.serverIP
  {
    DialKeepsServer(setup, Client.RefreshStep(c, r.refresh).state, r.refreshProbe);
  }

  lemma ProbePhaseKeeps(setup: Setup, c: Client.State, l: Supervisor.Loop, n: seq<bool>, r: Supervisor.Round)
    requires l.lastProbe.Some?
    ensures match Supervisor.ProbePhase(setup.plan, setup.settings, c, l, n, r)
            case Done(t) => !t.client.ready
            case Onward(c4, _, _) => c4.serverIP == c.serverIP && (c4.ready ==> c.ready)
  {
    DialKeepsServer(setup, c, r.dueProbe);
  }

  // The supervisor keeps it: every server it makes ready is pushed in the same round.
  lemma RoundKeeps(setup: Setup, s: State, r: Supervisor.Round, f: Gateway.Faults, g: Gateway.Faults)
    requires ReadyIsPushed(s)
    ensures ReadyIsPushed(RoundEvent(setup, s, r, f, g))
  {
    ConnectPushes(setup, s, r);
    var p1 := Supervisor.ConnectPhase(setup.plan, setup.settings, s.client, s.loop, r);
    if p1.Onward? {
      var l2 := Dated(p1.loop, r);
      RefreshPushes(setup, p1.client, l2, p1.notes, r);
      var p3 := Supervisor.RefreshPhase(setup.plan, setup.settings, p1.client, l2, p1.notes, r);
      if p3.Onward? {
        ProbePhaseKeeps(setup, p3.client, p3.loop, p3.notes, r);
      }
    }
  }

  lemma ReconnectOutcome(setup: Setup, c: Client.State, o: Client.Rebuild, probe: Client.DialOutcome)
    ensures var r := Client.ReconnectStep(c, setup.settings, o, probe);
      (r.ok <==> HasKey(c, o) && (setup.settings.probeAddr == "" || probe == Client.Dialed(None))) &&
      r.state.ready == r.ok && r.state.accessKey == c.accessKey && (r.ok ==> r.state.serverIP == o.server)
  {
    var cleared := c.(ready := false, failCount := 0);
    Client.ReconnectExact(c, setup.settings, o, probe);
    Client.ConnectExact(cleared, o);
    DialKeepsServer(setup, Client.ConnectStep(cleared, o).state, probe);
  }

  lemma SetKeyOutcome(c: Client.State, raw: string, o: Client.Rebuild)
    ensures var r := Client.SetAccessKeyStep(c, raw, o);
      (r.ok <==> Client.ValidKey(TrimSpace(raw)) && HasKey(c, o)) &&
      (r.ok ==> r.state.ready && r.state.serverIP == o.server) &&
      (!r.ok ==> r.state.serverIP == c.serverIP && (r.state.ready ==> c.ready))
  {
    Client.SetAccessKeyExact(c, raw, o);
    Client.ConnectExact(c.(accessKey := TrimSpace(raw), ready := false), o);
  }

  lemma RestartOutcome(setup: Setup, s: State, ev: Event)
    requires ev.Restart?
    ensures ReadyIsPushed(Step(setup, s, ev)) <==> !RestartMoves(setup, s, ev)
  {
    ReconnectOutcome(setup, s.client, ev.o, ev.probe);
    if ev.fallback.Some? {
      var failed := Client.ReconnectStep(s.client, setup.settings, ev.o, ev.probe).state;
      SetKeyOutcome(failed, ev.fallback.value.0, ev.fallback.value.1);
    }
  }

  // Every event keeps it, except exactly a restart that moves to another server.
  lemma StepExact(setup: Setup, s: State, ev: Event)
    requires ReadyIsPushed(s)
    ensures ReadyIsPushed(Step(setup, s, ev)) <==> !RestartMoves(setup, s, ev)
  {
    match ev
    case Round(r, f, g) => RoundKeeps(setup, s, r, f, g);
    case Dial(d) => DialKeepsServer(setup, s.client, d);
    case UiKey(raw, o, _) => SetKeyOutcome(s.client, raw, o);
    case Restart(_, _, _, _) => RestartOutcome(setup, s, ev);
    case _ =>
  }

  ghost predicate PushedThroughout(setup: Setup, s: State, evs: seq<Event>)
    decreases |evs|
  {
    ReadyIsPushed(s) && (evs != [] ==> PushedThroughout(setup, Step(setup, s, evs[0]), evs[1..]))
  }

  ghost predicate NoMovingRestart(setup: Setup, s: State, evs: seq<Event>)
    decreases |evs|
  {
    evs != [] ==> !RestartMoves(setup, s, evs[0]) && NoMovingRestart(setup, Step(setup, s, evs[0]), evs[1..])
  }

  // Over every run, what was pushed is the server as a ready client resolved it
  // all the time if and only if no restart from the UI moved it.
  lemma {:induction false} RunExact(setup: Setup, s: State, evs: seq<Event>)
    requires ReadyIsPushed(s)
    ensures PushedThroughout(setup, s, evs) <==> NoMovingRestart(setup, s, evs)
    ensures NoMovingRestart(setup, s, evs) ==> ReadyIsPushed(Run(setup, s, evs))
    decreases |evs|
  {
    if evs != [] {
      StepExact(setup, s, evs[0]);
      if !RestartMoves(setup, s, evs[0]) {
        RunExact(setup, Step(setup, s, evs[0]), evs[1..]);
      } else {
        assert !PushedThroughout(setup, Step(setup, s, evs[0]), evs[1..]);
      }
    }
  }

  // ---- The pushed engine and the kernel ----

  // The gateway's engine is the pushed one, and an active gateway has installed it.
  predicate KernelInv(setup: Setup, s: State) {
    s.gateway.engine == Some(PushedEngine(setup, s)) && Gateway.Inv(s.gateway)
  }

  // The kernel holds the table of the last pushed engine, or none while inactive.
  predicate KernelIsPushed(setup: Setup, s: State) {
    s.gateway.table ==
      if s.gateway.active then Some(Gateway.Compile(s.gateway.cfg, PushedEngine(setup, s))) else None
  }

  // A push, or an attempt to apply, that falls back to a rebuild of active rules
  // and cannot delete the old table.
  predicate PushDirty(s: State, f: Gateway.Faults) {
    s.gateway.active && f.patch && f.del != Gateway.NoFault
  }

  // The first push of a round is dirty and the second does not clean up, or the second is dirty.
  predicate RoundDirty(s: State, pushes: nat, f: Gateway.Faults, g: Gateway.Faults) {
    if pushes == 0 then false
    else if pushes == 1 then PushDirty(s, f)
    else if PushDirty(s, f) then f.apply || !(g.patch && g.del == Gateway.NoFault)
    else s.gateway.active && !(f.patch && f.apply) && g.patch && g.del != Gateway.NoFault
  }

  // An event after which the kernel holds something else: a dirty push or apply,
  // a flush whose delete failed, or a reload of active rules that cannot delete
  // or has no port.
  predicate LeavesTable(setup: Setup, s: State, ev: Event) {
    match ev
    case Round(r, f, g) => RoundDirty(s, |RoundPushes(setup, s.client, s.loop, r)|, f, g)
    case Dial(_) => false
    case UiKey(raw, o, f) => PushDirty(s, f) && Client.SetAccessKeyStep(s.client, raw, o).ok
    case Edit(op, f) => PushDirty(s, f) && BypassManager.Step(s.bypass, op).notified
    case Repush(f) => PushDirty(s, f)
    case Restart(o, probe, fallback, f) =>
      PushDirty(s, f) && RestartClient(setup, s.client, o, probe, fallback).ok
    case Apply(f) => PushDirty(s, f)
    case Reload(cfg, _, _, f) => s.gateway.active && (cfg.port <= 0 || f.del != Gateway.NoFault)
    case Shutdown(del) => del != Gateway.NoFault && s.gateway.table.Some?
  }

  predicate KernelOk(setup: Setup, s: State) {
    KernelInv(setup, s) && KernelIsPushed(setup, s)
  }

  lemma SwollenIsNotPushed(setup: Setup, s: State)
    requires s.gateway.table.Some? && (s.gateway.active ==> Gateway.Swollen(s.gateway.table.value))
    ensures !KernelIsPushed(setup, s)
  {
    var e := PushedEngine(setup, s);
    var c := Gateway.Compile(s.gateway.cfg, e);
    Gateway.SwollenIsNotCompiled(s.gateway.cfg, c.sets[BypassSet], c.sets[TunnelSet]);
  }

  // An update of the engine over rules that are in order.
  lemma UpdateOutcome(g: Gateway.State, e: Engine, f: Gateway.Faults)
    requires Gateway.Inv(g) && (g.table.Some? <==> g.active)
    ensures var r := Gateway.Step(g, Gateway.UpdateEngineOp(Some(e), f)).state;
      var dirty := g.active && f.patch && f.del != Gateway.NoFault;
      r.cfg == g.cfg && r.engine == Some(e) &&
      if dirty
      then r.table.Some? && r.active == !f.apply && (r.active ==> Gateway.Swollen(r.table.value))
      else Gateway.Inv(r) && r.active == (g.active && !(f.patch && f.apply)) &&
           r.table == if r.active then Some(Gateway.Compile(g.cfg, e)) else None
  {
    Gateway.StepInvExact(g, Gateway.UpdateEngineOp(Some(e), f));
    if g.active {
      Gateway.ApplyOutcome(g.(engine := Some(e)), f, g.engine);
    }
  }

  lemma PushUpdates(setup: Setup, s: State, server: IP, f: Gateway.Faults)
    ensures var s' := PushServer(setup, s, server, f);
      s'.gateway == Gateway.Step(s.gateway, Gateway.UpdateEngineOp(Some(PushedEngine(setup, s')), f)).state
  {
    var read := s.(nets := BypassManager.Effective(s.bypass), pushed := server);
    UpdateSetsEngine(s.gateway, PushedEngine(setup, read), f);
  }

  lemma UpdateSetsEngine(g: Gateway.State, e: Engine, f: Gateway.Faults)
    ensures var r := Gateway.Step(g, Gateway.UpdateEngineOp(Some(e), f)).state;
      r.engine == Some(e) && r.cfg == g.cfg
  {
  }

  // A gateway in order whose engine is the pushed one.
  lemma InOrder(setup: Setup, s: State, e: Engine)
    requires e == PushedEngine(setup, s) && s.gateway.engine == Some(e) && Gateway.Inv(s.gateway)
    requires s.gateway.table == if s.gateway.active then Some(Gateway.Compile(s.gateway.cfg, e)) else None
    ensures KernelOk(setup, s)
  {
  }

  lemma PushOutcome(setup: Setup, s: State, server: IP, f: Gateway.Faults)
    requires Gateway.Inv(s.gateway) && (s.gateway.table.Some? <==> s.gateway.active)
    ensures var s' := PushServer(setup, s, server, f);
      s'.gateway.cfg == s.gateway.cfg && s'.gateway.engine == Some(PushedEngine(setup, s')) &&
      if PushDirty(s, f)
      then s'.gateway.table.Some? && s'.gateway.active == !f.apply &&
           (s'.gateway.active ==> Gateway.Swollen(s'.gateway.table.value)) && !KernelIsPushed(setup, s')
      else KernelOk(setup, s') && s'.gateway.active == (s.gateway.active && !(f.patch && f.apply))
  {
    var s' := PushServer(setup, s, server, f);
    var e := PushedEngine(setup, s');
    PushUpdates(setup, s, server, f);
    UpdateOutcome(s.gateway, e, f);
    if PushDirty(s, f) {
      SwollenIsNotPushed(setup, s');
    } else {
      InOrder(setup, s', e);
    }
  }

  // Over an inactive gateway a push only replaces the engine.
  lemma QuietPush(setup: Setup, s: State, server: IP, f: Gateway.Faults)
    requires Gateway.Inv(s.gateway) && !s.gateway.active
    ensures var s' := PushServer(setup, s, server, f);
      KernelInv(setup, s') && s'.gateway == s.gateway.(engine := s'.gateway.engine)
  {
  }

  lemma CleaningPush(g: Gateway.State, e: Engine, f: Gateway.Faults)
    requires g.active && g.cfg.port > 0 && g.table.Some? && Gateway.Swollen(g.table.value)
    ensures var r := Gateway.Step(g, Gateway.UpdateEngineOp(Some(e), f)).state;
      r.cfg == g.cfg && r.engine == Some(e) &&
      if f.patch && f.del == Gateway.NoFault
      then Gateway.Inv(r) && r.table == if r.active then Some(Gateway.Compile(g.cfg, e)) else None
      else r.table.Some? && (r.active ==> Gateway.Swollen(r.table.value))
  {
    Gateway.SwollenApply(g.(engine := Some(e)), f);
    if f.patch && f.del == Gateway.NoFault {
      Gateway.CompiledInv(Gateway.Step(g, Gateway.UpdateEngineOp(Some(e), f)).state);
    }
  }

  // A second push after a dirty one.
  lemma PushAfterDirty(setup: Setup, s: State, server: IP, f: Gateway.Faults)
    requires s.gateway.cfg.port > 0 && s.gateway.table.Some?
    requires s.gateway.active ==> Gateway.Swollen(s.gateway.table.value)
    ensures var s' := PushServer(setup, s, server, f);
      (KernelIsPushed(setup, s') <==> s.gateway.active && f.patch && f.del == Gateway.NoFault) &&
      (KernelIsPushed(setup, s') ==> KernelInv(setup, s'))
  {
    var s' := PushServer(setup, s, server, f);
    var e := PushedEngine(setup, s');
    PushUpdates(setup, s, server, f);
    UpdateSetsEngine(s.gateway, e, f);
    if s.gateway.active {
      CleaningPush(s.gateway, e, f);
    }
    if s.gateway.active && f.patch && f.del == Gateway.NoFault {
      InOrder(setup, s', e);
    } else {
      SwollenIsNotPushed(setup, s');
    }
  }

  lemma ApplyKernel(setup: Setup, s: State, f: Gateway.Faults)
    requires KernelOk(setup, s)
    ensures var s' := ApplyGateway(s, f);
      (KernelIsPushed(setup, s') <==> !PushDirty(s, f)) && (!PushDirty(s, f) ==> KernelInv(setup, s'))
  {
    var s' := ApplyGateway(s, f);
    Gateway.StepInvExact(s.gateway, Gateway.ApplyOp(f));
    Gateway.ApplyOutcome(s.gateway, f, s.gateway.engine);
    if PushDirty(s, f) {
      SwollenIsNotPushed(setup, s');
    }
  }

  lemma EditKernel(setup: Setup, s: State, op: BypassManager.Op, f: Gateway.Faults)
    requires KernelOk(setup, s)
    ensures var s' := EditEvent(setup, s, op, f);
      var leaves := PushDirty(s, f) && BypassManager.Step(s.bypass, op).notified;
      (KernelIsPushed(setup, s') <==> !leaves) && (!leaves ==> KernelInv(setup, s'))
  {
    PushOutcome(setup, s.(bypass := BypassManager.Step(s.bypass, op).state), s.client.serverIP, f);
  }

  lemma QuietEdit(setup: Setup, s: State, op: BypassManager.Op, f: Gateway.Faults)
    requires KernelInv(setup, s) && !s.gateway.active
    ensures var s' := EditEvent(setup, s, op, f);
      KernelInv(setup, s') && s'.gateway == s.gateway.(engine := s'.gateway.engine)
  {
    QuietPush(setup, s.(bypass := BypassManager.Step(s.bypass, op).state), s.client.serverIP, f);
  }

  lemma ReloadedKeeps(setup: Setup, s: State, ev: Event)
    requires ev.Reload? && KernelInv(setup, s)
    ensures var s3 := Reloaded(setup, s, ev);
      KernelInv(setup, s3) && s3.gateway.cfg == ev.cfg && !s3.gateway.active && s3.gateway.table == s.gateway.table
  {
    var s1 := ReloadedGateway(setup, s, ev.cfg);
    QuietEdit(setup, s1, BypassManager.SetStaticOp(ev.cfg.bypassCIDRs), ev.faults);
    var s2 := EditEvent(setup, s1, BypassManager.SetStaticOp(ev.cfg.bypassCIDRs), ev.faults);
    QuietEdit(setup, s2, BypassManager.LoadOp(ev.readFault, ev.dns), ev.faults);
  }

  // An attempt to apply from any state with a port ends in order exactly when it
  // is not a rebuild that cannot delete an existing table.
  lemma ApplyRepairs(setup: Setup, s: State, f: Gateway.Faults)
    requires KernelInv(setup, s) && s.gateway.cfg.port > 0
    ensures var s' := ApplyGateway(s, f);
      (KernelIsPushed(setup, s') <==> !Gateway.Dirty(s.gateway, f)) &&
      (KernelIsPushed(setup, s') ==> KernelInv(setup, s'))
  {
    var s' := ApplyGateway(s, f);
    Gateway.StepInvExact(s.gateway, Gateway.ApplyOp(f));
    Gateway.ApplyOutcome(s.gateway, f, s.gateway.engine);
    if Gateway.Dirty(s.gateway, f) {
      SwollenIsNotPushed(setup, s');
    }
  }

  lemma ReloadKernel(setup: Setup, s: State, ev: Event)
    requires ev.Reload? && KernelOk(setup, s)
    ensures var s' := ReloadEvent(setup, s, ev);
      (KernelIsPushed(setup, s') <==> !LeavesTable(setup, s, ev)) &&
      (KernelIsPushed(setup, s') ==> KernelInv(setup, s'))
  {
    var s3 := Reloaded(setup, s, ev);
    ReloadedKeeps(setup, s, ev);
    if s.gateway.active && ev.cfg.port > 0 {
      ApplyRepairs(setup, s3, ev.faults);
    }
  }

  lemma RoundKernel(setup: Setup, s: State, r: Supervisor.Round, f: Gateway.Faults, g: Gateway.Faults)
    requires KernelOk(setup, s)
    ensures var s' := RoundEvent(setup, s, r, f, g);
      var leaves := RoundDirty(s, |RoundPushes(setup, s.client, s.loop, r)|, f, g);
      (KernelIsPushed(setup, s') <==> !leaves) && (!leaves ==> KernelInv(setup, s'))
  {
    var t := Supervisor.RoundStep(setup.plan, setup.settings, s.client, s.loop, r);
    PushesKernel(setup, s, s.(client := t.client, loop := t.loop), RoundPushes(setup, s.client, s.loop, r), f, g);
  }

  lemma PushesKernel(setup: Setup, s: State, s0: State, servers: seq<IP>, f: Gateway.Faults, g: Gateway.Faults)
    requires KernelOk(setup, s) && |servers| <= 2
    requires s0 == s.(client := s0.client, loop := s0.loop)
    ensures var s1 := if |servers| > 0 then PushServer(setup, s0, servers[0], f) else s0;
      var s2 := if |servers| > 1 then PushServer(setup, s1, servers[1], g) else s1;
      (KernelIsPushed(setup, s2) <==> !RoundDirty(s, |servers|, f, g)) &&
      (!RoundDirty(s, |servers|, f, g) ==> KernelInv(setup, s2))
  {
    if |servers| > 0 {
      PushOutcome(setup, s0, servers[0], f);
      var s1 := PushServer(setup, s0, servers[0], f);
      if |servers| > 1 && PushDirty(s, f) {
        PushAfterDirty(setup, s1, servers[1], g);
      } else if |servers| > 1 {
        PushOutcome(setup, s1, servers[1], g);
      }
    }
  }

  lemma RestartKernel(setup: Setup, s: State, ev: Event)
    requires ev.Restart? && KernelOk(setup, s)
    ensures var s' := Step(setup, s, ev);
      (KernelIsPushed(setup, s') <==> !LeavesTable(setup, s, ev)) &&
      (!LeavesTable(setup, s, ev) ==> KernelInv(setup, s'))
  {
    var r := RestartClient(setup, s.client, ev.o, ev.probe, ev.fallback);
    ApplyKernel(setup, s.(client := r.state), ev.faults);
  }

  lemma ShutdownKernel(setup: Setup, s: State, del: Gateway.Fault)
    requires KernelOk(setup, s)
    ensures KernelInv(setup, Step(setup, s, Shutdown(del)))
    ensures KernelIsPushed(setup, Step(setup, s, Shutdown(del))) <==> !(del != Gateway.NoFault && s.gateway.table.Some?)
  {
    Gateway.StepInvExact(s.gateway, Gateway.FlushOp(del));
    Gateway.FlushExact(s.gateway, del);
  }

  // A change of the client followed by a push.
  lemma ClientKernel(setup: Setup, s: State, c: Client.State, f: Gateway.Faults)
    requires KernelOk(setup, s)
    ensures var s1 := s.(client := c);
      var s2 := RebuildPush(setup, s1, f);
      KernelOk(setup, s1) && (KernelIsPushed(setup, s2) <==> !PushDirty(s, f)) &&
      (!PushDirty(s, f) ==> KernelInv(setup, s2))
  {
    PushOutcome(setup, s.(client := c), c.serverIP, f);
  }

  lemma UiKeyKernel(setup: Setup, s: State, ev: Event)
    requires ev.UiKey? && KernelOk(setup, s)
    ensures var s' := Step(setup, s, ev);
      (KernelIsPushed(setup, s') <==> !LeavesTable(setup, s, ev)) &&
      (!LeavesTable(setup, s, ev) ==> KernelInv(setup, s'))
  {
    ClientKernel(setup, s, Client.SetAccessKeyStep(s.client, ev.raw, ev.o).state, ev.faults);
  }

  // Engine and kernel are in step after an event exactly when it left nothing else behind.
  ghost predicate KernelFollows(setup: Setup, s: State, ev: Event) {
    var s' := Step(setup, s, ev);
    (KernelIsPushed(setup, s') <==> !LeavesTable(setup, s, ev)) && (!LeavesTable(setup, s, ev) ==> KernelInv(setup, s'))
  }

  lemma PushingKernel(setup: Setup, s: State, ev: Event)
    requires (ev.Round? || ev.Edit? || ev.Repush?) && KernelOk(setup, s)
    ensures KernelFollows(setup, s, ev)
  {
    match ev
    case Round(r, f, g) => RoundKernel(setup, s, r, f, g);
    case Edit(op, f) => EditKernel(setup, s, op, f);
    case Repush(f) => ClientKernel(setup, s, s.client, f);
  }

  lemma DialKernel(setup: Setup, s: State, d: Client.DialOutcome)
    requires KernelOk(setup, s)
    ensures KernelOk(setup, Step(setup, s, Dial(d)))
  {
    var s' := Step(setup, s, Dial(d));
    assert PushedEngine(setup, s') == PushedEngine(setup, s) && s'.gateway == s.gateway;
  }

  // Whatever nft calls fail, every event keeps engine and kernel in step, except
  // exactly those that leave something else behind.
  lemma KernelStep(setup: Setup, s: State, ev: Event)
    requires KernelOk(setup, s)
    ensures var s' := Step(setup, s, ev);
      (KernelIsPushed(setup, s') <==> !LeavesTable(setup, s, ev)) &&
      (!LeavesTable(setup, s, ev) ==> KernelInv(setup, s'))
  {
    if ev.Restart? {
      RestartKernel(setup, s, ev);
    } else if ev.UiKey? {
      UiKeyKernel(setup, s, ev);
    } else if ev.Round? || ev.Edit? || ev.Repush? {
      PushingKernel(setup, s, ev);
    } else if ev.Dial? {
      DialKernel(setup, s, ev.d);
    } else if ev.Shutdown? {
      ShutdownKernel(setup, s, ev.del);
    } else if ev.Apply? {
      ApplyKernel(setup, s, ev.faults);
    } else {
      ReloadKernel(setup, s, ev);
    }
  }

  ghost predicate KernelThroughout(setup: Setup, s: State, evs: seq<Event>)
    decreases |evs|
  {
    KernelIsPushed(setup, s) && (evs != [] ==> KernelThroughout(setup, Step(setup, s, evs[0]), evs[1..]))
  }

  ghost predicate NothingLeft(setup: Setup, s: State, evs: seq<Event>)
    decreases |evs|
  {
    evs != [] ==> !LeavesTable(setup, s, evs[0]) && NothingLeft(setup, Step(setup, s, evs[0]), evs[1..])
  }

  // Over every run, with any nft failures, the kernel holds the table compiled
  // from the last pushed engine whenever the gateway is active, and no table
  // otherwise, if and only if no event left something else behind.
  lemma {:induction false} KernelRunExact(setup: Setup, s: State, evs: seq<Event>)
    requires KernelOk(setup, s)
    ensures KernelThroughout(setup, s, evs) <==> NothingLeft(setup, s, evs)
    ensures NothingLeft(setup, s, evs) ==> KernelOk(setup, Run(setup, s, evs))
    decreases |evs|
  {
    if evs != [] {
      KernelStep(setup, s, evs[0]);
      if !LeavesTable(setup, s, evs[0]) {
        KernelRunExact(setup, Step(setup, s, evs[0]), evs[1..]);
      } else {
        assert !KernelThroughout(setup, Step(setup, s, evs[0]), evs[1..]);
      }
    }
  }

  // ---- The pushed engine and the rule manager ----

  // The engine bypasses exactly the addresses that the rule manager matches.
  ghost predicate EngineCurrent(s: State) {
    s.gateway.engine.Some? && forall ip: Addr ::
      Covered(s.gateway.engine.value.bypass, ip) <==> BypassManager.MatchIPLabel(s.bypass, ip).Some?
  }

  // The engine holds the mode and the lists of its configuration and no other
  // servers than the pushed one and the AmneziaWG endpoint.
  ghost predicate EngineFromConfig(setup: Setup, s: State) {
    s.gateway.engine.Some? &&
    var e := s.gateway.engine.value;
    e.mode == s.gateway.cfg.mode && e.directPolicy == s.gateway.cfg.directPolicy &&
    e.tunnel == s.gateway.cfg.tunnelCIDRs &&
    forall a: Addr :: IsServer(e, a) <==> V4(a) == s.pushed || V4(a) == setup.amneziaEndpoint
  }

  // The events after which rebuildPush has run: a round that reported ready, an
  // accepted key with a dialer, a notified rule edit, an explicit push.
  ghost predicate Pushes(setup: Setup, s: State, ev: Event) {
    match ev
    case Round(r, _, _) => true in Supervisor.RoundStep(setup.plan, setup.settings, s.client, s.loop, r).notes
    case UiKey(raw, o, _) => Client.ValidKey(TrimSpace(raw)) && HasKey(s.client, o)
    case Edit(op, _) => BypassManager.Step(s.bypass, op).notified
    case Repush(_) => true
    case _ => false
  }

  // What the manager does in an event: the edit, or a reload's two.
  ghost function ManagerAfter(s: State, ev: Event): BypassManager.State {
    match ev
    case Edit(op, _) => BypassManager.Step(s.bypass, op).state
    case Reload(cfg, fault, dns, _) =>
      var b := BypassManager.Step(s.bypass, BypassManager.SetStaticOp(cfg.bypassCIDRs)).state;
      BypassManager.Step(b, BypassManager.LoadOp(fault, dns)).state
    case _ => s.bypass
  }

  ghost predicate LoadNotifies(s: State, ev: Event)
    requires ev.Reload?
  {
    var b := BypassManager.Step(s.bypass, BypassManager.SetStaticOp(ev.cfg.bypassCIDRs)).state;
    BypassManager.Step(b, BypassManager.LoadOp(ev.readFault, ev.dns)).notified
  }

  // An engine as rebuildPush makes it.
  lemma PushedEngineExact(setup: Setup, s: State, r: State)
    requires r.gateway.cfg == s.gateway.cfg && r.bypass == s.bypass && BypassManager.Inv(s.bypass)
    requires r.gateway.engine == Some(NewWithBypass(s.gateway.cfg, BypassManager.Effective(s.bypass),
                                                    TunnelBypassIPs(r.pushed, setup.amneziaEndpoint)))
    ensures EngineCurrent(r) && EngineFromConfig(setup, r)
  {
    forall ip: Addr
      ensures Covered(BypassManager.Effective(s.bypass), ip) <==> BypassManager.MatchIPLabel(s.bypass, ip).Some?
    {
      BypassManager.PathsAgree(s.bypass, ip);
    }
    BypassIPsExact(r.pushed, setup.amneziaEndpoint);
  }

  lemma PushInstalls(setup: Setup, s: State, server: IP, f: Gateway.Faults)
    requires BypassManager.Inv(s.bypass)
    ensures var r := PushServer(setup, s, server, f);
      r.bypass == s.bypass && r.pushed == server && r.client == s.client && r.gateway.cfg == s.gateway.cfg &&
      EngineCurrent(r) && EngineFromConfig(setup, r)
  {
    var s1 := s.(nets := BypassManager.Effective(s.bypass), pushed := server);
    UpdateSetsEngine(s.gateway, PushedEngine(setup, s1), f);
    PushedEngineExact(setup, s, PushServer(setup, s, server, f));
  }

  lemma BypassIPsExact(server: IP, endpoint: IP)
    ensures forall a: Addr :: V4(a) in TunnelBypassIPs(server, endpoint) <==> V4(a) == server || V4(a) == endpoint
  {
  }

  lemma RoundInstalls(setup: Setup, s: State, ev: Event)
    requires ev.Round? && BypassManager.Inv(s.bypass)
    ensures var r := Step(setup, s, ev);
      r.bypass == s.bypass && r.gateway.cfg == s.gateway.cfg &&
      if Pushes(setup, s, ev) then EngineCurrent(r) && EngineFromConfig(setup, r)
      else r.gateway == s.gateway && r.pushed == s.pushed
  {
    RoundPushesOnReady(setup, s.client, s.loop, ev.r);
    var t := Supervisor.RoundStep(setup.plan, setup.settings, s.client, s.loop, ev.r);
    var servers := RoundPushes(setup, s.client, s.loop, ev.r);
    var s0 := s.(client := t.client, loop := t.loop);
    assert true in t.notes <==> true in multiset(t.notes);
    if |servers| > 0 {
      PushInstalls(setup, s0, servers[0], ev.first);
      if |servers| > 1 {
        PushInstalls(setup, PushServer(setup, s0, servers[0], ev.first), servers[1], ev.second);
      }
    }
  }

  // After every event that pushes, the engine is the one the manager and the
  // configuration stand for; the other events leave the engine alone, so a
  // notified edit is exactly what brings new rules into the kernel.
  lemma PushExact(setup: Setup, s: State, ev: Event)
    requires BypassManager.Inv(s.bypass) && !ev.Reload?
    ensures var r := Step(setup, s, ev);
      r.bypass == ManagerAfter(s, ev) && BypassManager.Inv(r.bypass) && r.gateway.cfg == s.gateway.cfg &&
      if Pushes(setup, s, ev) then EngineCurrent(r) && EngineFromConfig(setup, r)
      else r.gateway.engine == s.gateway.engine && r.pushed == s.pushed
  {
    match ev
    case Round(_, _, _) => RoundInstalls(setup, s, ev);
    case UiKey(raw, o, f) =>
      var c := Client.SetAccessKeyStep(s.client, raw, o);
      SetKeyOutcome(s.client, raw, o);
      PushInstalls(setup, s.(client := c.state), c.state.serverIP, f);
    case Edit(op, f) =>
      BypassManager.StepKeepsInv(s.bypass, op);
      PushInstalls(setup, s.(bypass := BypassManager.Step(s.bypass, op).state), s.client.serverIP, f);
    case Repush(f) => PushInstalls(setup, s, s.client.serverIP, f);
    case Apply(f) => ApplyKeepsEngine(s.gateway, f);
    case Restart(_, _, _, f) => ApplyKeepsEngine(s.gateway, f);
    case _ =>
  }

  lemma ApplyKeepsEngine(g: Gateway.State, f: Gateway.Faults)
    ensures Gateway.ApplyStep(g, f).state.engine == g.engine && Gateway.ApplyStep(g, f).state.cfg == g.cfg
  {
  }

  // The engine covers what the manager would match with the rules of base.
  ghost predicate EngineFor(s: State, base: seq<Rules.Rule>) {
    s.gateway.engine.Some? && forall ip: Addr ::
      Covered(s.gateway.engine.value.bypass, ip) <==>
        Covered(s.bypass.fixedNets, ip) || Rules.MatchIPDetail(base, ip).Some? || Covered(s.bypass.resolved, ip)
  }

  lemma MatchesOf(b: BypassManager.State)
    requires BypassManager.Inv(b)
    ensures forall ip: Addr :: BypassManager.MatchIPLabel(b, ip).Some? <==>
      Covered(b.fixedNets, ip) || Rules.MatchIPDetail(b.store.rules, ip).Some? || Covered(b.resolved, ip)
  {
  }

  // The first half of a reload: the new configuration and its static networks.
  function ReloadedStatic(setup: Setup, s: State, ev: Event): State
    requires ev.Reload?
  {
    EditEvent(setup, ReloadedGateway(setup, s, ev.cfg), BypassManager.SetStaticOp(ev.cfg.bypassCIDRs), ev.faults)
  }

  lemma ReloadStaticExact(setup: Setup, s: State, ev: Event)
    requires ev.Reload? && BypassManager.Inv(s.bypass)
    ensures var s2 := ReloadedStatic(setup, s, ev);
      s2.bypass == BypassManager.Step(s.bypass, BypassManager.SetStaticOp(ev.cfg.bypassCIDRs)).state &&
      BypassManager.Inv(s2.bypass) && s2.gateway.cfg == ev.cfg && s2.bypass.fixedNets == ev.cfg.bypassCIDRs &&
      EngineCurrent(s2) && EngineFromConfig(setup, s2)
  {
    var s1 := ReloadedGateway(setup, s, ev.cfg);
    PushExact(setup, s1, Edit(BypassManager.SetStaticOp(ev.cfg.bypassCIDRs), ev.faults));
  }

  // A reload starts with the new configuration and its static networks; only
  // the rules it loads from disk may be missing in the engine.
  lemma ReloadExact(setup: Setup, s: State, ev: Event)
    requires ev.Reload? && BypassManager.Inv(s.bypass)
    ensures ReloadInstalls(setup, s, ev, Step(setup, s, ev))
  {
    var r := Reloaded(setup, s, ev);
    ReloadedExact(setup, s, ev);
    ApplyKeepsEngine(r.gateway, ev.faults);
    assert ReloadInstalls(setup, s, ev, r.(gateway := Gateway.ApplyStep(r.gateway, ev.faults).state));
  }

  ghost predicate ReloadInstalls(setup: Setup, s: State, ev: Event, r: State)
    requires ev.Reload?
  {
    r.bypass == ManagerAfter(s, ev) && BypassManager.Inv(r.bypass) && r.gateway.cfg == ev.cfg &&
    r.bypass.fixedNets == ev.cfg.bypassCIDRs && EngineFromConfig(setup, r) &&
    EngineFor(r, if LoadNotifies(s, ev) then r.bypass.store.rules else s.bypass.store.rules)
  }

  lemma ReloadedExact(setup: Setup, s: State, ev: Event)
    requires ev.Reload? && BypassManager.Inv(s.bypass)
    ensures ReloadInstalls(setup, s, ev, Reloaded(setup, s, ev))
  {
    var load := BypassManager.LoadOp(ev.readFault, ev.dns);
    var s2 := ReloadedStatic(setup, s, ev);
    ReloadStaticExact(setup, s, ev);
    assert Reloaded(setup, s, ev) == EditEvent(setup, s2, load, ev.faults);
    assert ManagerAfter(s, ev) == BypassManager.Step(s2.bypass, load).state;
    assert LoadNotifies(s, ev) == BypassManager.Step(s2.bypass, load).notified;
    assert s2.bypass.store == s.bypass.store;
    ReloadLoadExact(setup, s2, load, ev.faults);
  }

  lemma ReloadLoadExact(setup: Setup, s: State, load: BypassManager.Op, f: Gateway.Faults)
    requires load.LoadOp? && BypassManager.Inv(s.bypass) && EngineCurrent(s) && EngineFromConfig(setup, s)
    ensures var r := EditEvent(setup, s, load, f);
      r.bypass == BypassManager.Step(s.bypass, load).state && BypassManager.Inv(r.bypass) &&
      r.gateway.cfg == s.gateway.cfg && r.bypass.fixedNets == s.bypass.fixedNets && EngineFromConfig(setup, r) &&
      EngineFor(r, if BypassManager.Step(s.bypass, load).notified then r.bypass.store.rules else s.bypass.store.rules)
  {
    var r := EditEvent(setup, s, load, f);
    PushExact(setup, s, Edit(load, f));
    MatchesOf(s.bypass);
    MatchesOf(r.bypass);
    EditKeepsEngineFor(s, r, load);
    LoadKeepsStatic(s.bypass, load);
  }

  lemma LoadKeepsStatic(b: BypassManager.State, load: BypassManager.Op)
    requires load.LoadOp?
    ensures BypassManager.Step(b, load).state.fixedNets == b.fixedNets
  {
  }

  // An edit that is not notified leaves the static networks and what is resolved.
  lemma EditKeepsEngineFor(s: State, s': State, op: BypassManager.Op)
    requires s'.bypass == BypassManager.Step(s.bypass, op).state && !BypassManager.Step(s.bypass, op).notified ==>
      s'.gateway.engine == s.gateway.engine
    ensures s'.bypass == BypassManager.Step(s.bypass, op).state && !BypassManager.Step(s.bypass, op).notified ==>
      s'.bypass.fixedNets == s.bypass.fixedNets && forall base :: EngineFor(s, base) ==> EngineFor(s', base)
  {
    BypassManager.StepPushes(s.bypass, op);
    if s'.bypass == BypassManager.Step(s.bypass, op).state && !BypassManager.Step(s.bypass, op).notified {
      BypassManager.SameNetsSameCoverage(s.bypass.resolved, s'.bypass.resolved);
    }
  }

  // The rules the engine was built from after an event.
  ghost function NextBase(setup: Setup, s: State, ev: Event, base: seq<Rules.Rule>): seq<Rules.Rule> {
    if Pushes(setup, s, ev) || (ev.Reload? && LoadNotifies(s, ev)) then ManagerAfter(s, ev).store.rules
    else if ev.Reload? then s.bypass.store.rules
    else base
  }

  ghost function LastBase(setup: Setup, s: State, evs: seq<Event>, base: seq<Rules.Rule>): seq<Rules.Rule>
    decreases |evs|
  {
    if evs == [] then base else LastBase(setup, Step(setup, s, evs[0]), evs[1..], NextBase(setup, s, evs[0], base))
  }

  lemma StepEngineFor(setup: Setup, s: State, ev: Event, base: seq<Rules.Rule>)
    requires BypassManager.Inv(s.bypass) && EngineFor(s, base)
    ensures BypassManager.Inv(Step(setup, s, ev).bypass)
    ensures EngineFor(Step(setup, s, ev), NextBase(setup, s, ev, base))
  {
    var r := Step(setup, s, ev);
    if ev.Reload? {
      ReloadExact(setup, s, ev);
    } else {
      PushExact(setup, s, ev);
      MatchesOf(r.bypass);
      if ev.Edit? {
        EditKeepsEngineFor(s, r, ev.op);
      }
    }
  }

  lemma {:induction false} RunEngineFor(setup: Setup, s: State, evs: seq<Event>, base: seq<Rules.Rule>)
    requires BypassManager.Inv(s.bypass) && EngineFor(s, base)
    ensures BypassManager.Inv(Run(setup, s, evs).bypass)
    ensures EngineFor(Run(setup, s, evs), LastBase(setup, s, evs, base))
    decreases |evs|
  {
    if evs != [] {
      StepEngineFor(setup, s, evs[0], base);
      RunEngineFor(setup, Step(setup, s, evs[0]), evs[1..], NextBase(setup, s, evs[0], base));
    }
  }

  // Over every run, with any failures, the installed engine bypasses exactly
  // what the manager matches if and only if every address that only the rules it
  // was built from or only the present ones match is static or resolved.
  lemma RunEngineExact(setup: Setup, s: State, evs: seq<Event>)
    requires BypassManager.Inv(s.bypass) && EngineCurrent(s)
    ensures var r := Run(setup, s, evs);
      EngineCurrent(r) <==>
        BypassManager.AgreeOutside(r.bypass, LastBase(setup, s, evs, s.bypass.store.rules), r.bypass.store.rules)
  {
    MatchesOf(s.bypass);
    RunEngineFor(setup, s, evs, s.bypass.store.rules);
    MatchesOf(Run(setup, s, evs).bypass);
  }

  // ---- What it means for packets ----

  // The packet world of a state whose gateway is active and whose dialer dials
  // the given address. That need not be the address the client resolved: the
  // dialer resolves host names itself, and a key of several parts or a failed
  // lookup leaves the client with no address at all.
  function GateAt(setup: Setup, s: State, block: Option<HostMatcher>, dialed: Addr): Gate {
    Gate(s.gateway.cfg, PushedEngine(setup, s), block, Some(dialed), setup.sources)
  }

  // Rules are installed and some dial to that address is redirected without end.
  ghost predicate DialLoops(setup: Setup, s: State, block: Option<HostMatcher>, dialed: Addr) {
    s.gateway.active && SomethingLoops(GateAt(setup, s, block, dialed))
  }

  predicate ExcludesLocally(s: State) {
    s.gateway.cfg.outputEnable && s.gateway.cfg.mode == Exclude
  }

  // A public address that neither the pushed networks nor the block list hold.
  predicate Outside(setup: Setup, s: State, block: Option<HostMatcher>, ip: Addr) {
    V4(ip) != setup.amneziaEndpoint && !IsPrivate(ip) && !Covered(s.nets, ip) && !Blocked(block, ip)
  }

  // Active rules over a host with a public address of its own.
  ghost predicate Catching(setup: Setup, s: State) {
    s.gateway.active && exists a :: a in setup.sources && !IsPrivate(a)
  }

  lemma LoopsExactly(setup: Setup, s: State, block: Option<HostMatcher>, dialed: Addr)
    requires ExcludesLocally(s)
    ensures DialLoops(setup, s, block, dialed) <==>
      Catching(setup, s) && V4(dialed) != s.pushed && Outside(setup, s, block, dialed)
  {
    UnpushedServerLoops(GateAt(setup, s, block, dialed), s.nets, s.pushed, setup.amneziaEndpoint);
  }

  // In exclude mode, as long as no restart moved the server, the dials of a
  // ready client loop exactly when the rules catch them, the address dialed is not
  // the one the client resolved, and it is public, unlisted and not blocked.
  lemma RunLoopExact(setup: Setup, s: State, evs: seq<Event>, block: Option<HostMatcher>, dialed: Addr)
    requires ReadyIsPushed(s) && NoMovingRestart(setup, s, evs)
    ensures var r := Run(setup, s, evs);
      ExcludesLocally(r) && r.client.ready ==>
        (DialLoops(setup, r, block, dialed) <==>
          Catching(setup, r) && V4(dialed) != r.client.serverIP && Outside(setup, r, block, dialed))
  {
    RunExact(setup, s, evs);
    if ExcludesLocally(Run(setup, s, evs)) {
      LoopsExactly(setup, Run(setup, s, evs), block, dialed);
    }
  }

  // One accepted key is enough: when no address can be resolved from it, the
  // push that follows names no server, and the dials of the ready client loop for
  // every outside address. A key of several parts is always such a key.
  lemma UnresolvedKeyLoops(setup: Setup, s: State, raw: string, o: Client.Rebuild, f: Gateway.Faults,
                           block: Option<HostMatcher>, answer: IP, dialed: Addr)
    requires ExcludesLocally(s) && Client.ValidKey(TrimSpace(raw)) && o.dialerOk && o.expanded.Some?
    requires o.server == Client.ResolveServerIP(o.expanded.value, answer)
    requires '|' in o.expanded.value || answer == NilIP
    ensures var ev := UiKey(raw, o, f);
      var r := Step(setup, s, ev);
      !RestartMoves(setup, s, ev) && r.client.ready && ReadyIsPushed(r) && r.pushed == NilIP &&
      (DialLoops(setup, r, block, dialed) <==> Catching(setup, r) && Outside(setup, r, block, dialed))
    ensures KernelOk(setup, s) && s.gateway.active && !f.patch ==> Step(setup, s, UiKey(raw, o, f)).gateway.active
  {
    SetKeyOutcome(s.client, raw, o);
    var s1 := s.(client := Client.SetAccessKeyStep(s.client, raw, o).state);
    var r := RebuildPush(setup, s1, f);
    assert r == Step(setup, s, UiKey(raw, o, f));
    PushKeepsConfig(setup, s1, s1.client.serverIP, f);
    LoopsExactly(setup, r, block, dialed);
    if KernelOk(setup, s) {
      PushOutcome(setup, s1, s1.client.serverIP, f);
    }
  }

  lemma PushKeepsConfig(setup: Setup, s: State, server: IP, f: Gateway.Faults)
    ensures PushServer(setup, s, server, f).gateway.cfg == s.gateway.cfg
  {
  }

  // A successful restart reports success and leaves a ready client; its dials
  // loop exactly when the rules catch them and the address dialed is outside and
  // not the one pushed before, whatever the restart resolved.
  lemma RestartLoops(setup: Setup, s: State, o: Client.Rebuild, probe: Client.DialOutcome,
                     fallback: Option<(string, Client.Rebuild)>, f: Gateway.Faults,
                     block: Option<HostMatcher>, dialed: Addr)
    requires ExcludesLocally(s) && KernelInv(setup, s)
    requires HasKey(s.client, o) && (setup.settings.probeAddr == "" || probe == Client.Dialed(None))
    ensures var r := Step(setup, s, Restart(o, probe, fallback, f));
      r.client.ready && r.client.serverIP == o.server && r.pushed == s.pushed &&
      (s.gateway.cfg.port > 0 && !f.apply ==> r.gateway.active) &&
      (DialLoops(setup, r, block, dialed) <==>
        Catching(setup, r) && V4(dialed) != s.pushed && Outside(setup, s, block, dialed))
  {
    ReconnectOutcome(setup, s.client, o, probe);
    var s1 := s.(client := Client.ReconnectStep(s.client, setup.settings, o, probe).state);
    Gateway.ApplyOutcome(s1.gateway, f, s1.gateway.engine);
    LoopsExactly(setup, Step(setup, s, Restart(o, probe, fallback, f)), block, dialed);
  }

  // Between a rebuild and its push, the dials of the new dialer meet the engine
  // pushed before. MaintainReady probes a fresh dialer in this window ...
  lemma ProbeBeforePush(setup: Setup, s: State, r: Supervisor.Round, block: Option<HostMatcher>, dialed: Addr)
    requires ExcludesLocally(s) && !s.client.ready && HasKey(s.client, r.conn)
    ensures var atProbe := s.(client := Client.ConnectStep(s.client, r.conn).state);
      atProbe.client.ready && atProbe.client.serverIP == r.conn.server &&
      (DialLoops(setup, atProbe, block, dialed) <==>
        Catching(setup, s) && V4(dialed) != s.pushed && Outside(setup, s, block, dialed))
  {
    Client.ConnectExact(s.client, r.conn);
    LoopsExactly(setup, s.(client := Client.ConnectStep(s.client, r.conn).state), block, dialed);
  }

  // ... a refresh of a ready client sends its probe and all live dials into it ...
  lemma RefreshBeforePush(setup: Setup, s: State, r: Supervisor.Round, block: Option<HostMatcher>, dialed: Addr)
    requires ExcludesLocally(s) && Client.RefreshStep(s.client, r.refresh).ok
    ensures var atRefresh := s.(client := Client.RefreshStep(s.client, r.refresh).state);
      atRefresh.client.ready && atRefresh.client.serverIP == r.refresh.server &&
      (DialLoops(setup, atRefresh, block, dialed) <==>
        Catching(setup, s) && V4(dialed) != s.pushed && Outside(setup, s, block, dialed))
  {
    Client.RefreshExact(s.client, r.refresh);
    LoopsExactly(setup, s.(client := Client.RefreshStep(s.client, r.refresh).state), block, dialed);
  }

  // ... and a key replaced in the UI all live dials until it was persisted.
  lemma KeyBeforePush(setup: Setup, s: State, raw: string, o: Client.Rebuild, block: Option<HostMatcher>, dialed: Addr)
    requires ExcludesLocally(s) && Client.ValidKey(TrimSpace(raw)) && HasKey(s.client, o)
    ensures var atPersist := s.(client := Client.SetAccessKeyStep(s.client, raw, o).state);
      atPersist.client.ready && atPersist.client.serverIP == o.server &&
      (DialLoops(setup, atPersist, block, dialed) <==>
        Catching(setup, s) && V4(dialed) != s.pushed && Outside(setup, s, block, dialed))
  {
    SetKeyOutcome(s.client, raw, o);
    LoopsExactly(setup, s.(client := Client.SetAccessKeyStep(s.client, raw, o).state), block, dialed);
  }

  // The fetch of a dynamic key is a direct dial nobody pushed an address for. In
  // exclude mode it leaves the host exactly when the key's host is private,
  // pushed or listed; otherwise the transparent proxy gets it and refuses it as
  // long as the client is not ready, whatever the tunnel would answer.
  lemma KeyFetchRefused(setup: Setup, s: State, block: Option<HostMatcher>, p: Packet, d: Client.DialOutcome)
    requires ExcludesLocally(s) && Redirectable(s.gateway.cfg, p) && !s.client.ready
    ensures var e := PushedEngine(setup, s);
      (Redirected(s.gateway.cfg, e, p) <==>
        !IsPrivate(p.daddr) && V4(p.daddr) != s.pushed && V4(p.daddr) != setup.amneziaEndpoint &&
        !Covered(s.nets, p.daddr)) &&
      (Redirected(s.gateway.cfg, e, p) ==>
        LocalFate(s.gateway.cfg, e, block, p) == (if Blocked(block, p.daddr) then Drop else Tunnel) &&
        Client.DialStep(s.client, setup.settings, d) == Client.DialResult(s.client, Some(Client.NOT_READY)))
  {
    var e := PushedEngine(setup, s);
    OutputVerdict(s.gateway.cfg, e, p);
    BypassIPsExact(s.pushed, setup.amneziaEndpoint);
    RedirectedDecides(setup, s, block, p);
  }

  lemma RedirectedDecides(setup: Setup, s: State, block: Option<HostMatcher>, p: Packet)
    requires ExcludesLocally(s)
    ensures var e := PushedEngine(setup, s);
      !IsServer(e, p.daddr) && !Covered(s.nets, p.daddr) ==>
        DecidePath(Some(p.daddr), Some(e), None, block).via == if Blocked(block, p.daddr) then Drop else Tunnel
  {
  }

  // c' uses the server and the key of c.
  predicate SameServer(c: Client.State, c': Client.State) {
    c'.serverIP == c.serverIP && c'.accessKey == c.accessKey
  }

  lemma ReadyConnectPhase(setup: Setup, c: Client.State, l: Supervisor.Loop, r: Supervisor.Round)
    requires c.ready
    ensures match Supervisor.ConnectPhase(setup.plan, setup.settings, c, l, r)
            case Done(t) => SameServer(c, t.client)
            case Onward(c1, _, n1) => SameServer(c, c1) && n1 == []
  {
    DialKeepsServer(setup, c, r.connProbe);
  }

  lemma StaticRefreshPhase(setup: Setup, c: Client.State, l: Supervisor.Loop, n: seq<bool>, r: Supervisor.Round)
    requires l.lastRefresh.Some? && !Client.IsDynamicKey(c.accessKey)
    ensures var p := Supervisor.RefreshPhase(setup.plan, setup.settings, c, l, n, r);
      p.Onward? && p.client == c && p.notes == n
  {
  }

  lemma ProbePhaseServer(setup: Setup, c: Client.State, l: Supervisor.Loop, n: seq<bool>, r: Supervisor.Round)
    requires l.lastProbe.Some?
    ensures SameServer(c, Supervisor.ClientOf(Supervisor.ProbePhase(setup.plan, setup.settings, c, l, n, r)))
  {
    DialKeepsServer(setup, c, r.dueProbe);
  }

  // Rounds do not repair a moved server: with a static key, a round that finds
  // the client ready pushes nothing, and the client keeps its server.
  lemma ReadyRoundPushesNothing(setup: Setup, s: State, r: Supervisor.Round, f: Gateway.Faults, g: Gateway.Faults)
    requires s.client.ready && !Client.IsDynamicKey(s.client.accessKey)
    ensures var s' := RoundEvent(setup, s, r, f, g);
      s'.pushed == s.pushed && s'.nets == s.nets && s'.gateway == s.gateway && SameServer(s.client, s'.client)
  {
    ReadyConnectPhase(setup, s.client, s.loop, r);
    var p1 := Supervisor.ConnectPhase(setup.plan, setup.settings, s.client, s.loop, r);
    if p1.Onward? {
      var l2 := Dated(p1.loop, r);
      StaticRefreshPhase(setup, p1.client, l2, p1.notes, r);
      var p3 := Supervisor.RefreshPhase(setup.plan, setup.settings, p1.client, l2, p1.notes, r);
      ProbePhaseServer(setup, p3.client, p3.loop, p3.notes, r);
    }
  }
}
