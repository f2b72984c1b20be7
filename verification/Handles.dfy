// cmd/outline-gate/main.go and internal/gateway: several Gateway objects over
// one kernel. A reload replaces the gateway under the lock of main, but the start
// loop and RestartServices read it under that lock and call Apply after
// unlocking, so a gateway that was replaced in between can still apply.
module Handles {
  import opened Text
  import opened NetAddr
  import opened Routing
  import opened Nft
  import opened Gateway

  datatype Handle = Handle(cfg: Config, engine: Engine, active: bool)

  // handles in the order of their creation, the last one current; held maps a
  // thread to the gateway it has read and not yet applied.
  datatype World = World(handles: seq<Handle>, table: Ruleset, held: map<nat, nat>)

  datatype Act =
    | Read(t: nat)                                 // g := gw under the lock
    | ApplyRead(t: nat, faults: Faults)            // g.Apply()
    | Push(engine: Engine, faults: Faults)         // rebuildPush, on the current gateway
    | Reload(cfg: Config, engine: Engine)          // gateway.New in the reload

  function View(w: World, k: nat): State
    requires k < |w.handles|
  {
    State(w.handles[k].cfg, Some(w.handles[k].engine), w.handles[k].active, w.table)
  }

  predicate WellHeld(w: World) {
    w.handles != [] && forall t :: t in w.held ==> w.held[t] < |w.handles|
  }

  function Current(w: World): nat
    requires w.handles != []
  {
    |w.handles| - 1
  }

  // The gateway and the kernel after an operation of handle k.
  function Store(w: World, k: nat, g: State): World
    requires k < |w.handles| && g.engine.Some?
  {
    w.(handles := w.handles[k := Handle(g.cfg, g.engine.value, g.active)], table := g.table)
  }

  lemma EngineStays(g: State, f: Faults)
    requires g.engine.Some?
    ensures ApplyStep(g, f).state.engine == g.engine && ApplyStep(g, f).state.cfg == g.cfg
  {
  }

  function Do(w: World, a: Act): (w': World)
    requires WellHeld(w)
    ensures WellHeld(w')
  {
    match a
    case Read(t) => w.(held := w.held[t := Current(w)])
    case ApplyRead(t, f) =>
      if t !in w.held then w
      else
        EngineStays(View(w, w.held[t]), f);
        Store(w, w.held[t], ApplyStep(View(w, w.held[t]), f).state).(held := w.held - {t})
    case Push(e, f) =>
      EngineStays(View(w, Current(w)).(engine := Some(e)), f);
      Store(w, Current(w), Step(View(w, Current(w)), UpdateEngineOp(Some(e), f)).state)
    case Reload(cfg, e) => w.(handles := w.handles + [Handle(cfg, e, false)])
  }

  // With a single gateway that nobody replaces, reading it and applying it is
  // Apply, and a push is UpdateEngine.
  lemma SingleGateway(w: World, t: nat, e: Engine, f: Faults)
    requires WellHeld(w) && |w.handles| == 1
    ensures var r := Do(Do(w, Read(t)), ApplyRead(t, f));
      |r.handles| == 1 && View(r, 0) == ApplyStep(View(w, 0), f).state && t !in r.held
    ensures var r := Do(w, Push(e, f));
      |r.handles| == 1 && View(r, 0) == Step(View(w, 0), UpdateEngineOp(Some(e), f)).state && r.held == w.held
  {
    EngineStays(View(w, 0), f);
    EngineStays(View(w, 0).(engine := Some(e)), f);
  }

  // While the current gateway is active, the kernel holds its table; and an
  // active gateway has a port.
  predicate Consistent(w: World)
    requires WellHeld(w)
  {
    Inv(View(w, Current(w))) &&
    forall k :: 0 <= k < |w.handles| && w.handles[k].active ==> w.handles[k].cfg.port > 0
  }

  predicate SameSets(a: Engine, b: Engine) {
    AsSet(Emitted(BypassNets(a))) == AsSet(Emitted(BypassNets(b))) &&
    AsSet(Emitted(a.tunnel)) == AsSet(Emitted(b.tunnel))
  }

  // A replaced gateway applies and leaves the active current one with a table
  // that is not its own: it patches other sets in, or its rebuild deletes the
  // table and installs nothing or another one, or appends.
  predicate Clashes(w: World, a: Act)
    requires WellHeld(w)
  {
    a.ApplyRead? && a.t in w.held && w.held[a.t] != Current(w) && w.handles[Current(w)].active &&
    var stale, now := w.handles[w.held[a.t]], w.handles[Current(w)];
    if stale.active && !a.faults.patch then !SameSets(stale.engine, now.engine)
    else
      stale.cfg.port > 0 &&
      if a.faults.del != NoFault then !a.faults.apply
      else a.faults.apply || Chains(stale.cfg) != Chains(now.cfg) || !SameSets(stale.engine, now.engine)
  }

  // The current gateway itself appends to a table it cannot delete.
  predicate OwnAppend(w: World, a: Act)
    requires WellHeld(w)
  {
    match a
    case Push(e, f) => Appends(View(w, Current(w)), UpdateEngineOp(Some(e), f))
    case ApplyRead(t, f) => t in w.held && w.held[t] == Current(w) && Appends(View(w, Current(w)), ApplyOp(f))
    case _ => false
  }

  lemma SameTable(a: Config, b: Config, e: Engine, g: Engine)
    ensures Compile(a, e) == Compile(b, g) <==> Chains(a) == Chains(b) && SameSets(e, g)
  {
    var s, t := Compile(a, e), Compile(b, g);
    assert s.sets[BypassSet] == AsSet(Emitted(BypassNets(e))) && t.sets[BypassSet] == AsSet(Emitted(BypassNets(g)));
    assert s.sets[TunnelSet] == AsSet(Emitted(e.tunnel)) && t.sets[TunnelSet] == AsSet(Emitted(g.tunnel));
  }

  // ---- What an apply does to the table ----

  lemma NoDeleteInPatch(e: Engine)
    ensures DeleteTable !in PatchScript(e)
  {
    assert DeleteTable !in [FlushSet(BypassSet)] + Elements(BypassSet, Emitted(BypassNets(e)));
    assert DeleteTable !in [FlushSet(TunnelSet)] + Elements(TunnelSet, Emitted(e.tunnel));
  }

  lemma PatchNeedsTable(e: Engine)
    ensures RunScript(PatchScript(e), None).Failed?
  {
    assert PatchScript(e)[0] == FlushSet(BypassSet);
  }

  // Whatever table is there, an apply leaves a table a gateway installed, or none,
  // and only a gateway with a port becomes active.
  lemma ApplyInstalled(g: State, f: Faults)
    requires Installed(g.table) && g.engine.Some? && (g.active ==> g.cfg.port > 0)
    ensures var r := ApplyStep(g, f).state; Installed(r.table) && (r.active ==> r.cfg.port > 0)
  {
    var patch := PatchScript(g.engine.value);
    if g.active && !f.patch && RunScript(patch, g.table).Applied? {
      NoDeleteInPatch(g.engine.value);
      PatchNeedsTable(g.engine.value);
      ScriptKeepsRules(patch, g.table, Prerouting);
    } else if g.cfg.port > 0 {
      RebuildInstalled(g, f);
    }
  }

  lemma RebuildInstalled(g: State, f: Faults)
    requires Installed(g.table) && g.engine.Some? && g.cfg.port > 0
    ensures Installed(RebuildStep(g, f).state.table)
  {
    DeleteTableEffect(g.table, f.del);
    if f.del != NoFault && g.table.Some? {
      DirtyRebuild(g.(active := false), f);
      assert RebuildStep(g, f) == RebuildStep(g.(active := false), f);
    } else {
      RebuildKeepsInv(g, f);
    }
  }

  // What the apply of a replaced gateway leaves where the current table was.
  lemma StaleOutcome(g: State, now: Config, e: Engine, f: Faults)
    requires g.engine.Some? && (g.active ==> g.cfg.port > 0) && g.table == Some(Compile(now, e))
    ensures var r := ApplyStep(g, f).state;
      if g.active && !f.patch then r.table == Some(Compile(now, g.engine.value))
      else if g.cfg.port <= 0 || (f.del != NoFault && f.apply) then r.table == g.table
      else if f.del != NoFault then r.table.Some? && Swollen(r.table.value)
      else r.table == if f.apply then None else Some(Compile(g.cfg, g.engine.value))
  {
    if g.active && !f.patch {
      StalePatch(g, now, e, f);
    } else {
      StaleReaches(g, now, e, f);
      if g.cfg.port > 0 {
        CompiledInstalled(now, e);
        StaleRebuild(g, f);
      }
    }
  }

  lemma CompiledInstalled(cfg: Config, e: Engine)
    ensures Installed(Some(Compile(cfg, e)))
  {
  }

  lemma StalePatch(g: State, now: Config, e: Engine, f: Faults)
    requires g.engine.Some? && g.active && !f.patch && g.table == Some(Compile(now, e))
    ensures ApplyStep(g, f).state.table == Some(Compile(now, g.engine.value))
  {
    var t := Compile(now, e);
    PatchEqualsRebuild(now, t.sets[BypassSet], t.sets[TunnelSet], g.engine.value);
  }

  lemma StaleReaches(g: State, now: Config, e: Engine, f: Faults)
    requires g.engine.Some? && !(g.active && !f.patch)
    ensures ApplyStep(g, f) == RebuildStep(g, f)
    ensures g.cfg.port <= 0 ==> RebuildStep(g, f).state == g
  {
  }

  lemma StaleRebuild(g: State, f: Faults)
    requires g.engine.Some? && g.cfg.port > 0 && Installed(g.table)
    ensures var r := RebuildStep(g, f).state;
      if f.del != NoFault && g.table.Some?
      then (if f.apply then r.table == g.table else r.table.Some? && Swollen(r.table.value))
      else r.table == if f.apply then None else Some(Compile(g.cfg, g.engine.value))
  {
    if f.del != NoFault && g.table.Some? {
      DirtyRebuild(g.(active := false), f);
      assert RebuildStep(g, f).state.table == RebuildStep(g.(active := false), f).state.table;
    } else {
      RebuildKeepsInv(g, f);
    }
  }

  // ---- When the current gateway and the kernel stay together ----

  // An active view whose table is replaced keeps the invariant exactly when the
  // new table is the compiled one.
  lemma RetabledInv(g: State, r: Ruleset)
    requires Inv(g) && g.active && g.engine.Some?
    ensures Inv(g.(table := r)) <==> r == Some(Compile(g.cfg, g.engine.value))
  {
  }

  lemma StaleApplyExact(w: World, t: nat, f: Faults)
    requires WellHeld(w) && Consistent(w) && t in w.held && w.held[t] != Current(w)
    ensures Consistent(Do(w, ApplyRead(t, f))) <==> !Clashes(w, ApplyRead(t, f))
  {
    var g := View(w, w.held[t]);
    var now := w.handles[Current(w)];
    var w' := Do(w, ApplyRead(t, f));
    ApplyInstalled(g, f);
    var r := ApplyStep(g, f).state;
    EngineStays(g, f);
    assert View(w', Current(w')) == View(w, Current(w)).(table := r.table);
    if now.active {
      StaleOutcome(g, now.cfg, now.engine, f);
      RetabledInv(View(w, Current(w)), r.table);
      SameTable(now.cfg, now.cfg, g.engine.value, now.engine);
      SameTable(g.cfg, now.cfg, g.engine.value, now.engine);
      NotSwollen(now.cfg, now.engine);
    }
  }

  lemma NotSwollen(cfg: Config, e: Engine)
    ensures !Swollen(Compile(cfg, e))
  {
    SwollenIsNotCompiled(cfg, AsSet(Emitted(BypassNets(e))), AsSet(Emitted(e.tunnel)));
  }

  // An operation of the current gateway itself.
  lemma OwnStep(w: World, op: Op, w': World)
    requires WellHeld(w) && Consistent(w) && (op.ApplyOp? || (op.UpdateEngineOp? && op.engine.Some?))
    requires var g := Step(View(w, Current(w)), op).state;
      g.engine.Some? && g.cfg == w.handles[Current(w)].cfg && WellHeld(w') &&
      w' == Store(w, Current(w), g).(held := w'.held)
    ensures Consistent(w') <==> !Appends(View(w, Current(w)), op)
  {
    var g := View(w, Current(w));
    StepInvExact(g, op);
    if op.ApplyOp? {
      ApplyInstalled(g, op.faults);
    } else if g.active {
      ApplyInstalled(g.(engine := op.engine), op.faults);
    }
    assert View(w', Current(w')) == Step(g, op).state;
  }

  // Every action keeps the current gateway and the kernel together, except
  // exactly a clashing apply of a replaced gateway and an append of its own.
  lemma DoExact(w: World, a: Act)
    requires WellHeld(w) && Consistent(w)
    ensures Consistent(Do(w, a)) <==> !Clashes(w, a) && !OwnAppend(w, a)
  {
    match a
    case Read(t) =>
      assert View(Do(w, a), Current(w)) == View(w, Current(w));
    case ApplyRead(t, f) =>
      if t in w.held && w.held[t] != Current(w) {
        StaleApplyExact(w, t, f);
      } else if t in w.held {
        EngineStays(View(w, Current(w)), f);
        OwnStep(w, ApplyOp(f), Do(w, a));
      }
    case Push(e, f) =>
      EngineStays(View(w, Current(w)).(engine := Some(e)), f);
      OwnStep(w, UpdateEngineOp(Some(e), f), Do(w, a));
    case Reload(cfg, e) =>
      assert View(Do(w, a), Current(w) + 1) == State(cfg, Some(e), false, w.table);
  }

  function Run(w: World, acts: seq<Act>): (r: World)
    requires WellHeld(w)
    ensures WellHeld(r)
    decreases |acts|
  {
    if acts == [] then w else Run(Do(w, acts[0]), acts[1..])
  }

  ghost predicate ConsistentThroughout(w: World, acts: seq<Act>)
    requires WellHeld(w)
    decreases |acts|
  {
    Consistent(w) && (acts != [] ==> ConsistentThroughout(Do(w, acts[0]), acts[1..]))
  }

  ghost predicate NoClash(w: World, acts: seq<Act>)
    requires WellHeld(w)
    decreases |acts|
  {
    acts != [] ==> !Clashes(w, acts[0]) && !OwnAppend(w, acts[0]) && NoClash(Do(w, acts[0]), acts[1..])
  }

  // Over every interleaving of reads, applies, pushes and reloads, with any nft
  // failures: the active current gateway always has its own table in the kernel
  // if and only if no replaced gateway clashed and no rebuild appended.
  lemma {:induction false} RunExact(w: World, acts: seq<Act>)
    requires WellHeld(w) && Consistent(w)
    ensures ConsistentThroughout(w, acts) <==> NoClash(w, acts)
    decreases |acts|
  {
    if acts != [] {
      DoExact(w, acts[0]);
      if Consistent(Do(w, acts[0])) {
        RunExact(Do(w, acts[0]), acts[1..]);
      } else {
        assert !ConsistentThroughout(Do(w, acts[0]), acts[1..]);
      }
    }
  }

  const FINE: Faults := Faults(false, NoFault, false)

  // An inactive gateway that applies without any nft failure.
  lemma FirstApply(w: World, t: nat)
    requires WellHeld(w) && t in w.held
    requires !w.handles[w.held[t]].active && w.handles[w.held[t]].cfg.port > 0
    ensures var h := w.handles[w.held[t]];
      var w' := Do(w, ApplyRead(t, FINE));
      w'.handles == w.handles[w.held[t] := h.(active := true)] &&
      w'.table == Some(Compile(h.cfg, h.engine)) && w'.held == w.held - {t}
  {
    RebuildKeepsInv(View(w, w.held[t]), FINE);
  }

  lemma BothApply(a: Handle, b: Handle, t: nat, u: nat)
    requires !a.active && !b.active && a.cfg.port > 0 && b.cfg.port > 0 && t != u
    ensures var w := World([a, b], None, map[t := 0, u := 1]);
      WellHeld(w) &&
      Do(Do(w, ApplyRead(u, FINE)), ApplyRead(t, FINE)) ==
        World([a.(active := true), b.(active := true)], Some(Compile(a.cfg, a.engine)), map[])
  {
    var w := World([a, b], None, map[t := 0, u := 1]);
    FirstApply(w, u);
    var w1 := Do(w, ApplyRead(u, FINE));
    assert w1 == World([a, b.(active := true)], Some(Compile(b.cfg, b.engine)), map[t := 0]);
    FirstApply(w1, t);
    assert w1.held - {t} == map[];
  }

  function StaleSchedule(cfg: Config, e: Engine, t: nat, u: nat): seq<Act> {
    [Read(t), Reload(cfg, e), Read(u)] + [ApplyRead(u, FINE), ApplyRead(t, FINE)]
  }

  lemma StaleRun(a: Handle, cfg: Config, e: Engine, t: nat, u: nat)
    requires !a.active && a.cfg.port > 0 && cfg.port > 0 && t != u
    ensures Run(World([a], None, map[]), StaleSchedule(cfg, e, t, u)) ==
      World([a.(active := true), Handle(cfg, e, true)], Some(Compile(a.cfg, a.engine)), map[])
  {
    var w, h := World([a], None, map[]), Handle(cfg, e, false);
    var read := World([a, h], None, map[t := 0, u := 1]);
    RunConcat(w, [Read(t), Reload(cfg, e), Read(u)], [ApplyRead(u, FINE), ApplyRead(t, FINE)]);
    RunThree(w, Read(t), Reload(cfg, e), Read(u));
    ReadTwice(a, cfg, e, t, u);
    RunTwo(read, ApplyRead(u, FINE), ApplyRead(t, FINE));
    BothApply(a, h, t, u);
  }

  // Such a run: the start loop reads the gateway, a reload replaces and applies
  // it, and then the start loop applies. Without any nft failure the current
  // gateway ends active over the old table, unless both compile to the same one.
  lemma StaleStart(a: Handle, cfg: Config, e: Engine, t: nat, u: nat)
    requires !a.active && a.cfg.port > 0 && cfg.port > 0 && t != u
    ensures var w := World([a], None, map[]);
      var r := Run(w, StaleSchedule(cfg, e, t, u));
      Consistent(w) && r.handles[Current(r)] == Handle(cfg, e, true) && r.table == Some(Compile(a.cfg, a.engine)) &&
      (Consistent(r) <==> Compile(a.cfg, a.engine) == Compile(cfg, e))
  {
    StaleRun(a, cfg, e, t, u);
    ActiveConsistent(World([a.(active := true), Handle(cfg, e, true)], Some(Compile(a.cfg, a.engine)), map[]));
  }

  lemma ReadTwice(a: Handle, cfg: Config, e: Engine, t: nat, u: nat)
    requires t != u
    ensures Do(Do(Do(World([a], None, map[]), Read(t)), Reload(cfg, e)), Read(u)) ==
      World([a, Handle(cfg, e, false)], None, map[t := 0, u := 1])
  {
  }

  lemma ActiveConsistent(w: World)
    requires WellHeld(w) && w.handles[Current(w)].active && Installed(w.table)
    requires forall k :: 0 <= k < |w.handles| ==> w.handles[k].cfg.port > 0
    ensures Consistent(w) <==> w.table == Some(Compile(w.handles[Current(w)].cfg, w.handles[Current(w)].engine))
  {
  }

  lemma {:induction false} RunConcat(w: World, a: seq<Act>, b: seq<Act>)
    requires WellHeld(w)
    ensures Run(w, a + b) == Run(Run(w, a), b)
    decreases |a|
  {
    if a == [] {
      assert a + b == b;
    } else {
      assert (a + b)[1..] == a[1..] + b;
      RunConcat(Do(w, a[0]), a[1..], b);
    }
  }

  lemma RunTwo(w: World, a: Act, b: Act)
    requires WellHeld(w)
    ensures Run(w, [a, b]) == Do(Do(w, a), b)
  {
    RunCons(w, a, [b]);
    RunCons(Do(w, a), b, []);
    assert [a] + [b] == [a, b] && [b] + [] == [b];
  }

  lemma RunThree(w: World, a: Act, b: Act, c: Act)
    requires WellHeld(w)
    ensures Run(w, [a, b, c]) == Do(Do(Do(w, a), b), c)
  {
    RunCons(w, a, [b, c]);
    RunTwo(Do(w, a), b, c);
    assert [a] + [b, c] == [a, b, c];
  }

  lemma RunCons(w: World, a: Act, rest: seq<Act>)
    requires WellHeld(w)
    ensures Run(w, [a] + rest) == Run(Do(w, a), rest)
  {
    assert ([a] + rest)[1..] == rest;
  }
}
