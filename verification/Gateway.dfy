// internal/gateway: compiling a routing engine into the nftables table, the
// incremental set patch, and the lifecycle of the installed rules.
module Gateway {
  import opened Text
  import opened NetAddr
  import opened Routing
  import opened Nft

  // ---- The table the configuration and the engine stand for ----

  const QUIC_PORTS: set<int> := {443, 5228}
  const LOOPBACK_NET: IPNet := V4Net(OctetsToAddr(127, 0, 0, 0), 8)

  function PreroutingRules(cfg: Config): seq<Rule> {
    [Rule([TcpDport(cfg.port)], Return),
     Rule([DaddrIn(PrivateSet)], Return),
     Rule([ProtoTcp], Redirect(cfg.port))]
  }

  // A rule that lets packets leaving through the AmneziaWG device pass, when one is named.
  function SkipAmnezia(cfg: Config): seq<Rule> {
    var iface := TrimSpace(cfg.amneziaIface);
    if iface == "" then [] else [Rule([OifName(iface)], Return)]
  }

  function OutputTail(cfg: Config): seq<Rule> {
    match cfg.mode
    case Include => [Rule([DaddrIn(TunnelSet), ProtoTcp], Redirect(cfg.port))]
    case _ => [Rule([DaddrIn(BypassSet)], Return), Rule([ProtoTcp], Redirect(cfg.port))]
  }

  function OutputRules(cfg: Config): seq<Rule> {
    [Rule([TcpDport(cfg.port)], Return)] + SkipAmnezia(cfg) +
    [Rule([SaddrIn(PrivateSet)], Return), Rule([DaddrIn(PrivateSet)], Return)] + OutputTail(cfg)
  }

  function FilterOutRules(cfg: Config): seq<Rule> {
    [Rule([DaddrIn(PrivateSet)], Return), Rule([DaddrIn(BypassSet)], Return)] + SkipAmnezia(cfg) +
    [Rule([UdpDport(QUIC_PORTS)], Reject)]
  }

  const FILTER_FWD_RULES: seq<Rule> :=
    [Rule([DaddrIn(PrivateSet)], Return), Rule([UdpDport(QUIC_PORTS)], Reject)]

  function PostroutingRules(cfg: Config): seq<Rule> {
    var lan := TrimSpace(cfg.lanInterface);
    [Rule([SaddrNet(LOOPBACK_NET)], Return), Rule([OifName("lo")], Return)] + SkipAmnezia(cfg) +
    [if lan != "" then Rule([OifName(lan)], Masquerade) else Rule([], Masquerade)]
  }

  function Chains(cfg: Config): map<ChainName, seq<Rule>> {
    var always :=
      map[Prerouting := PreroutingRules(cfg), FilterFwd := FILTER_FWD_RULES, Postrouting := PostroutingRules(cfg)];
    if cfg.outputEnable
    then always[Output := OutputRules(cfg)][FilterOut := FilterOutRules(cfg)]
    else always[Output := []]
  }

  function AsSet(nets: seq<IPNet>): set<IPNet> {
    set n | n in nets
  }

  // The table for a configuration whose @bypass and @tunnel hold the given elements.
  function TableWith(cfg: Config, bypass: set<IPNet>, tunnel: set<IPNet>): Table {
    Table(map[PrivateSet := AsSet(DEFAULT_BYPASS), BypassSet := bypass, TunnelSet := tunnel], Chains(cfg))
  }

  function OnlyV4(nets: seq<IPNet>): seq<IPNet> {
    if nets == [] then []
    else
      var front, last := OnlyV4(nets[..|nets| - 1]), nets[|nets| - 1];
      if last.V4Net? then front + [last] else front
  }

  // The networks addIPv4SetElements emits: IPv4 only, each once, in order.
  function Emitted(nets: seq<IPNet>): seq<IPNet> {
    Dedup(OnlyV4(nets))
  }

  function Compile(cfg: Config, e: Engine): Table {
    TableWith(cfg, AsSet(Emitted(BypassNets(e))), AsSet(Emitted(e.tunnel)))
  }

  // ---- Kernel sets against the userspace decision ----

  lemma {:induction false} OnlyV4Members(nets: seq<IPNet>)
    ensures forall n :: n in OnlyV4(nets) <==> n in nets && n.V4Net?
  {
    if nets != [] {
      OnlyV4Members(nets[..|nets| - 1]);
      assert nets == nets[..|nets| - 1] + [nets[|nets| - 1]];
    }
  }

  lemma EmittedMembers(nets: seq<IPNet>)
    ensures forall n :: n in Emitted(nets) <==> n in nets && n.V4Net?
  {
    OnlyV4Members(nets);
    DedupMembers(OnlyV4(nets));
  }

  // For every IPv4 address, @bypass membership is what isServer or
  // containsIP(Bypass) answers, and @tunnel membership what containsIP(Tunnel) answers.
  lemma KernelSetsMatchEngine(cfg: Config, e: Engine, ip: Addr)
    ensures InSet(Compile(cfg, e), BypassSet, ip) <==> IsServer(e, ip) || Covered(e.bypass, ip)
    ensures InSet(Compile(cfg, e), TunnelSet, ip) <==> Covered(e.tunnel, ip)
    ensures InSet(Compile(cfg, e), PrivateSet, ip) <==> IsPrivate(ip)
    ensures e.mode == Exclude ==>
      (Decide(e, Some(ip)) == Tunnel <==> !InSet(Compile(cfg, e), BypassSet, ip))
  {
    EmittedMembers(BypassNets(e));
    EmittedMembers(e.tunnel);
    BypassNetsCoverage(e, ip);
    var t := Compile(cfg, e);
    assert InSet(t, BypassSet, ip) <==> Covered(BypassNets(e), ip) by {
      if Covered(BypassNets(e), ip) {
        var n :| n in BypassNets(e) && Contains(n, ip);
        assert n in t.sets[BypassSet];
      }
    }
    assert InSet(t, TunnelSet, ip) <==> Covered(e.tunnel, ip) by {
      if Covered(e.tunnel, ip) {
        var n :| n in e.tunnel && Contains(n, ip);
        assert n in t.sets[TunnelSet];
      }
    }
    assert InSet(t, PrivateSet, ip) <==> IsPrivate(ip) by {
      if IsPrivate(ip) {
        var n :| n in DEFAULT_BYPASS && Contains(n, ip);
        assert n in t.sets[PrivateSet];
      }
    }
  }

  // ---- The emitted scripts ----

  function Elements(s: SetName, nets: seq<IPNet>): seq<Command> {
    seq(|nets|, i requires 0 <= i < |nets| => AddElement(s, nets[i]))
  }

  function RuleCommands(c: ChainName, rules: seq<Rule>): seq<Command> {
    seq(|rules|, i requires 0 <= i < |rules| => AddRule(c, rules[i]))
  }

  function SetsScript(e: Engine): seq<Command> {
    [AddTable, AddSet(PrivateSet)] + Elements(PrivateSet, DEFAULT_BYPASS) +
    ([AddSet(BypassSet)] + Elements(BypassSet, Emitted(BypassNets(e)))) +
    ([AddSet(TunnelSet)] + Elements(TunnelSet, Emitted(e.tunnel)))
  }

  function PreroutingScript(cfg: Config): seq<Command> {
    [AddChain(Prerouting), AddChain(Output)] + RuleCommands(Prerouting, PreroutingRules(cfg))
  }

  function OutputScript(cfg: Config): seq<Command> {
    if cfg.outputEnable
    then RuleCommands(Output, OutputRules(cfg)) + ([AddChain(FilterOut)] + RuleCommands(FilterOut, FilterOutRules(cfg)))
    else []
  }

  function TailScript(cfg: Config): seq<Command> {
    ([AddChain(FilterFwd)] + RuleCommands(FilterFwd, FILTER_FWD_RULES)) +
    ([AddChain(Postrouting)] + RuleCommands(Postrouting, PostroutingRules(cfg)))
  }

  function BuildScript(cfg: Config, e: Engine): seq<Command> {
    SetsScript(e) + (PreroutingScript(cfg) + OutputScript(cfg) + TailScript(cfg))
  }

  function PatchScript(e: Engine): seq<Command> {
    ([FlushSet(BypassSet)] + Elements(BypassSet, Emitted(BypassNets(e)))) +
    ([FlushSet(TunnelSet)] + Elements(TunnelSet, Emitted(e.tunnel)))
  }

  lemma EmittedNext(nets: seq<IPNet>, i: nat)
    requires i < |nets|
    ensures var before := Emitted(nets[..i]);
      Emitted(nets[..i + 1]) ==
        if nets[i].V4Net? && nets[i] !in before then before + [nets[i]] else before
  {
    assert nets[..i + 1][..i] == nets[..i];
    if nets[i].V4Net? {
      assert OnlyV4(nets[..i + 1]) == OnlyV4(nets[..i]) + [nets[i]];
      assert OnlyV4(nets[..i + 1])[..|OnlyV4(nets[..i])|] == OnlyV4(nets[..i]);
    }
  }

  // addIPv4SetElements: skip IPv6, skip networks whose text was seen.
  method AddIPv4SetElements(s: SetName, nets: seq<IPNet>) returns (cmds: seq<Command>)
    ensures cmds == Elements(s, Emitted(nets))
  {
    var seen: set<string> := {};
    ghost var kept: seq<IPNet> := [];
    cmds := [];
    for i := 0 to |nets|
      invariant kept == Emitted(nets[..i]) && cmds == Elements(s, kept)
      invariant forall n :: NetString(n) in seen <==> n in kept
    {
      EmittedNext(nets, i);
      StringsIdentify(nets[i]);
      var n := nets[i];
      if n.V4Net? {
        var k := NetString(n);
        if k !in seen {
          seen := seen + {k};
          kept := kept + [n];
          cmds := cmds + [AddElement(s, n)];
        }
      }
    }
    assert nets[..|nets|] == nets;
  }

  method EmitRules(c: ChainName, rules: seq<Rule>) returns (cmds: seq<Command>)
    ensures cmds == RuleCommands(c, rules)
  {
    cmds := [];
    for i := 0 to |rules|
      invariant cmds == RuleCommands(c, rules[..i])
    {
      cmds := cmds + [AddRule(c, rules[i])];
      assert rules[..i + 1] == rules[..i] + [rules[i]];
      assert |cmds| == |rules[..i + 1]|;
    }
    assert rules[..|rules|] == rules;
  }

  // The table and set part of buildNFTScript.
  method EmitSets(e: Engine) returns (b: seq<Command>)
    ensures b == SetsScript(e)
  {
    b := [AddTable, AddSet(PrivateSet)];
    for i := 0 to |DEFAULT_BYPASS|
      invariant b == [AddTable, AddSet(PrivateSet)] + Elements(PrivateSet, DEFAULT_BYPASS[..i])
    {
      b := b + [AddElement(PrivateSet, DEFAULT_BYPASS[i])];
      assert DEFAULT_BYPASS[..i + 1] == DEFAULT_BYPASS[..i] + [DEFAULT_BYPASS[i]];
    }
    assert DEFAULT_BYPASS[..|DEFAULT_BYPASS|] == DEFAULT_BYPASS;
    var nets := BuildBypassNets(e);
    var cmds := AddIPv4SetElements(BypassSet, nets);
    b := b + ([AddSet(BypassSet)] + cmds);
    cmds := AddIPv4SetElements(TunnelSet, e.tunnel);
    b := b + ([AddSet(TunnelSet)] + cmds);
  }

  // The chain part of buildNFTScript, with appendOutputRedirect.
  method EmitChains(cfg: Config) returns (b: seq<Command>)
    ensures b == PreroutingScript(cfg) + OutputScript(cfg) + TailScript(cfg)
  {
    var cmds := EmitRules(Prerouting, PreroutingRules(cfg));
    var pre := [AddChain(Prerouting), AddChain(Output)] + cmds;
    var out := [];
    if cfg.outputEnable {
      cmds := EmitRules(Output, OutputRules(cfg));
      var filter := EmitRules(FilterOut, FilterOutRules(cfg));
      out := cmds + ([AddChain(FilterOut)] + filter);
    }
    cmds := EmitRules(FilterFwd, FILTER_FWD_RULES);
    var post := EmitRules(Postrouting, PostroutingRules(cfg));
    b := pre + out + (([AddChain(FilterFwd)] + cmds) + ([AddChain(Postrouting)] + post));
  }

  // buildNFTScript: fails without an engine or a positive port, and otherwise
  // emits a script that builds exactly the compiled table from nothing.
  method BuildNFTScript(cfg: Config, engine: Option<Engine>) returns (script: Option<seq<Command>>)
    ensures script == if engine.None? || cfg.port <= 0 then None else Some(BuildScript(cfg, engine.value))
    ensures script.Some? ==> RunScript(script.value, None) == Applied(Some(Compile(cfg, engine.value)))
  {
    if engine.None? || cfg.port <= 0 {
      return None;
    }
    var sets := EmitSets(engine.value);
    var chains := EmitChains(cfg);
    ScriptBuildsCompiled(cfg, engine.value);
    return Some(sets + chains);
  }

  // ---- What the scripts do ----

  lemma {:induction false} RunElements(s: SetName, nets: seq<IPNet>, t: Table)
    requires s in t.sets
    ensures RunScript(Elements(s, nets), Some(t)) ==
      Applied(Some(t.(sets := t.sets[s := t.sets[s] + AsSet(nets)])))
  {
    if nets == [] {
      assert t.sets[s] + AsSet(nets) == t.sets[s];
      assert t.sets[s := t.sets[s]] == t.sets;
    } else {
      var cmds := Elements(s, nets);
      var t' := t.(sets := t.sets[s := t.sets[s] + {nets[0]}]);
      assert cmds[1..] == Elements(s, nets[1..]);
      RunElements(s, nets[1..], t');
      assert AsSet(nets) == {nets[0]} + AsSet(nets[1..]);
      assert t.sets[s] + AsSet(nets) == t'.sets[s] + AsSet(nets[1..]);
      assert t'.sets[s := t'.sets[s] + AsSet(nets[1..])] == t.sets[s := t.sets[s] + AsSet(nets)];
    }
  }

  lemma {:induction false} RunRules(c: ChainName, rules: seq<Rule>, t: Table)
    requires c in t.chains
    ensures RunScript(RuleCommands(c, rules), Some(t)) ==
      Applied(Some(t.(chains := t.chains[c := t.chains[c] + rules])))
  {
    if rules == [] {
      assert t.chains[c] + rules == t.chains[c];
      assert t.chains[c := t.chains[c]] == t.chains;
    } else {
      var cmds := RuleCommands(c, rules);
      var t' := t.(chains := t.chains[c := t.chains[c] + [rules[0]]]);
      assert cmds[1..] == RuleCommands(c, rules[1..]);
      RunRules(c, rules[1..], t');
      assert t.chains[c] + rules == t'.chains[c] + rules[1..];
      assert t'.chains[c := t'.chains[c] + rules[1..]] == t.chains[c := t.chains[c] + rules];
    }
  }

  // "add set" or "flush set" followed by elements leaves the set with exactly those elements.
  lemma RunFill(cmd: Command, s: SetName, nets: seq<IPNet>, t: Table)
    requires (cmd == AddSet(s) && s !in t.sets) || (cmd == FlushSet(s) && s in t.sets)
    ensures RunScript([cmd] + Elements(s, nets), Some(t)) ==
      Applied(Some(t.(sets := t.sets[s := AsSet(nets)])))
  {
    var t' := t.(sets := t.sets[s := {}]);
    assert ([cmd] + Elements(s, nets))[1..] == Elements(s, nets);
    RunElements(s, nets, t');
    assert {} + AsSet(nets) == AsSet(nets);
    assert t'.sets[s := AsSet(nets)] == t.sets[s := AsSet(nets)];
  }

  lemma RunChain(c: ChainName, rules: seq<Rule>, t: Table)
    requires c !in t.chains
    ensures RunScript([AddChain(c)] + RuleCommands(c, rules), Some(t)) ==
      Applied(Some(t.(chains := t.chains[c := rules])))
  {
    var t' := t.(chains := t.chains[c := []]);
    assert ([AddChain(c)] + RuleCommands(c, rules))[1..] == RuleCommands(c, rules);
    RunRules(c, rules, t');
    assert [] + rules == rules;
    assert t'.chains[c := rules] == t.chains[c := rules];
  }

  lemma RunSetsScript(e: Engine)
    ensures RunScript(SetsScript(e), None) ==
      Applied(Some(Table(map[PrivateSet := AsSet(DEFAULT_BYPASS), BypassSet := AsSet(Emitted(BypassNets(e))),
                             TunnelSet := AsSet(Emitted(e.tunnel))], map[])))
  {
    var head := [AddTable, AddSet(PrivateSet)] + Elements(PrivateSet, DEFAULT_BYPASS);
    var t0 := Table(map[], map[]);
    assert head[1..] == [AddSet(PrivateSet)] + Elements(PrivateSet, DEFAULT_BYPASS);
    RunFill(AddSet(PrivateSet), PrivateSet, DEFAULT_BYPASS, t0);
    var t1 := t0.(sets := t0.sets[PrivateSet := AsSet(DEFAULT_BYPASS)]);
    assert RunScript(head, None) == Applied(Some(t1));
    var byp := [AddSet(BypassSet)] + Elements(BypassSet, Emitted(BypassNets(e)));
    RunFill(AddSet(BypassSet), BypassSet, Emitted(BypassNets(e)), t1);
    var t2 := t1.(sets := t1.sets[BypassSet := AsSet(Emitted(BypassNets(e)))]);
    RunConcat(head, byp, None);
    RunFill(AddSet(TunnelSet), TunnelSet, Emitted(e.tunnel), t2);
    RunConcat(head + byp, [AddSet(TunnelSet)] + Elements(TunnelSet, Emitted(e.tunnel)), None);
  }

  lemma RunPreroutingScript(cfg: Config, t: Table)
    requires t.chains == map[]
    ensures RunScript(PreroutingScript(cfg), Some(t)) ==
      Applied(Some(t.(chains := map[Prerouting := PreroutingRules(cfg), Output := []])))
  {
    var rules := PreroutingRules(cfg);
    var t1 := t.(chains := map[Prerouting := [], Output := []]);
    var script := PreroutingScript(cfg);
    assert script[1..][1..] == RuleCommands(Prerouting, rules);
    assert t.chains[Prerouting := []][Output := []] == t1.chains;
    RunRules(Prerouting, rules, t1);
    assert [] + rules == rules;
    assert t1.chains[Prerouting := rules] == map[Prerouting := rules, Output := []];
  }

  lemma RunOutputScript(cfg: Config, t: Table)
    requires Output in t.chains && t.chains[Output] == [] && FilterOut !in t.chains
    ensures RunScript(OutputScript(cfg), Some(t)) ==
      Applied(Some(t.(chains := if cfg.outputEnable
                                then t.chains[Output := OutputRules(cfg)][FilterOut := FilterOutRules(cfg)]
                                else t.chains)))
  {
    if cfg.outputEnable {
      RunRules(Output, OutputRules(cfg), t);
      assert [] + OutputRules(cfg) == OutputRules(cfg);
      var t1 := t.(chains := t.chains[Output := OutputRules(cfg)]);
      RunChain(FilterOut, FilterOutRules(cfg), t1);
      RunConcat(RuleCommands(Output, OutputRules(cfg)),
                [AddChain(FilterOut)] + RuleCommands(FilterOut, FilterOutRules(cfg)), Some(t));
    }
  }

  lemma RunTailScript(cfg: Config, t: Table)
    requires FilterFwd !in t.chains && Postrouting !in t.chains
    ensures RunScript(TailScript(cfg), Some(t)) ==
      Applied(Some(t.(chains := t.chains[FilterFwd := FILTER_FWD_RULES][Postrouting := PostroutingRules(cfg)])))
  {
    RunChain(FilterFwd, FILTER_FWD_RULES, t);
    var t1 := t.(chains := t.chains[FilterFwd := FILTER_FWD_RULES]);
    RunChain(Postrouting, PostroutingRules(cfg), t1);
    RunConcat([AddChain(FilterFwd)] + RuleCommands(FilterFwd, FILTER_FWD_RULES),
              [AddChain(Postrouting)] + RuleCommands(Postrouting, PostroutingRules(cfg)), Some(t));
  }

  lemma RunThen(a: seq<Command>, b: seq<Command>, r: Ruleset, r1: Ruleset, r2: Ruleset)
    requires RunScript(a, r) == Applied(r1) && RunScript(b, r1) == Applied(r2)
    ensures RunScript(a + b, r) == Applied(r2)
  {
    RunConcat(a, b, r);
  }

  function ChainsAfterOutput(cfg: Config): map<ChainName, seq<Rule>> {
    var pre := map[Prerouting := PreroutingRules(cfg), Output := []];
    if cfg.outputEnable then pre[Output := OutputRules(cfg)][FilterOut := FilterOutRules(cfg)] else pre
  }

  lemma ChainsAssembled(cfg: Config)
    ensures ChainsAfterOutput(cfg)[FilterFwd := FILTER_FWD_RULES][Postrouting := PostroutingRules(cfg)] == Chains(cfg)
  {
  }

  lemma RunChainScripts(cfg: Config, t: Table)
    requires t.chains == map[]
    ensures RunScript(PreroutingScript(cfg) + OutputScript(cfg) + TailScript(cfg), Some(t)) ==
      Applied(Some(t.(chains := Chains(cfg))))
  {
    var t1 := t.(chains := map[Prerouting := PreroutingRules(cfg), Output := []]);
    var t2 := t.(chains := ChainsAfterOutput(cfg));
    RunPreroutingScript(cfg, t);
    RunOutputScript(cfg, t1);
    RunThen(PreroutingScript(cfg), OutputScript(cfg), Some(t), Some(t1), Some(t2));
    RunTailScript(cfg, t2);
    ChainsAssembled(cfg);
    RunThen(PreroutingScript(cfg) + OutputScript(cfg), TailScript(cfg),
            Some(t), Some(t2), Some(t.(chains := Chains(cfg))));
  }

  // The full script, executed where no table exists, builds the compiled table.
  lemma ScriptBuildsCompiled(cfg: Config, e: Engine)
    ensures RunScript(BuildScript(cfg, e), None) == Applied(Some(Compile(cfg, e)))
  {
    RunSetsScript(e);
    var t := RunScript(SetsScript(e), None).rules.value;
    RunChainScripts(cfg, t);
    RunThen(SetsScript(e), PreroutingScript(cfg) + OutputScript(cfg) + TailScript(cfg),
            None, Some(t), Some(Compile(cfg, e)));
  }

  // The set patch for e, executed on any table built under the same
  // configuration, yields exactly the table a full rebuild would install.
  lemma PatchEqualsRebuild(cfg: Config, bypass: set<IPNet>, tunnel: set<IPNet>, e: Engine)
    ensures RunScript(PatchScript(e), Some(TableWith(cfg, bypass, tunnel))) == Applied(Some(Compile(cfg, e)))
    ensures RunScript(PatchScript(e), Some(TableWith(cfg, bypass, tunnel))) == RunScript(BuildScript(cfg, e), None)
  {
    ScriptBuildsCompiled(cfg, e);
    var t := TableWith(cfg, bypass, tunnel);
    RunPatchScript(e, t);
    SetsRefilled(bypass, tunnel, AsSet(Emitted(BypassNets(e))), AsSet(Emitted(e.tunnel)));
  }

  lemma RunPatchScript(e: Engine, t: Table)
    requires BypassSet in t.sets && TunnelSet in t.sets
    ensures RunScript(PatchScript(e), Some(t)) == Applied(Some(t.(
      sets := t.sets[BypassSet := AsSet(Emitted(BypassNets(e)))][TunnelSet := AsSet(Emitted(e.tunnel))])))
  {
    var byp, tun := Emitted(BypassNets(e)), Emitted(e.tunnel);
    var t1 := t.(sets := t.sets[BypassSet := AsSet(byp)]);
    RunFill(FlushSet(BypassSet), BypassSet, byp, t);
    RunFill(FlushSet(TunnelSet), TunnelSet, tun, t1);
    RunThen([FlushSet(BypassSet)] + Elements(BypassSet, byp), [FlushSet(TunnelSet)] + Elements(TunnelSet, tun),
            Some(t), Some(t1), Some(t1.(sets := t1.sets[TunnelSet := AsSet(tun)])));
  }

  lemma SetsRefilled(b0: set<IPNet>, t0: set<IPNet>, b: set<IPNet>, t: set<IPNet>)
    ensures map[PrivateSet := AsSet(DEFAULT_BYPASS), BypassSet := b0, TunnelSet := t0]
              [BypassSet := b][TunnelSet := t] ==
            map[PrivateSet := AsSet(DEFAULT_BYPASS), BypassSet := b, TunnelSet := t]
  {
  }

  // ---- Lifecycle ----

  // How a "delete table" call fails, as far as Flush tells errors apart.
  datatype Fault = NoFault | ReadsAsNotFound | OtherFault

  // Failures of the nft calls one operation may make, other than those the scripts cause.
  datatype Faults = Faults(patch: bool, del: Fault, apply: bool)

  datatype State = State(cfg: Config, engine: Option<Engine>, active: bool, table: Ruleset)

  datatype Op =
    | ApplyOp(faults: Faults)
    | UpdateEngineOp(engine: Option<Engine>, faults: Faults)
    | FlushOp(del: Fault)
    | ReplaceOp(cfg: Config, rebuilt: Engine)  // SIGHUP: a new Gateway over the same kernel

  datatype Result = Result(state: State, ok: bool)

  function DeleteTableStep(r: Ruleset, del: Fault): Ruleset {
    match Transact([DeleteTable], r, del != NoFault)
    case Applied(r') => r'
    case Failed => r
  }

  function RebuildStep(s: State, f: Faults): Result {
    if s.engine.None? || s.cfg.port <= 0 then Result(s, false)
    else
      var cleared := DeleteTableStep(s.table, f.del);
      match Transact(BuildScript(s.cfg, s.engine.value), cleared, f.apply)
      case Failed => Result(s.(active := false, table := cleared), false)
      case Applied(r) => Result(s.(active := true, table := r), true)
  }

  function ApplyStep(s: State, f: Faults): Result {
    if s.active && s.engine.Some? then
      match Transact(PatchScript(s.engine.value), s.table, f.patch)
      case Applied(r) => Result(s.(table := r), true)
      case Failed => RebuildStep(s, f)
    else RebuildStep(s, f)
  }

  function FlushStep(s: State, del: Fault): Result {
    Result(s.(active := false, table := DeleteTableStep(s.table, del)), del != OtherFault)
  }

  function Step(s: State, op: Op): Result {
    match op
    case ApplyOp(f) => ApplyStep(s, f)
    case UpdateEngineOp(e, f) =>
      var s' := s.(engine := e);
      if s.active then ApplyStep(s', f) else Result(s', true)
    case FlushOp(del) => FlushStep(s, del)
    case ReplaceOp(cfg, e) => Result(State(cfg, Some(e), false, s.table), true)
  }

  function Run(s: State, ops: seq<Op>): State
    decreases |ops|
  {
    if ops == [] then s else Run(Step(s, ops[0]).state, ops[1..])
  }

  // A table any Gateway installed: its prerouting chain is not empty.
  predicate Installed(r: Ruleset) {
    r.Some? ==> Prerouting in r.value.chains && r.value.chains[Prerouting] != []
  }

  // "active" means: the kernel holds a table of this configuration, and with
  // an engine set it is the table compiled from that engine.
  predicate Inv(s: State) {
    && Installed(s.table)
    && (s.active ==>
          && s.cfg.port > 0 && s.table.Some?
          && BypassSet in s.table.value.sets && TunnelSet in s.table.value.sets
          && s.table.value == TableWith(s.cfg, s.table.value.sets[BypassSet], s.table.value.sets[TunnelSet])
          && (s.engine.Some? ==> s.table.value == Compile(s.cfg, s.engine.value)))
  }

  // The attempt reaches the rebuild and its delete fails over an existing table.
  predicate Dirty(s: State, f: Faults) {
    s.engine.Some? && s.cfg.port > 0 && s.table.Some? && f.del != NoFault && !(s.active && !f.patch)
  }

  // Such an attempt whose script then succeeds appends to the old table.
  predicate Appends(s: State, op: Op) {
    match op
    case ApplyOp(f) => Dirty(s, f) && !f.apply
    case UpdateEngineOp(e, f) => s.active && Dirty(s.(engine := e), f) && !f.apply
    case _ => false
  }

  // A table with the sets a patch needs, whose prerouting chain is longer than a compiled one.
  predicate Swollen(t: Table) {
    BypassSet in t.sets && TunnelSet in t.sets && Prerouting in t.chains && |t.chains[Prerouting]| > 3
  }

  lemma DeleteTableEffect(r: Ruleset, del: Fault)
    ensures DeleteTableStep(r, del) == if del == NoFault then None else r
  {
    assert [DeleteTable][1..] == [];
    assert RunScript([DeleteTable], r) == if r.Some? then RunScript([], None) else Failed;
  }

  lemma RebuildKeepsInv(s: State, f: Faults)
    requires s.engine.Some? && s.cfg.port > 0 && (f.del != NoFault ==> s.table.None?)
    ensures var r := RebuildStep(s, f);
      r.ok == r.state.active && r.ok == !f.apply &&
      r.state.table == if r.ok then Some(Compile(s.cfg, s.engine.value)) else None
  {
    ScriptBuildsCompiled(s.cfg, s.engine.value);
    DeleteTableEffect(s.table, f.del);
  }

  lemma DirtyRebuild(s: State, f: Faults)
    requires Installed(s.table) && Dirty(s, f)
    ensures var r := RebuildStep(s, f);
      r.ok == !f.apply && r.state.cfg == s.cfg && r.state.engine == s.engine &&
      if f.apply then r.state == s.(active := false)
      else r.state.active && r.state.table.Some? && Swollen(r.state.table.value)
  {
    DeleteTableEffect(s.table, f.del);
    BuildRunsOnAny(s.cfg, s.engine.value, s.table);
    if !f.apply {
      AppendedRules(s.cfg, s.engine.value, s.table.value);
    }
  }

  lemma ActivePatch(s: State, f: Faults, was: Option<Engine>)
    requires Inv(s.(engine := was)) && s.active && s.engine.Some?
    ensures s.cfg.port > 0
    ensures ApplyStep(s, f) ==
      if f.patch then RebuildStep(s, f) else Result(s.(table := Some(Compile(s.cfg, s.engine.value))), true)
  {
    var t := s.table.value;
    PatchEqualsRebuild(s.cfg, t.sets[BypassSet], t.sets[TunnelSet], s.engine.value);
  }

  // An attempt to apply an engine, whatever fails: without a port nothing
  // changes; a dirty rebuild leaves the old table behind inactive rules, or a
  // longer one under active rules; every other attempt leaves the compiled table
  // and active rules, or neither.
  lemma ApplyOutcome(s: State, f: Faults, was: Option<Engine>)
    requires Inv(s.(engine := was)) && s.engine.Some?
    ensures var r := ApplyStep(s, f).state;
      r.cfg == s.cfg && r.engine == s.engine &&
      if s.cfg.port <= 0 then r == s
      else if Dirty(s, f)
      then (if f.apply then r == s.(active := false) else r.active && r.table.Some? && Swollen(r.table.value))
      else
        r.table == (if r.active then Some(Compile(s.cfg, s.engine.value)) else None) &&
        (r.active <==> (s.active && !f.patch) || !f.apply)
    ensures ApplyStep(s, f).ok == (s.cfg.port > 0 && ((s.active && !f.patch) || !f.apply))
  {
    if s.active {
      ActivePatch(s, f, was);
    }
    if Dirty(s, f) {
      DirtyRebuild(s, f);
    } else if s.cfg.port > 0 && (f.del == NoFault || s.table.None?) {
      RebuildKeepsInv(s, f);
    }
  }

  // Once rules were appended, only a rebuild with a successful delete cleans up.
  lemma SwollenApply(s: State, f: Faults)
    requires s.active && s.engine.Some? && s.cfg.port > 0 && s.table.Some? && Swollen(s.table.value)
    ensures var r := ApplyStep(s, f).state;
      r.cfg == s.cfg && r.engine == s.engine &&
      if f.patch && f.del == NoFault
      then r.table == if r.active then Some(Compile(s.cfg, s.engine.value)) else None
      else r.table.Some? && (r.active ==> Swollen(r.table.value))
  {
    RunPatchScript(s.engine.value, s.table.value);
    if f.patch && f.del == NoFault {
      RebuildKeepsInv(s, f);
    } else if f.patch {
      DirtyRebuild(s, f);
    }
  }

  lemma SwollenIsNotCompiled(cfg: Config, bypass: set<IPNet>, tunnel: set<IPNet>)
    ensures !Swollen(TableWith(cfg, bypass, tunnel))
  {
  }

  lemma SwollenNotInv(s: State)
    requires s.active && s.table.Some? && Swollen(s.table.value)
    ensures !Inv(s)
  {
    if Inv(s) {
      SwollenIsNotCompiled(s.cfg, s.table.value.sets[BypassSet], s.table.value.sets[TunnelSet]);
    }
  }

  lemma CompiledInv(s: State)
    requires s.engine.Some?
    requires s.active ==> s.cfg.port > 0 && s.table == Some(Compile(s.cfg, s.engine.value))
    requires Installed(s.table)
    ensures Inv(s)
  {
  }

  lemma ApplyInvExact(s: State, f: Faults, was: Option<Engine>)
    requires Inv(s.(engine := was))
    ensures Inv(ApplyStep(s, f).state) <==> !(Dirty(s, f) && !f.apply)
    ensures !ApplyStep(s, f).ok && ApplyStep(s, f).state.active <==> s.active && s.engine.None?
  {
    if s.engine.Some? {
      var r := ApplyStep(s, f).state;
      ApplyOutcome(s, f, was);
      if Dirty(s, f) && !f.apply {
        SwollenNotInv(r);
      } else if r.active || r.table.None? || Dirty(s, f) {
        CompiledInv(r);
      }
    }
  }

  // Whatever nft calls fail, a step keeps "active means compiled" exactly when
  // it does not append.
  lemma StepInvExact(s: State, op: Op)
    requires Inv(s)
    ensures Inv(Step(s, op).state) <==> !Appends(s, op)
  {
    match op
    case FlushOp(del) => DeleteTableEffect(s.table, del);
    case ReplaceOp(cfg, e) =>
    case ApplyOp(f) => ApplyInvExact(s, f, s.engine);
    case UpdateEngineOp(e, f) => if s.active { ApplyInvExact(s.(engine := e), f, s.engine); }
  }

  ghost predicate NeverAppends(s: State, ops: seq<Op>)
    decreases |ops|
  {
    ops != [] ==> !Appends(s, ops[0]) && NeverAppends(Step(s, ops[0]).state, ops[1..])
  }

  ghost predicate InvThroughout(s: State, ops: seq<Op>)
    decreases |ops|
  {
    Inv(s) && (ops != [] ==> InvThroughout(Step(s, ops[0]).state, ops[1..]))
  }

  // Over every run of Apply, UpdateEngine, Flush and SIGHUP replacement, with
  // any nft failures, active implies all the time that the kernel holds the
  // table compiled from the current engine, if and only if no step appended.
  lemma {:induction false} Lifecycle(s: State, ops: seq<Op>)
    requires Inv(s)
    ensures InvThroughout(s, ops) <==> NeverAppends(s, ops)
    ensures NeverAppends(s, ops) ==>
      var r := Run(s, ops);
      Inv(r) && (r.active && r.engine.Some? ==> r.table == Some(Compile(r.cfg, r.engine.value)))
    decreases |ops|
  {
    if ops != [] {
      StepInvExact(s, ops[0]);
      if !Appends(s, ops[0]) {
        Lifecycle(Step(s, ops[0]).state, ops[1..]);
      } else {
        assert !InvThroughout(Step(s, ops[0]).state, ops[1..]);
      }
    }
  }

  // Apply and UpdateEngine report failure with the rules still marked active
  // exactly when the engine is nil and the rules were active before.
  lemma FailureLeavesInactive(s: State, op: Op)
    requires Inv(s) && (op.ApplyOp? || op.UpdateEngineOp?)
    ensures var engine := if op.UpdateEngineOp? then op.engine else s.engine;
      !Step(s, op).ok && Step(s, op).state.active <==> s.active && engine.None?
  {
    match op
    case ApplyOp(f) => ApplyInvExact(s, f, s.engine);
    case UpdateEngineOp(e, f) => ApplyInvExact(s.(engine := e), f, s.engine);
  }

  // Flush always clears active, removes the table unless the delete failed,
  // and reports an error only for failures that do not read as "not found".
  lemma FlushExact(s: State, del: Fault)
    ensures var r := FlushStep(s, del);
      !r.state.active && r.state.table == (if del == NoFault then None else s.table) && (r.ok <==> del != OtherFault)
  {
    DeleteTableEffect(s.table, del);
  }

  lemma {:induction false} ScriptKeepsRules(script: seq<Command>, r: Ruleset, c: ChainName)
    requires r.Some? && DeleteTable !in script && RunScript(script, r).Applied?
    ensures var r' := RunScript(script, r).rules;
      r'.Some? && (c in r.value.chains ==>
        c in r'.value.chains && |r'.value.chains[c]| >= |r.value.chains[c]|)
  {
    if script != [] {
      ScriptKeepsRules(script[1..], Execute(script[0], r).rules, c);
    }
  }

  // r' has every set and chain r has.
  predicate Extends(r: Ruleset, r': Ruleset) {
    r.Some? ==>
      r'.Some? && r.value.sets.Keys <= r'.value.sets.Keys && r.value.chains.Keys <= r'.value.chains.Keys
  }

  // A script that deletes nothing and runs on a ruleset also runs on a larger one.
  lemma {:induction false} ScriptRunsOnMore(script: seq<Command>, r: Ruleset, r': Ruleset)
    requires Extends(r, r') && DeleteTable !in script && RunScript(script, r).Applied?
    ensures RunScript(script, r').Applied? && Extends(RunScript(script, r).rules, RunScript(script, r').rules)
  {
    if script != [] {
      var x, x' := Execute(script[0], r), Execute(script[0], r');
      assert script[0] != DeleteTable;
      assert x'.Applied? && Extends(x.rules, x'.rules);
      ScriptRunsOnMore(script[1..], x.rules, x'.rules);
    }
  }

  lemma BuildRunsOnAny(cfg: Config, e: Engine, r: Ruleset)
    ensures RunScript(BuildScript(cfg, e), r).Applied?
    ensures var r' := RunScript(BuildScript(cfg, e), r).rules;
      r'.Some? && BypassSet in r'.value.sets && TunnelSet in r'.value.sets
  {
    ScriptBuildsCompiled(cfg, e);
    NoDeletes(cfg, e);
    NoDeleteInChain(Prerouting, PreroutingRules(cfg));
    Regroup(SetsScript(e), [AddChain(Prerouting), AddChain(Output)], RuleCommands(Prerouting, PreroutingRules(cfg)),
            OutputScript(cfg), TailScript(cfg));
    ScriptRunsOnMore(BuildScript(cfg, e), None, r);
  }

  // A rebuild succeeds whatever table is there, but one whose delete failed
  // over an existing table appends to it: it installs the compiled table
  // exactly when the delete succeeded or there was nothing to delete.
  lemma RebuildExact(s: State, f: Faults)
    requires Installed(s.table) && s.engine.Some? && s.cfg.port > 0
    ensures RebuildStep(s, f).ok <==> !f.apply
    ensures RebuildStep(s, f).ok ==>
      (RebuildStep(s, f).state.table == Some(Compile(s.cfg, s.engine.value)) <==>
        !(f.del != NoFault && s.table.Some?))
  {
    ScriptBuildsCompiled(s.cfg, s.engine.value);
    DeleteTableEffect(s.table, f.del);
    BuildRunsOnAny(s.cfg, s.engine.value, DeleteTableStep(s.table, f.del));
    if f.del != NoFault && s.table.Some? && !f.apply {
      AppendedRules(s.cfg, s.engine.value, s.table.value);
    }
  }

  // So one failed delete is enough to lose the lifecycle's promise: replacing
  // the gateway over its own rules and applying leaves it active over another table.
  lemma DoubledRules(cfg: Config, e: Engine)
    requires cfg.port > 0
    ensures var s := State(cfg, Some(e), true, Some(Compile(cfg, e)));
      var r := Run(s, [ReplaceOp(cfg, e), ApplyOp(Faults(false, OtherFault, false))]);
      Inv(s) && r.active && r.table != Some(Compile(cfg, e))
  {
    var s := State(cfg, Some(e), true, Some(Compile(cfg, e)));
    var f := Faults(false, OtherFault, false);
    var ops := [ReplaceOp(cfg, e), ApplyOp(f)];
    var s1 := State(cfg, Some(e), false, Some(Compile(cfg, e)));
    assert ops[1..] == [ApplyOp(f)] && ops[1..][1..] == [];
    assert Step(s, ops[0]).state == s1;
    assert Run(s1, [ApplyOp(f)]) == RebuildStep(s1, f).state;
    RebuildExact(s1, f);
  }

  lemma AppendedRules(cfg: Config, e: Engine, t: Table)
    requires Prerouting in t.chains && RunScript(BuildScript(cfg, e), Some(t)).Applied?
    ensures var r := RunScript(BuildScript(cfg, e), Some(t)).rules;
      r.Some? && Prerouting in r.value.chains && |r.value.chains[Prerouting]| >= |t.chains[Prerouting]| + 3
  {
    NoDeletes(cfg, e);
    Regroup(SetsScript(e), [AddChain(Prerouting), AddChain(Output)], RuleCommands(Prerouting, PreroutingRules(cfg)),
            OutputScript(cfg), TailScript(cfg));
    RulesAppendedBetween(SetsScript(e) + [AddChain(Prerouting), AddChain(Output)], Prerouting, PreroutingRules(cfg),
                         OutputScript(cfg) + TailScript(cfg), t);
  }

  lemma Regroup(a: seq<Command>, p: seq<Command>, q: seq<Command>, o: seq<Command>, t: seq<Command>)
    ensures a + ((p + q) + o + t) == (a + p) + (q + (o + t))
  {
  }

  lemma RulesAppendedBetween(head: seq<Command>, c: ChainName, rules: seq<Rule>, rest: seq<Command>, t: Table)
    requires c in t.chains && DeleteTable !in head && DeleteTable !in rest
    requires RunScript(head + (RuleCommands(c, rules) + rest), Some(t)).Applied?
    ensures var r := RunScript(head + (RuleCommands(c, rules) + rest), Some(t)).rules;
      r.Some? && c in r.value.chains && |r.value.chains[c]| >= |t.chains[c]| + |rules|
  {
    var adds := RuleCommands(c, rules);
    RunConcat(head, adds + rest, Some(t));
    ScriptKeepsRules(head, Some(t), c);
    var r1 := RunScript(head, Some(t)).rules;
    RunConcat(adds, rest, r1);
    RunRules(c, rules, r1.value);
    ScriptKeepsRules(rest, RunScript(adds, r1).rules, c);
  }

  lemma NoDeletes(cfg: Config, e: Engine)
    ensures DeleteTable !in SetsScript(e) + [AddChain(Prerouting), AddChain(Output)]
    ensures DeleteTable !in OutputScript(cfg) + TailScript(cfg)
  {
    var byp, tun := Elements(BypassSet, Emitted(BypassNets(e))), Elements(TunnelSet, Emitted(e.tunnel));
    assert DeleteTable !in [AddTable, AddSet(PrivateSet)] + Elements(PrivateSet, DEFAULT_BYPASS);
    assert DeleteTable !in [AddSet(BypassSet)] + byp && DeleteTable !in [AddSet(TunnelSet)] + tun;
    assert DeleteTable !in SetsScript(e);
    NoDeleteInChain(Output, OutputRules(cfg));
    NoDeleteInChain(FilterOut, FilterOutRules(cfg));
    NoDeleteInChain(FilterFwd, FILTER_FWD_RULES);
    NoDeleteInChain(Postrouting, PostroutingRules(cfg));
  }

  lemma NoDeleteInChain(c: ChainName, rules: seq<Rule>)
    ensures DeleteTable !in RuleCommands(c, rules) && DeleteTable !in [AddChain(c)] + RuleCommands(c, rules)
  {
  }

  // ---- The Gateway object ----

  class Kernel {
    var rules: Ruleset

    constructor (initial: Ruleset)
      ensures rules == initial
    {
      rules := initial;
    }

    // runNFTLocked
    method RunNFT(script: seq<Command>, fault: bool) returns (ok: bool)
      modifies this
      ensures ok == Transact(script, old(rules), fault).Applied?
      ensures rules == if ok then Transact(script, old(rules), fault).rules else old(rules)
    {
      var outcome := Transact(script, rules, fault);
      ok := outcome.Applied?;
      if ok {
        rules := outcome.rules;
      }
    }
  }

  class Gateway {
    const cfg: Config
    const kernel: Kernel
    var engine: Option<Engine>
    var active: bool

    ghost function View(): State
      reads this, kernel
    {
      State(cfg, engine, active, kernel.rules)
    }

    constructor (cfg: Config, engine: Option<Engine>, kernel: Kernel)
      ensures this.cfg == cfg && this.kernel == kernel
      ensures View() == State(cfg, engine, false, kernel.rules)
    {
      this.cfg := cfg;
      this.kernel := kernel;
      this.engine := engine;
      this.active := false;
    }

    // patchSetsLocked
    method PatchSets(fault: bool) returns (ok: bool)
      modifies kernel
      ensures engine.None? ==> !ok
      ensures engine.Some? ==> ok == Transact(PatchScript(engine.value), old(kernel.rules), fault).Applied?
      ensures kernel.rules ==
        if ok then Transact(PatchScript(engine.value), old(kernel.rules), fault).rules else old(kernel.rules)
    {
      if engine.None? {
        return false;
      }
      var e := engine.value;
      var nets := BuildBypassNets(e);
      var byp := AddIPv4SetElements(BypassSet, nets);
      var tun := AddIPv4SetElements(TunnelSet, e.tunnel);
      ok := kernel.RunNFT(([FlushSet(BypassSet)] + byp) + ([FlushSet(TunnelSet)] + tun), fault);
    }

    // applyLocked
    method Apply(f: Faults) returns (ok: bool)
      modifies this`active, kernel
      ensures Result(View(), ok) == ApplyStep(old(View()), f)
      ensures old(Inv(View())) ==> (Inv(View()) <==> !Appends(old(View()), ApplyOp(f)))
    {
      ghost var before := View();
      if Inv(before) {
        StepInvExact(before, ApplyOp(f));
      }
      if active {
        ok := PatchSets(f.patch);
        if ok {
          return true;
        }
      }
      var script := BuildNFTScript(cfg, engine);
      if script.None? {
        return false;
      }
      var _ := kernel.RunNFT([DeleteTable], f.del != NoFault);
      ok := kernel.RunNFT(script.value, f.apply);
      active := ok;
    }

    method Flush(del: Fault) returns (ok: bool)
      modifies this`active, kernel
      ensures Result(View(), ok) == FlushStep(old(View()), del)
      ensures old(Inv(View())) ==> Inv(View())
    {
      ghost var before := View();
      if Inv(before) {
        StepInvExact(before, FlushOp(del));
      }
      var present := kernel.rules.Some?;
      var deleted := kernel.RunNFT([DeleteTable], del != NoFault);
      active := false;
      // isNFTNotFound: the error text reads as "not found", or the table is absent.
      DeleteTableEffect(before.table, del);
      ok := deleted || del == ReadsAsNotFound || (del == NoFault && !present);
    }

    method UpdateEngine(e: Option<Engine>, f: Faults) returns (ok: bool)
      modifies this, kernel
      ensures Result(View(), ok) == Step(old(View()), UpdateEngineOp(e, f))
      ensures old(Inv(View())) ==> (Inv(View()) <==> !Appends(old(View()), UpdateEngineOp(e, f)))
    {
      ghost var before := View();
      if Inv(before) {
        StepInvExact(before, UpdateEngineOp(e, f));
      }
      engine := e;
      if !active {
        return true;
      }
      ok := Apply(f);
    }
  }
}
