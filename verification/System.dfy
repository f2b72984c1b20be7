// The components together, as cmd/outline-gate wires them: rule managers, the
// pushed engine, the installed table, and the two proxies.
module System {
  import opened Text
  import opened NetAddr
  import opened Routing
  import opened Nft
  import opened Gateway
  import opened PathDecider
  import opened Policy
  import opened Proxy
  import BypassManager
  import Rules
  import Socks5
  import Transparent

  // A rule manager as the proxies use it.
  function AsMatcher(m: BypassManager.State): HostMatcher {
    (host: string) => BypassManager.MatchBypass(m, host)
  }

  // The engine rebuildPush builds from the networks the manager last pushed.
  function PushedEngine(cfg: Config, m: BypassManager.State, servers: seq<IP>): Engine
    requires m.pushed.Some?
  {
    NewWithBypass(cfg, m.pushed.value, servers)
  }

  // An address is blocked at L3 exactly when the block manager's effective
  // networks cover it.
  lemma BlockedIsCovered(block: BypassManager.State, ip: Addr)
    requires BypassManager.Inv(block)
    ensures Blocked(Some(AsMatcher(block)), ip) <==> Covered(BypassManager.Effective(block), ip)
  {
    BypassManager.LiteralMatches(block, ip);
    BypassManager.PathsAgree(block, ip);
  }

  // After a push, the kernel's @bypass holds exactly the addresses the manager
  // matches, plus the pushed servers.
  lemma KernelFollowsManager(cfg: Config, m: BypassManager.State, servers: seq<IP>, ip: Addr)
    requires BypassManager.Inv(m) && BypassManager.Fresh(m)
    ensures var e := PushedEngine(cfg, m, servers);
      InSet(Compile(cfg, e), BypassSet, ip) <==> V4(ip) in servers || BypassManager.MatchBypass(m, Dotted(ip)).Some?
  {
    var e := PushedEngine(cfg, m, servers);
    KernelSetsMatchEngine(cfg, e, ip);
    BypassManager.LiteralMatches(m, ip);
    BypassManager.PathsAgree(m, ip);
  }

  // The private defaults of the configuration reach the pushed engine, so the
  // kernel's direct path for private destinations is what Decide answers.
  lemma PrivateStaysDirect(cfg: Config, m: BypassManager.State, servers: seq<IP>, p: Packet)
    requires BypassManager.Fresh(m) && (forall n :: n in DEFAULT_BYPASS ==> n in m.fixedNets)
    requires p.proto == Tcp && IsPrivate(p.daddr)
    ensures var e := PushedEngine(cfg, m, servers);
      ForwardedFate(cfg, e, None, None, p) == Decide(e, Some(p.daddr)) == Direct
  {
    var e := PushedEngine(cfg, m, servers);
    PreroutingVerdict(cfg, e, p);
    var n :| n in DEFAULT_BYPASS && Contains(n, p.daddr);
    assert Covered(m.fixedNets, p.daddr);
    BypassManager.EffectiveCoverage(m, p.daddr);
  }

  function SocksEnv(bypass: BypassManager.State, block: BypassManager.State, outcome: DialOutcome): Socks5.Env {
    Socks5.Env([], None, "", Some(Matcher(AsMatcher(block))), Some(Matcher(AsMatcher(bypass))), outcome, true, true)
  }

  // The path of a SOCKS request: block rules first, then bypass, by name.
  function SocksPath(bypass: BypassManager.State, block: BypassManager.State, name: string): Path {
    if BypassManager.MatchBypass(block, name).Some? then Drop
    else if BypassManager.MatchBypass(bypass, name).Some? then Direct else Tunnel
  }

  // The first action is this dial, and no later one dials.
  ghost predicate OnlyDial(t: seq<Action>, via: Path, target: string) {
    t != [] && t[0] == Dial(via, target) && forall i :: 1 <= i < |t| ==> !t[i].Dial?
  }

  // The SOCKS server takes it: exactly one dial, or a record that names the
  // block rule and no dial.
  lemma SocksServes(bypass: BypassManager.State, block: BypassManager.State, outcome: DialOutcome,
                    name: string, port: nat, consumed: nat)
    ensures var socks := Socks5.Serve(SocksEnv(bypass, block, outcome), name, port, consumed);
      if SocksPath(bypass, block, name) == Drop
      then socks[0].Record? && socks[0].event.via == Drop &&
           Some(socks[0].event.rule) == BypassManager.MatchBypass(block, name) && forall a :: a in socks ==> !a.Dial?
      else OnlyDial(socks, SocksPath(bypass, block, name), JoinHostPort(name, port))
  {
  }

  lemma DecidedPath(e: Engine, bypass: HostMatcher, block: HostMatcher, ip: Addr)
    ensures var l3 := DecidePath(Some(ip), Some(e), Some(bypass), Some(block));
      if block(Dotted(ip)).Some? then l3 == Verdict(Drop, block(Dotted(ip)).value)
      else if IsServer(e, ip) || Covered(e.bypass, ip) then l3.via == Direct
      else if e.mode == Exclude || (e.mode == Include && Covered(e.tunnel, ip)) then l3.via == Tunnel
      else l3.via != Tunnel && (l3.via == Direct ==> e.mode == Include)
  {
  }

  // The L3 path for an address in terms of the rule managers.
  lemma L3Verdict(cfg: Config, bypass: BypassManager.State, block: BypassManager.State, servers: seq<IP>, ip: Addr)
    requires BypassManager.Inv(bypass) && BypassManager.Fresh(bypass)
    ensures var e := PushedEngine(cfg, bypass, servers);
      var l3 := DecidePath(Some(ip), Some(e), Some(AsMatcher(bypass)), Some(AsMatcher(block)));
      var blocked := AsMatcher(block)(Dotted(ip));
      if blocked.Some? then l3 == Verdict(Drop, blocked.value)
      else if V4(ip) in servers || AsMatcher(bypass)(Dotted(ip)).Some? then l3.via == Direct
      else if cfg.mode == Exclude || (cfg.mode == Include && Covered(cfg.tunnelCIDRs, ip)) then l3.via == Tunnel
      else l3.via != Tunnel
  {
    DecidedPath(PushedEngine(cfg, bypass, servers), AsMatcher(bypass), AsMatcher(block), ip);
    LiteralIsPushed(bypass, ip);
  }

  lemma LiteralIsPushed(m: BypassManager.State, ip: Addr)
    requires BypassManager.Inv(m) && BypassManager.Fresh(m)
    ensures BypassManager.MatchBypass(m, Dotted(ip)).Some? <==> Covered(m.pushed.value, ip)
  {
    BypassManager.LiteralMatches(m, ip);
    BypassManager.PathsAgree(m, ip);
  }

  // A SOCKS CONNECT to an address literal and a redirected packet to the same
  // address take the same path exactly when a rule matches the address, or it is
  // not a pushed server and the mode sends it to the tunnel.
  lemma SocksAgreesWithL3(cfg: Config, bypass: BypassManager.State, block: BypassManager.State,
                          servers: seq<IP>, ip: Addr)
    requires BypassManager.Inv(bypass) && BypassManager.Fresh(bypass)
    ensures var e := PushedEngine(cfg, bypass, servers);
      DecidePath(Some(ip), Some(e), Some(AsMatcher(bypass)), Some(AsMatcher(block))).via ==
        SocksPath(bypass, block, Dotted(ip)) <==>
      BypassManager.MatchBypass(block, Dotted(ip)).Some? || BypassManager.MatchBypass(bypass, Dotted(ip)).Some? ||
      (V4(ip) !in servers && (cfg.mode == Exclude || (cfg.mode == Include && Covered(cfg.tunnelCIDRs, ip))))
  {
    L3Verdict(cfg, bypass, block, servers, ip);
  }

  // ---- Dials that SOCKS sends direct, as OUTPUT sees them ----

  // Any direct dial in exclude mode: it stays direct exactly when its address is
  // private, a pushed server or in the exported networks; otherwise it ends in
  // the tunnel, or is dropped when a block rule lists the address.
  lemma DirectDialExclude(cfg: Config, nets: seq<IPNet>, servers: seq<IP>, block: Option<HostMatcher>, p: Packet)
    requires cfg.outputEnable && cfg.mode == Exclude && Redirectable(cfg, p)
    ensures var e := NewWithBypass(cfg, nets, servers);
      (Redirected(cfg, e, p) <==> !IsPrivate(p.daddr) && V4(p.daddr) !in servers && !Covered(nets, p.daddr)) &&
      LocalFate(cfg, e, block, p) ==
        if !Redirected(cfg, e, p) then Direct else if Blocked(block, p.daddr) then Drop else Tunnel
  {
    OutputVerdict(cfg, NewWithBypass(cfg, nets, servers), p);
  }

  // Any direct dial in include mode: it is redirected exactly when its address is
  // a public one of the tunnel list. An address that the exported networks hold
  // too is then dialed directly again, and so on without end.
  lemma DirectDialInclude(cfg: Config, nets: seq<IPNet>, servers: seq<IP>, block: Option<HostMatcher>, p: Packet)
    requires cfg.outputEnable && cfg.mode == Include && Redirectable(cfg, p)
    ensures var e := NewWithBypass(cfg, nets, servers);
      var listed := V4(p.daddr) in servers || Covered(nets, p.daddr);
      (Redirected(cfg, e, p) <==> !IsPrivate(p.daddr) && Covered(cfg.tunnelCIDRs, p.daddr)) &&
      LocalFate(cfg, e, block, p) ==
        (if !Redirected(cfg, e, p) then Direct
         else if Blocked(block, p.daddr) then Drop
         else if listed then Direct else Tunnel) &&
      (Redirected(cfg, e, p) && listed && !Blocked(block, p.daddr) ==>
        SomethingLoops(Gate(cfg, e, block, None, {p.saddr})))
  {
    var e := NewWithBypass(cfg, nets, servers);
    OutputVerdict(cfg, e, p);
    var g := Gate(cfg, e, block, None, {p.saddr});
    assert p.saddr in g.sources;
    if Selected(g, p.daddr) && Via(g, p.daddr) == Direct {
      SelectedLoops(g, p.daddr);
    }
  }

  // A SOCKS request by a name that bypass matches and no block rule does is
  // dialed direct, once; by the lemma above the dial still ends in the tunnel for
  // every address outside the exported networks.
  lemma NamedDialExclude(cfg: Config, m: BypassManager.State, block: BypassManager.State, servers: seq<IP>,
                         outcome: DialOutcome, name: string, port: nat, consumed: nat, p: Packet)
    requires cfg.outputEnable && cfg.mode == Exclude && BypassManager.Fresh(m) && Redirectable(cfg, p)
    ensures SocksPath(m, block, name) == Direct ==>
      var e := PushedEngine(cfg, m, servers);
      OnlyDial(Socks5.Serve(SocksEnv(m, block, outcome), name, port, consumed), Direct, JoinHostPort(name, port)) &&
      (Redirected(cfg, e, p) <==>
        !IsPrivate(p.daddr) && V4(p.daddr) !in servers && !Covered(BypassManager.Effective(m), p.daddr)) &&
      LocalFate(cfg, e, Some(AsMatcher(block)), p) ==
        if !Redirected(cfg, e, p) then Direct
        else if Blocked(Some(AsMatcher(block)), p.daddr) then Drop else Tunnel
  {
    SocksServes(m, block, outcome, name, port, consumed);
    DirectDialExclude(cfg, m.pushed.value, servers, Some(AsMatcher(block)), p);
  }

  lemma NamedDialInclude(cfg: Config, m: BypassManager.State, block: BypassManager.State, servers: seq<IP>,
                         outcome: DialOutcome, name: string, port: nat, consumed: nat, p: Packet)
    requires cfg.outputEnable && cfg.mode == Include && BypassManager.Fresh(m) && Redirectable(cfg, p)
    ensures SocksPath(m, block, name) == Direct ==>
      var e := PushedEngine(cfg, m, servers);
      var listed := V4(p.daddr) in servers || Covered(BypassManager.Effective(m), p.daddr);
      var blocked := Blocked(Some(AsMatcher(block)), p.daddr);
      OnlyDial(Socks5.Serve(SocksEnv(m, block, outcome), name, port, consumed), Direct, JoinHostPort(name, port)) &&
      (Redirected(cfg, e, p) <==> !IsPrivate(p.daddr) && Covered(cfg.tunnelCIDRs, p.daddr)) &&
      LocalFate(cfg, e, Some(AsMatcher(block)), p) ==
        (if !Redirected(cfg, e, p) then Direct else if blocked then Drop else if listed then Direct else Tunnel) &&
      (Redirected(cfg, e, p) && listed && !blocked ==>
        SomethingLoops(Gate(cfg, e, Some(AsMatcher(block)), None, {p.saddr})))
  {
    SocksServes(m, block, outcome, name, port, consumed);
    DirectDialInclude(cfg, m.pushed.value, servers, Some(AsMatcher(block)), p);
  }

  // Asked for by its literal, an address that bypass matches is never
  // redirected in exclude mode: only names can lead outside the exported networks.
  lemma LiteralDialEscapes(cfg: Config, m: BypassManager.State, servers: seq<IP>, p: Packet)
    requires cfg.outputEnable && cfg.mode == Exclude && BypassManager.Inv(m) && BypassManager.Fresh(m)
    requires BypassManager.MatchBypass(m, Dotted(p.daddr)).Some?
    ensures !Redirected(cfg, PushedEngine(cfg, m, servers), p)
  {
    BypassManager.LiteralMatches(m, p.daddr);
    BypassManager.PathsAgree(m, p.daddr);
    OutputVerdict(cfg, PushedEngine(cfg, m, servers), p);
  }

  // ---- The case a suffix rule makes ----

  function SuffixRule(apex: string): Rules.Rule {
    Rules.Rule("*." + apex, Rules.KindSuffix, None, apex)
  }

  lemma SubdomainText(apex: string)
    requires Rules.IsLowerHost(apex)
    ensures Rules.NormalizeHost("a." + apex) == "a." + apex && ParseIPv4("a." + apex).None?
  {
    var name := "a." + apex;
    Rules.HostnameChars(apex);
    TrimSpaceStable(name);
    assert name[0] == 'a' && name[2..] == apex;
    assert ToLower(name) == name;
    if ParseIPv4(name).Some? {
      DottedParse(name);
      DottedChars(ParseIPv4(name).value);
      assert false;
    }
  }

  lemma SubdomainMatches(matcher: seq<Rules.Rule>, apex: string)
    requires Rules.IsLowerHost(apex) && SuffixRule(apex) in matcher
    ensures Rules.MatchHostDetail(matcher, "a." + apex).Some?
  {
    SubdomainText(apex);
    assert "a." == "a" + ['.'];
    Rules.EndsWithDotApex("a", apex);
    assert Rules.HostRuleMatches(SuffixRule(apex), "a." + apex);
  }

  // For a list that holds just the suffix rule, DNS is asked for the apex.
  lemma SuffixAsks(apex: string, ips: seq<IP>, dns: BypassManager.Resolver)
    requires apex != "" && dns(apex) == BypassManager.Answers(ips)
    ensures BypassManager.ResolveAll(Rules.DomainsToResolve([SuffixRule(apex)]), dns) == HostNets(ips)
  {
    assert [SuffixRule(apex)][..0] == [];
    assert Rules.DomainsToResolve([SuffixRule(apex)]) == [apex];
    assert [apex][..0] == [];
    assert BypassManager.ResolveAll([apex], dns) == [] + HostNets(ips);
  }

  lemma SuffixAdded(s: BypassManager.State, apex: string, ips: seq<IP>, dns: BypassManager.Resolver)
    returns (m: BypassManager.State)
    requires Rules.IsLowerHost(apex) && BypassManager.Inv(s) && BypassManager.Fresh(s) && s.store.rules == []
    requires dns(apex) == BypassManager.Answers(ips)
    ensures m == BypassManager.Step(s, BypassManager.AddOp("*." + apex, false, dns)).state
    ensures BypassManager.Inv(m) && BypassManager.Fresh(m) && m.matcher == [SuffixRule(apex)]
    ensures m.fixedNets == s.fixedNets && m.resolved == HostNets(ips)
  {
    Rules.ReparseSuffix(apex);
    var store := BypassManager.AddedStore(s, "*." + apex, SuffixRule(apex), dns);
    m := BypassManager.Settle(s, store, dns).state;
    BypassManager.SettleResolves(s, store, dns);
    SuffixAsks(apex, ips, dns);
    BypassManager.StepKeepsInv(s, BypassManager.AddOp("*." + apex, false, dns));
    BypassManager.EditFresh(s, BypassManager.AddOp("*." + apex, false, dns));
  }

  lemma SubdomainBypassed(m: BypassManager.State, apex: string)
    requires Rules.IsLowerHost(apex) && m.matcher == [SuffixRule(apex)]
    ensures BypassManager.MatchBypass(m, "a." + apex).Some?
  {
    SubdomainText(apex);
    SubdomainMatches(m.matcher, apex);
  }

  // With the rule "*.apex" just added and DNS answers for the apex pushed,
  // SOCKS dials "a.apex" direct, yet a dial of it to any other public address
  // is redirected and carried by the tunnel, or dropped by a block rule.
  lemma SuffixNameTunneled(cfg: Config, s: BypassManager.State, block: BypassManager.State, apex: string, ips: seq<IP>,
                           dns: BypassManager.Resolver, servers: seq<IP>, p: Packet)
    requires cfg.outputEnable && cfg.mode == Exclude && Redirectable(cfg, p)
    requires Rules.IsLowerHost(apex) && BypassManager.Inv(s) && BypassManager.Fresh(s)
    requires s.store.rules == [] && s.fixedNets == DEFAULT_BYPASS && dns(apex) == BypassManager.Answers(ips)
    requires BypassManager.MatchBypass(block, "a." + apex).None?
    requires !IsPrivate(p.daddr) && V4(p.daddr) !in servers && V4(p.daddr) !in ips
    ensures var m := BypassManager.Step(s, BypassManager.AddOp("*." + apex, false, dns)).state;
      BypassManager.Fresh(m) && SocksPath(m, block, "a." + apex) == Direct &&
      Redirected(cfg, PushedEngine(cfg, m, servers), p) &&
      LocalFate(cfg, PushedEngine(cfg, m, servers), Some(AsMatcher(block)), p) ==
        if Blocked(Some(AsMatcher(block)), p.daddr) then Drop else Tunnel
  {
    var m := SuffixAdded(s, apex, ips, dns);
    SubdomainBypassed(m, apex);
    SuffixCoverage(m, apex, ips, p.daddr);
    DirectDialExclude(cfg, m.pushed.value, servers, Some(AsMatcher(block)), p);
  }

  lemma SuffixCoverage(m: BypassManager.State, apex: string, ips: seq<IP>, ip: Addr)
    requires BypassManager.Inv(m) && m.matcher == [SuffixRule(apex)]
    requires m.fixedNets == DEFAULT_BYPASS && m.resolved == HostNets(ips)
    ensures Covered(BypassManager.Effective(m), ip) <==> IsPrivate(ip) || V4(ip) in ips
  {
    BypassManager.EffectiveCoverage(m, ip);
    HostNetsCoverage(ips, ip);
    assert m.store.rules[..0] == [];
    assert Rules.StaticNets(m.store.rules) == [];
  }

  // What the connection shows when the given path was decided for it.
  ghost predicate ServedBy(t: seq<Action>, path: Path, target: string, outcome: DialOutcome) {
    if path == Drop then |t| == 1 && t[0].Record? && t[0].event.via == Drop && !t[0].event.ok
    else |t| >= 2 && t[0] == Dial(path, target) && t[1].Record? && t[1].event.via == path &&
         (t[1].event.ok <==> outcome(path, target).None?) && (forall i :: 1 <= i < |t| ==> !t[i].Dial?)
  }

  lemma TransparentServes(env: Transparent.Env)
    requires env.orig.Some?
    ensures var o := env.orig.value;
      ServedBy(Transparent.Trace(env), Transparent.VerdictFor(env, o).via,
               JoinHostPort(Dotted(o.ip), o.port), env.outcome)
  {
  }

  // A forwarded public TCP packet, through the kernel and the transparent
  // proxy, is dialed once by the dialer the documented policy intends, or is
  // recorded as dropped and never dialed.
  lemma ForwardedIsProxied(cfg: Config, e: Engine, bypass: Option<HostMatcher>, block: Option<HostMatcher>,
                           outcome: DialOutcome, client: string, p: Packet)
    requires p.proto == Tcp && p.dport != cfg.port && p.dport >= 0 && !IsPrivate(p.daddr)
    ensures Eval(Compile(cfg, e), Prerouting, p) == Some(Redirect(cfg.port))
    ensures var env := Transparent.Env(Some(Transparent.Origin(p.daddr, p.dport)), client,
                                       Some(dst => DecidePath(dst, Some(e), bypass, block)), outcome);
      ServedBy(Transparent.Trace(env), IntendedPath(cfg, e, block, p.daddr),
               JoinHostPort(Dotted(p.daddr), p.dport), outcome)
  {
    PreroutingVerdict(cfg, e, p);
    EndToEnd(cfg, e, bypass, block, p);
    var env := Transparent.Env(Some(Transparent.Origin(p.daddr, p.dport)), client,
                               Some(dst => DecidePath(dst, Some(e), bypass, block)), outcome);
    TransparentServes(env);
    assert Transparent.VerdictFor(env, env.orig.value).via == ForwardedFate(cfg, e, bypass, block, p);
  }
}
