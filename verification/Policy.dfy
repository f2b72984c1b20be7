// Kernel program and userspace decision together: the documented routing
// policy end to end, and freedom from redirect loops.
module Policy {
  import opened Text
  import opened NetAddr
  import opened Routing
  import opened Nft
  import opened Gateway
  import opened PathDecider

  // ---- What each chain of the compiled table does to a packet ----

  predicate AmneziaOif(cfg: Config, p: Packet) {
    TrimSpace(cfg.amneziaIface) != "" && p.oif == TrimSpace(cfg.amneziaIface)
  }

  lemma SkipAmneziaMatch(t: Table, cfg: Config, p: Packet)
    ensures FirstMatch(t, SkipAmnezia(cfg), p) == if AmneziaOif(cfg, p) then Some(Return) else None
  {
    var rules := SkipAmnezia(cfg);
    if rules != [] {
      assert rules == [rules[0]] + [];
      FirstMatchCons(t, rules[0], [], p);
      assert RuleMatches(t, rules[0], p) <==> Matches(t, rules[0].matches[0], p);
    }
  }

  lemma TwoRules(t: Table, r0: Rule, r1: Rule, p: Packet)
    ensures FirstMatch(t, [r0, r1], p) ==
      if RuleMatches(t, r0, p) then Some(r0.verdict)
      else if RuleMatches(t, r1, p) then Some(r1.verdict) else None
  {
    assert [r0, r1] == [r0] + ([r1] + []);
    FirstMatchCons(t, r0, [r1] + [], p);
    FirstMatchCons(t, r1, [], p);
  }

  lemma OneRule(t: Table, r: Rule, p: Packet)
    ensures FirstMatch(t, [r], p) == if RuleMatches(t, r, p) then Some(r.verdict) else None
  {
    assert [r] == [r] + [];
    FirstMatchCons(t, r, [], p);
  }

  lemma MatchOne(t: Table, m: Match, v: Nft.Verdict, p: Packet)
    ensures RuleMatches(t, Rule([m], v), p) <==> Matches(t, m, p)
  {
    assert Rule([m], v).matches[0] == m;
  }

  // PREROUTING redirects exactly the TCP packets to public destinations that
  // are not already aimed at the transparent proxy port.
  lemma PreroutingVerdict(cfg: Config, e: Engine, p: Packet)
    ensures Eval(Compile(cfg, e), Prerouting, p) ==
      if p.proto == Tcp && p.dport == cfg.port then Some(Return)
      else if IsPrivate(p.daddr) then Some(Return)
      else if p.proto == Tcp then Some(Redirect(cfg.port)) else None
  {
    var t := Compile(cfg, e);
    KernelSetsMatchEngine(cfg, e, p.daddr);
    var r0, r1 := Rule([TcpDport(cfg.port)], Return), Rule([DaddrIn(PrivateSet)], Return);
    var r2 := Rule([ProtoTcp], Redirect(cfg.port));
    assert PreroutingRules(cfg) == [r0] + [r1, r2];
    FirstMatchCons(t, r0, [r1, r2], p);
    TwoRules(t, r1, r2, p);
    MatchOne(t, TcpDport(cfg.port), Return, p);
    MatchOne(t, DaddrIn(PrivateSet), Return, p);
    MatchOne(t, ProtoTcp, Redirect(cfg.port), p);
  }

  predicate OutputSelects(cfg: Config, e: Engine, daddr: Addr) {
    !IsPrivate(daddr) &&
    if cfg.mode == Include then Covered(e.tunnel, daddr)
    else !(IsServer(e, daddr) || Covered(e.bypass, daddr))
  }

  predicate Redirected(cfg: Config, e: Engine, p: Packet) {
    Eval(Compile(cfg, e), Output, p) == Some(Redirect(cfg.port))
  }

  // OUTPUT redirects exactly the local TCP packets that the mode selects, from
  // a public source, not to the proxy port and not through the AmneziaWG device.
  lemma OutputVerdict(cfg: Config, e: Engine, p: Packet)
    requires cfg.outputEnable
    ensures Redirected(cfg, e, p) <==>
      p.proto == Tcp && p.dport != cfg.port && !AmneziaOif(cfg, p) && !IsPrivate(p.saddr) &&
      OutputSelects(cfg, e, p.daddr)
    ensures !Redirected(cfg, e, p) ==> Eval(Compile(cfg, e), Output, p) in {None, Some(Return)}
  {
    var t := Compile(cfg, e);
    KernelSetsMatchEngine(cfg, e, p.daddr);
    KernelSetsMatchEngine(cfg, e, p.saddr);
    var first := Rule([TcpDport(cfg.port)], Return);
    var priv0, priv1 := Rule([SaddrIn(PrivateSet)], Return), Rule([DaddrIn(PrivateSet)], Return);
    FirstMatchConcat(t, [first] + SkipAmnezia(cfg) + [priv0, priv1], OutputTail(cfg), p);
    FirstMatchConcat(t, [first] + SkipAmnezia(cfg), [priv0, priv1], p);
    FirstMatchCons(t, first, SkipAmnezia(cfg), p);
    SkipAmneziaMatch(t, cfg, p);
    TwoRules(t, priv0, priv1, p);
    MatchOne(t, TcpDport(cfg.port), Return, p);
    MatchOne(t, SaddrIn(PrivateSet), Return, p);
    MatchOne(t, DaddrIn(PrivateSet), Return, p);
    OutputTailVerdict(t, cfg, p);
  }

  // A packet of the process that OUTPUT looks at: TCP from a public source, not
  // to the proxy port and not through the AmneziaWG device.
  predicate Redirectable(cfg: Config, p: Packet) {
    p.proto == Tcp && p.dport != cfg.port && !AmneziaOif(cfg, p) && !IsPrivate(p.saddr)
  }

  lemma OutputTailVerdict(t: Table, cfg: Config, p: Packet)
    ensures FirstMatch(t, OutputTail(cfg), p) ==
      if cfg.mode == Include
      then (if InSet(t, TunnelSet, p.daddr) && p.proto == Tcp then Some(Redirect(cfg.port)) else None)
      else if InSet(t, BypassSet, p.daddr) then Some(Return)
      else if p.proto == Tcp then Some(Redirect(cfg.port)) else None
  {
    if cfg.mode == Include {
      var r := Rule([DaddrIn(TunnelSet), ProtoTcp], Redirect(cfg.port));
      OneRule(t, r, p);
      assert r.matches[0] == DaddrIn(TunnelSet) && r.matches[1] == ProtoTcp;
    } else {
      TwoRules(t, Rule([DaddrIn(BypassSet)], Return), Rule([ProtoTcp], Redirect(cfg.port)), p);
      MatchOne(t, DaddrIn(BypassSet), Return, p);
      MatchOne(t, ProtoTcp, Redirect(cfg.port), p);
    }
  }

  // UDP that would slip past the TCP redirect is refused: forwarded packets to
  // a public address, and local packets to an address outside @bypass.
  lemma QuicRefused(cfg: Config, e: Engine, p: Packet)
    ensures Eval(Compile(cfg, e), FilterFwd, p) == Some(Reject) <==>
      p.proto == Udp && (p.dport == 443 || p.dport == 5228) && !IsPrivate(p.daddr)
    ensures Eval(Compile(cfg, e), FilterOut, p) == Some(Reject) <==>
      cfg.outputEnable && p.proto == Udp && (p.dport == 443 || p.dport == 5228) && !IsPrivate(p.daddr) &&
      !(IsServer(e, p.daddr) || Covered(e.bypass, p.daddr)) && !AmneziaOif(cfg, p)
  {
    var t := Compile(cfg, e);
    KernelSetsMatchEngine(cfg, e, p.daddr);
    assert p.dport in QUIC_PORTS <==> p.dport == 443 || p.dport == 5228;
    QuicForwarded(t, p);
    QuicLocal(t, cfg, p);
  }

  lemma QuicForwarded(t: Table, p: Packet)
    ensures FirstMatch(t, FILTER_FWD_RULES, p) ==
      if InSet(t, PrivateSet, p.daddr) then Some(Return)
      else if p.proto == Udp && p.dport in QUIC_PORTS then Some(Reject) else None
  {
    TwoRules(t, Rule([DaddrIn(PrivateSet)], Return), Rule([UdpDport(QUIC_PORTS)], Reject), p);
    MatchOne(t, DaddrIn(PrivateSet), Return, p);
    MatchOne(t, UdpDport(QUIC_PORTS), Reject, p);
  }

  lemma QuicLocal(t: Table, cfg: Config, p: Packet)
    ensures FirstMatch(t, FilterOutRules(cfg), p) ==
      if InSet(t, PrivateSet, p.daddr) || InSet(t, BypassSet, p.daddr) || AmneziaOif(cfg, p) then Some(Return)
      else if p.proto == Udp && p.dport in QUIC_PORTS then Some(Reject) else None
  {
    var priv, byp := Rule([DaddrIn(PrivateSet)], Return), Rule([DaddrIn(BypassSet)], Return);
    var quic := Rule([UdpDport(QUIC_PORTS)], Reject);
    MatchOne(t, DaddrIn(PrivateSet), Return, p);
    MatchOne(t, DaddrIn(BypassSet), Return, p);
    MatchOne(t, UdpDport(QUIC_PORTS), Reject, p);
    TwoRules(t, priv, byp, p);
    OneRule(t, quic, p);
    SkipAmneziaMatch(t, cfg, p);
    FirstMatchConcat(t, [priv, byp] + SkipAmnezia(cfg), [quic], p);
    FirstMatchConcat(t, [priv, byp], SkipAmnezia(cfg), p);
  }

  // Masquerading never touches loopback traffic, in or out, nor the AmneziaWG device.
  lemma MasqueradeScope(cfg: Config, e: Engine, p: Packet)
    ensures Eval(Compile(cfg, e), Postrouting, p) == Some(Masquerade) <==>
      Octet(p.saddr, 0) != 127 && p.oif != "lo" && !AmneziaOif(cfg, p) &&
      (TrimSpace(cfg.lanInterface) == "" || p.oif == TrimSpace(cfg.lanInterface))
  {
    OctetRanges(p.saddr);
    assert Contains(LOOPBACK_NET, p.saddr) <==> Octet(p.saddr, 0) == 127;
    assert Compile(cfg, e).chains[Postrouting] == PostroutingRules(cfg);
    PostroutingMatch(Compile(cfg, e), cfg, p);
  }

  lemma PostroutingMatch(t: Table, cfg: Config, p: Packet)
    ensures FirstMatch(t, PostroutingRules(cfg), p) ==
      if Contains(LOOPBACK_NET, p.saddr) || p.oif == "lo" || AmneziaOif(cfg, p) then Some(Return)
      else if TrimSpace(cfg.lanInterface) == "" || p.oif == TrimSpace(cfg.lanInterface) then Some(Masquerade) else None
  {
    var r0, r1 := Rule([SaddrNet(LOOPBACK_NET)], Return), Rule([OifName("lo")], Return);
    TwoRules(t, r0, r1, p);
    MatchOne(t, SaddrNet(LOOPBACK_NET), Return, p);
    MatchOne(t, OifName("lo"), Return, p);
    var last := LastPostrouting(t, cfg, p);
    SkipAmneziaMatch(t, cfg, p);
    FirstMatchConcat(t, [r0, r1] + SkipAmnezia(cfg), [last], p);
    FirstMatchConcat(t, [r0, r1], SkipAmnezia(cfg), p);
  }

  lemma LastPostrouting(t: Table, cfg: Config, p: Packet) returns (last: Rule)
    ensures var lan := TrimSpace(cfg.lanInterface);
      last == (if lan != "" then Rule([OifName(lan)], Masquerade) else Rule([], Masquerade)) &&
      FirstMatch(t, [last], p) == if lan == "" || p.oif == lan then Some(Masquerade) else None
  {
    var lan := TrimSpace(cfg.lanInterface);
    last := if lan != "" then Rule([OifName(lan)], Masquerade) else Rule([], Masquerade);
    OneRule(t, last, p);
    MatchOne(t, OifName(lan), Masquerade, p);
  }

  // ---- End-to-end policy ----

  // The policy of the user documentation: bypass first, then the mode.
  function DocumentedPath(mode: Mode, policy: DirectPolicy, inBypass: bool, inTunnel: bool): Path {
    if inBypass then Direct
    else match mode
      case Exclude => Tunnel
      case Include => if inTunnel then Tunnel else if policy == DirectAllow then Direct else Drop
      case UnknownMode => Drop
  }

  // What happens to a forwarded packet: the kernel forwards it directly unless
  // PREROUTING redirects it, and then the transparent proxy decides.
  function ForwardedFate(cfg: Config, e: Engine, bypass: Option<HostMatcher>, block: Option<HostMatcher>,
                         p: Packet): Path {
    match Eval(Compile(cfg, e), Prerouting, p)
    case Some(Redirect(_)) => DecidePath(Some(p.daddr), Some(e), bypass, block).via
    case _ => Direct
  }

  // The intended outcome, read off the kernel sets of the installed table.
  function IntendedPath(cfg: Config, e: Engine, block: Option<HostMatcher>, ip: Addr): Path {
    var t := Compile(cfg, e);
    if IsPrivate(ip) then Direct
    else if Blocked(block, ip) then Drop
    else DocumentedPath(e.mode, e.directPolicy, InSet(t, BypassSet, ip), InSet(t, TunnelSet, ip))
  }

  // For every forwarded TCP packet, prerouting followed by DecidePath gives
  // the intended outcome exactly when the packet is not aimed at the proxy
  // port itself or would have gone direct anyway.
  lemma EndToEnd(cfg: Config, e: Engine, bypass: Option<HostMatcher>, block: Option<HostMatcher>, p: Packet)
    requires p.proto == Tcp
    ensures ForwardedFate(cfg, e, bypass, block, p) == IntendedPath(cfg, e, block, p.daddr) <==>
      p.dport != cfg.port || IntendedPath(cfg, e, block, p.daddr) == Direct
    ensures p.dport != cfg.port && !IsPrivate(p.daddr) && !Blocked(block, p.daddr) ==>
      ForwardedFate(cfg, e, bypass, block, p) == Decide(e, Some(p.daddr))
  {
    PreroutingVerdict(cfg, e, p);
    KernelSetsMatchEngine(cfg, e, p.daddr);
  }

  // The path a packet of the process takes: direct unless OUTPUT redirects it,
  // and then what the transparent proxy decides.
  function LocalFate(cfg: Config, e: Engine, block: Option<HostMatcher>, p: Packet): Path {
    if Redirected(cfg, e, p) then DecidePath(Some(p.daddr), Some(e), None, block).via else Direct
  }

  // A local packet that OUTPUT looks at meets the intended outcome exactly in
  // these cases: OUTPUT returns on @bypass before any block rule is asked, and in
  // include mode on everything outside @tunnel, whatever the direct policy is.
  lemma LocalEndToEnd(cfg: Config, e: Engine, block: Option<HostMatcher>, p: Packet)
    requires cfg.outputEnable && e.mode == cfg.mode && Redirectable(cfg, p)
    ensures var listed := IsServer(e, p.daddr) || Covered(e.bypass, p.daddr);
      var blocked := Blocked(block, p.daddr);
      LocalFate(cfg, e, block, p) == IntendedPath(cfg, e, block, p.daddr) <==>
        IsPrivate(p.daddr) ||
        if cfg.mode == Include
        then Covered(e.tunnel, p.daddr) || (!blocked && (listed || e.directPolicy == DirectAllow))
        else !(blocked && listed)
  {
    OutputVerdict(cfg, e, p);
    KernelSetsMatchEngine(cfg, e, p.daddr);
  }

  // Kernel path and Decide agree on private destinations whenever the bypass
  // list holds the defaults, as a loaded configuration and the rule manager ensure.
  lemma PrivateAgrees(cfg: Config, e: Engine, bypass: Option<HostMatcher>, p: Packet)
    requires forall n :: n in DEFAULT_BYPASS ==> n in e.bypass
    requires p.proto == Tcp && IsPrivate(p.daddr)
    ensures ForwardedFate(cfg, e, bypass, None, p) == Decide(e, Some(p.daddr)) == Direct
  {
    PreroutingVerdict(cfg, e, p);
    var n :| n in DEFAULT_BYPASS && Contains(n, p.daddr);
    assert n in e.bypass;
  }

  // ---- Own dials and redirect loops ----

  // The installed configuration and engine, the block list, the tunnel server
  // the process uses, and the addresses its own packets can have as source.
  datatype Gate = Gate(
    cfg: Config, engine: Engine, block: Option<HostMatcher>, server: Option<Addr>, sources: set<Addr>)

  // The OUTPUT redirect is on and the engine was built for the configuration.
  predicate Wired(g: Gate) {
    g.cfg.outputEnable && g.engine.mode == g.cfg.mode
  }

  function Via(g: Gate, ip: Addr): Path {
    DecidePath(Some(ip), Some(g.engine), None, g.block).via
  }

  // A packet of this host that OUTPUT redirects.
  predicate LocalRedirected(g: Gate, p: Packet) {
    p.saddr in g.sources && Redirected(g.cfg, g.engine, p)
  }

  predicate Selected(g: Gate, ip: Addr) {
    OutputSelects(g.cfg, g.engine, ip)
  }

  // A dial the process itself makes: for a Direct verdict of the transparent
  // proxy, to the tunnel server it currently uses, through the AmneziaWG
  // device, or to one of the addresses it dials directly without asking the
  // engine: SOCKS destinations that bypass matches by name, and the host of a
  // dynamic key.
  predicate OwnDial(g: Gate, unasked: set<Addr>, p: Packet) {
    p.proto == Tcp && p.saddr in g.sources &&
    (Via(g, p.daddr) == Direct || g.server == Some(p.daddr) || AmneziaOif(g.cfg, p) || p.daddr in unasked)
  }

  ghost predicate NoOwnDialRedirected(g: Gate, unasked: set<Addr>) {
    forall p :: OwnDial(g, unasked, p) ==> !Redirected(g.cfg, g.engine, p)
  }

  // An address that is public and listed for both the tunnel and bypass.
  predicate Contested(e: Engine, ip: Addr) {
    !IsPrivate(ip) && Covered(e.tunnel, ip) && (IsServer(e, ip) || Covered(e.bypass, ip))
  }

  ghost predicate ContestedBlocked(g: Gate) {
    g.cfg.mode == Include ==> forall ip :: Contested(g.engine, ip) ==> Blocked(g.block, ip)
  }

  // A local packet to the server in use is redirected.
  predicate ServerExposed(g: Gate) {
    g.server.Some? && Selected(g, g.server.value)
  }

  // exclude: the server in use is in @bypass or private. include: no unblocked
  // public address is in both @tunnel and @bypass, and the server is not a public
  // address of @tunnel.
  ghost predicate LoopSafe(g: Gate) {
    ContestedBlocked(g) && !ServerExposed(g)
  }

  ghost predicate HasPublicSource(g: Gate) {
    exists a :: a in g.sources && !IsPrivate(a)
  }

  function ProbePacket(cfg: Config, source: Addr, ip: Addr): Packet {
    Packet(source, ip, Tcp, cfg.port + 1, TrimSpace(cfg.amneziaIface) + "x")
  }

  lemma ProbeRedirected(g: Gate, source: Addr, ip: Addr)
    requires g.cfg.outputEnable && !IsPrivate(source)
    ensures Redirected(g.cfg, g.engine, ProbePacket(g.cfg, source, ip)) <==> Selected(g, ip)
  {
    var p := ProbePacket(g.cfg, source, ip);
    assert |p.oif| == |TrimSpace(g.cfg.amneziaIface)| + 1;
    OutputVerdict(g.cfg, g.engine, p);
  }

  lemma SafeDials(g: Gate, unasked: set<Addr>)
    requires Wired(g) && LoopSafe(g) && forall ip :: ip in unasked ==> !Selected(g, ip)
    ensures NoOwnDialRedirected(g, unasked)
  {
    forall p | OwnDial(g, unasked, p)
      ensures !Redirected(g.cfg, g.engine, p)
    {
      OutputVerdict(g.cfg, g.engine, p);
      assert Contested(g.engine, p.daddr) && g.cfg.mode == Include ==> Blocked(g.block, p.daddr);
    }
  }

  lemma UnsafeDial(g: Gate, unasked: set<Addr>, source: Addr, ip: Addr)
    requires Wired(g) && source in g.sources && !IsPrivate(source) && Selected(g, ip)
    requires Via(g, ip) == Direct || g.server == Some(ip) || ip in unasked
    ensures !NoOwnDialRedirected(g, unasked)
  {
    ProbeRedirected(g, source, ip);
    assert OwnDial(g, unasked, ProbePacket(g.cfg, source, ip));
  }

  // No dial of the process is redirected back into it exactly when the host
  // has no public address of its own, or LoopSafe holds and OUTPUT selects none
  // of the addresses dialed without asking the engine.
  lemma OwnDialsEscape(g: Gate, unasked: set<Addr>)
    requires Wired(g)
    ensures NoOwnDialRedirected(g, unasked) <==>
      HasPublicSource(g) ==> LoopSafe(g) && forall ip :: ip in unasked ==> !Selected(g, ip)
  {
    if !HasPublicSource(g) {
      forall p | OwnDial(g, unasked, p)
        ensures !Redirected(g.cfg, g.engine, p)
      {
        OutputVerdict(g.cfg, g.engine, p);
      }
    } else {
      var source :| source in g.sources && !IsPrivate(source);
      if !ContestedBlocked(g) {
        var ip :| Contested(g.engine, ip) && !Blocked(g.block, ip);
        UnsafeDial(g, unasked, source, ip);
      } else if ServerExposed(g) {
        UnsafeDial(g, unasked, source, g.server.value);
      } else if ip :| ip in unasked && Selected(g, ip) {
        UnsafeDial(g, unasked, source, ip);
      } else {
        SafeDials(g, unasked);
      }
    }
  }

  // tunnelBypassIPs: the servers rebuildPush puts into the engine.
  function TunnelBypassIPs(server: IP, amneziaEndpoint: IP): seq<IP> {
    (if server != NilIP then [server] else []) + (if amneziaEndpoint != NilIP then [amneziaEndpoint] else [])
  }

  // In exclude mode, pushing the engine for the server in use (or the AmneziaWG
  // endpoint) makes the dials safe that the engine decides, whatever the bypass
  // list and the block list are; the other direct dials are safe exactly when
  // they go to private, pushed or listed addresses or the host is not public.
  lemma PushedServerEscapes(g: Gate, nets: seq<IPNet>, server: IP, amneziaEndpoint: IP, unasked: set<Addr>)
    requires g.cfg.outputEnable && g.cfg.mode == Exclude
    requires g.engine == NewWithBypass(g.cfg, nets, TunnelBypassIPs(server, amneziaEndpoint))
    requires g.server.Some? ==> V4(g.server.value) == server || V4(g.server.value) == amneziaEndpoint
    ensures NoOwnDialRedirected(g, {})
    ensures NoOwnDialRedirected(g, unasked) <==>
      HasPublicSource(g) ==> forall ip :: ip in unasked ==>
        IsPrivate(ip) || V4(ip) == server || V4(ip) == amneziaEndpoint || Covered(nets, ip)
  {
    forall ip: Addr
      ensures IsServer(g.engine, ip) <==> V4(ip) == server || V4(ip) == amneziaEndpoint
    {
    }
    OwnDialsEscape(g, unasked);
    OwnDialsEscape(g, {});
  }

  // q is the dial the transparent proxy makes after packet p was redirected to it.
  predicate Hop(g: Gate, p: Packet, q: Packet) {
    q.proto == Tcp && q.saddr in g.sources &&
    match Via(g, p.daddr)
    case Direct => q.daddr == p.daddr && q.dport == p.dport
    case Tunnel =>
      g.server == Some(q.daddr) || (AmneziaOif(g.cfg, q) && q.daddr == p.daddr && q.dport == p.dport)
    case Drop => false
  }

  // A chain redirect -> proxy -> dial -> redirect -> ...: every packet is
  // redirected to the proxy, the first one as a forwarded or a local packet,
  // every later one as the dial its predecessor caused.
  ghost predicate RedirectChain(g: Gate, forwarded: bool, ps: seq<Packet>) {
    && (forall i :: 0 <= i < |ps| - 1 ==> Hop(g, ps[i], ps[i + 1]))
    && (forall i :: 0 <= i < |ps| ==>
          if i == 0 && forwarded then Eval(Compile(g.cfg, g.engine), Prerouting, ps[i]) == Some(Redirect(g.cfg.port))
          else LocalRedirected(g, ps[i]))
  }

  ghost predicate AtMostRedirects(g: Gate, n: nat) {
    forall ps, forwarded :: RedirectChain(g, forwarded, ps) ==> |ps| <= n
  }

  function Repeat(p: Packet, n: nat): (ps: seq<Packet>)
    ensures |ps| == n && forall i :: 0 <= i < n ==> ps[i] == p
  {
    seq(n, _ => p)
  }

  // p is redirected, dialed as p again, redirected again, without end.
  ghost predicate LoopsForever(g: Gate, p: Packet) {
    forall n: nat :: RedirectChain(g, false, Repeat(p, n))
  }

  ghost predicate SomethingLoops(g: Gate) {
    exists p :: LoopsForever(g, p)
  }

  lemma RepeatedHop(g: Gate, p: Packet)
    requires LocalRedirected(g, p) && Hop(g, p, p)
    ensures LoopsForever(g, p)
  {
  }

  lemma LoopedHop(g: Gate, p: Packet)
    requires LoopsForever(g, p)
    ensures LocalRedirected(g, p) && Hop(g, p, p)
  {
    var ps := Repeat(p, 2);
    assert RedirectChain(g, false, ps);
    assert Hop(g, ps[0], ps[0 + 1]) && LocalRedirected(g, ps[0]);
  }

  ghost predicate TunnelUsed(g: Gate) {
    exists ip :: !IsPrivate(ip) && Via(g, ip) == Tunnel
  }

  // Where a second redirect comes from: a contested address that is dialed
  // directly, or a tunnel dial to an exposed server; always from a public source.
  lemma SecondRedirect(g: Gate, p: Packet, q: Packet)
    requires Wired(g) && Hop(g, p, q) && LocalRedirected(g, q)
    ensures HasPublicSource(g)
    ensures (g.cfg.mode == Include && q.daddr == p.daddr &&
             Contested(g.engine, p.daddr) && !Blocked(g.block, p.daddr)) ||
            (Via(g, p.daddr) == Tunnel && g.server == Some(q.daddr) && ServerExposed(g))
  {
    OutputVerdict(g.cfg, g.engine, q);
  }

  lemma SelectedLoops(g: Gate, ip: Addr)
    requires Wired(g) && HasPublicSource(g) && Selected(g, ip)
    requires Via(g, ip) == Direct || (Via(g, ip) == Tunnel && g.server == Some(ip))
    ensures SomethingLoops(g)
  {
    var source :| source in g.sources && !IsPrivate(source);
    ProbeRedirected(g, source, ip);
    RepeatedHop(g, ProbePacket(g.cfg, source, ip));
  }

  lemma LoopMeansTwo(g: Gate)
    requires SomethingLoops(g)
    ensures !AtMostRedirects(g, 1)
  {
    var p :| LoopsForever(g, p);
    assert RedirectChain(g, false, Repeat(p, 2));
  }

  lemma ExposedServerChain(g: Gate)
    requires Wired(g) && HasPublicSource(g) && ServerExposed(g) && TunnelUsed(g)
    ensures !AtMostRedirects(g, 1)
  {
    var source :| source in g.sources && !IsPrivate(source);
    var ip :| !IsPrivate(ip) && Via(g, ip) == Tunnel;
    var p, q := ProbePacket(g.cfg, source, ip), ProbePacket(g.cfg, source, g.server.value);
    PreroutingVerdict(g.cfg, g.engine, p);
    ProbeRedirected(g, source, g.server.value);
    assert RedirectChain(g, true, [p, q]);
  }

  // Every chain stops after one redirect exactly when the host has no public
  // address, or no unblocked public address is both tunneled and bypassed and
  // the server is not exposed to OUTPUT or nothing is tunneled.
  lemma OneRedirectExact(g: Gate)
    requires Wired(g)
    ensures AtMostRedirects(g, 1) <==>
      HasPublicSource(g) ==> ContestedBlocked(g) && (ServerExposed(g) ==> !TunnelUsed(g))
  {
    if HasPublicSource(g) && !ContestedBlocked(g) {
      var ip :| Contested(g.engine, ip) && !Blocked(g.block, ip);
      SelectedLoops(g, ip);
      LoopMeansTwo(g);
    } else if HasPublicSource(g) && ServerExposed(g) && TunnelUsed(g) {
      ExposedServerChain(g);
    } else {
      forall ps, forwarded | RedirectChain(g, forwarded, ps)
        ensures |ps| <= 1
      {
        if |ps| > 1 {
          TwoRedirects(g, forwarded, ps);
        }
      }
    }
  }

  lemma TwoRedirects(g: Gate, forwarded: bool, ps: seq<Packet>)
    requires Wired(g) && RedirectChain(g, forwarded, ps) && |ps| > 1
    ensures HasPublicSource(g) && !(ContestedBlocked(g) && (ServerExposed(g) ==> !TunnelUsed(g)))
  {
    assert Hop(g, ps[0], ps[0 + 1]) && LocalRedirected(g, ps[1]);
    PreroutingVerdict(g.cfg, g.engine, ps[0]);
    OutputVerdict(g.cfg, g.engine, ps[0]);
    SecondRedirect(g, ps[0], ps[1]);
  }

  // Some packet is redirected without end exactly when the host has a public
  // address and an unblocked public address is both tunneled and bypassed, or an
  // exposed server is not dropped.
  lemma LoopExact(g: Gate)
    requires Wired(g)
    ensures SomethingLoops(g) <==>
      HasPublicSource(g) && !(ContestedBlocked(g) && (ServerExposed(g) ==> Via(g, g.server.value) == Drop))
  {
    if HasPublicSource(g) && !ContestedBlocked(g) {
      var ip :| Contested(g.engine, ip) && !Blocked(g.block, ip);
      SelectedLoops(g, ip);
    } else if HasPublicSource(g) && ServerExposed(g) && Via(g, g.server.value) != Drop {
      SelectedLoops(g, g.server.value);
    } else if SomethingLoops(g) {
      var p :| LoopsForever(g, p);
      LoopedHop(g, p);
      SecondRedirect(g, p, p);
      assert false;
    }
  }

  // Loops and single redirects, for every block list, server in use and set of
  // own addresses; in between there is only a dial to a dropped server, which
  // ends after two. With a public address, a known mode and a server that is not
  // blocked, both are LoopSafe.
  lemma LoopFreedom(g: Gate)
    requires Wired(g)
    ensures AtMostRedirects(g, 1) <==>
      HasPublicSource(g) ==> ContestedBlocked(g) && (ServerExposed(g) ==> !TunnelUsed(g))
    ensures SomethingLoops(g) <==>
      HasPublicSource(g) && !(ContestedBlocked(g) && (ServerExposed(g) ==> Via(g, g.server.value) == Drop))
    ensures SomethingLoops(g) <==> !AtMostRedirects(g, 2)
    ensures HasPublicSource(g) && g.cfg.mode != UnknownMode &&
            (g.server.Some? ==> !Blocked(g.block, g.server.value)) ==>
      (AtMostRedirects(g, 1) <==> LoopSafe(g)) && (SomethingLoops(g) <==> !LoopSafe(g))
  {
    OneRedirectExact(g);
    LoopExact(g);
    if SomethingLoops(g) {
      var p :| LoopsForever(g, p);
      assert RedirectChain(g, false, Repeat(p, 3));
    } else {
      forall ps, forwarded | RedirectChain(g, forwarded, ps)
        ensures |ps| <= 2
      {
        if |ps| > 2 {
          ThreeRedirects(g, forwarded, ps);
        }
      }
    }
    if ContestedBlocked(g) && ServerExposed(g) && g.cfg.mode != UnknownMode && !Blocked(g.block, g.server.value) {
      assert Via(g, g.server.value) == Tunnel;
    }
  }

  lemma ThreeRedirects(g: Gate, forwarded: bool, ps: seq<Packet>)
    requires Wired(g) && RedirectChain(g, forwarded, ps) && |ps| > 2
    ensures HasPublicSource(g)
    ensures !(ContestedBlocked(g) && (ServerExposed(g) ==> Via(g, g.server.value) == Drop))
  {
    assert Hop(g, ps[0], ps[0 + 1]) && LocalRedirected(g, ps[1]);
    assert Hop(g, ps[1], ps[1 + 1]) && LocalRedirected(g, ps[2]);
    SecondRedirect(g, ps[0], ps[1]);
    SecondRedirect(g, ps[1], ps[2]);
  }

  lemma SecondIsLocal(g: Gate)
    ensures !AtMostRedirects(g, 1) ==> exists p :: Redirected(g.cfg, g.engine, p)
  {
    if !AtMostRedirects(g, 1) {
      var ps, forwarded :| RedirectChain(g, forwarded, ps) && |ps| > 1;
      assert LocalRedirected(g, ps[1]);
    }
  }

  // Without the OUTPUT redirect no chain gets past its first redirect.
  lemma NoOutputNoLoop(g: Gate)
    requires !g.cfg.outputEnable
    ensures AtMostRedirects(g, 1)
  {
    SecondIsLocal(g);
    assert Compile(g.cfg, g.engine).chains[Output] == [];
    assert forall p :: !Redirected(g.cfg, g.engine, p);
  }

  // The server in use and the servers of the pushed engine are synchronised
  // only by rebuildPush. In exclude mode, tunnel dials loop exactly when the
  // host has a public address and the server in use is not the pushed one nor
  // the AmneziaWG endpoint, and is public, unlisted and not blocked.
  lemma UnpushedServerLoops(g: Gate, nets: seq<IPNet>, pushed: IP, amneziaEndpoint: IP)
    requires g.cfg.outputEnable && g.cfg.mode == Exclude && g.server.Some?
    requires g.engine == NewWithBypass(g.cfg, nets, TunnelBypassIPs(pushed, amneziaEndpoint))
    ensures var server := g.server.value;
      SomethingLoops(g) <==>
        HasPublicSource(g) && V4(server) != pushed && V4(server) != amneziaEndpoint &&
        !IsPrivate(server) && !Covered(nets, server) && !Blocked(g.block, server)
  {
    var server := g.server.value;
    LoopExact(g);
    assert IsServer(g.engine, server) <==> V4(server) == pushed || V4(server) == amneziaEndpoint;
  }
}
