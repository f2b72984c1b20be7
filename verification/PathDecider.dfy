// internal/proxy/path_decider.go: the path and the log label for one destination.
module PathDecider {
  import opened Text
  import opened NetAddr
  import opened Routing

  // A BypassMatcher: the label of the matching rule, or None for no match.
  type HostMatcher = string -> Option<string>

  predicate Blocked(block: Option<HostMatcher>, ip: Addr) {
    block.Some? && block.value(Dotted(ip)).Some?
  }

  datatype Verdict = Verdict(via: Path, rule: string)

  // EnginePathDecider.DecidePath; None as dst is the nil address, None as eng a nil engine.
  function DecidePath(dst: Option<Addr>, eng: Option<Engine>,
                      bypass: Option<HostMatcher>, block: Option<HostMatcher>): Verdict
  {
    if dst.None? then Verdict(Tunnel, "")
    else
      var text := Dotted(dst.value);
      if block.Some? && block.value(text).Some? then Verdict(Drop, block.value(text).value)
      else if eng.None? then Verdict(Tunnel, "")
      else match Decide(eng.value, dst)
        case Drop => Verdict(Drop, "policy:drop")
        case Direct =>
          if IsServer(eng.value, dst.value) then Verdict(Direct, "outline-server")
          else if bypass.Some? && bypass.value(text).Some? then Verdict(Direct, bypass.value(text).value)
          else Verdict(Direct, "policy:direct")
        case Tunnel => Verdict(Tunnel, "")
  }

  // The verdict for an address, from the configuration an engine was made of:
  // a block label first, then a pushed server, then the networks of the mode.
  lemma VerdictExact(ip: Addr, cfg: Config, nets: seq<IPNet>, servers: seq<IP>,
                     bypass: Option<HostMatcher>, block: Option<HostMatcher>)
    requires !Blocked(block, ip)
    ensures var text := Dotted(ip);
      var named := bypass.Some? && bypass.value(text).Some?;
      var v := DecidePath(Some(ip), Some(NewWithBypass(cfg, nets, servers)), bypass, block);
      if V4(ip) in servers then v == Verdict(Direct, "outline-server")
      else if Covered(nets, ip) ||
              (cfg.mode == Include && !Covered(cfg.tunnelCIDRs, ip) && cfg.directPolicy == DirectAllow)
      then v == Verdict(Direct, if named then bypass.value(text).value else "policy:direct")
      else if cfg.mode == Exclude || (cfg.mode == Include && Covered(cfg.tunnelCIDRs, ip))
      then v == Verdict(Tunnel, "")
      else v == Verdict(Drop, "policy:drop")
  {
  }

  // A blocked address is dropped with the label of its rule, engine or not;
  // without an address, an engine or a block everything goes to the tunnel.
  lemma VerdictWithout(dst: Option<Addr>, eng: Option<Engine>, bypass: Option<HostMatcher>, block: Option<HostMatcher>)
    ensures var v := DecidePath(dst, eng, bypass, block);
      (dst.Some? && Blocked(block, dst.value) ==> v == Verdict(Drop, block.value(Dotted(dst.value)).value)) &&
      (dst.None? || (eng.None? && !Blocked(block, dst.value)) ==> v == Verdict(Tunnel, ""))
  {
  }
}
