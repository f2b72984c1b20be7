// internal/routing: the userspace split-tunnel decision.
module Routing {
  import opened Text
  import opened NetAddr

  datatype Mode = Exclude | Include | UnknownMode
  datatype DirectPolicy = DirectAllow | DirectDrop

  // The part of config.Config that routing and the gateway read.
  datatype Config = Config(
    mode: Mode,
    directPolicy: DirectPolicy,
    bypassCIDRs: seq<IPNet>,
    tunnelCIDRs: seq<IPNet>,
    port: int,
    outputEnable: bool,
    amneziaIface: string,
    lanInterface: string)

  datatype Path = Direct | Tunnel | Drop

  datatype Engine = Engine(
    mode: Mode,
    directPolicy: DirectPolicy,
    bypass: seq<IPNet>,
    tunnel: seq<IPNet>,
    serverIPs: seq<IP>)

  function NewWithBypass(cfg: Config, bypass: seq<IPNet>, serverIPs: seq<IP>): Engine {
    Engine(cfg.mode, cfg.directPolicy, bypass, cfg.tunnelCIDRs, serverIPs)
  }

  predicate IsServer(e: Engine, dst: Addr) {
    V4(dst) in e.serverIPs
  }

  // Engine.Decide; None is the nil address.
  function Decide(e: Engine, dst: Option<Addr>): Path {
    match dst
    case None => Drop
    case Some(ip) =>
      if IsServer(e, ip) || Covered(e.bypass, ip) then Direct
      else match e.mode
        case Exclude => Tunnel
        case Include =>
          if Covered(e.tunnel, ip) then Tunnel
          else if e.directPolicy == DirectDrop then Drop
          else Direct
        case UnknownMode => Drop
  }

  function BypassNets(e: Engine): seq<IPNet> {
    e.bypass + HostNets(e.serverIPs)
  }

  // Engine.BypassNets: the list handed to the kernel, with one /32 per IPv4 server.
  method BuildBypassNets(e: Engine) returns (out: seq<IPNet>)
    ensures out == BypassNets(e)
    ensures forall ip: Addr :: Covered(out, ip) <==> IsServer(e, ip) || Covered(e.bypass, ip)
  {
    out := e.bypass;
    for i := 0 to |e.serverIPs|
      invariant out == e.bypass + HostNets(e.serverIPs[..i])
    {
      assert e.serverIPs[..i + 1][..i] == e.serverIPs[..i];
      if e.serverIPs[i].V4? {
        out := out + [Host(e.serverIPs[i].addr)];
      }
    }
    assert e.serverIPs[..|e.serverIPs|] == e.serverIPs;
    forall ip: Addr
      ensures Covered(out, ip) <==> IsServer(e, ip) || Covered(e.bypass, ip)
    {
      BypassNetsCoverage(e, ip);
    }
  }

  lemma BypassNetsCoverage(e: Engine, ip: Addr)
    ensures Covered(BypassNets(e), ip) <==> IsServer(e, ip) || Covered(e.bypass, ip)
  {
    CoveredConcat(e.bypass, HostNets(e.serverIPs), ip);
    HostNetsCoverage(e.serverIPs, ip);
  }
}
