// A small model of nftables: one table with interval sets of IPv4 networks and
// ordered base chains, scripts that are atomic transactions, and first-match
// evaluation of a chain on an IPv4 packet.
module Nft {
  import opened Text
  import opened NetAddr

  datatype SetName = PrivateSet | BypassSet | TunnelSet
  datatype ChainName = Prerouting | Output | FilterOut | FilterFwd | Postrouting

  datatype Match =
    | TcpDport(port: int)
    | UdpDport(ports: set<int>)
    | ProtoTcp
    | DaddrIn(set_: SetName)
    | SaddrIn(set_: SetName)
    | SaddrNet(net: IPNet)
    | OifName(iface: string)

  datatype Verdict = Return | Redirect(to: int) | Reject | Masquerade

  datatype Rule = Rule(matches: seq<Match>, verdict: Verdict)

  datatype Table = Table(sets: map<SetName, set<IPNet>>, chains: map<ChainName, seq<Rule>>)

  datatype Command =
    | AddTable
    | DeleteTable
    | AddSet(s: SetName)
    | FlushSet(s: SetName)
    | AddElement(s: SetName, net: IPNet)
    | AddChain(c: ChainName)
    | AddRule(c: ChainName, rule: Rule)

  // The kernel's view: the outline_gate table is absent or present.
  type Ruleset = Option<Table>

  datatype Outcome = Applied(rules: Ruleset) | Failed

  // One command. "add" of a table, set or chain that exists changes nothing.
  function Execute(cmd: Command, r: Ruleset): Outcome {
    match cmd
    case AddTable => if r.Some? then Applied(r) else Applied(Some(Table(map[], map[])))
    case DeleteTable => if r.Some? then Applied(None) else Failed
    case AddSet(s) =>
      if r.None? then Failed
      else if s in r.value.sets then Applied(r)
      else Applied(Some(r.value.(sets := r.value.sets[s := {}])))
    case FlushSet(s) =>
      if r.None? || s !in r.value.sets then Failed
      else Applied(Some(r.value.(sets := r.value.sets[s := {}])))
    case AddElement(s, n) =>
      if r.None? || s !in r.value.sets then Failed
      else Applied(Some(r.value.(sets := r.value.sets[s := r.value.sets[s] + {n}])))
    case AddChain(c) =>
      if r.None? then Failed
      else if c in r.value.chains then Applied(r)
      else Applied(Some(r.value.(chains := r.value.chains[c := []])))
    case AddRule(c, rule) =>
      if r.None? || c !in r.value.chains then Failed
      else Applied(Some(r.value.(chains := r.value.chains[c := r.value.chains[c] + [rule]])))
  }

  function RunScript(script: seq<Command>, r: Ruleset): Outcome {
    if script == [] then Applied(r)
    else
      match Execute(script[0], r)
      case Failed => Failed
      case Applied(r') => RunScript(script[1..], r')
  }

  // "nft -f -": either the whole script takes effect or nothing does. A fault
  // stands for any reason outside the script: missing binary, permissions, memory.
  function Transact(script: seq<Command>, r: Ruleset, fault: bool): Outcome {
    if fault then Failed else RunScript(script, r)
  }

  lemma {:induction false} RunConcat(a: seq<Command>, b: seq<Command>, r: Ruleset)
    ensures RunScript(a + b, r) ==
      (match RunScript(a, r)
       case Failed => Failed
       case Applied(r') => RunScript(b, r'))
  {
    if a == [] {
      assert a + b == b;
    } else {
      assert (a + b)[1..] == a[1..] + b;
      match Execute(a[0], r)
      case Failed =>
      case Applied(r') => RunConcat(a[1..], b, r');
    }
  }

  // ---- Evaluation ----

  datatype Proto = Tcp | Udp | OtherProto

  datatype Packet = Packet(saddr: Addr, daddr: Addr, proto: Proto, dport: int, oif: string)

  predicate InSet(t: Table, s: SetName, ip: Addr) {
    s in t.sets && exists n :: n in t.sets[s] && Contains(n, ip)
  }

  predicate Matches(t: Table, m: Match, p: Packet) {
    match m
    case TcpDport(port) => p.proto == Tcp && p.dport == port
    case UdpDport(ports) => p.proto == Udp && p.dport in ports
    case ProtoTcp => p.proto == Tcp
    case DaddrIn(s) => InSet(t, s, p.daddr)
    case SaddrIn(s) => InSet(t, s, p.saddr)
    case SaddrNet(n) => Contains(n, p.saddr)
    case OifName(iface) => p.oif == iface
  }

  predicate RuleMatches(t: Table, r: Rule, p: Packet) {
    forall i :: 0 <= i < |r.matches| ==> Matches(t, r.matches[i], p)
  }

  // The verdict of the first rule that matches; None is the chain policy, accept.
  function FirstMatch(t: Table, rules: seq<Rule>, p: Packet): Option<Verdict> {
    if rules == [] then None
    else if RuleMatches(t, rules[0], p) then Some(rules[0].verdict)
    else FirstMatch(t, rules[1..], p)
  }

  function Eval(t: Table, c: ChainName, p: Packet): Option<Verdict> {
    if c in t.chains then FirstMatch(t, t.chains[c], p) else None
  }

  lemma {:induction false} FirstMatchConcat(t: Table, a: seq<Rule>, b: seq<Rule>, p: Packet)
    ensures FirstMatch(t, a + b, p) ==
      if FirstMatch(t, a, p).Some? then FirstMatch(t, a, p) else FirstMatch(t, b, p)
  {
    if a == [] {
      assert a + b == b;
    } else {
      assert (a + b)[1..] == a[1..] + b;
      FirstMatchConcat(t, a[1..], b, p);
    }
  }

  lemma FirstMatchCons(t: Table, r: Rule, rest: seq<Rule>, p: Packet)
    ensures FirstMatch(t, [r] + rest, p) ==
      if RuleMatches(t, r, p) then Some(r.verdict) else FirstMatch(t, rest, p)
  {
    assert ([r] + rest)[1..] == rest;
  }
}
