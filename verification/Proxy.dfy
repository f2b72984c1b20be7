// What the SOCKS5 server and the transparent proxy share: the visible actions
// of one connection, host checkers, dialers and connection events.
module Proxy {
  import opened Text
  import opened NetAddr
  import opened Routing
  import opened PathDecider

  type Byte = b: int | 0 <= b < 256

  datatype ConnEvent = ConnEvent(
    proto: string, clientIP: string, target: string, host: string, port: int,
    via: Path, rule: string, ok: bool, error: string)

  // In order: bytes written to the client, a dial, a recorded event, the start
  // of relaying after "consumed" input bytes, or the hand-over to the HTTP proxy.
  datatype Action =
    | Reply(bytes: seq<Byte>)
    | Dial(via: Path, target: string)
    | Record(event: ConnEvent)
    | Relay(consumed: nat)
    | HandOver

  // A BypassChecker: with labels (BypassMatcher) or plain.
  datatype Checker = Matcher(label_: HostMatcher) | Plain(matches: string -> bool)

  // matchChecker
  function MatchChecker(c: Option<Checker>, host: string): Option<string> {
    match c
    case None => None
    case Some(Matcher(f)) => f(host)
    case Some(Plain(f)) => if f(host) then Some("") else None
  }

  // The outcome of a dial: None is success, Some the error text.
  type DialOutcome = (Path, string) -> Option<string>

  // net.JoinHostPort
  function JoinHostPort(host: string, port: nat): string {
    if ':' in host then "[" + host + "]:" + Dec(port) else host + ":" + Dec(port)
  }

  // The target of a plain host splits at its only colon; a host that holds a
  // colon is bracketed, so the two can never be confused.
  lemma TargetParts(host: string, port: nat)
    ensures ':' !in host ==> Split(JoinHostPort(host, port), ':') == [host, Dec(port)]
    ensures ':' in host ==> JoinHostPort(host, port) == ['['] + host + [']', ':'] + Dec(port)
  {
    DecHasNoDot(port);
    if ':' !in host {
      SplitWithout(host, ':');
      SplitWithout(Dec(port), ':');
      SplitAppend(host, ':', Dec(port));
      assert JoinHostPort(host, port) == host + [':'] + Dec(port);
    }
  }

  // The checker matches the host, with this label.
  ghost predicate Lists(c: Option<Checker>, host: string, rule: string) {
    c.Some? &&
    match c.value
    case Matcher(f) => f(host) == Some(rule)
    case Plain(f) => f(host) && rule == ""
  }

  lemma ListsExact(c: Option<Checker>, host: string, rule: string)
    ensures MatchChecker(c, host) == Some(rule) <==> Lists(c, host, rule)
    ensures MatchChecker(c, host).None? <==> forall l :: !Lists(c, host, l)
  {
    if MatchChecker(c, host).Some? {
      assert Lists(c, host, MatchChecker(c, host).value);
    }
  }

  const IsRecord: Action -> bool := (a: Action) => a.Record?
  const IsReply: Action -> bool := (a: Action) => a.Reply?
  const IsDial: Action -> bool := (a: Action) => a.Dial?

  function CountActions(trace: seq<Action>, p: Action -> bool): (n: nat)
    ensures n <= |trace|
  {
    if trace == [] then 0 else (if p(trace[0]) then 1 else 0) + CountActions(trace[1..], p)
  }

  lemma {:induction false} CountConcat(a: seq<Action>, b: seq<Action>, p: Action -> bool)
    ensures CountActions(a + b, p) == CountActions(a, p) + CountActions(b, p)
  {
    if a == [] {
      assert a + b == b;
    } else {
      assert (a + b)[1..] == a[1..] + b;
      CountConcat(a[1..], b, p);
    }
  }

  lemma CountOne(a: Action)
    ensures CountActions([a], IsRecord) == (if a.Record? then 1 else 0)
    ensures CountActions([a], IsReply) == (if a.Reply? then 1 else 0)
    ensures CountActions([a], IsDial) == (if a.Dial? then 1 else 0)
  {
    assert [a][1..] == [];
  }

  lemma CountTwo(a: Action, b: Action, p: Action -> bool)
    ensures CountActions([a, b], p) == CountActions([a], p) + CountActions([b], p)
  {
    CountConcat([a], [b], p);
    assert [a] + [b] == [a, b];
  }

  lemma CountThree(t: seq<Action>, p: Action -> bool)
    requires |t| == 3
    ensures CountActions(t, p) == CountActions([t[0]], p) + CountActions([t[1]], p) + CountActions([t[2]], p)
  {
    CountConcat([t[0], t[1]], [t[2]], p);
    CountTwo(t[0], t[1], p);
    assert t == [t[0], t[1]] + [t[2]];
  }

  // ipAllowed: an empty list allows every client, otherwise the source address must be listed.
  predicate IPAllowed(client: Option<Addr>, nets: seq<IPNet>) {
    nets == [] || (client.Some? && Covered(nets, client.value))
  }
}
