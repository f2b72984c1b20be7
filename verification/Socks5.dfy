// internal/proxy/socks5.go: the SOCKS5 handshake of RFC 1928 on a byte stream,
// and the verdict order block, then bypass, then tunnel.
module Socks5 {
  import opened Text
  import opened NetAddr
  import opened Routing
  import opened Proxy

  const VERSION: Byte := 5
  const CONNECT: Byte := 1
  const ATYP_IPV4: Byte := 1
  const ATYP_DOMAIN: Byte := 3
  const ATYP_IPV6: Byte := 4

  // Reply codes (section 6 of RFC 1928).
  const SUCCEEDED: Byte := 0
  const NOT_ALLOWED: Byte := 2
  const REFUSED: Byte := 5
  const COMMAND_NOT_SUPPORTED: Byte := 7
  const ADDRESS_NOT_SUPPORTED: Byte := 8

  const GREETING_REPLY: seq<Byte> := [5, 0]

  function ReplyBytes(code: Byte): seq<Byte> {
    [5, code, 0, 1, 0, 0, 0, 0, 0, 0]
  }

  // ---- Decoding ----

  function Chars(bytes: seq<Byte>): (s: string)
    ensures |s| == |bytes|
  {
    seq(|bytes|, i requires 0 <= i < |bytes| => bytes[i] as char)
  }

  // binary.BigEndian.Uint16
  function U16(hi: Byte, lo: Byte): (n: nat)
    ensures n < 0x1_0000
  {
    hi as int * 256 + lo as int
  }

  function AddrOf(b: seq<Byte>): Addr
    requires |b| == 4
  {
    OctetsToAddr(b[0], b[1], b[2], b[3])
  }

  // net.IP.To4 on 16 bytes.
  predicate IsMapped(b: seq<Byte>)
    requires |b| == 16
  {
    (forall i :: 0 <= i < 10 ==> b[i] == 0) && b[10] == 255 && b[11] == 255
  }

  datatype Decoded =
    | Ended                                            // the stream stops inside the request
    | Refuse(code: Byte)                               // answered with an error reply
    | Request(host: string, port: nat, consumed: nat)

  datatype Host = NoHost | BadAddress | HostText(text: string, consumed: nat)

  // The address of a request whose first four bytes are present.
  function DecodeHost(s: seq<Byte>): (h: Host)
    requires |s| >= 4
    ensures h.HostText? ==> 4 <= h.consumed <= |s|
  {
    if s[3] == ATYP_IPV4 then
      if |s| < 8 then NoHost else HostText(Dotted(AddrOf(s[4..8])), 8)
    else if s[3] == ATYP_DOMAIN then
      if |s| < 5 || |s| < 5 + s[4] as int then NoHost else HostText(Chars(s[5..5 + s[4] as int]), 5 + s[4] as int)
    else if s[3] == ATYP_IPV6 then
      if |s| < 20 then NoHost
      else if IsMapped(s[4..20]) then HostText(Dotted(AddrOf(s[16..20])), 20)
      else BadAddress
    else BadAddress
  }

  // The request after the greeting (section 4 of RFC 1928).
  function DecodeRequest(s: seq<Byte>): (d: Decoded)
    ensures d.Request? ==> d.consumed <= |s| && d.port < 0x1_0000
  {
    if |s| < 4 then Ended
    else if s[0] != VERSION || s[1] != CONNECT then Refuse(COMMAND_NOT_SUPPORTED)
    else
      match DecodeHost(s)
      case NoHost => Ended
      case BadAddress => Refuse(ADDRESS_NOT_SUPPORTED)
      case HostText(text, k) =>
        if |s| < k + 2 then Ended else Request(text, U16(s[k], s[k + 1]), k + 2)
  }

  // ---- Encoding, as a client writes it ----

  datatype Address = IPv4Address(a: Addr) | DomainAddress(name: seq<Byte>) | MappedAddress(a: Addr)

  predicate ValidAddress(address: Address) {
    address.DomainAddress? ==> |address.name| < 256
  }

  function AddrBytes(a: Addr): seq<Byte> {
    [Octet(a, 0), Octet(a, 1), Octet(a, 2), Octet(a, 3)]
  }

  function EncodeAddress(address: Address): seq<Byte>
    requires ValidAddress(address)
  {
    match address
    case IPv4Address(a) => [ATYP_IPV4] + AddrBytes(a)
    case DomainAddress(name) => [ATYP_DOMAIN, |name|] + name
    case MappedAddress(a) => [ATYP_IPV6, 0, 0, 0, 0, 0, 0, 0, 0, 0, 0, 255, 255] + AddrBytes(a)
  }

  function EncodeRequest(address: Address, port: nat, reserved: Byte): seq<Byte>
    requires ValidAddress(address) && port < 0x1_0000
  {
    [VERSION, CONNECT, reserved] + EncodeAddress(address) + [port / 256, port % 256]
  }

  function HostOf(address: Address): string {
    match address
    case DomainAddress(name) => Chars(name)
    case _ => Dotted(address.a)
  }

  lemma AddrBytesRoundTrip(a: Addr)
    ensures AddrOf(AddrBytes(a)) == a
  {
    AddrOfOctets(a);
  }

  lemma DecodeEncodedHost(address: Address, reserved: Byte, tail: seq<Byte>)
    requires ValidAddress(address)
    ensures var s := [VERSION, CONNECT, reserved] + EncodeAddress(address) + tail;
      DecodeHost(s) == HostText(HostOf(address), 3 + |EncodeAddress(address)|)
  {
    var s := [VERSION, CONNECT, reserved] + EncodeAddress(address) + tail;
    match address
    case IPv4Address(a) =>
      assert s[4..8] == AddrBytes(a);
      AddrBytesRoundTrip(a);
    case DomainAddress(name) =>
      assert s[5..5 + |name|] == name;
    case MappedAddress(a) =>
      assert s[4..20] == [0, 0, 0, 0, 0, 0, 0, 0, 0, 0, 255, 255] + AddrBytes(a);
      assert s[16..20] == AddrBytes(a);
      AddrBytesRoundTrip(a);
  }

  // Decoding the encoding of a CONNECT request, followed by any bytes, gives
  // back its host and port and consumes exactly the encoding.
  lemma DecodeEncoded(address: Address, port: nat, reserved: Byte, rest: seq<Byte>)
    requires ValidAddress(address) && port < 0x1_0000
    ensures var enc := EncodeRequest(address, port, reserved);
      DecodeRequest(enc + rest) == Request(HostOf(address), port, |enc|) && (enc + rest)[|enc|..] == rest
  {
    var enc := EncodeRequest(address, port, reserved);
    var tail := [port / 256, port % 256] + rest;
    assert enc + rest == [VERSION, CONNECT, reserved] + EncodeAddress(address) + tail;
    DecodeEncodedHost(address, reserved, tail);
    var k := 3 + |EncodeAddress(address)|;
    assert (enc + rest)[k] == port / 256 && (enc + rest)[k + 1] == port % 256;
  }

  // The bytes of a CONNECT request, written out (section 4 of RFC 1928).
  lemma RequestBytes(a: Addr, name: seq<Byte>, port: nat)
    requires |name| < 256 && port < 0x1_0000
    ensures EncodeRequest(IPv4Address(a), port, 0) ==
      [5, 1, 0, 1, Octet(a, 0), Octet(a, 1), Octet(a, 2), Octet(a, 3), port / 256, port % 256]
    ensures EncodeRequest(DomainAddress(name), port, 0) == [5, 1, 0, 3, |name|] + name + [port / 256, port % 256]
  {
  }

  lemma MappedRequestBytes(a: Addr, port: nat)
    requires port < 0x1_0000
    ensures EncodeRequest(MappedAddress(a), port, 0) ==
      [5, 1, 0, 4] + [0, 0, 0, 0, 0, 0, 0, 0, 0, 0, 255, 255] +
      [Octet(a, 0), Octet(a, 1), Octet(a, 2), Octet(a, 3)] + [port / 256, port % 256]
  {
    assert EncodeAddress(MappedAddress(a)) ==
      [4] + [0, 0, 0, 0, 0, 0, 0, 0, 0, 0, 255, 255] + [Octet(a, 0), Octet(a, 1), Octet(a, 2), Octet(a, 3)];
  }

  // The address text of a request whose bytes are long enough for its type.
  lemma DecodedAddress(s: seq<Byte>) returns (address: Address)
    requires |s| >= 4 && DecodeHost(s).HostText?
    ensures ValidAddress(address) && DecodeHost(s) == HostText(HostOf(address), 3 + |EncodeAddress(address)|)
    ensures s[3..3 + |EncodeAddress(address)|] == EncodeAddress(address)
  {
    if s[3] == ATYP_IPV4 {
      OctetsOf(s[4], s[5], s[6], s[7]);
      address := IPv4Address(AddrOf(s[4..8]));
      assert s[3..8] == [s[3], s[4], s[5], s[6], s[7]];
    } else if s[3] == ATYP_DOMAIN {
      address := DomainAddress(s[5..5 + s[4] as int]);
    } else {
      OctetsOf(s[16], s[17], s[18], s[19]);
      address := MappedAddress(AddrOf(s[16..20]));
      MappedBytes(s[4..20]);
      assert s[3..20] == [s[3]] + s[4..20];
    }
  }

  lemma MappedBytes(b: seq<Byte>)
    requires |b| == 16 && IsMapped(b)
    ensures b == [0, 0, 0, 0, 0, 0, 0, 0, 0, 0, 255, 255] + [b[12], b[13], b[14], b[15]]
  {
  }

  // Only encodings of a CONNECT request are decoded as requests.
  lemma DecodedIsEncoded(s: seq<Byte>) returns (address: Address, reserved: Byte)
    requires DecodeRequest(s).Request?
    ensures ValidAddress(address)
    ensures var r := DecodeRequest(s);
      r.host == HostOf(address) && s[..r.consumed] == EncodeRequest(address, r.port, reserved)
  {
    var r := DecodeRequest(s);
    address := DecodedAddress(s);
    reserved := s[2];
    var k := 3 + |EncodeAddress(address)|;
    RequestParts(s, k);
    PortParts(s[k], s[k + 1]);
  }

  lemma RequestParts(s: seq<Byte>, k: nat)
    requires 3 <= k && k + 2 <= |s|
    ensures s[..k + 2] == [s[0], s[1], s[2]] + s[3..k] + [s[k], s[k + 1]]
  {
  }

  lemma PortParts(hi: Byte, lo: Byte)
    ensures U16(hi, lo) / 256 == hi && U16(hi, lo) % 256 == lo
  {
  }

  // ---- One connection ----

  // Everything outside the stream that a connection depends on.
  datatype Env = Env(
    allow: seq<IPNet>,
    client: Option<Addr>,
    clientIP: string,
    block: Option<Checker>,
    bypass: Option<Checker>,
    outcome: DialOutcome,
    greetingWritten: bool,
    successWritten: bool)

  function EventFor(env: Env, host: string, port: nat, via: Path, rule: string, ok: bool, error: string): ConnEvent {
    ConnEvent("socks", env.clientIP, JoinHostPort(host, port), host, port, via, rule, ok, error)
  }

  // The dialer and label that dialTarget picks.
  function ChosenPath(env: Env, host: string): (Path, string) {
    var m := MatchChecker(env.bypass, host);
    if m.Some? then (Direct, m.value) else (Tunnel, "")
  }

  // The actions after a complete request.
  function Serve(env: Env, host: string, port: nat, consumed: nat): seq<Action> {
    var target := JoinHostPort(host, port);
    var blocked := MatchChecker(env.block, host);
    if blocked.Some? then
      [Record(EventFor(env, host, port, Drop, blocked.value, false, "blocked")), Reply(ReplyBytes(NOT_ALLOWED))]
    else
      var (via, rule) := ChosenPath(env, host);
      match env.outcome(via, target)
      case Some(err) =>
        [Dial(via, target), Record(EventFor(env, host, port, via, rule, false, err)), Reply(ReplyBytes(REFUSED))]
      case None =>
        [Dial(via, target), Record(EventFor(env, host, port, via, rule, true, "")), Reply(ReplyBytes(SUCCEEDED))] +
        if env.successWritten then [Relay(consumed)] else []
  }

  // The number of bytes the greeting takes, when it is complete.
  function GreetingLength(input: seq<Byte>): Option<nat> {
    if |input| >= 2 && |input| >= 2 + input[1] as int then Some(2 + input[1] as int) else None
  }

  function Trace(env: Env, input: seq<Byte>): seq<Action> {
    if !IPAllowed(env.client, env.allow) || input == [] then []
    else if input[0] != VERSION then [HandOver]
    else
      var g := GreetingLength(input);
      if g.None? then []
      else if !env.greetingWritten then [Reply(GREETING_REPLY)]
      else
        [Reply(GREETING_REPLY)] + Answer(env, DecodeRequest(input[g.value..]), g.value)
  }

  // The actions for what follows a greeting of the given length.
  function Answer(env: Env, d: Decoded, greeting: nat): seq<Action> {
    match d
    case Ended => []
    case Refuse(code) => [Reply(ReplyBytes(code))]
    case Request(host, port, n) => Serve(env, host, port, greeting + n)
  }

  // ---- Verdict properties ----

  predicate Completed(env: Env, input: seq<Byte>) {
    IPAllowed(env.client, env.allow) && env.greetingWritten && input != [] && input[0] == VERSION &&
    GreetingLength(input).Some? && DecodeRequest(input[GreetingLength(input).value..]).Request?
  }

  function RequestOf(input: seq<Byte>): Decoded
    requires GreetingLength(input).Some?
  {
    DecodeRequest(input[GreetingLength(input).value..])
  }

  lemma CompletedTrace(env: Env, input: seq<Byte>)
    requires Completed(env, input)
    ensures var r := RequestOf(input);
      Trace(env, input) ==
        [Reply(GREETING_REPLY)] + Serve(env, r.host, r.port, GreetingLength(input).value + r.consumed)
  {
  }

  // A completed request yields exactly one event and, after the greeting,
  // exactly one reply; it is dialed exactly once unless the host is blocked,
  // and then never, even when bypass matches too.
  lemma OneEventOneReply(env: Env, input: seq<Byte>)
    ensures Completed(env, input) ==>
      var t := Trace(env, input);
      CountActions(t, IsRecord) == 1 && CountActions(t, IsReply) == 2 &&
      CountActions(t, IsDial) == if MatchChecker(env.block, RequestOf(input).host).Some? then 0 else 1
  {
    if Completed(env, input) {
      var g := GreetingLength(input).value;
      var r := RequestOf(input);
      var serve := Serve(env, r.host, r.port, g + r.consumed);
      CompletedTrace(env, input);
      ServeCounts(env, r.host, r.port, g + r.consumed);
      CountConcat([Reply(GREETING_REPLY)], serve, IsRecord);
      CountConcat([Reply(GREETING_REPLY)], serve, IsReply);
      CountConcat([Reply(GREETING_REPLY)], serve, IsDial);
      CountOne(Reply(GREETING_REPLY));
    }
  }

  lemma ServeCounts(env: Env, host: string, port: nat, consumed: nat)
    ensures var t := Serve(env, host, port, consumed);
      CountActions(t, IsRecord) == 1 && CountActions(t, IsReply) == 1 &&
      CountActions(t, IsDial) == if MatchChecker(env.block, host).Some? then 0 else 1
  {
    var t := Serve(env, host, port, consumed);
    CountOne(t[0]);
    CountOne(t[1]);
    if |t| == 2 {
      assert t == [t[0], t[1]];
    } else {
      CountOne(t[2]);
      if |t| == 4 {
        CountOne(t[3]);
        CountFour(t, IsRecord);
        CountFour(t, IsReply);
        CountFour(t, IsDial);
      } else {
        CountThree(t, IsRecord);
        CountThree(t, IsReply);
        CountThree(t, IsDial);
      }
    }
    CountTwo(t[0], t[1], IsRecord);
    CountTwo(t[0], t[1], IsReply);
    CountTwo(t[0], t[1], IsDial);
  }

  lemma CountFour(t: seq<Action>, p: Action -> bool)
    requires |t| == 4
    ensures CountActions(t, p) ==
      CountActions([t[0]], p) + CountActions([t[1]], p) + CountActions([t[2]], p) + CountActions([t[3]], p)
  {
    CountConcat(t[..3], [t[3]], p);
    CountThree(t[..3], p);
    assert t == t[..3] + [t[3]];
  }

  // The dial at position i is for the requested host and port, which no block
  // rule matches, by the direct dialer exactly when bypass matches the host.
  predicate AllowedDial(env: Env, host: string, port: nat, t: seq<Action>, i: nat)
    requires i < |t| && t[i].Dial?
  {
    t[i].target == JoinHostPort(host, port) && MatchChecker(env.block, host).None? &&
    t[i].via == if MatchChecker(env.bypass, host).Some? then Direct else Tunnel
  }

  // Position i follows a successful dial and the event that names its dialer.
  predicate AfterNamedDial(env: Env, t: seq<Action>, i: nat) {
    2 <= i < |t| && t[i - 2].Dial? && env.outcome(t[i - 2].via, t[i - 2].target).None? &&
    t[i - 1].Record? && t[i - 1].event.via == t[i - 2].via && t[i - 1].event.target == t[i - 2].target &&
    t[i - 1].event.ok
  }

  // Every event, dial and reply of a trace belongs to the one requested host.
  predicate Ordered(env: Env, host: string, port: nat, t: seq<Action>) {
    forall i :: 0 <= i < |t| ==>
      (t[i].Dial? ==> AllowedDial(env, host, port, t, i)) &&
      (t[i].Record? ==> t[i].event.host == host && t[i].event.port == port) &&
      (t[i] == Reply(ReplyBytes(SUCCEEDED)) ==> AfterNamedDial(env, t, i)) &&
      (t[i].Relay? ==> i >= 1 && t[i - 1] == Reply(ReplyBytes(SUCCEEDED)))
  }

  // On every input: only the requested host is dialed or named by an event, a
  // blocked host is never dialed, the success reply comes
  // only after a successful dial by the dialer an event names, and relaying
  // starts only after that reply.
  lemma VerdictOrder(env: Env, input: seq<Byte>)
    ensures Completed(env, input) ==> Ordered(env, RequestOf(input).host, RequestOf(input).port, Trace(env, input))
    ensures !Completed(env, input) ==>
      (forall a :: a in Trace(env, input) ==> !a.Dial? && !a.Record? && !a.Relay? && a != Reply(ReplyBytes(SUCCEEDED)))
  {
    if Completed(env, input) {
      var g := GreetingLength(input).value;
      var r := RequestOf(input);
      CompletedTrace(env, input);
      ServeOrder(env, r.host, r.port, g + r.consumed);
    } else {
      ShortTrace(env, input);
    }
  }

  lemma ShortTrace(env: Env, input: seq<Byte>)
    requires !Completed(env, input)
    ensures var t := Trace(env, input);
      forall a :: a in t ==> !a.Dial? && !a.Record? && !a.Relay? && a != Reply(ReplyBytes(SUCCEEDED))
  {
    assert |GREETING_REPLY| != |ReplyBytes(SUCCEEDED)|;
    assert ReplyBytes(COMMAND_NOT_SUPPORTED)[1] != ReplyBytes(SUCCEEDED)[1];
    assert ReplyBytes(ADDRESS_NOT_SUPPORTED)[1] != ReplyBytes(SUCCEEDED)[1];
  }

  lemma ServeOrder(env: Env, host: string, port: nat, consumed: nat)
    ensures Ordered(env, host, port, [Reply(GREETING_REPLY)] + Serve(env, host, port, consumed))
  {
    var serve := Serve(env, host, port, consumed);
    var t := [Reply(GREETING_REPLY)] + serve;
    assert |GREETING_REPLY| != |ReplyBytes(SUCCEEDED)|;
    assert ReplyBytes(NOT_ALLOWED)[1] != ReplyBytes(SUCCEEDED)[1];
    assert ReplyBytes(REFUSED)[1] != ReplyBytes(SUCCEEDED)[1];
  }

  // A client that sends a greeting, an encoded request and more bytes gets
  // exactly those further bytes relayed, when its host is reached.
  lemma EncodedConversation(env: Env, methods: seq<Byte>, address: Address, port: nat, rest: seq<Byte>)
    requires |methods| < 256 && ValidAddress(address) && port < 0x1_0000
    requires Admitted(env) && env.greetingWritten && env.successWritten
    requires forall l :: !Lists(env.block, HostOf(address), l)
    requires forall via :: env.outcome(via, JoinHostPort(HostOf(address), port)) == None
    ensures var head := [VERSION, |methods|] + methods + EncodeRequest(address, port, 0);
      var t := Trace(env, head + rest);
      t != [] && t[|t| - 1] == Relay(|head|) && (head + rest)[|head|..] == rest
  {
    var enc := EncodeRequest(address, port, 0);
    var host := HostOf(address);
    DecodeEncoded(address, port, 0, rest);
    DecodedConversation(env, methods, enc, rest, host, port);
    ListsExact(env.block, host, "");
    assert env.outcome(ChosenPath(env, host).0, JoinHostPort(host, port)) == None;
  }

  lemma DecodedConversation(env: Env, methods: seq<Byte>, enc: seq<Byte>, rest: seq<Byte>, host: string, port: nat)
    requires |methods| < 256 && DecodeRequest(enc + rest) == Request(host, port, |enc|)
    requires IPAllowed(env.client, env.allow) && env.greetingWritten
    ensures var head := [VERSION, |methods|] + methods + enc;
      Completed(env, head + rest) && (head + rest)[|head|..] == rest &&
      Trace(env, head + rest) == [Reply(GREETING_REPLY)] + Serve(env, host, port, |head|)
  {
    var greeting := [VERSION, |methods|] + methods;
    Reassociate(greeting, enc, rest);
    GreetedRequest(methods, enc + rest);
    CompletedTrace(env, greeting + (enc + rest));
  }

  lemma Reassociate(a: seq<Byte>, b: seq<Byte>, c: seq<Byte>)
    ensures a + b + c == a + (b + c) && (a + b + c)[|a + b|..] == c
  {
  }

  lemma GreetedRequest(methods: seq<Byte>, tail: seq<Byte>)
    requires |methods| < 256
    ensures var input := [VERSION, |methods|] + methods + tail;
      input != [] && input[0] == VERSION && GreetingLength(input) == Some(2 + |methods|) &&
      RequestOf(input) == DecodeRequest(tail)
  {
    var input := [VERSION, |methods|] + methods + tail;
    assert input[1] == |methods|;
    assert input[2 + |methods|..] == tail;
  }

  // ---- What a client sees, from the bytes alone ----

  // The first k bytes are a greeting and a CONNECT request for host and port.
  ghost predicate Asks(input: seq<Byte>, k: nat, host: string, port: nat) {
    exists methods: seq<Byte>, address: Address, reserved: Byte ::
      AsksWith(input, k, host, port, methods, address, reserved)
  }

  ghost predicate AsksWith(input: seq<Byte>, k: nat, host: string, port: nat,
                           methods: seq<Byte>, address: Address, reserved: Byte) {
    |methods| < 256 && ValidAddress(address) && port < 0x1_0000 && host == HostOf(address) && k <= |input| &&
    input[..k] == [5, |methods|] + methods + EncodeRequest(address, port, reserved)
  }

  // The client may use the proxy: no list, or its address is in a listed network.
  ghost predicate Admitted(env: Env) {
    env.allow == [] || (env.client.Some? && exists n :: n in env.allow && Contains(n, env.client.value))
  }

  ghost predicate CompletedFor(env: Env, input: seq<Byte>, k: nat, host: string, port: nat) {
    Completed(env, input) && RequestOf(input).host == host && RequestOf(input).port == port &&
    k == GreetingLength(input).value + RequestOf(input).consumed
  }

  // A request is complete exactly when the bytes ask for it.
  lemma CompletedExact(env: Env, input: seq<Byte>, k: nat, host: string, port: nat)
    ensures CompletedFor(env, input, k, host, port) <==>
      Admitted(env) && env.greetingWritten && Asks(input, k, host, port)
  {
    if Admitted(env) && env.greetingWritten && Asks(input, k, host, port) {
      var methods, address, reserved :| AsksWith(input, k, host, port, methods, address, reserved);
      AsksCompletes(env, input, k, host, port, methods, address, reserved);
    }
    if CompletedFor(env, input, k, host, port) {
      CompletedAsks(env, input, k, host, port);
    }
  }

  lemma AsksCompletes(env: Env, input: seq<Byte>, k: nat, host: string, port: nat,
                      methods: seq<Byte>, address: Address, reserved: Byte)
    requires Admitted(env) && env.greetingWritten && AsksWith(input, k, host, port, methods, address, reserved)
    ensures CompletedFor(env, input, k, host, port)
  {
    var enc := EncodeRequest(address, port, reserved);
    var rest := input[k..];
    assert input == input[..k] + rest;
    Reassociate([5, |methods|] + methods, enc, rest);
    DecodeEncoded(address, port, reserved, rest);
    GreetedRequest(methods, enc + rest);
    assert k == 2 + |methods| + |enc|;
  }

  lemma CompletedAsks(env: Env, input: seq<Byte>, k: nat, host: string, port: nat)
    requires CompletedFor(env, input, k, host, port)
    ensures Asks(input, k, host, port)
  {
    var g := GreetingLength(input).value;
    var s, methods := input[g..], input[2..g];
    var address, reserved := DecodedIsEncoded(s);
    assert input[..k] == [5, |methods|] + methods + s[..k - g];
    assert AsksWith(input, k, host, port, methods, address, reserved);
  }

  // The reply of ten bytes with a code (section 6 of RFC 1928).
  function Coded(code: Byte): Action {
    Reply([5, code, 0, 1, 0, 0, 0, 0, 0, 0])
  }

  // A blocked host is recorded and refused, whatever bypass says.
  lemma BlockedExactly(env: Env, input: seq<Byte>, k: nat, host: string, port: nat, rule: string)
    requires Admitted(env) && env.greetingWritten && Asks(input, k, host, port) && Lists(env.block, host, rule)
    ensures Trace(env, input) ==
      [Reply([5, 0]),
       Record(ConnEvent("socks", env.clientIP, JoinHostPort(host, port), host, port, Drop, rule, false, "blocked")),
       Coded(2)]
  {
    CompletedExact(env, input, k, host, port);
    CompletedTrace(env, input);
    ListsExact(env.block, host, rule);
  }

  ghost predicate Chooses(env: Env, host: string, via: Path, rule: string) {
    (forall l :: !Lists(env.block, host, l)) &&
    if via == Direct then Lists(env.bypass, host, rule)
    else via == Tunnel && rule == "" && forall l :: !Lists(env.bypass, host, l)
  }

  lemma ServeChosen(env: Env, host: string, port: nat, k: nat, via: Path, rule: string)
    requires Chooses(env, host, via, rule)
    ensures MatchChecker(env.block, host).None? && ChosenPath(env, host) == (via, rule)
  {
    ListsExact(env.block, host, "");
    ListsExact(env.bypass, host, rule);
  }

  // Any other host is dialed by the direct dialer if bypass lists it and by
  // the tunnel's otherwise; a failed dial is recorded and refused ...
  lemma FailedExactly(env: Env, input: seq<Byte>, k: nat, host: string, port: nat, via: Path, rule: string)
    requires Admitted(env) && env.greetingWritten && Asks(input, k, host, port) && Chooses(env, host, via, rule)
    ensures var target := JoinHostPort(host, port);
      var out := env.outcome(via, target);
      out.Some? ==>
        Trace(env, input) ==
          [Reply([5, 0]), Dial(via, target),
           Record(ConnEvent("socks", env.clientIP, target, host, port, via, rule, false, out.value)), Coded(5)]
  {
    CompletedExact(env, input, k, host, port);
    CompletedTrace(env, input);
    ServeChosen(env, host, port, k, via, rule);
  }

  // ... and a successful one is recorded, answered and relayed from byte k on.
  lemma ReachedExactly(env: Env, input: seq<Byte>, k: nat, host: string, port: nat, via: Path, rule: string)
    requires Admitted(env) && env.greetingWritten && Asks(input, k, host, port) && Chooses(env, host, via, rule)
    ensures env.outcome(via, JoinHostPort(host, port)).None? ==>
      Trace(env, input) ==
        [Reply([5, 0]), Dial(via, JoinHostPort(host, port)), Succeeded(env, host, port, via, rule), Coded(0)] +
        if env.successWritten then [Relay(k)] else []
  {
    CompletedExact(env, input, k, host, port);
    CompletedTrace(env, input);
    if env.outcome(via, JoinHostPort(host, port)).None? {
      ServeReached(env, host, port, k, via, rule);
    }
  }

  function Succeeded(env: Env, host: string, port: nat, via: Path, rule: string): Action {
    Record(ConnEvent("socks", env.clientIP, JoinHostPort(host, port), host, port, via, rule, true, ""))
  }

  lemma ServeReached(env: Env, host: string, port: nat, k: nat, via: Path, rule: string)
    requires Chooses(env, host, via, rule) && env.outcome(via, JoinHostPort(host, port)).None?
    ensures [Reply([5, 0])] + Serve(env, host, port, k) ==
      [Reply([5, 0]), Dial(via, JoinHostPort(host, port)), Succeeded(env, host, port, via, rule), Coded(0)] +
      if env.successWritten then [Relay(k)] else []
  {
    ServeChosen(env, host, port, k, via, rule);
  }

  // Relaying starts after the first k bytes exactly when they ask for a host
  // that is not blocked, its dial succeeded and the success reply was written.
  lemma RelayExact(env: Env, input: seq<Byte>, k: nat)
    ensures Relay(k) in Trace(env, input) <==>
      Admitted(env) && env.greetingWritten && env.successWritten && exists host, port: nat ::
        Asks(input, k, host, port) && (forall l :: !Lists(env.block, host, l)) && Reached(env, host, port)
  {
    if Admitted(env) && env.greetingWritten {
      forall host, port: nat | Asks(input, k, host, port)
        ensures Relay(k) in Trace(env, input) <==>
          env.successWritten && (forall l :: !Lists(env.block, host, l)) && Reached(env, host, port)
      {
        RelayOfRequest(env, input, k, host, port, k);
      }
    }
    if Relay(k) in Trace(env, input) {
      VerdictOrder(env, input);
      var r := RequestOf(input);
      var n := GreetingLength(input).value + r.consumed;
      CompletedExact(env, input, n, r.host, r.port);
      RelayOfRequest(env, input, n, r.host, r.port, k);
    }
  }

  lemma RelayOfRequest(env: Env, input: seq<Byte>, k: nat, host: string, port: nat, n: nat)
    requires Admitted(env) && env.greetingWritten && Asks(input, k, host, port)
    ensures Relay(n) in Trace(env, input) <==>
      n == k && env.successWritten && (forall l :: !Lists(env.block, host, l)) && Reached(env, host, port)
  {
    if rule :| Lists(env.block, host, rule) {
      BlockedExactly(env, input, k, host, port, rule);
    } else {
      var via, rule := Choice(env, host);
      ChosenRelay(env, input, k, host, port, via, rule, n);
    }
  }

  lemma ChosenRelay(env: Env, input: seq<Byte>, k: nat, host: string, port: nat, via: Path, rule: string, n: nat)
    requires Admitted(env) && env.greetingWritten && Asks(input, k, host, port) && Chooses(env, host, via, rule)
    ensures Relay(n) in Trace(env, input) <==>
      n == k && env.successWritten && env.outcome(via, JoinHostPort(host, port)).None?
  {
    FailedExactly(env, input, k, host, port, via, rule);
    ReachedExactly(env, input, k, host, port, via, rule);
    if env.outcome(via, JoinHostPort(host, port)).None? && env.successWritten {
      var t := Trace(env, input);
      assert t[|t| - 1] == Relay(k);
    }
  }

  // The dial that bypass selects for the host succeeds.
  ghost predicate Reached(env: Env, host: string, port: nat) {
    env.outcome(if exists l :: Lists(env.bypass, host, l) then Direct else Tunnel, JoinHostPort(host, port)).None?
  }

  lemma Choice(env: Env, host: string) returns (via: Path, rule: string)
    requires forall l :: !Lists(env.block, host, l)
    ensures via == if exists l :: Lists(env.bypass, host, l) then Direct else Tunnel
    ensures Chooses(env, host, via, rule)
  {
    via, rule := Tunnel, "";
    if l :| Lists(env.bypass, host, l) {
      via, rule := Direct, l;
    }
  }

  // A client outside the list is dropped at once; another protocol is handed
  // over; anything but version 5 and CONNECT is answered with 7, any address
  // that is no IPv4 address and no domain with 8.
  lemma RefusedExactly(env: Env, methods: seq<Byte>, s: seq<Byte>)
    requires |methods| < 256
    ensures var input := [5, |methods|] + methods + s;
      var t := Trace(env, input);
      (!Admitted(env) ==> t == []) &&
      (Admitted(env) && !env.greetingWritten ==> t == [Reply([5, 0])]) &&
      (Admitted(env) && env.greetingWritten ==>
        (|s| < 4 ==> t == [Reply([5, 0])]) &&
        (|s| >= 4 && (s[0] != 5 || s[1] != 1) ==> t == [Reply([5, 0]), Coded(7)]) &&
        (|s| >= 4 && s[0] == 5 && s[1] == 1 && s[3] !in {1, 3, 4} ==> t == [Reply([5, 0]), Coded(8)]) &&
        (|s| >= 20 && s[0] == 5 && s[1] == 1 && s[3] == 4 && !IsMapped(s[4..20]) ==>
          t == [Reply([5, 0]), Coded(8)]))
  {
    GreetedRequest(methods, s);
  }

  lemma OtherProtocol(env: Env, input: seq<Byte>)
    ensures HandOver in Trace(env, input) <==> Admitted(env) && input != [] && input[0] != 5
    ensures HandOver in Trace(env, input) ==> Trace(env, input) == [HandOver]
    ensures !Admitted(env) ==> Trace(env, input) == []
  {
    if Completed(env, input) {
      var r := RequestOf(input);
      CompletedTrace(env, input);
      NoHandOver(env, r.host, r.port, GreetingLength(input).value + r.consumed);
    }
  }

  lemma NoHandOver(env: Env, host: string, port: nat, k: nat)
    ensures HandOver !in Serve(env, host, port, k)
  {
  }

  // ---- The server's handler ----

  class Conn {
    const input: seq<Byte>
    var pos: nat
    var trace: seq<Action>

    constructor (input: seq<Byte>)
      ensures this.input == input && pos == 0 && trace == []
    {
      this.input := input;
      this.pos := 0;
      this.trace := [];
    }

    // io.ReadFull into the first n bytes of buf.
    method ReadFull(buf: array<Byte>, n: nat) returns (ok: bool)
      requires n <= buf.Length && pos <= |input|
      modifies this`pos, buf
      ensures ok == (old(pos) + n <= |input|)
      ensures pos <= |input| && (ok ==> pos == old(pos) + n && buf[..n] == input[old(pos)..pos])
      ensures ok ==> forall j :: 0 <= j < n ==> buf[j] == input[old(pos) + j]
    {
      if |input| - pos < n {
        pos := |input|;
        return false;
      }
      var start := pos;
      for i := 0 to n
        invariant pos == start
        invariant forall j :: 0 <= j < i ==> buf[j] == input[start + j]
      {
        buf[i] := input[start + i];
      }
      assert buf[..n] == input[start..start + n];
      pos := start + n;
      return true;
    }

    method Write(bytes: seq<Byte>)
      modifies this`trace
      ensures trace == old(trace) + [Reply(bytes)]
    {
      trace := trace + [Reply(bytes)];
    }

    method Emit(a: Action)
      modifies this`trace
      ensures trace == old(trace) + [a]
    {
      trace := trace + [a];
    }

    // The address part of a request; buf holds its first four bytes.
    method ReadHost(buf: array<Byte>) returns (h: Host)
      requires buf.Length == 258 && 4 <= pos <= |input| && buf[3] == input[pos - 1]
      modifies this`pos, buf
      ensures pos <= |input|
      ensures h == (match DecodeHost(old(input[pos - 4..]))
                    case HostText(text, k) => HostText(text, old(pos) - 4 + k)
                    case other => other)
      ensures h.HostText? ==> pos == h.consumed
    {
      ghost var s := input[pos - 4..];
      ghost var start := pos - 4;
      if buf[3] == ATYP_IPV4 {
        var ok := ReadFull(buf, 4);
        if !ok {
          return NoHost;
        }
        assert buf[..4] == s[4..8];
        return HostText(Dotted(AddrOf(buf[..4])), pos);
      } else if buf[3] == ATYP_DOMAIN {
        var ok := ReadFull(buf, 1);
        if !ok {
          return NoHost;
        }
        assert buf[0] == s[4];
        var l := buf[0];
        ok := ReadFull(buf, l);
        if !ok {
          return NoHost;
        }
        assert buf[..l] == input[start + 5..start + 5 + l] == s[5..5 + l];
        return HostText(Chars(buf[..l]), pos);
      } else if buf[3] == ATYP_IPV6 {
        var ip := new Byte[16];
        var ok := ReadFull(ip, 16);
        if !ok {
          return NoHost;
        }
        assert ip[..16] == input[start + 4..start + 20] == s[4..20];
        assert s[16..20] == s[4..20][12..];
        if IsMapped(ip[..16]) {
          return HostText(Dotted(AddrOf(ip[..16][12..])), pos);
        }
        return BadAddress;
      }
      return BadAddress;
    }

    method ServeRequest(env: Env, host: string, port: nat)
      modifies this`trace
      ensures trace == old(trace) + Serve(env, host, port, pos)
    {
      var target := JoinHostPort(host, port);
      var blocked := MatchChecker(env.block, host);
      if blocked.Some? {
        Emit(Record(EventFor(env, host, port, Drop, blocked.value, false, "blocked")));
        Write(ReplyBytes(NOT_ALLOWED));
        return;
      }
      var via := Tunnel;
      var rule := "";
      var m := MatchChecker(env.bypass, host);
      if m.Some? {
        via := Direct;
        rule := m.value;
      }
      Emit(Dial(via, target));
      var err := env.outcome(via, target);
      if err.Some? {
        Emit(Record(EventFor(env, host, port, via, rule, false, err.value)));
        Write(ReplyBytes(REFUSED));
        return;
      }
      Emit(Record(EventFor(env, host, port, via, rule, true, "")));
      Write(ReplyBytes(SUCCEEDED));
      if env.successWritten {
        Emit(Relay(pos));
      }
    }

    // The request after the greeting was answered.
    method HandleRequest(env: Env, buf: array<Byte>)
      requires buf.Length == 258 && pos <= |input|
      modifies this`pos, this`trace, buf
      ensures trace == old(trace) + Answer(env, DecodeRequest(old(input[pos..])), old(pos))
    {
      ghost var s := input[pos..];
      var ok := ReadFull(buf, 4);
      if !ok {
        return;
      }
      assert buf[0] == s[0] && buf[1] == s[1] && buf[3] == s[3];
      if buf[0] != VERSION || buf[1] != CONNECT {
        Write(ReplyBytes(COMMAND_NOT_SUPPORTED));
        return;
      }
      assert input[pos - 4..] == s;
      HandleAddress(env, buf);
    }

    // The rest of a CONNECT request whose first four bytes were read.
    method HandleAddress(env: Env, buf: array<Byte>)
      requires buf.Length == 258 && 4 <= pos <= |input| && buf[3] == input[pos - 1]
      requires input[pos - 4] == VERSION && input[pos - 3] == CONNECT
      modifies this`pos, this`trace, buf
      ensures trace == old(trace) + Answer(env, DecodeRequest(old(input[pos - 4..])), old(pos) - 4)
    {
      ghost var s := input[pos - 4..];
      ghost var start := pos - 4;
      var h := ReadHost(buf);
      match h
      case NoHost => return;
      case BadAddress =>
        Write(ReplyBytes(ADDRESS_NOT_SUPPORTED));
        return;
      case HostText(host, k) =>
        ghost var n := k - start;
        assert n + 2 <= |s| ==> input[k] == s[n] && input[k + 1] == s[n + 1];
        ReadPortAndServe(env, buf, host);
    }

    method ReadPortAndServe(env: Env, buf: array<Byte>, host: string)
      requires buf.Length == 258 && pos <= |input|
      modifies this`pos, this`trace, buf
      ensures trace == old(trace) +
        if old(pos) + 2 > |input| then []
        else Serve(env, host, U16(input[old(pos)], input[old(pos) + 1]), old(pos) + 2)
    {
      var ok := ReadFull(buf, 2);
      if !ok {
        return;
      }
      ServeRequest(env, host, U16(buf[0], buf[1]));
    }

    // SOCKS5.handle up to the relay, on a fresh connection.
    method Handle(env: Env)
      requires pos == 0 && trace == []
      modifies this`pos, this`trace
      ensures trace == Trace(env, input)
    {
      if !IPAllowed(env.client, env.allow) || |input| == 0 {
        return;
      }
      if input[0] != VERSION {
        Emit(HandOver);
        return;
      }
      var buf := new Byte[258];
      var ok := ReadFull(buf, 2);
      if !ok {
        return;
      }
      var nmethods := buf[1];
      ok := ReadFull(buf, nmethods);
      if !ok {
        return;
      }
      Write(GREETING_REPLY);
      if !env.greetingWritten {
        return;
      }
      HandleRequest(env, buf);
    }
  }
}
