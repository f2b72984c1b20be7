// Addresses and networks (Go's net.IP and net.IPNet) and the list operations
// the program performs on them. IPv4 is modelled by value; an IPv6 network is
// an opaque canonical text, which always holds a colon.
module NetAddr {
  import opened Text

  type Addr = a: int | 0 <= a < 0x1_0000_0000
  type V6Text = s: string | ':' in s witness ":"

  // net.IP: nil, an IPv4 address (4-byte or v4-mapped form), or any other IPv6 address.
  datatype IP = NilIP | V4(addr: Addr) | V6(text: V6Text)

  type Bits = b: int | 0 <= b <= 32

  datatype IPNet = V4Net(addr: Addr, bits: Bits) | V6Net(text: V6Text)

  // ---- Textual form of IPv4 addresses ----

  function OctetsToAddr(a: int, b: int, c: int, d: int): Addr
    requires 0 <= a < 256 && 0 <= b < 256 && 0 <= c < 256 && 0 <= d < 256
  {
    ((a * 256 + b) * 256 + c) * 256 + d
  }

  function Octet(a: Addr, k: nat): (o: int)
    requires k < 4
    ensures 0 <= o < 256
  {
    if k == 0 then a / 0x100_0000
    else if k == 1 then a / 0x1_0000 % 256
    else if k == 2 then a / 0x100 % 256
    else a % 256
  }

  function Dotted(a: Addr): string {
    Dec(Octet(a, 0)) + "." + (Dec(Octet(a, 1)) + "." + (Dec(Octet(a, 2)) + "." + Dec(Octet(a, 3))))
  }

  // One field of a dotted quad: decimal, at most 255, no leading zero.
  predicate IsOctetText(p: string) {
    1 <= |p| <= 3 && AllDigits(p) && (|p| == 1 || p[0] != '0') && DecVal(p) <= 255
  }

  // net.ParseIP restricted to IPv4 text.
  function ParseIPv4(s: string): Option<Addr> {
    var p := Split(s, '.');
    if |p| == 4 && IsOctetText(p[0]) && IsOctetText(p[1]) && IsOctetText(p[2]) && IsOctetText(p[3])
    then Some(OctetsToAddr(DecVal(p[0]), DecVal(p[1]), DecVal(p[2]), DecVal(p[3])))
    else None
  }

  lemma OctetsOf(a: int, b: int, c: int, d: int)
    requires 0 <= a < 256 && 0 <= b < 256 && 0 <= c < 256 && 0 <= d < 256
    ensures var x := OctetsToAddr(a, b, c, d);
            Octet(x, 0) == a && Octet(x, 1) == b && Octet(x, 2) == c && Octet(x, 3) == d
  {
  }

  lemma AddrOfOctets(x: Addr)
    ensures OctetsToAddr(Octet(x, 0), Octet(x, 1), Octet(x, 2), Octet(x, 3)) == x
  {
    var y, z := x / 256, x / 256 / 256;
    assert x == y * 256 + x % 256 && y == z * 256 + y % 256 && z == z / 256 * 256 + z % 256;
    assert x / 0x1_0000 == z && x / 0x100_0000 == z / 256;
  }

  lemma DecHasNoDot(n: nat)
    ensures '.' !in Dec(n) && '/' !in Dec(n) && ':' !in Dec(n)
  {
    DecRoundTrip(n);
  }

  lemma SplitDotted(a: Addr)
    ensures Split(Dotted(a), '.') == [Dec(Octet(a, 0)), Dec(Octet(a, 1)), Dec(Octet(a, 2)), Dec(Octet(a, 3))]
  {
    var p0, p1, p2, p3 := Dec(Octet(a, 0)), Dec(Octet(a, 1)), Dec(Octet(a, 2)), Dec(Octet(a, 3));
    DecHasNoDot(Octet(a, 0));
    DecHasNoDot(Octet(a, 1));
    DecHasNoDot(Octet(a, 2));
    DecHasNoDot(Octet(a, 3));
    SplitWithout(p0, '.');
    SplitWithout(p1, '.');
    SplitWithout(p2, '.');
    SplitWithout(p3, '.');
    SplitAppend(p0, '.', p1 + "." + (p2 + "." + p3));
    SplitAppend(p1, '.', p2 + "." + p3);
    SplitAppend(p2, '.', p3);
  }

  // Rendering an address and parsing the text gives the address back ...
  lemma ParseDotted(a: Addr)
    ensures ParseIPv4(Dotted(a)) == Some(a)
  {
    SplitDotted(a);
    OctetRoundTrip(Octet(a, 0));
    OctetRoundTrip(Octet(a, 1));
    OctetRoundTrip(Octet(a, 2));
    OctetRoundTrip(Octet(a, 3));
    AddrOfOctets(a);
  }

  lemma OctetRoundTrip(n: nat)
    requires n < 256
    ensures IsOctetText(Dec(n)) && DecVal(Dec(n)) == n
  {
    DecRoundTrip(n);
  }

  // ... and every text that parses is the canonical rendering of what it parses to.
  lemma DottedParse(s: string)
    requires ParseIPv4(s).Some?
    ensures Dotted(ParseIPv4(s).value) == s
  {
    var p := Split(s, '.');
    JoinSplit(s, '.');
    DecOfDecVal(p[0]);
    DecOfDecVal(p[1]);
    DecOfDecVal(p[2]);
    DecOfDecVal(p[3]);
    OctetsOf(DecVal(p[0]), DecVal(p[1]), DecVal(p[2]), DecVal(p[3]));
    calc {
      s;
      Join(p, '.');
      { assert p[1..] == [p[1], p[2], p[3]]; }
      p[0] + "." + Join([p[1], p[2], p[3]], '.');
      { assert [p[1], p[2], p[3]][1..] == [p[2], p[3]]; }
      p[0] + "." + (p[1] + "." + Join([p[2], p[3]], '.'));
      { assert [p[2], p[3]][1..] == [p[3]]; }
      p[0] + "." + (p[1] + "." + (p[2] + "." + p[3]));
    }
  }

  predicate IsDottedChar(c: char) {
    IsDigit(c) || c == '.'
  }

  lemma DottedChars(a: Addr)
    ensures Dotted(a) != [] && IsDigit(Dotted(a)[0]) && IsDigit(Dotted(a)[|Dotted(a)| - 1])
    ensures forall i :: 0 <= i < |Dotted(a)| ==> IsDottedChar(Dotted(a)[i])
  {
    DecRoundTrip(Octet(a, 0));
    DecRoundTrip(Octet(a, 1));
    DecRoundTrip(Octet(a, 2));
    DecRoundTrip(Octet(a, 3));
    DottedPair(Dec(Octet(a, 2)), Dec(Octet(a, 3)));
    DottedPair(Dec(Octet(a, 1)), Dec(Octet(a, 2)) + "." + Dec(Octet(a, 3)));
    DottedPair(Dec(Octet(a, 0)), Dec(Octet(a, 1)) + "." + (Dec(Octet(a, 2)) + "." + Dec(Octet(a, 3))));
  }

  predicate IsDottedText(s: string) {
    s != [] && IsDigit(s[0]) && IsDigit(s[|s| - 1]) && forall i :: 0 <= i < |s| ==> IsDottedChar(s[i])
  }

  lemma DottedPair(p: string, q: string)
    requires p != [] && AllDigits(p) && (IsDottedText(q) || (q != [] && AllDigits(q)))
    ensures IsDottedText(p + "." + q)
  {
  }

  lemma DottedExample()
    ensures Dotted(OctetsToAddr(192, 168, 0, 7)) == "192.168.0.7"
  {
    var a := OctetsToAddr(192, 168, 0, 7);
    OctetsOf(192, 168, 0, 7);
    assert Dec(19) == "19" && Dec(16) == "16";
    assert Dec(192) == "192" && Dec(168) == "168" && Dec(0) == "0" && Dec(7) == "7";
  }

  // ---- Networks ----

  function BlockSize(bits: Bits): (n: int)
    ensures n > 0
    decreases 32 - bits
  {
    if bits == 32 then 1 else 2 * BlockSize(bits + 1)
  }

  // net.IPNet.Contains for an IPv4 address: the network parts are equal.
  predicate Contains(n: IPNet, ip: Addr) {
    match n
    case V4Net(a, bits) => a / BlockSize(bits) == ip / BlockSize(bits)
    case V6Net(_) => false
  }

  // net.IP.Mask: the lowest address of the block.
  function Mask(a: Addr, bits: Bits): (m: Addr)
    ensures m <= a
  {
    RemainderBounds(a, BlockSize(bits));
    a - a % BlockSize(bits)
  }

  lemma RemainderBounds(a: int, b: int)
    requires a >= 0 && b > 0
    ensures 0 <= a % b <= a
  {
    assert a == b * (a / b) + a % b;
    if a < b {
      assert a % b == a;
    }
  }

  lemma MaskBlock(a: Addr, bits: Bits)
    ensures Mask(a, bits) / BlockSize(bits) == a / BlockSize(bits)
    ensures Mask(Mask(a, bits), bits) == Mask(a, bits)
  {
    RemovedRemainder(a, BlockSize(bits));
  }

  lemma RemovedRemainder(a: int, b: int)
    requires a >= 0 && b > 0
    ensures (a - a % b) / b == a / b && (a - a % b) % b == 0
  {
    MultipleDivides(a / b, b);
    assert a - a % b == b * (a / b);
  }

  lemma SmallMultiple(k: int, b: int)
    requires 0 <= b * k < b
    ensures k == 0
  {
  }

  lemma MultipleDivides(q: int, b: int)
    requires b > 0
    ensures (b * q) / b == q && (b * q) % b == 0
  {
    var x := b * q;
    assert x == b * (x / b) + x % b;
    assert b * (q - x / b) == x % b;
    SmallMultiple(q - x / b, b);
  }

  // ---- What a prefix length means, digit by digit ----

  function TwoTo(k: nat): (n: nat)
    ensures n > 0
  {
    if k == 0 then 1 else 2 * TwoTo(k - 1)
  }

  // The k-th binary digit of an address, the most significant one first.
  function Digit(a: Addr, k: nat): nat
    requires k < 32
  {
    a / TwoTo(31 - k) % 2
  }

  lemma {:induction false} BlockIsTwoTo(bits: Bits)
    ensures BlockSize(bits) == TwoTo(32 - bits)
    decreases 32 - bits
  {
    if bits < 32 {
      BlockIsTwoTo(bits + 1);
    }
  }

  lemma HalvedQuotient(x: int, b: int)
    requires x >= 0 && b > 0
    ensures x / (2 * b) == x / b / 2
  {
    var q, r := x / b, x % b;
    assert x == b * q + r;
    assert q == 2 * (q / 2) + q % 2;
    var k, rest := q / 2, b * (q % 2) + r;
    assert b * q == b * (2 * k) + b * (q % 2);
    assert x == (2 * b) * k + rest;
    assert 0 <= rest < 2 * b;
    QuotientIs(x, 2 * b, k, rest);
  }

  lemma QuotientIs(x: int, b: int, q: int, r: int)
    requires b > 0 && x == b * q + r && 0 <= r < b
    ensures x / b == q && x % b == r
  {
    MultipleDivides(q, b);
    var y, e := x / b, x % b;
    assert x == b * y + e;
    UniqueQuotient(b, q, r, y, e);
  }

  lemma UniqueQuotient(b: int, q: int, r: int, y: int, e: int)
    requires 0 <= r < b && 0 <= e < b && b * q + r == b * y + e
    ensures q == y && r == e
  {
    if r <= e {
      assert b * (q - y) == e - r;
      SmallMultiple(q - y, b);
    } else {
      assert b * (y - q) == r - e;
      SmallMultiple(y - q, b);
    }
  }

  lemma TwoTo32()
    ensures TwoTo(32) == 0x1_0000_0000
  {
    assert TwoTo(4) == 16;
    assert TwoTo(8) == 0x100;
    assert TwoTo(12) == 0x1000;
    assert TwoTo(16) == 0x1_0000;
    assert TwoTo(20) == 0x10_0000;
    assert TwoTo(24) == 0x100_0000;
    assert TwoTo(28) == 0x1000_0000;
  }

  lemma {:induction false} SameFront(a: Addr, b: Addr, bits: Bits)
    ensures a / TwoTo(32 - bits) == b / TwoTo(32 - bits) <==> forall k: nat :: k < bits ==> Digit(a, k) == Digit(b, k)
  {
    if bits == 0 {
      TwoTo32();
    } else {
      var c := TwoTo(32 - bits);
      SameFront(a, b, bits - 1);
      HalvedQuotient(a, c);
      HalvedQuotient(b, c);
      assert TwoTo(32 - (bits - 1)) == 2 * c;
      assert Digit(a, bits - 1) == a / c % 2 && Digit(b, bits - 1) == b / c % 2;
    }
  }

  // A network contains exactly the addresses whose first "bits" binary digits are its own.
  lemma ContainsDigits(a: Addr, bits: Bits, ip: Addr)
    ensures Contains(V4Net(a, bits), ip) <==> forall k: nat :: k < bits ==> Digit(a, k) == Digit(ip, k)
  {
    BlockIsTwoTo(bits);
    SameFront(a, ip, bits);
  }

  lemma {:induction false} TwoToSum(m: nat, n: nat)
    ensures TwoTo(m + n) == TwoTo(m) * TwoTo(n)
  {
    if m > 0 {
      TwoToSum(m - 1, n);
    }
  }

  // Masking keeps those digits and clears the others.
  lemma MaskDigits(a: Addr, bits: Bits, k: nat)
    requires k < 32
    ensures Digit(Mask(a, bits), k) == if k < bits then Digit(a, k) else 0
  {
    if k < bits {
      MaskKeepsFront(a, bits);
      SameFront(Mask(a, bits), a, bits);
    } else {
      MaskIsMultiple(a, bits);
      TwoToSum(31 - k, k - bits);
      assert 32 - bits == 1 + (31 - k + (k - bits));
      EvenQuotient(a / TwoTo(32 - bits), TwoTo(31 - k), TwoTo(k - bits));
    }
  }

  lemma MaskKeepsFront(a: Addr, bits: Bits)
    ensures Mask(a, bits) / TwoTo(32 - bits) == a / TwoTo(32 - bits)
  {
    BlockIsTwoTo(bits);
    MaskBlock(a, bits);
  }

  lemma MaskIsMultiple(a: Addr, bits: Bits)
    ensures Mask(a, bits) == TwoTo(32 - bits) * (a / TwoTo(32 - bits))
  {
    BlockIsTwoTo(bits);
  }

  lemma EvenQuotient(q: int, c: int, d: int)
    requires c > 0
    ensures ((2 * (c * d)) * q) / c % 2 == 0
  {
    var half := d * q;
    assert (2 * (c * d)) * q == c * (2 * half);
    MultipleDivides(2 * half, c);
  }

  lemma BlockSizes()
    ensures BlockSize(24) == 0x100 && BlockSize(16) == 0x1_0000 && BlockSize(12) == 0x10_0000
    ensures BlockSize(10) == 0x40_0000 && BlockSize(8) == 0x100_0000 && BlockSize(4) == 0x1000_0000
  {
    assert BlockSize(28) == 16;
    assert BlockSize(24) == 0x100;
    assert BlockSize(20) == 0x1000;
    assert BlockSize(16) == 0x1_0000;
    assert BlockSize(12) == 0x10_0000;
    assert BlockSize(8) == 0x100_0000;
  }

  // The prefixes that end at an octet compare octets.
  lemma OctetPrefixes(a: Addr, ip: Addr)
    ensures Contains(V4Net(a, 8), ip) <==> Octet(a, 0) == Octet(ip, 0)
    ensures Contains(V4Net(a, 16), ip) <==> Octet(a, 0) == Octet(ip, 0) && Octet(a, 1) == Octet(ip, 1)
    ensures Contains(V4Net(a, 24), ip) <==>
      Octet(a, 0) == Octet(ip, 0) && Octet(a, 1) == Octet(ip, 1) && Octet(a, 2) == Octet(ip, 2)
    ensures Contains(V4Net(a, 32), ip) <==> a == ip
  {
    BlockSizes();
  }

  function Host(a: Addr): IPNet {
    V4Net(a, 32)
  }

  lemma HostContains(a: Addr, ip: Addr)
    ensures Contains(Host(a), ip) <==> a == ip
  {
  }

  // net.IPNet.String
  function NetString(n: IPNet): string {
    match n
    case V4Net(a, bits) => Dotted(a) + "/" + Dec(bits)
    case V6Net(t) => t
  }

  // net.ParseCIDR restricted to IPv4: the text is cut at the first slash, and
  // the prefix length may carry leading zeros.
  function ParseCIDR(s: string): Option<IPNet> {
    var p := Split(s, '/');
    if |p| < 2 then None
    else
      var ip, mask := ParseIPv4(p[0]), Join(p[1..], '/');
      if ip.Some? && mask != [] && AllDigits(mask) && DecVal(mask) <= 32
      then Some(V4Net(Mask(ip.value, DecVal(mask)), DecVal(mask)))
      else None
  }

  // The texts accepted as a network: an address, a slash and the digits of a prefix length.
  ghost predicate IsCIDRText(s: string, a: Addr, mask: string) {
    s == Dotted(a) + "/" + mask && mask != "" && AllDigits(mask) && DecVal(mask) <= 32
  }

  lemma ParseCIDRText(s: string, a: Addr, mask: string)
    requires IsCIDRText(s, a, mask)
    ensures ParseCIDR(s) == Some(V4Net(Mask(a, DecVal(mask)), DecVal(mask)))
  {
    DottedChars(a);
    SplitWithout(Dotted(a), '/');
    SplitWithout(mask, '/');
    SplitAppend(Dotted(a), '/', mask);
    ParseDotted(a);
  }

  // Exactly these texts parse, and to the network of the block.
  lemma ParseCIDRExact(s: string, n: IPNet)
    ensures ParseCIDR(s) == Some(n) <==>
      exists a, mask :: IsCIDRText(s, a, mask) && n == V4Net(Mask(a, DecVal(mask)), DecVal(mask))
  {
    if ParseCIDR(s) == Some(n) {
      var p := Split(s, '/');
      JoinSplit(s, '/');
      DottedParse(p[0]);
      assert IsCIDRText(s, ParseIPv4(p[0]).value, Join(p[1..], '/'));
    }
    forall a, mask | IsCIDRText(s, a, mask)
      ensures ParseCIDR(s) == Some(V4Net(Mask(a, DecVal(mask)), DecVal(mask)))
    {
      ParseCIDRText(s, a, mask);
    }
  }

  // config.ParseCIDROrIP: a CIDR, or a bare address as a /32.
  function ParseCIDROrIP(s: string): Option<IPNet> {
    var t := TrimSpace(s);
    if '/' in t then ParseCIDR(t)
    else if ParseIPv4(t).Some? then Some(Host(ParseIPv4(t).value))
    else None
  }

  lemma SplitNetString(a: Addr, bits: Bits)
    ensures Split(NetString(V4Net(a, bits)), '/') == [Dotted(a), Dec(bits)]
  {
    DottedChars(a);
    DecHasNoDot(bits);
    SplitWithout(Dotted(a), '/');
    SplitWithout(Dec(bits), '/');
    SplitAppend(Dotted(a), '/', Dec(bits));
  }

  lemma ParseNetString(a: Addr, bits: Bits)
    ensures ParseCIDR(NetString(V4Net(a, bits))) == Some(V4Net(Mask(a, bits), bits))
  {
    SplitNetString(a, bits);
    ParseDotted(a);
    DecRoundTrip(bits);
  }

  // Two networks with the same text are the same network, so a seen-map keyed
  // by the text removes exactly the repeated networks.
  lemma NetStringInjective(m: IPNet, n: IPNet)
    requires NetString(m) == NetString(n)
    ensures m == n
  {
    V4StringHasNoColon(m);
    V4StringHasNoColon(n);
    if m.V4Net? && n.V4Net? {
      SplitNetString(m.addr, m.bits);
      SplitNetString(n.addr, n.bits);
      ParseDotted(m.addr);
      ParseDotted(n.addr);
      DecInjective(m.bits, n.bits);
    }
  }

  lemma StringsIdentify(n: IPNet)
    ensures forall m :: NetString(m) == NetString(n) ==> m == n
  {
    forall m | NetString(m) == NetString(n)
      ensures m == n
    {
      NetStringInjective(m, n);
    }
  }

  lemma V4StringHasNoColon(n: IPNet)
    ensures n.V4Net? <==> ':' !in NetString(n)
  {
    if n.V4Net? {
      DottedChars(n.addr);
      DecHasNoDot(n.bits);
    }
  }

  // ---- Lists of networks ----

  // containsIP: some network of the list contains ip.
  predicate Covered(nets: seq<IPNet>, ip: Addr) {
    exists n :: n in nets && Contains(n, ip)
  }

  ghost predicate SameCoverage(a: seq<IPNet>, b: seq<IPNet>) {
    forall ip: Addr :: Covered(a, ip) <==> Covered(b, ip)
  }

  lemma CoveredConcat(a: seq<IPNet>, b: seq<IPNet>, ip: Addr)
    ensures Covered(a + b, ip) <==> Covered(a, ip) || Covered(b, ip)
  {
    if Covered(a, ip) {
      var n :| n in a && Contains(n, ip);
      assert n in a + b;
    }
    if Covered(b, ip) {
      var n :| n in b && Contains(n, ip);
      assert n in a + b;
    }
  }

  // One /32 per IPv4 address, in order; nil and IPv6 addresses are skipped.
  function HostNets(ips: seq<IP>): seq<IPNet> {
    if ips == [] then []
    else
      var front, last := HostNets(ips[..|ips| - 1]), ips[|ips| - 1];
      if last.V4? then front + [Host(last.addr)] else front
  }

  lemma {:induction false} HostNetsCoverage(ips: seq<IP>, ip: Addr)
    ensures Covered(HostNets(ips), ip) <==> V4(ip) in ips
  {
    if ips != [] {
      var front, last := ips[..|ips| - 1], ips[|ips| - 1];
      HostNetsCoverage(front, ip);
      assert ips == front + [last];
      if last.V4? {
        CoveredConcat(HostNets(front), [Host(last.addr)], ip);
        HostContains(last.addr, ip);
        assert Covered([Host(last.addr)], ip) <==> last.addr == ip by {
          assert Host(last.addr) in [Host(last.addr)];
        }
      }
    }
  }

  // First occurrences, in order.
  function Dedup(nets: seq<IPNet>): seq<IPNet> {
    if nets == [] then []
    else
      var d, last := Dedup(nets[..|nets| - 1]), nets[|nets| - 1];
      if last in d then d else d + [last]
  }

  lemma {:induction false} DedupMembers(nets: seq<IPNet>)
    ensures forall n :: n in Dedup(nets) <==> n in nets
  {
    if nets != [] {
      DedupMembers(nets[..|nets| - 1]);
      assert nets == nets[..|nets| - 1] + [nets[|nets| - 1]];
    }
  }

  // Removing repeats keeps exactly the listed networks, hence the covered
  // addresses, and leaves no network twice.
  lemma {:induction false} DedupFaithful(nets: seq<IPNet>)
    ensures SameCoverage(Dedup(nets), nets)
    ensures forall i, j :: 0 <= i < j < |Dedup(nets)| ==> Dedup(nets)[i] != Dedup(nets)[j]
  {
    DedupMembers(nets);
    if nets != [] {
      DedupFaithful(nets[..|nets| - 1]);
    }
  }

  // What was seen first comes first: a longer list only appends.
  lemma {:induction false} DedupOrder(a: seq<IPNet>, b: seq<IPNet>)
    ensures Dedup(a) <= Dedup(a + b)
  {
    if b == [] {
      assert a + b == a;
    } else {
      DedupOrder(a, b[..|b| - 1]);
      assert (a + b)[..|a + b| - 1] == a + b[..|b| - 1];
    }
  }

  // The shared loop of mergeIPNets, EffectiveBypassNets and
  // addIPv4SetElements: append each network whose text was not seen before.
  method AppendUnseen(nets: seq<IPNet>) returns (out: seq<IPNet>)
    ensures out == Dedup(nets)
  {
    var seen: set<string> := {};
    out := [];
    for i := 0 to |nets|
      invariant out == Dedup(nets[..i])
      invariant forall n :: n in out ==> NetString(n) in seen
      invariant forall k :: k in seen ==> exists n :: n in out && NetString(n) == k
    {
      assert nets[..i + 1][..i] == nets[..i];
      var k := NetString(nets[i]);
      if k in seen {
        var n :| n in out && NetString(n) == k;
        NetStringInjective(n, nets[i]);
      } else {
        seen := seen + {k};
        out := out + [nets[i]];
      }
    }
    assert nets[..|nets|] == nets;
  }

  // ---- Configuration lists ----

  const DEFAULT_BYPASS: seq<IPNet> := [
    V4Net(OctetsToAddr(0, 0, 0, 0), 8),
    V4Net(OctetsToAddr(10, 0, 0, 0), 8),
    V4Net(OctetsToAddr(127, 0, 0, 0), 8),
    V4Net(OctetsToAddr(169, 254, 0, 0), 16),
    V4Net(OctetsToAddr(172, 16, 0, 0), 12),
    V4Net(OctetsToAddr(192, 168, 0, 0), 16),
    V4Net(OctetsToAddr(224, 0, 0, 0), 4),
    V4Net(OctetsToAddr(240, 0, 0, 0), 4),
    V4Net(OctetsToAddr(100, 64, 0, 0), 10)
  ]

  // The private and reserved ranges that never leave the kernel path.
  predicate IsPrivate(ip: Addr) {
    Covered(DEFAULT_BYPASS, ip)
  }

  lemma WidePrefixes(ip: Addr)
    ensures Contains(V4Net(OctetsToAddr(172, 16, 0, 0), 12), ip) <==> Octet(ip, 0) == 172 && 16 <= Octet(ip, 1) < 32
    ensures Contains(V4Net(OctetsToAddr(100, 64, 0, 0), 10), ip) <==> Octet(ip, 0) == 100 && 64 <= Octet(ip, 1) < 128
    ensures Contains(V4Net(OctetsToAddr(224, 0, 0, 0), 4), ip) <==> 224 <= Octet(ip, 0) < 240
    ensures Contains(V4Net(OctetsToAddr(240, 0, 0, 0), 4), ip) <==> 240 <= Octet(ip, 0)
  {
    BlockSizes();
  }

  lemma OctetRanges(ip: Addr)
    ensures forall o | 0 <= o < 256 :: Contains(V4Net(OctetsToAddr(o, 0, 0, 0), 8), ip) <==> Octet(ip, 0) == o
    ensures forall o, e | 0 <= o < 256 && 0 <= e < 256 ::
      Contains(V4Net(OctetsToAddr(o, e, 0, 0), 16), ip) <==> Octet(ip, 0) == o && Octet(ip, 1) == e
  {
    forall o, e | 0 <= o < 256 && 0 <= e < 256
      ensures Contains(V4Net(OctetsToAddr(o, e, 0, 0), 16), ip) <==> Octet(ip, 0) == o && Octet(ip, 1) == e
      ensures Contains(V4Net(OctetsToAddr(o, e, 0, 0), 8), ip) <==> Octet(ip, 0) == o
    {
      OctetsOf(o, e, 0, 0);
      OctetPrefixes(OctetsToAddr(o, e, 0, 0), ip);
    }
    forall o | 0 <= o < 256
      ensures Contains(V4Net(OctetsToAddr(o, 0, 0, 0), 8), ip) <==> Octet(ip, 0) == o
    {
      OctetsOf(o, 0, 0, 0);
      OctetPrefixes(OctetsToAddr(o, 0, 0, 0), ip);
    }
  }

  // The private ranges, written out in octets.
  lemma PrivateOctets(ip: Addr)
    ensures var first, second := Octet(ip, 0), Octet(ip, 1);
      IsPrivate(ip) <==>
        first == 0 || first == 10 || first == 127 || first >= 224 ||
        (first == 169 && second == 254) || (first == 172 && 16 <= second < 32) ||
        (first == 192 && second == 168) || (first == 100 && 64 <= second < 128)
  {
    WidePrefixes(ip);
    OctetRanges(ip);
    var nets := DEFAULT_BYPASS;
    NineNets(nets, ip);
  }

  lemma NineNets(nets: seq<IPNet>, ip: Addr)
    requires |nets| == 9
    ensures Covered(nets, ip) <==>
      Contains(nets[0], ip) || Contains(nets[1], ip) || Contains(nets[2], ip) || Contains(nets[3], ip) ||
      Contains(nets[4], ip) || Contains(nets[5], ip) || Contains(nets[6], ip) || Contains(nets[7], ip) ||
      Contains(nets[8], ip)
  {
    if Covered(nets, ip) {
      var n :| n in nets && Contains(n, ip);
      var i :| 0 <= i < |nets| && nets[i] == n;
      assert i == 0 || i == 1 || i == 2 || i == 3 || i == 4 || i == 5 || i == 6 || i == 7 || i == 8;
    }
    forall i | 0 <= i < |nets| && Contains(nets[i], ip)
      ensures Covered(nets, ip)
    {
      assert nets[i] in nets;
    }
  }

  // mergeIPNets
  method MergeIPNets(a: seq<IPNet>, b: seq<IPNet>) returns (out: seq<IPNet>)
    ensures SameCoverage(out, a + b)
    ensures forall n :: n in out <==> n in a || n in b
    ensures forall i, j :: 0 <= i < j < |out| ==> out[i] != out[j]
  {
    out := AppendUnseen(a + b);
    DedupMembers(a + b);
    DedupFaithful(a + b);
  }
}
