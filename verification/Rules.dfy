// internal/bypass/rule.go and matcher.go: the canonicalising rule parser and
// the first-match scans over a rule list, on ASCII text and IPv4 literals.
module Rules {
  import opened Text
  import opened NetAddr

  datatype Kind = KindIP | KindCIDR | KindDomain | KindSuffix

  datatype Rule = Rule(raw: string, kind: Kind, net: Option<IPNet>, host: string)

  datatype RuleError = EmptyRule | HasWhitespace | InvalidCIDR | InvalidSuffixDomain | InvalidDomain

  datatype Parsed = Ok(rule: Rule) | Err(error: RuleError)

  predicate IsHostChar(c: char) {
    'a' <= c <= 'z' || 'A' <= c <= 'Z' || IsDigit(c) || c == '-'
  }

  predicate ValidLabel(part: string) {
    part != "" && |part| <= 63 && part[0] != '-' && part[|part| - 1] != '-' &&
    forall i :: 0 <= i < |part| ==> IsHostChar(part[i])
  }

  predicate HasDoubleDot(host: string) {
    exists i :: 0 <= i < |host| - 1 && host[i] == '.' && host[i + 1] == '.'
  }

  // validateHostname reports no error.
  predicate ValidHostname(host: string) {
    host != "" && |host| <= 253 &&
    host[0] != '.' && host[|host| - 1] != '.' && !HasDoubleDot(host) &&
    var labels := Split(host, '.');
    forall i :: 0 <= i < |labels| ==> ValidLabel(labels[i])
  }

  predicate HasStarPrefix(s: string) {
    |s| >= 2 && s[0] == '*' && s[1] == '.'
  }

  function ParseRule(s: string): Parsed {
    var t := TrimSpace(s);
    if t == "" then Err(EmptyRule)
    else if ' ' in t || '\t' in t then Err(HasWhitespace)
    else if '/' in t then
      match ParseCIDR(t)
      case None => Err(InvalidCIDR)
      case Some(n) => Ok(Rule(NetString(n), KindCIDR, Some(n), ""))
    else if ParseIPv4(t).Some? then
      var v4 := ParseIPv4(t).value;
      Ok(Rule(Dotted(v4), KindIP, Some(Host(v4)), ""))
    else ParseHostRule(t)
  }

  // The host forms: "*.apex" or an exact domain, each with at most one trailing dot dropped.
  function ParseHostRule(t: string): Parsed {
    var lower := ToLower(t);
    if HasStarPrefix(lower) then
      var apex := TrimSuffixChar(lower[2..], '.');
      if ValidHostname(apex) then Ok(Rule("*." + apex, KindSuffix, None, apex)) else Err(InvalidSuffixDomain)
    else
      var host := ToLower(TrimSuffixChar(lower, '.'));
      if ValidHostname(host) then Ok(Rule(host, KindDomain, None, host)) else Err(InvalidDomain)
  }

  function NormalizeHost(host: string): string {
    ToLower(TrimSuffixChar(TrimSpace(host), '.'))
  }

  // ---- The shape of a parsed rule ----

  predicate IsLowerHost(host: string) {
    ValidHostname(host) && ToLower(host) == host
  }

  predicate WellFormed(r: Rule) {
    match r.kind
    case KindIP =>
      r.net.Some? && r.net.value.V4Net? && r.net.value.bits == 32 &&
      r.raw == Dotted(r.net.value.addr) && r.host == ""
    case KindCIDR =>
      r.net.Some? && r.net.value.V4Net? && Mask(r.net.value.addr, r.net.value.bits) == r.net.value.addr &&
      r.raw == NetString(r.net.value) && r.host == ""
    case KindDomain => r.net.None? && IsLowerHost(r.host) && r.raw == r.host
    case KindSuffix => r.net.None? && IsLowerHost(r.host) && r.raw == "*." + r.host
  }

  lemma LowerIdempotent(s: string)
    ensures ToLower(ToLower(s)) == ToLower(s)
  {
  }

  lemma ParsedIsWellFormed(s: string)
    ensures ParseRule(s).Ok? ==> WellFormed(ParseRule(s).rule)
  {
    var t := TrimSpace(s);
    var lower := ToLower(t);
    LowerIdempotent(TrimSuffixChar(lower, '.'));
    if '/' in t {
      var p := Split(t, '/');
      var mask := Join(p[1..], '/');
      if ParseCIDR(t).Some? {
        MaskBlock(ParseIPv4(p[0]).value, DecVal(mask));
      }
    } else if ParseIPv4(t).None? && HasStarPrefix(lower) {
      var rest := lower[2..];
      assert ToLower(rest) == rest;
      assert ToLower(TrimSuffixChar(rest, '.')) == TrimSuffixChar(rest, '.');
    }
  }

  lemma HostnameChars(host: string)
    requires ValidHostname(host)
    ensures forall i :: 0 <= i < |host| ==> host[i] == '.' || IsHostChar(host[i])
  {
    forall i | 0 <= i < |host|
      ensures host[i] == '.' || IsHostChar(host[i])
    {
      if host[i] != '.' {
        SplitCovers(host, '.', i);
        var k :| 0 <= k < |Split(host, '.')| && host[i] in Split(host, '.')[k];
        assert ValidLabel(Split(host, '.')[k]);
      }
    }
  }

  // What a reparse of the canonical text yields: the same rule, except that a
  // domain rule whose text is an IPv4 literal comes back as an IP rule.
  function Canonical(r: Rule): Rule {
    if r.kind == KindDomain && ParseIPv4(r.host).Some?
    then Rule(r.raw, KindIP, Some(Host(ParseIPv4(r.host).value)), "")
    else r
  }

  lemma ReparseIP(a: Addr)
    ensures ParseRule(Dotted(a)) == Ok(Rule(Dotted(a), KindIP, Some(Host(a)), ""))
  {
    DottedChars(a);
    ParseDotted(a);
    TrimSpaceStable(Dotted(a));
  }

  lemma CIDRRaw(a: Addr, bits: Bits)
    ensures var raw := NetString(V4Net(a, bits));
      TrimSpace(raw) == raw && raw != "" && ' ' !in raw && '\t' !in raw && '/' in raw
  {
    var raw := NetString(V4Net(a, bits));
    DottedChars(a);
    DecRoundTrip(bits);
    assert raw[|Dotted(a)|] == '/';
    TrimSpaceStable(raw);
  }

  lemma ReparseCIDR(a: Addr, bits: Bits)
    requires Mask(a, bits) == a
    ensures ParseRule(NetString(V4Net(a, bits))) ==
      Ok(Rule(NetString(V4Net(a, bits)), KindCIDR, Some(V4Net(a, bits)), ""))
  {
    CIDRRaw(a, bits);
    ParseNetString(a, bits);
  }

  lemma HostnameText(host: string)
    requires ValidHostname(host)
    ensures TrimSpace(host) == host && ' ' !in host && '\t' !in host && '/' !in host && '*' !in host
    ensures TrimSpace("*." + host) == "*." + host
  {
    HostnameChars(host);
    TrimSpaceStable(host);
    TrimSpaceStable("*." + host);
  }

  lemma ReparseDomain(host: string)
    requires IsLowerHost(host)
    ensures ParseRule(host) == Ok(Canonical(Rule(host, KindDomain, None, host)))
  {
    HostnameText(host);
    if ParseIPv4(host).Some? {
      DottedParse(host);
    }
  }

  lemma ReparseSuffix(host: string)
    requires IsLowerHost(host)
    ensures ParseRule("*." + host) == Ok(Rule("*." + host, KindSuffix, None, host))
  {
    var raw := "*." + host;
    HostnameText(host);
    StarIsNoLiteral(raw);
    SuffixHostRule(host);
    StarredText(host);
    ParsesAsHost(raw);
  }

  lemma StarredText(host: string)
    requires ' ' !in host && '\t' !in host && '/' !in host
    ensures var raw := "*." + host; raw != "" && ' ' !in raw && '\t' !in raw && '/' !in raw
  {
    assert forall i :: 0 <= i < |host| ==> ("*." + host)[i + 2] == host[i];
  }

  lemma ParsesAsHost(t: string)
    requires TrimSpace(t) == t && t != "" && ' ' !in t && '\t' !in t && '/' !in t && ParseIPv4(t).None?
    ensures ParseRule(t) == ParseHostRule(t)
  {
  }

  lemma SuffixHostRule(host: string)
    requires IsLowerHost(host)
    ensures ParseHostRule("*." + host) == Ok(Rule("*." + host, KindSuffix, None, host))
  {
    var raw := "*." + host;
    assert raw[2..] == host;
    assert ToLower(raw) == raw;
  }

  lemma StarIsNoLiteral(s: string)
    requires HasStarPrefix(s)
    ensures ParseIPv4(s).None?
  {
    if ParseIPv4(s).Some? {
      DottedParse(s);
      DottedChars(ParseIPv4(s).value);
      assert false;
    }
  }

  lemma ReparseRaw(r: Rule)
    requires WellFormed(r)
    ensures ParseRule(r.raw) == Ok(Canonical(r)) && WellFormed(Canonical(r)) && Canonical(r).raw == r.raw
  {
    match r.kind
    case KindIP => ReparseIP(r.net.value.addr);
    case KindCIDR => ReparseCIDR(r.net.value.addr, r.net.value.bits);
    case KindDomain =>
      ReparseDomain(r.host);
      if ParseIPv4(r.host).Some? {
        DottedParse(r.host);
      }
    case KindSuffix => ReparseSuffix(r.host);
  }

  // Raw is always a fixpoint of the parser.
  lemma RawFixpoint(s: string)
    ensures ParseRule(s).Ok? ==>
      ParseRule(ParseRule(s).rule.raw).Ok? && ParseRule(ParseRule(s).rule.raw).rule.raw == ParseRule(s).rule.raw
  {
    if ParseRule(s).Ok? {
      ParsedIsWellFormed(s);
      ReparseRaw(ParseRule(s).rule);
    }
  }

  // The text is an IPv4 literal with one trailing dot.
  predicate IsDottedLiteralWithDot(s: string) {
    var t := TrimSpace(s);
    t != "" && t[|t| - 1] == '.' && ParseIPv4(t[..|t| - 1]).Some?
  }

  lemma LowerKeepsDotted(s: string)
    requires ParseIPv4(ToLower(s)).Some?
    ensures ToLower(s) == s
  {
    var lower := ToLower(s);
    DottedParse(lower);
    DottedChars(ParseIPv4(lower).value);
    forall i | 0 <= i < |s|
      ensures lower[i] == s[i]
    {
      assert IsDottedChar(lower[i]);
    }
  }

  lemma DottedIsLower(s: string)
    requires ParseIPv4(s).Some?
    ensures ToLower(s) == s && ToLower(s + ".") == s + "." && s != "" && s[0] != '*'
    ensures ' ' !in s && '\t' !in s && '/' !in s
  {
    DottedParse(s);
    DottedChars(ParseIPv4(s).value);
  }

  // Kind and network survive a reparse for exactly the inputs that are not an
  // IPv4 literal with a trailing dot.
  lemma ReparseExact(s: string)
    ensures ParseRule(s).Ok? ==> (ParseRule(ParseRule(s).rule.raw) == ParseRule(s) <==> !IsDottedLiteralWithDot(s))
    ensures IsDottedLiteralWithDot(s) ==> ParseRule(s).Ok?
  {
    if IsDottedLiteralWithDot(s) {
      DottedLiteralIsDomain(s);
    }
    if ParseRule(s).Ok? {
      ParsedIsWellFormed(s);
      ReparseRaw(ParseRule(s).rule);
      if !IsDottedLiteralWithDot(s) {
        OtherwiseNoLiteralHost(s);
      }
    }
  }

  // Two adjacent dots leave an empty label.
  lemma DoubleDotLabel(host: string, i: nat)
    requires i + 1 < |host| && host[i] == '.' && host[i + 1] == '.'
    ensures "" in Split(host, '.')
  {
    var front, back := host[..i], host[i + 2..];
    assert host == front + ['.'] + ("" + ['.'] + back);
    SplitAppend(front, '.', "" + ['.'] + back);
    SplitAppend("", '.', back);
    var labels := Split(front, '.') + (Split("", '.') + Split(back, '.'));
    assert labels[|Split(front, '.')|] == "";
  }

  lemma OctetIsLabel(n: nat)
    requires n < 256
    ensures ValidLabel(Dec(n)) && |Dec(n)| <= 3
  {
    DecRoundTrip(n);
  }

  // Every IPv4 literal passes validateHostname.
  lemma DottedIsHostname(a: Addr)
    ensures ValidHostname(Dotted(a))
  {
    SplitDotted(a);
    DottedChars(a);
    OctetIsLabel(Octet(a, 0));
    OctetIsLabel(Octet(a, 1));
    OctetIsLabel(Octet(a, 2));
    OctetIsLabel(Octet(a, 3));
    if HasDoubleDot(Dotted(a)) {
      var i :| 0 <= i < |Dotted(a)| - 1 && Dotted(a)[i] == '.' && Dotted(a)[i + 1] == '.';
      DoubleDotLabel(Dotted(a), i);
    }
  }

  // An IPv4 literal with a trailing dot is always accepted, as a domain rule.
  lemma DottedLiteralIsDomain(s: string)
    requires IsDottedLiteralWithDot(s)
    ensures var lit := TrimSpace(s)[..|TrimSpace(s)| - 1];
      ParseRule(s) == Ok(Rule(lit, KindDomain, None, lit))
  {
    var t := TrimSpace(s);
    var lit := t[..|t| - 1];
    assert t == lit + ".";
    DottedIsLower(lit);
    TrailingDotIsNoLiteral(lit);
    assert TrimSuffixChar(ToLower(t), '.') == lit;
    DottedParse(lit);
    DottedIsHostname(ParseIPv4(lit).value);
  }

  // So an address and the address with a trailing dot are two rules with one text.
  lemma TextCollision(a: Addr)
    ensures ParseRule(Dotted(a) + ".") == Ok(Rule(Dotted(a), KindDomain, None, Dotted(a)))
    ensures ParseRule(Dotted(a)) == Ok(Rule(Dotted(a), KindIP, Some(Host(a)), ""))
  {
    var s := Dotted(a) + ".";
    DottedChars(a);
    ParseDotted(a);
    TrimSpaceStable(s);
    assert s[..|s| - 1] == Dotted(a);
    DottedLiteralIsDomain(s);
    ReparseIP(a);
  }

  // That is the only way for two rules to share a text: then they are the same
  // rule, or one is an IP rule and the other the domain rule spelled like it.
  lemma SameText(r1: Rule, r2: Rule)
    requires WellFormed(r1) && WellFormed(r2)
    ensures r1.raw == r2.raw <==> Canonical(r1) == Canonical(r2)
    ensures r1.raw == r2.raw ==>
      (r1 == r2 <==> (r1.kind == KindDomain <==> r2.kind == KindDomain)) &&
      (r1 != r2 ==> r1.kind == KindIP || r2.kind == KindIP)
  {
    ReparseRaw(r1);
    ReparseRaw(r2);
  }

  lemma OtherwiseNoLiteralHost(s: string)
    requires ParseRule(s).Ok? && !IsDottedLiteralWithDot(s)
    ensures Canonical(ParseRule(s).rule) == ParseRule(s).rule
  {
    var r := ParseRule(s).rule;
    var t := TrimSpace(s);
    if r.kind == KindDomain && ParseIPv4(r.host).Some? {
      var cut := TrimSuffixChar(ToLower(t), '.');
      LowerKeepsDotted(cut);
      if ToLower(t)[|t| - 1] == '.' {
        assert cut == ToLower(t[..|t| - 1]);
        LowerKeepsDotted(t[..|t| - 1]);
      } else {
        LowerKeepsDotted(t);
      }
      assert false;
    }
  }

  lemma TrailingDotIsNoLiteral(lit: string)
    requires ParseIPv4(lit).Some?
    ensures ParseIPv4(lit + ".").None?
  {
    assert lit + "." == lit + ['.'] + "";
    SplitAppend(lit, '.', "");
  }

  // The configuration parser and the rule parser accept the same addresses and
  // networks and read them alike.
  lemma SameNetworks(s: string)
    ensures ParseCIDROrIP(s) == if ParseRule(s).Ok? then ParseRule(s).rule.net else None
  {
    var t := TrimSpace(s);
    if ParseCIDROrIP(s).Some? {
      if '/' in t {
        CIDRText(t);
      } else {
        DottedIsLower(t);
      }
    }
  }

  lemma CIDRText(t: string)
    requires ParseCIDR(t).Some?
    ensures ' ' !in t && '\t' !in t && t != ""
  {
    var p := Split(t, '/');
    JoinSplit(t, '/');
    DottedIsLower(p[0]);
    assert t == p[0] + ['/'] + Join(p[1..], '/');
  }

  // ---- What is accepted ----

  // A label of 1 to 63 letters, digits and hyphens, with no hyphen at an end.
  ghost predicate IsLabel(l: string) {
    1 <= |l| <= 63 && l[0] != '-' && l[|l| - 1] != '-' &&
    forall c :: c in l ==> c == '-' || 'a' <= c <= 'z' || 'A' <= c <= 'Z' || '0' <= c <= '9'
  }

  lemma LabelExact(l: string)
    ensures IsLabel(l) <==> ValidLabel(l)
  {
    if ValidLabel(l) {
      assert forall c :: c in l ==> IsHostChar(c);
    }
    if IsLabel(l) {
      assert forall i :: 0 <= i < |l| ==> l[i] in l;
    }
  }

  // The labels decide alone: the checks for a dot at an end and for two
  // adjacent dots are implied by them.
  lemma HostnameExact(host: string)
    ensures ValidHostname(host) <==>
      1 <= |host| <= 253 && forall l :: l in Split(host, '.') ==> IsLabel(l)
  {
    var labels := Split(host, '.');
    forall l
      ensures IsLabel(l) <==> ValidLabel(l)
    {
      LabelExact(l);
    }
    if host != "" && "" !in labels {
      LabelsLeaveNoEmpty(host);
    }
    assert forall i :: 0 <= i < |labels| ==> labels[i] in labels;
  }

  lemma LabelsLeaveNoEmpty(host: string)
    requires host != "" && "" !in Split(host, '.')
    ensures host[0] != '.' && host[|host| - 1] != '.' && !HasDoubleDot(host)
  {
    DotAtEnd(host);
    DotsAdjacent(host);
  }

  lemma DotsAdjacent(host: string)
    ensures HasDoubleDot(host) ==> "" in Split(host, '.')
  {
    if i :| 0 <= i < |host| - 1 && host[i] == '.' && host[i + 1] == '.' {
      DoubleDotLabel(host, i);
    }
  }

  lemma DotAtEnd(host: string)
    requires host != ""
    ensures host[0] == '.' || host[|host| - 1] == '.' ==> "" in Split(host, '.')
  {
    if host[0] == '.' {
      SplitsEmpty(host, "", host[1..]);
    } else if host[|host| - 1] == '.' {
      SplitsEmpty(host, host[..|host| - 1], "");
    }
  }

  lemma SplitsEmpty(host: string, a: string, b: string)
    requires (a == "" || b == "") && host == a + ['.'] + b
    ensures "" in Split(host, '.')
  {
    EmptyLabel(a, b);
  }

  lemma EmptyLabel(a: string, b: string)
    requires a == "" || b == ""
    ensures "" in Split(a + ['.'] + b, '.')
  {
    SplitAppend(a, '.', b);
    var front, back := Split(a, '.'), Split(b, '.');
    assert (front + back)[0] == front[0] && (front + back)[|front|] == back[0];
  }

  // An exact domain rule is read from exactly the spellings of a host name
  // that is no IPv4 literal: any case, one trailing dot allowed.
  lemma DomainAccepted(s: string, h: string)
    ensures ParseRule(s) == Ok(Rule(h, KindDomain, None, h)) <==>
      ValidHostname(h) && ParseIPv4(TrimSpace(s)).None? &&
      (ToLower(TrimSpace(s)) == h || ToLower(TrimSpace(s)) == h + ".")
  {
    var t := TrimSpace(s);
    var lower := ToLower(t);
    if ValidHostname(h) && (lower == h || lower == h + ".") {
      DomainSpelling(t, h);
    }
    if ParseRule(s) == Ok(Rule(h, KindDomain, None, h)) {
      LowerIdempotent(t);
      LowerOfPart(t, TrimSuffixChar(lower, '.'));
      assert lower != [] && lower[|lower| - 1] == '.' ==> lower == lower[..|lower| - 1] + ".";
    }
  }

  lemma DomainSpelling(t: string, h: string)
    requires ValidHostname(h) && (ToLower(t) == h || ToLower(t) == h + ".")
    ensures t != "" && ' ' !in t && '\t' !in t && '/' !in t
    ensures ParseHostRule(t) == Ok(Rule(h, KindDomain, None, h))
  {
    var lower := ToLower(t);
    HostnameText(h);
    HostnameEnds(h);
    LowerHasNo(t);
    assert lower[0] == h[0] && h[0] in h;
    LowerOfPart(t, h);
    assert TrimSuffixChar(lower, '.') == h;
  }

  // A suffix rule is read from exactly the spellings of "*." and a host name.
  lemma SuffixAccepted(s: string, h: string)
    ensures ParseRule(s) == Ok(Rule("*." + h, KindSuffix, None, h)) <==>
      ValidHostname(h) && (ToLower(TrimSpace(s)) == "*." + h || ToLower(TrimSpace(s)) == "*." + h + ".")
  {
    var lower := ToLower(TrimSpace(s));
    if ValidHostname(h) && (lower == "*." + h || lower == "*." + h + ".") {
      SuffixSpelling(TrimSpace(s), h);
    }
    if ParseHostRule(TrimSpace(s)) == Ok(Rule("*." + h, KindSuffix, None, h)) {
      SuffixSpelled(TrimSpace(s), h);
    }
  }

  lemma SuffixSpelled(t: string, h: string)
    requires ParseHostRule(t) == Ok(Rule("*." + h, KindSuffix, None, h))
    ensures ValidHostname(h) && (ToLower(t) == "*." + h || ToLower(t) == "*." + h + ".")
  {
    var rest := ToLower(t)[2..];
    assert ToLower(t) == "*." + rest;
    assert rest != [] && rest[|rest| - 1] == '.' ==> rest == rest[..|rest| - 1] + ".";
  }

  lemma SuffixSpelling(t: string, h: string)
    requires ValidHostname(h) && (ToLower(t) == "*." + h || ToLower(t) == "*." + h + ".")
    ensures t != "" && ' ' !in t && '\t' !in t && '/' !in t && ParseIPv4(t).None?
    ensures ParseHostRule(t) == Ok(Rule("*." + h, KindSuffix, None, h))
  {
    var lower := ToLower(t);
    HostnameText(h);
    HostnameEnds(h);
    LowerHasNo(t);
    assert lower[0] == '*' && lower[1] == '.' && t[0] == '*' && t[1] == '.';
    StarIsNoLiteral(t);
    assert lower[2..] == h || lower[2..] == h + ".";
  }

  // An address rule is read from exactly the address ...
  lemma AddressAccepted(s: string, a: Addr)
    ensures ParseRule(s) == Ok(Rule(Dotted(a), KindIP, Some(Host(a)), "")) <==> TrimSpace(s) == Dotted(a)
  {
    var t := TrimSpace(s);
    if ParseIPv4(t).Some? {
      DottedParse(t);
    }
    if t == Dotted(a) {
      ParseDotted(a);
      DottedIsLower(t);
    }
  }

  // ... and a network rule from exactly the network texts.
  lemma NetworkAccepted(s: string, n: IPNet)
    ensures ParseRule(s) == Ok(Rule(NetString(n), KindCIDR, Some(n), "")) <==>
      exists a, mask :: IsCIDRText(TrimSpace(s), a, mask) && n == V4Net(Mask(a, DecVal(mask)), DecVal(mask))
  {
    var t := TrimSpace(s);
    ParseCIDRExact(t, n);
    if ParseCIDR(t) == Some(n) {
      CIDRText(t);
      assert '/' in t by {
        var a, mask :| IsCIDRText(t, a, mask);
        assert t[|Dotted(a)|] == '/';
      }
    }
  }

  lemma HostnameEnds(h: string)
    requires ValidHostname(h)
    ensures h[0] != '.' && h[|h| - 1] != '.' && TrimSuffixChar(h, '.') == h && TrimSuffixChar(h + ".", '.') == h
  {
    assert (h + ".")[..|h|] == h;
  }

  // Lowering changes neither blanks nor slashes.
  lemma LowerHasNo(t: string)
    ensures ' ' in t ==> ' ' in ToLower(t)
    ensures '\t' in t ==> '\t' in ToLower(t)
    ensures '/' in t ==> '/' in ToLower(t)
  {
    forall i | 0 <= i < |t| && t[i] == LowerChar(t[i])
      ensures t[i] in ToLower(t)
    {
      assert ToLower(t)[i] == t[i];
    }
  }

  lemma LowerOfPart(t: string, h: string)
    requires h <= ToLower(t)
    ensures ToLower(h) == h
  {
    forall i | 0 <= i < |h|
      ensures LowerChar(h[i]) == h[i]
    {
      assert h[i] == ToLower(t)[i];
    }
  }

  // ---- Matching ----

  predicate SuffixMatches(apex: string, host: string) {
    host == apex || HasSuffix(host, "." + apex)
  }

  predicate HostRuleMatches(r: Rule, host: string) {
    match r.kind
    case KindDomain => host == r.host
    case KindSuffix => SuffixMatches(r.host, host)
    case _ => false
  }

  predicate IPRuleMatches(r: Rule, ip: Addr) {
    r.net.Some? && Contains(r.net.value, ip)
  }

  // The loop of Matcher.MatchIPDetail: the text of the first rule that covers ip.
  function MatchIPDetail(rules: seq<Rule>, ip: Addr): (m: Option<string>)
    ensures m.Some? <==> exists r :: r in rules && IPRuleMatches(r, ip)
  {
    if rules == [] then None
    else if IPRuleMatches(rules[0], ip) then Some(rules[0].raw)
    else
      assert rules == [rules[0]] + rules[1..];
      MatchIPDetail(rules[1..], ip)
  }

  function FirstHostMatch(rules: seq<Rule>, host: string): (m: Option<string>)
    ensures m.Some? <==> exists r :: r in rules && HostRuleMatches(r, host)
  {
    if rules == [] then None
    else if HostRuleMatches(rules[0], host) then Some(rules[0].raw)
    else
      assert rules == [rules[0]] + rules[1..];
      FirstHostMatch(rules[1..], host)
  }

  // Matcher.MatchHostDetail
  function MatchHostDetail(rules: seq<Rule>, name: string): Option<string> {
    var host := NormalizeHost(name);
    if host == "" then None
    else if ParseIPv4(host).Some? then MatchIPDetail(rules, ParseIPv4(host).value)
    else FirstHostMatch(rules, host)
  }

  predicate EndsWith(xs: seq<string>, ys: seq<string>) {
    |ys| <= |xs| && xs[|xs| - |ys|..] == ys
  }

  lemma SuffixThenLabels(apex: string, host: string)
    requires HasSuffix(host, "." + apex)
    ensures EndsWith(Split(host, '.'), Split(apex, '.'))
  {
    var front := host[..|host| - |apex| - 1];
    assert host == front + ['.'] + apex;
    SplitAppend(front, '.', apex);
  }

  lemma LabelsThenSuffix(apex: string, host: string)
    requires EndsWith(Split(host, '.'), Split(apex, '.'))
    ensures SuffixMatches(apex, host)
  {
    var hs, ss := Split(host, '.'), Split(apex, '.');
    var front := hs[..|hs| - |ss|];
    assert hs == front + ss;
    JoinSplit(host, '.');
    JoinSplit(apex, '.');
    if front == [] {
      assert hs == ss;
    } else {
      JoinAppend(front, ss, '.');
      EndsWithDotApex(Join(front, '.'), apex);
    }
  }

  lemma EndsWithDotApex(front: string, apex: string)
    ensures HasSuffix(front + ['.'] + apex, "." + apex)
  {
    assert front + ['.'] + apex == front + ("." + apex);
  }

  // A suffix rule matches exactly at label boundaries: the labels of the host
  // end with the labels of the apex.
  lemma SuffixAtLabelBoundary(apex: string, host: string)
    ensures SuffixMatches(apex, host) <==> EndsWith(Split(host, '.'), Split(apex, '.'))
  {
    if HasSuffix(host, "." + apex) {
      SuffixThenLabels(apex, host);
    }
    if EndsWith(Split(host, '.'), Split(apex, '.')) {
      LabelsThenSuffix(apex, host);
    }
  }

  // The rule names this host: it is its domain, or the labels of its apex end it.
  ghost predicate NamesHost(r: Rule, host: string) {
    (r.kind == KindDomain && r.host == host) ||
    (r.kind == KindSuffix && EndsWith(Split(host, '.'), Split(r.host, '.')))
  }

  ghost predicate FirstNaming(rules: seq<Rule>, host: string, i: nat) {
    i < |rules| && NamesHost(rules[i], host) && forall j :: 0 <= j < i ==> !NamesHost(rules[j], host)
  }

  // The first rule that names a host, in list order, gives the answer.
  lemma {:induction false} FirstHostExact(rules: seq<Rule>, host: string, raw: string)
    ensures FirstHostMatch(rules, host) == Some(raw) <==>
      exists i :: 0 <= i < |rules| && rules[i].raw == raw && FirstNaming(rules, host, i)
  {
    if rules != [] {
      FirstHostExact(rules[1..], host, raw);
      SuffixAtLabelBoundary(rules[0].host, host);
      assert NamesHost(rules[0], host) <==> HostRuleMatches(rules[0], host);
      if !NamesHost(rules[0], host) {
        ShiftFirstHost(rules, host, raw);
      }
    }
  }

  lemma ShiftFirstHost(rules: seq<Rule>, host: string, raw: string)
    requires rules != [] && !NamesHost(rules[0], host)
    ensures var rest := rules[1..];
      (exists i :: 0 <= i < |rules| && rules[i].raw == raw && FirstNaming(rules, host, i)) <==>
      (exists i :: 0 <= i < |rest| && rest[i].raw == raw && FirstNaming(rest, host, i))
  {
    var rest := rules[1..];
    forall i | 0 <= i < |rest|
      ensures FirstNaming(rules, host, i + 1) <==> FirstNaming(rest, host, i)
    {
      assert forall j :: 0 <= j < |rest| ==> rest[j] == rules[j + 1];
      assert forall j :: 0 < j < |rules| ==> rules[j] == rest[j - 1];
    }
    forall i | 0 <= i < |rest| && rest[i].raw == raw && FirstNaming(rest, host, i)
      ensures rules[i + 1].raw == raw && FirstNaming(rules, host, i + 1)
    {
    }
    forall i | 0 <= i < |rules| && rules[i].raw == raw && FirstNaming(rules, host, i)
      ensures i > 0 && rest[i - 1].raw == raw && FirstNaming(rest, host, i - 1)
    {
      assert FirstNaming(rules, host, i - 1 + 1) <==> FirstNaming(rest, host, i - 1);
    }
  }

  // The first rule whose network contains an address gives the answer.
  lemma {:induction false} FirstIPExact(rules: seq<Rule>, ip: Addr, i: nat)
    requires i < |rules| && rules[i].net.Some? && Contains(rules[i].net.value, ip)
    requires forall j :: 0 <= j < i ==> rules[j].net.None? || !Contains(rules[j].net.value, ip)
    ensures MatchIPDetail(rules, ip) == Some(rules[i].raw)
  {
    if i > 0 {
      FirstIPExact(rules[1..], ip, i - 1);
    }
  }

  // Spellings of one host name: case, surrounding blanks and one trailing dot do not matter.
  lemma NormalizedSpelling(host: string, other: string)
    requires ToLower(TrimSpace(other)) == host || ToLower(TrimSpace(other)) == host + "."
    requires host == "" || host[|host| - 1] != '.'
    ensures NormalizeHost(other) == host
  {
    var t := TrimSpace(other);
    var lower := ToLower(t);
    if lower == host {
      assert t != [] ==> lower[|t| - 1] == LowerChar(t[|t| - 1]);
    } else {
      assert lower[|t| - 1] == LowerChar(t[|t| - 1]);
      assert ToLower(t[..|t| - 1]) == lower[..|t| - 1] == host;
    }
  }

  // ---- Lists derived from the rules ----

  function StaticNets(rules: seq<Rule>): seq<IPNet> {
    if rules == [] then []
    else
      var front, last := StaticNets(rules[..|rules| - 1]), rules[|rules| - 1];
      if last.net.Some? then front + [last.net.value] else front
  }

  method BuildStaticNets(rules: seq<Rule>) returns (out: seq<IPNet>)
    ensures out == StaticNets(rules)
  {
    out := [];
    for i := 0 to |rules|
      invariant out == StaticNets(rules[..i])
    {
      assert rules[..i + 1][..i] == rules[..i];
      if rules[i].net.Some? {
        out := out + [rules[i].net.value];
      }
    }
    assert rules[..|rules|] == rules;
  }

  // The nets handed to the kernel cover exactly what the matcher's IP scan matches.
  lemma {:induction false} StaticNetsCoverMatches(rules: seq<Rule>, ip: Addr)
    ensures Covered(StaticNets(rules), ip) <==> MatchIPDetail(rules, ip).Some?
  {
    if rules != [] {
      var front, last := rules[..|rules| - 1], rules[|rules| - 1];
      StaticNetsCoverMatches(front, ip);
      assert rules == front + [last];
      if last.net.Some? {
        CoveredConcat(StaticNets(front), [last.net.value], ip);
        assert Covered([last.net.value], ip) <==> Contains(last.net.value, ip) by {
          assert last.net.value in [last.net.value];
        }
      }
      assert MatchIPDetail(rules, ip).Some? <==> MatchIPDetail(front, ip).Some? || IPRuleMatches(last, ip) by {
        assert forall r :: r in rules <==> r in front || r == last;
      }
    }
  }

  function DomainsToResolve(rules: seq<Rule>): seq<string> {
    if rules == [] then []
    else
      var front, last := DomainsToResolve(rules[..|rules| - 1]), rules[|rules| - 1];
      if (last.kind == KindDomain || last.kind == KindSuffix) && last.host != "" && last.host !in front
      then front + [last.host] else front
  }

  // A host is asked for exactly when it is the non-empty host of some domain or suffix rule ...
  lemma {:induction false} DomainsExact(rules: seq<Rule>, h: string)
    ensures h in DomainsToResolve(rules) <==>
      h != "" && exists r :: r in rules && (r.kind == KindDomain || r.kind == KindSuffix) && r.host == h
  {
    if rules != [] {
      var front, last := rules[..|rules| - 1], rules[|rules| - 1];
      DomainsExact(front, h);
      assert rules == front + [last];
      assert forall r :: r in rules <==> r in front || r == last;
    }
  }

  // ... and only once.
  lemma {:induction false} DomainsOnce(rules: seq<Rule>)
    ensures forall i, j :: 0 <= i < j < |DomainsToResolve(rules)| ==>
      DomainsToResolve(rules)[i] != DomainsToResolve(rules)[j]
  {
    if rules != [] {
      DomainsOnce(rules[..|rules| - 1]);
    }
  }

  method BuildDomainsToResolve(rules: seq<Rule>) returns (out: seq<string>)
    ensures out == DomainsToResolve(rules)
  {
    var seen: set<string> := {};
    out := [];
    for i := 0 to |rules|
      invariant out == DomainsToResolve(rules[..i])
      invariant seen == set h | h in out
    {
      assert rules[..i + 1][..i] == rules[..i];
      var r := rules[i];
      if (r.kind == KindDomain || r.kind == KindSuffix) && r.host != "" && r.host !in seen {
        seen := seen + {r.host};
        out := out + [r.host];
      }
    }
    assert rules[..|rules|] == rules;
  }
}
