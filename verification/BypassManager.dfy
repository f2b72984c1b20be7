// internal/bypass/manager.go: user rules, DNS-resolved networks, the two
// lookup paths, and change notification into the routing engine.
module BypassManager {
  import opened Text
  import opened NetAddr
  import opened Rules
  import RuleStore

  datatype Lookup = LookupFailed(error: string) | Answers(ips: seq<IP>)

  // The answers DNS gives during one refresh; every host is asked once.
  type Resolver = string -> Lookup

  // pushed holds the networks read by the last onChange call (rebuildPush).
  datatype State = State(
    store: RuleStore.State,
    matcher: seq<Rule>,
    fixedNets: seq<IPNet>,
    resolved: seq<IPNet>,
    lastError: Option<string>,
    pushed: Option<seq<IPNet>>)

  // ---- The two lookup paths ----

  function Effective(s: State): seq<IPNet> {
    Dedup(s.fixedNets + StaticNets(s.store.rules) + s.resolved)
  }

  // Manager.matchIPDetail: user rules, then static networks, then DNS results.
  function MatchIPLabel(s: State, ip: Addr): Option<string> {
    var m := MatchIPDetail(s.matcher, ip);
    if m.Some? then m
    else if Covered(s.fixedNets, ip) then Some("static")
    else if Covered(s.resolved, ip) then Some("dns-resolved")
    else None
  }

  // Manager.MatchBypass
  function MatchBypass(s: State, name: string): Option<string> {
    var host := NormalizeHost(name);
    if host == "" then None
    else if ParseIPv4(host).Some? then MatchIPLabel(s, ParseIPv4(host).value)
    else MatchHostDetail(s.matcher, host)
  }

  ghost predicate Inv(s: State) {
    RuleStore.Valid(s.store) && s.matcher == s.store.rules
  }

  // MatchIP answers true exactly when some effective network contains the address.
  lemma PathsAgree(s: State, ip: Addr)
    requires Inv(s)
    ensures MatchIPLabel(s, ip).Some? <==> Covered(Effective(s), ip)
  {
    var rules := StaticNets(s.store.rules);
    DedupFaithful(s.fixedNets + rules + s.resolved);
    CoveredConcat(s.fixedNets + rules, s.resolved, ip);
    CoveredConcat(s.fixedNets, rules, ip);
    StaticNetsCoverMatches(s.store.rules, ip);
  }

  // An IP literal asked by name goes the same way as the address.
  lemma LiteralMatches(s: State, ip: Addr)
    ensures MatchBypass(s, Dotted(ip)) == MatchIPLabel(s, ip)
  {
    DottedChars(ip);
    ParseDotted(ip);
    TrimSpaceStable(Dotted(ip));
    DottedIsLower(Dotted(ip));
  }

  // A name that is no address is matched by the first rule that names it,
  // in any spelling; static and resolved networks play no part.
  lemma NameMatches(s: State, name: string, host: string, raw: string)
    requires ToLower(TrimSpace(name)) == host || ToLower(TrimSpace(name)) == host + "."
    requires host != "" && host[|host| - 1] != '.' && TrimSpace(host) == host && ParseIPv4(host).None?
    ensures MatchBypass(s, name) == Some(raw) <==>
      exists i :: 0 <= i < |s.matcher| && s.matcher[i].raw == raw && FirstNaming(s.matcher, host, i)
  {
    NormalizedSpelling(host, name);
    LowerIdempotent(TrimSpace(name));
    LowerOfPart(TrimSpace(name), host);
    NormalizedSpelling(host, host);
    FirstHostExact(s.matcher, host, raw);
  }

  // The label of an address tells what matched: a rule first, then the static
  // networks, then DNS.
  lemma AddressLabel(s: State, ip: Addr)
    ensures forall i: nat :: FirstContaining(s.matcher, ip, i) ==> MatchIPLabel(s, ip) == Some(s.matcher[i].raw)
    ensures (forall i: nat :: !FirstContaining(s.matcher, ip, i)) ==>
      (Covered(s.fixedNets, ip) ==> MatchIPLabel(s, ip) == Some("static")) &&
      (!Covered(s.fixedNets, ip) && Covered(s.resolved, ip) ==> MatchIPLabel(s, ip) == Some("dns-resolved")) &&
      (!Covered(s.fixedNets, ip) && !Covered(s.resolved, ip) ==> MatchIPLabel(s, ip) == None)
  {
    forall i: nat | FirstContaining(s.matcher, ip, i)
      ensures MatchIPDetail(s.matcher, ip) == Some(s.matcher[i].raw)
    {
      FirstIPExact(s.matcher, ip, i);
    }
    if MatchIPDetail(s.matcher, ip).Some? {
      var i := FirstContainingExists(s.matcher, ip, |s.matcher|);
      assert FirstContaining(s.matcher, ip, i);
    }
  }

  ghost predicate FirstContaining(rules: seq<Rule>, ip: Addr, i: nat) {
    i < |rules| && rules[i].net.Some? && Contains(rules[i].net.value, ip) &&
    forall j :: 0 <= j < i ==> rules[j].net.None? || !Contains(rules[j].net.value, ip)
  }

  lemma {:induction false} FirstContainingExists(rules: seq<Rule>, ip: Addr, k: nat) returns (i: nat)
    requires k <= |rules| && exists j :: 0 <= j < k && rules[j].net.Some? && Contains(rules[j].net.value, ip)
    ensures FirstContaining(rules, ip, i)
  {
    if j :| 0 <= j < k - 1 && rules[j].net.Some? && Contains(rules[j].net.value, ip) {
      i := FirstContainingExists(rules, ip, k - 1);
    } else {
      i := k - 1;
    }
  }

  // The name is normalised twice: an address with two trailing dots is no
  // address for the manager and one for the matcher, so only the rules decide.
  lemma TwiceDotted(s: State, ip: Addr)
    ensures MatchBypass(s, Dotted(ip) + "..") == MatchIPDetail(s.matcher, ip)
  {
    var once := Dotted(ip) + ".";
    DottedChars(ip);
    ParseDotted(ip);
    DottedIsLower(Dotted(ip));
    TrimSpaceStable(once);
    TrimSpaceStable(once + ".");
    TrailingDotIsNoLiteral(Dotted(ip));
    assert once + "." == Dotted(ip) + "..";
    assert TrimSuffixChar(once + ".", '.') == once && TrimSuffixChar(once, '.') == Dotted(ip);
    assert NormalizeHost(once + ".") == once && NormalizeHost(once) == Dotted(ip);
  }

  // ---- Operations as functions of the state ----

  function ResolveAll(hosts: seq<string>, dns: Resolver): seq<IPNet> {
    if hosts == [] then []
    else
      var front := ResolveAll(hosts[..|hosts| - 1], dns);
      match dns(hosts[|hosts| - 1])
      case LookupFailed(_) => front
      case Answers(ips) => front + HostNets(ips)
  }

  function FirstError(hosts: seq<string>, dns: Resolver): Option<string> {
    if hosts == [] then None
    else
      var front := FirstError(hosts[..|hosts| - 1], dns);
      if front.Some? then front
      else match dns(hosts[|hosts| - 1])
        case LookupFailed(e) => Some(e)
        case Answers(_) => None
  }

  datatype Effect = Effect(state: State, notified: bool)

  function Notify(s: State): State {
    s.(pushed := Some(Effective(s)))
  }

  function RefreshStep(s: State, dns: Resolver): Effect {
    var hosts := DomainsToResolve(s.store.rules);
    var nets := ResolveAll(hosts, dns);
    var s' := s.(resolved := nets, lastError := FirstError(hosts, dns));
    if multiset(s.resolved) != multiset(nets) then Effect(Notify(s'), true) else Effect(s', false)
  }

  // What a refresh asks and learns, in terms of the rules and of DNS alone.
  ghost predicate Names(r: Rule) {
    (r.kind == KindDomain || r.kind == KindSuffix) && r.host != ""
  }

  ghost predicate AnsweredWith(r: Rule, dns: Resolver, ip: Addr) {
    Names(r) && dns(r.host).Answers? && V4(ip) in dns(r.host).ips
  }

  lemma {:induction false} ResolveAllCovers(hosts: seq<string>, dns: Resolver, ip: Addr)
    ensures Covered(ResolveAll(hosts, dns), ip) <==>
      exists h :: h in hosts && dns(h).Answers? && V4(ip) in dns(h).ips
  {
    if hosts != [] {
      var front, last := hosts[..|hosts| - 1], hosts[|hosts| - 1];
      ResolveAllCovers(front, dns, ip);
      assert hosts == front + [last];
      assert forall h :: h in hosts <==> h in front || h == last;
      match dns(last)
      case LookupFailed(_) =>
      case Answers(ips) =>
        HostNetsCoverage(ips, ip);
        CoveredConcat(ResolveAll(front, dns), HostNets(ips), ip);
    }
  }

  lemma ResolvedCovers(rules: seq<Rule>, dns: Resolver, ip: Addr)
    ensures Covered(ResolveAll(DomainsToResolve(rules), dns), ip) <==>
      exists r :: r in rules && AnsweredWith(r, dns, ip)
  {
    var hosts := DomainsToResolve(rules);
    ResolveAllCovers(hosts, dns, ip);
    forall h | h in hosts && dns(h).Answers? && V4(ip) in dns(h).ips
      ensures exists r :: r in rules && AnsweredWith(r, dns, ip)
    {
      DomainsExact(rules, h);
      var r :| r in rules && (r.kind == KindDomain || r.kind == KindSuffix) && r.host == h;
      assert AnsweredWith(r, dns, ip);
    }
    forall r | r in rules && AnsweredWith(r, dns, ip)
      ensures r.host in hosts
    {
      DomainsExact(rules, r.host);
    }
  }

  // The first rule, in list order, whose host has no answer.
  ghost predicate FirstFailing(rules: seq<Rule>, dns: Resolver, i: nat) {
    i < |rules| && Names(rules[i]) && dns(rules[i].host).LookupFailed? &&
    forall j :: 0 <= j < i && Names(rules[j]) ==> dns(rules[j].host).Answers?
  }

  lemma {:induction false} NoErrorMeans(hosts: seq<string>, dns: Resolver)
    ensures FirstError(hosts, dns).None? <==> forall h :: h in hosts ==> dns(h).Answers?
  {
    if hosts != [] {
      var front, last := hosts[..|hosts| - 1], hosts[|hosts| - 1];
      NoErrorMeans(front, dns);
      assert hosts == front + [last];
    }
  }

  ghost predicate FailsFirstWith(rules: seq<Rule>, dns: Resolver, e: string) {
    exists i: nat :: FirstFailing(rules, dns, i) && dns(rules[i].host) == LookupFailed(e)
  }

  lemma {:induction false} FirstErrorOfRules(rules: seq<Rule>, dns: Resolver, e: string)
    ensures FirstError(DomainsToResolve(rules), dns) == Some(e) <==> FailsFirstWith(rules, dns, e)
  {
    if rules != [] {
      var front, last := rules[..|rules| - 1], rules[|rules| - 1];
      var hosts, before := DomainsToResolve(rules), DomainsToResolve(front);
      FirstErrorOfRules(front, dns, e);
      assert rules == front + [last];
      FailingGrows(front, last, dns, e);
      NoErrorMeans(before, dns);
      AskedAnswered(front, dns);
      if hosts != before {
        assert hosts[..|hosts| - 1] == before;
      }
    }
  }

  // No error among the hosts asked means an answer for every rule that names one.
  lemma AskedAnswered(rules: seq<Rule>, dns: Resolver)
    ensures (forall h :: h in DomainsToResolve(rules) ==> dns(h).Answers?) <==>
      forall r :: r in rules && Names(r) ==> dns(r.host).Answers?
    ensures forall r :: r in rules && Names(r) ==> r.host in DomainsToResolve(rules)
  {
    forall h
      ensures h in DomainsToResolve(rules) <==> exists r :: r in rules && Names(r) && r.host == h
    {
      DomainsExact(rules, h);
    }
  }

  lemma FailingGrows(front: seq<Rule>, last: Rule, dns: Resolver, e: string)
    ensures FailsFirstWith(front + [last], dns, e) <==>
      FailsFirstWith(front, dns, e) ||
      (Names(last) && dns(last.host) == LookupFailed(e) && forall r :: r in front && Names(r) ==> dns(r.host).Answers?)
  {
    var rules := front + [last];
    assert rules[|front|] == last;
    forall i: nat | i < |front|
      ensures FirstFailing(rules, dns, i) <==> FirstFailing(front, dns, i)
    {
      assert forall j :: 0 <= j <= i ==> rules[j] == front[j];
    }
    assert FirstFailing(rules, dns, |front|) <==>
      Names(last) && dns(last.host).LookupFailed? && forall r :: r in front && Names(r) ==> dns(r.host).Answers? by {
      assert forall j :: 0 <= j < |front| ==> rules[j] == front[j];
    }
    forall i: nat | FirstFailing(front, dns, i) && dns(front[i].host) == LookupFailed(e)
      ensures FailsFirstWith(rules, dns, e)
    {
      assert FirstFailing(rules, dns, i) && rules[i] == front[i];
    }
    forall i: nat | FirstFailing(rules, dns, i) && i < |front| && dns(rules[i].host) == LookupFailed(e)
      ensures FailsFirstWith(front, dns, e)
    {
      assert FirstFailing(front, dns, i) && rules[i] == front[i];
    }
  }

  // A refresh resolves exactly the domain and suffix rules, reports the first
  // failure in rule order, and changes nothing but what depends on them.
  lemma RefreshExact(s: State, dns: Resolver)
    ensures var r := RefreshStep(s, dns);
      (forall ip: Addr :: Covered(r.state.resolved, ip) <==>
        exists rule :: rule in s.store.rules && AnsweredWith(rule, dns, ip)) &&
      (forall e :: r.state.lastError == Some(e) <==> FailsFirstWith(s.store.rules, dns, e)) &&
      (r.notified <==> multiset(r.state.resolved) != multiset(s.resolved)) &&
      r.state.store == s.store && r.state.matcher == s.matcher && r.state.fixedNets == s.fixedNets
  {
    forall ip: Addr
      ensures Covered(ResolveAll(DomainsToResolve(s.store.rules), dns), ip) <==>
        exists rule :: rule in s.store.rules && AnsweredWith(rule, dns, ip)
    {
      ResolvedCovers(s.store.rules, dns, ip);
    }
    forall e
      ensures FirstError(DomainsToResolve(s.store.rules), dns) == Some(e) <==> FailsFirstWith(s.store.rules, dns, e)
    {
      FirstErrorOfRules(s.store.rules, dns, e);
    }
  }

  // rebuildMatcher and Refresh, which follow every successful store operation.
  function Settle(s: State, store: RuleStore.State, dns: Resolver): Effect {
    RefreshStep(s.(store := store, matcher := store.rules), dns)
  }

  // SetRules parses every text before it touches the store.
  function ParseAll(raws: seq<string>): Option<seq<Rule>> {
    if raws == [] then Some([])
    else
      var front := ParseAll(raws[..|raws| - 1]);
      match ParseRule(raws[|raws| - 1])
      case Err(_) => None
      case Ok(r) => if front.None? then None else Some(front.value + [r])
  }

  datatype Op =
    | LoadOp(readFault: bool, dns: Resolver)
    | SetStaticOp(nets: seq<IPNet>)
    | AddOp(raw: string, fault: bool, dns: Resolver)
    | RemoveOp(raw: string, fault: bool, dns: Resolver)
    | SetRulesOp(raws: seq<string>, fault: bool, dns: Resolver)
    | RefreshOp(dns: Resolver)

  function Step(s: State, op: Op): Effect {
    match op
    case LoadOp(fault, dns) =>
      var c := RuleStore.LoadStep(s.store, fault);
      if c.ok then Settle(s, c.state, dns) else Effect(s, false)
    case SetStaticOp(nets) => Effect(Notify(s.(fixedNets := nets)), true)
    case AddOp(raw, fault, dns) =>
      var c := RuleStore.AddStep(s.store, raw, fault);
      if c.ok then Settle(s, c.state, dns) else Effect(s, false)
    case RemoveOp(raw, fault, dns) =>
      var c := RuleStore.RemoveStep(s.store, raw, fault);
      if c.ok then Settle(s, c.state, dns) else Effect(s, false)
    case SetRulesOp(raws, fault, dns) =>
      var rules := ParseAll(raws);
      if rules.None? then Effect(s, false)
      else
        var c := RuleStore.SetStep(s.store, RuleStore.Raws(rules.value), fault);
        if c.ok then Settle(s, c.state, dns) else Effect(s, false)
    case RefreshOp(dns) => RefreshStep(s, dns)
  }

  function Run(s: State, ops: seq<Op>): State
    decreases |ops|
  {
    if ops == [] then s else Run(Step(s, ops[0]).state, ops[1..])
  }

  lemma StepKeepsInv(s: State, op: Op)
    requires Inv(s)
    ensures Inv(Step(s, op).state) && RuleStore.Keeps(s.store, Step(s, op).state.store)
  {
    match op
    case LoadOp(fault, _) => RuleStore.LoadKeeps(s.store, fault);
    case AddOp(raw, fault, _) => RuleStore.AddKeeps(s.store, raw, fault);
    case RemoveOp(raw, fault, _) => RuleStore.RemoveKeeps(s.store, raw, fault);
    case SetRulesOp(raws, fault, _) =>
      if ParseAll(raws).Some? {
        RuleStore.SetKeeps(s.store, RuleStore.Raws(ParseAll(raws).value), fault);
      }
    case SetStaticOp(_) =>
    case RefreshOp(_) =>
  }

  // After any run of operations, with any DNS answers and persist failures,
  // the matcher and the exported networks agree on every address.
  lemma {:induction false} RunPathsAgree(s: State, ops: seq<Op>, ip: Addr)
    requires Inv(s)
    ensures Inv(Run(s, ops))
    ensures MatchIPLabel(Run(s, ops), ip).Some? <==> Covered(Effective(Run(s, ops)), ip)
    decreases |ops|
  {
    if ops == [] {
      PathsAgree(s, ip);
    } else {
      StepKeepsInv(s, ops[0]);
      RunPathsAgree(Step(s, ops[0]).state, ops[1..], ip);
    }
  }

  // ---- Freshness of what was pushed ----

  ghost predicate Fresh(s: State) {
    s.pushed.Some? && SameCoverage(s.pushed.value, Effective(s))
  }

  lemma EffectiveCoverage(s: State, ip: Addr)
    ensures Covered(Effective(s), ip) <==>
      Covered(s.fixedNets, ip) || Covered(StaticNets(s.store.rules), ip) || Covered(s.resolved, ip)
  {
    var rules := StaticNets(s.store.rules);
    DedupFaithful(s.fixedNets + rules + s.resolved);
    CoveredConcat(s.fixedNets + rules, s.resolved, ip);
    CoveredConcat(s.fixedNets, rules, ip);
  }

  lemma SameNetsSameCoverage(a: seq<IPNet>, b: seq<IPNet>)
    requires multiset(a) == multiset(b)
    ensures SameCoverage(a, b)
  {
    forall n
      ensures n in a <==> n in b
    {
      assert n in a <==> n in multiset(a);
      assert n in b <==> n in multiset(b);
    }
  }

  // What the operation does to the store, which DNS it asks, and whether it refreshes.
  ghost function StoreChange(s: State, op: Op): RuleStore.Change
    requires !op.SetStaticOp? && !op.SetRulesOp?
  {
    match op
    case LoadOp(fault, _) => RuleStore.LoadStep(s.store, fault)
    case AddOp(raw, fault, _) => RuleStore.AddStep(s.store, raw, fault)
    case RemoveOp(raw, fault, _) => RuleStore.RemoveStep(s.store, raw, fault)
    case RefreshOp(_) => RuleStore.Change(s.store, true)
  }

  // A load, an addition or a removal that succeeds is followed by a rebuild of
  // the matcher and a refresh for the new rules; one that fails changes nothing.
  lemma StoreOpExact(s: State, op: Op)
    requires !op.SetStaticOp? && !op.SetRulesOp? && s.matcher == s.store.rules
    ensures var c, r := StoreChange(s, op), Step(s, op);
      if !c.ok then r == Effect(s, false)
      else
        r.state.store == c.state && r.state.matcher == c.state.rules && r.state.fixedNets == s.fixedNets &&
        (r.notified <==> multiset(r.state.resolved) != multiset(s.resolved)) &&
        forall ip: Addr :: Covered(r.state.resolved, ip) <==>
          exists rule :: rule in c.state.rules && AnsweredWith(rule, op.dns, ip)
  {
    var c := StoreChange(s, op);
    if c.ok {
      RefreshExact(s.(store := c.state, matcher := c.state.rules), op.dns);
    }
  }

  // A step that notified pushed the coverage of its own result; one that did
  // not left the pushed networks, the static networks and the resolved multiset alone.
  lemma StepPushes(s: State, op: Op)
    ensures var r := Step(s, op);
      if r.notified then r.state.pushed == Some(Effective(r.state))
      else r.state.pushed == s.pushed && r.state.fixedNets == s.fixedNets &&
           multiset(r.state.resolved) == multiset(s.resolved)
  {
  }

  // What a notifying step of any kind pushed is what the manager answers afterwards.
  lemma NotifiedPushesMatches(s: State, op: Op)
    requires Inv(s)
    ensures Step(s, op).notified ==>
      var r := Step(s, op).state;
      r.pushed.Some? && forall ip: Addr :: Covered(r.pushed.value, ip) <==> MatchIPLabel(r, ip).Some?
  {
    var r := Step(s, op).state;
    StepKeepsInv(s, op);
    StepPushes(s, op);
    forall ip: Addr
      ensures MatchIPLabel(r, ip).Some? <==> Covered(Effective(r), ip)
    {
      PathsAgree(r, ip);
    }
  }

  // New static networks are always pushed, together with everything else.
  lemma StaticPushed(s: State, nets: seq<IPNet>, ip: Addr)
    ensures var r := Step(s, SetStaticOp(nets));
      r.notified && r.state.pushed.Some? && r.state.store == s.store &&
      (Covered(r.state.pushed.value, ip) <==>
        MatchIPDetail(s.store.rules, ip).Some? || Covered(nets, ip) || Covered(s.resolved, ip))
  {
    EffectiveCoverage(Step(s, SetStaticOp(nets)).state, ip);
    StaticNetsCoverMatches(s.store.rules, ip);
  }

  // A rule edit that no notification followed.
  predicate SilentEdit(s: State, op: Op) {
    !Step(s, op).notified && Step(s, op).state.store.rules != s.store.rules
  }

  // Whether a silent edit happened after the last notification of the run.
  function EndsSilent(s: State, ops: seq<Op>, silent: bool): bool
    decreases |ops|
  {
    if ops == [] then silent
    else
      var r := Step(s, ops[0]);
      EndsSilent(r.state, ops[1..], !r.notified && (silent || SilentEdit(s, ops[0])))
  }

  // Over every run, what was pushed covers exactly what is effective now,
  // unless a silent edit is still waiting for a notification.
  lemma {:induction false} RunFresh(s: State, ops: seq<Op>, silent: bool)
    requires !silent ==> Fresh(s)
    ensures !EndsSilent(s, ops, silent) ==> Fresh(Run(s, ops))
    decreases |ops|
  {
    if ops != [] {
      var r := Step(s, ops[0]);
      StepPushes(s, ops[0]);
      if !r.notified && !silent && !SilentEdit(s, ops[0]) {
        SameNetsSameCoverage(s.resolved, r.state.resolved);
        forall ip: Addr
          ensures Covered(Effective(r.state), ip) <==> Covered(Effective(s), ip)
        {
          EffectiveCoverage(s, ip);
          EffectiveCoverage(r.state, ip);
        }
      }
      RunFresh(r.state, ops[1..], !r.notified && (silent || SilentEdit(s, ops[0])));
    }
  }

  // What was pushed covers what was effective while the rules were base.
  ghost predicate PushedFor(s: State, base: seq<Rule>) {
    s.pushed.Some? && forall ip: Addr :: Covered(s.pushed.value, ip) <==>
      Covered(s.fixedNets, ip) || Covered(StaticNets(base), ip) || Covered(s.resolved, ip)
  }

  // Every address that only one of two rule lists matches is covered without them.
  ghost predicate AgreeOutside(s: State, a: seq<Rule>, b: seq<Rule>) {
    forall ip: Addr :: MatchIPDetail(a, ip).Some? != MatchIPDetail(b, ip).Some? ==>
      Covered(s.fixedNets, ip) || Covered(s.resolved, ip)
  }

  lemma FreshMeans(s: State, base: seq<Rule>)
    ensures PushedFor(s, base) ==> (Fresh(s) <==> AgreeOutside(s, base, s.store.rules))
    ensures Fresh(s) <==> PushedFor(s, s.store.rules)
  {
    forall ip: Addr
      ensures Covered(Effective(s), ip) <==>
        Covered(s.fixedNets, ip) || Covered(StaticNets(s.store.rules), ip) || Covered(s.resolved, ip)
      ensures Covered(StaticNets(base), ip) <==> MatchIPDetail(base, ip).Some?
      ensures Covered(StaticNets(s.store.rules), ip) <==> MatchIPDetail(s.store.rules, ip).Some?
    {
      EffectiveCoverage(s, ip);
      StaticNetsCoverMatches(base, ip);
      StaticNetsCoverMatches(s.store.rules, ip);
    }
  }

  lemma StepPushedFor(s: State, op: Op, base: seq<Rule>)
    requires PushedFor(s, base)
    ensures var r := Step(s, op); PushedFor(r.state, if r.notified then r.state.store.rules else base)
  {
    var r := Step(s, op);
    StepPushes(s, op);
    if r.notified {
      FreshMeans(r.state, base);
    } else {
      SameNetsSameCoverage(s.resolved, r.state.resolved);
    }
  }

  // The rules in force at the last notification of a run.
  function LastPushed(s: State, ops: seq<Op>, base: seq<Rule>): seq<Rule>
    decreases |ops|
  {
    if ops == [] then base
    else
      var r := Step(s, ops[0]);
      LastPushed(r.state, ops[1..], if r.notified then r.state.store.rules else base)
  }

  lemma {:induction false} RunPushedFor(s: State, ops: seq<Op>, base: seq<Rule>)
    requires PushedFor(s, base)
    ensures PushedFor(Run(s, ops), LastPushed(s, ops, base))
    decreases |ops|
  {
    if ops != [] {
      var r := Step(s, ops[0]);
      StepPushedFor(s, ops[0], base);
      RunPushedFor(r.state, ops[1..], if r.notified then r.state.store.rules else base);
    }
  }

  // After any run of loads, edits and refreshes, the pushed engine is current
  // exactly when every address that only the pushed or only the present rules
  // match is covered by the static or the resolved networks.
  lemma RunFreshExact(s: State, ops: seq<Op>)
    requires Fresh(s)
    ensures var r := Run(s, ops);
      Fresh(r) <==> AgreeOutside(r, LastPushed(s, ops, s.store.rules), r.store.rules)
  {
    FreshMeans(s, s.store.rules);
    RunPushedFor(s, ops, s.store.rules);
    FreshMeans(Run(s, ops), LastPushed(s, ops, s.store.rules));
  }

  // The same for one operation of any kind.
  lemma EditFresh(s: State, op: Op)
    requires Fresh(s)
    ensures var r := Step(s, op);
      Fresh(r.state) <==> r.notified || AgreeOutside(r.state, s.store.rules, r.state.store.rules)
  {
    var r := Step(s, op);
    FreshMeans(s, s.store.rules);
    StepPushedFor(s, op, s.store.rules);
    FreshMeans(r.state, if r.notified then r.state.store.rules else s.store.rules);
  }

  // Removing a rule leaves the pushed engine current exactly when DNS moved in
  // the same refresh or every address of the rule is still covered.
  lemma RemovedRuleFresh(s: State, raw: string, rule: Rule, fault: bool, dns: Resolver)
    requires Inv(s) && rule in s.store.rules
    ensures Fresh(s) && RuleStore.RemoveStep(s.store, raw, fault).ok && ParseRule(raw).rule.raw == rule.raw ==>
      var r := Step(s, RemoveOp(raw, fault, dns));
      (Fresh(r.state) <==>
        r.notified || forall ip: Addr :: IPRuleMatches(rule, ip) ==> Covered(Effective(r.state), ip))
  {
    if Fresh(s) && RuleStore.RemoveStep(s.store, raw, fault).ok && ParseRule(raw).rule.raw == rule.raw {
      var r := Step(s, RemoveOp(raw, fault, dns));
      EditFresh(s, RemoveOp(raw, fault, dns));
      RemovedMembers(s, raw, rule, fault, dns);
      AgreeWithout(r.state, s.store.rules, rule);
    }
  }

  lemma AgreeWithout(s: State, before: seq<Rule>, rule: Rule)
    requires forall x :: x in before <==> x in s.store.rules || x == rule
    ensures AgreeOutside(s, before, s.store.rules) <==>
      forall ip: Addr :: IPRuleMatches(rule, ip) ==> Covered(Effective(s), ip)
  {
    forall ip: Addr
      ensures MatchIPDetail(before, ip).Some? <==> MatchIPDetail(s.store.rules, ip).Some? || IPRuleMatches(rule, ip)
      ensures Covered(Effective(s), ip) <==>
        Covered(s.fixedNets, ip) || MatchIPDetail(s.store.rules, ip).Some? || Covered(s.resolved, ip)
    {
      EffectiveCoverage(s, ip);
      StaticNetsCoverMatches(s.store.rules, ip);
    }
  }

  lemma RemovedMembers(s: State, raw: string, rule: Rule, fault: bool, dns: Resolver)
    requires Inv(s) && rule in s.store.rules
    requires RuleStore.RemoveStep(s.store, raw, fault).ok && ParseRule(raw).rule.raw == rule.raw
    ensures forall x :: x in s.store.rules <==> x in Step(s, RemoveOp(raw, fault, dns)).state.store.rules || x == rule
  {
    RuleStore.WithoutMembers(s.store.rules, rule.raw);
  }

  // While DNS is quiet, an address that only the removed rule covered is no
  // longer matched but stays in the pushed engine.
  lemma RemovedNetStaysPushed(s: State, raw: string, rule: Rule, fault: bool, dns: Resolver, ip: Addr)
    requires Inv(s) && rule in s.store.rules && IPRuleMatches(rule, ip)
    ensures var r := Step(s, RemoveOp(raw, fault, dns));
      Fresh(s) && RuleStore.RemoveStep(s.store, raw, fault).ok && ParseRule(raw).rule.raw == rule.raw &&
      !r.notified && !Covered(Effective(r.state), ip) ==>
        MatchIPLabel(r.state, ip).None? && r.state.pushed.Some? && Covered(r.state.pushed.value, ip)
  {
    var r := Step(s, RemoveOp(raw, fault, dns));
    StepKeepsInv(s, RemoveOp(raw, fault, dns));
    PathsAgree(r.state, ip);
    StepPushes(s, RemoveOp(raw, fault, dns));
    EffectiveCoverage(s, ip);
    StaticNetsCoverMatches(s.store.rules, ip);
  }

  lemma StaticNetsAppend(rules: seq<Rule>, r: Rule, ip: Addr)
    ensures Covered(StaticNets(rules + [r]), ip) <==>
      Covered(StaticNets(rules), ip) || IPRuleMatches(r, ip)
  {
    StaticNetsCoverMatches(rules + [r], ip);
    StaticNetsCoverMatches(rules, ip);
    assert forall x :: x in rules + [r] <==> x in rules || x == r;
  }

  // Adding an IP or CIDR rule leaves the pushed engine current exactly when
  // DNS moved in the same refresh or the network was covered already.
  lemma AddedNetFresh(s: State, raw: string, rule: Rule, dns: Resolver)
    requires rule.net.Some? && !RuleStore.HasRaw(s.store.rules, rule.raw)
    ensures Fresh(s) && ParseRule(raw) == Ok(rule) ==>
      var r := Step(s, AddOp(raw, false, dns));
      (Fresh(r.state) <==>
        r.notified || forall ip: Addr :: Contains(rule.net.value, ip) ==> Covered(Effective(s), ip))
  {
    if Fresh(s) && ParseRule(raw) == Ok(rule) {
      var store := AddedStore(s, raw, rule, dns);
      SettlePushes(s, store, dns);
      if !Settle(s, store, dns).notified {
        SilentAppend(s, store, rule, dns);
      }
    }
  }

  lemma AddedStore(s: State, raw: string, rule: Rule, dns: Resolver) returns (store: RuleStore.State)
    requires ParseRule(raw) == Ok(rule) && !RuleStore.HasRaw(s.store.rules, rule.raw)
    ensures store.rules == s.store.rules + [rule]
    ensures Step(s, AddOp(raw, false, dns)) == Settle(s, store, dns)
  {
    store := RuleStore.AddStep(s.store, raw, false).state;
  }

  lemma SettlePushes(s: State, store: RuleStore.State, dns: Resolver)
    ensures var r := Settle(s, store, dns);
      r.state.store == store &&
      if r.notified then r.state.pushed == Some(Effective(r.state)) else r.state.pushed == s.pushed
  {
  }

  // What settling on a list of rules leaves, whether it notifies or not.
  lemma SettleResolves(s: State, store: RuleStore.State, dns: Resolver)
    ensures var r := Settle(s, store, dns).state;
      r.store == store && r.matcher == store.rules && r.fixedNets == s.fixedNets &&
      r.resolved == ResolveAll(DomainsToResolve(store.rules), dns)
  {
  }

  lemma SilentAppend(s: State, store: RuleStore.State, rule: Rule, dns: Resolver)
    requires store.rules == s.store.rules + [rule] && rule.net.Some? && !Settle(s, store, dns).notified
    ensures forall ip: Addr :: Covered(Effective(Settle(s, store, dns).state), ip) <==>
      Covered(Effective(s), ip) || Contains(rule.net.value, ip)
  {
    var s' := Settle(s, store, dns).state;
    SameNetsSameCoverage(s.resolved, s'.resolved);
    forall ip: Addr
      ensures Covered(Effective(s'), ip) <==> Covered(Effective(s), ip) || Contains(rule.net.value, ip)
    {
      EffectiveCoverage(s, ip);
      EffectiveCoverage(s', ip);
      StaticNetsAppend(s.store.rules, rule, ip);
    }
  }

  // So while DNS is quiet, an address that was not covered is bypassed by the
  // matcher as soon as a rule lists it, but is missing from the pushed engine.
  lemma AddedNetNotPushed(s: State, raw: string, rule: Rule, dns: Resolver, ip: Addr)
    requires rule.net.Some? && !RuleStore.HasRaw(s.store.rules, rule.raw)
    requires Contains(rule.net.value, ip) && !Covered(Effective(s), ip)
    ensures Inv(s) && Fresh(s) && ParseRule(raw) == Ok(rule) && !Step(s, AddOp(raw, false, dns)).notified ==>
      var s' := Step(s, AddOp(raw, false, dns)).state;
      MatchIPLabel(s', ip).Some? && s'.pushed.Some? && !Covered(s'.pushed.value, ip)
  {
    if Inv(s) && Fresh(s) && ParseRule(raw) == Ok(rule) && !Step(s, AddOp(raw, false, dns)).notified {
      StepKeepsInv(s, AddOp(raw, false, dns));
      var store := AddedStore(s, raw, rule, dns);
      SettlePushes(s, store, dns);
      SilentAppend(s, store, rule, dns);
      PathsAgree(Settle(s, store, dns).state, ip);
    }
  }

  // Rules entered through SetRules never come back changed from the file:
  // the texts are parsed twice, so each rule is the one its text stands for.
  lemma {:induction false} SetRulesCanonical(rules: seq<Rule>)
    requires forall i :: 0 <= i < |rules| ==> WellFormed(rules[i])
    ensures var res := RuleStore.CleanAll(RuleStore.Raws(rules));
      res.RuleList? && forall r :: r in res.rules ==> Canonical(r) == r
  {
    if rules != [] {
      var front, last := rules[..|rules| - 1], rules[|rules| - 1];
      SetRulesCanonical(front);
      CleanLast(rules, RuleStore.CleanAll(RuleStore.Raws(front)).rules);
      CanonicalIsFixed(last);
    }
  }

  lemma CleanLast(rules: seq<Rule>, rs: seq<Rule>)
    requires rules != [] && WellFormed(rules[|rules| - 1])
    requires RuleStore.CleanAll(RuleStore.Raws(rules[..|rules| - 1])) == RuleStore.RuleList(rs)
    ensures RuleStore.CleanAll(RuleStore.Raws(rules)) ==
      RuleStore.RuleList(RuleStore.AddUnique(rs, Canonical(rules[|rules| - 1])))
  {
    var front, last := rules[..|rules| - 1], rules[|rules| - 1];
    ReparseRaw(last);
    assert RuleStore.Raws(rules)[..|rules| - 1] == RuleStore.Raws(front);
    CleanNext(RuleStore.Raws(rules), rs, Canonical(last));
  }

  lemma {:induction false} ParseAllExact(raws: seq<string>)
    ensures ParseAll(raws).Some? <==> RuleStore.AllOk(RuleStore.Parses(raws))
    ensures |RuleStore.Parses(raws)| == |raws|
    ensures ParseAll(raws).Some? ==> OksOf(ParseAll(raws).value) == RuleStore.Parses(raws)
  {
    if raws != [] {
      var last := ParseRule(raws[|raws| - 1]);
      ParseAllExact(raws[..|raws| - 1]);
      ParseOneMore(raws, last, ParseAll(raws[..|raws| - 1]), RuleStore.Parses(raws[..|raws| - 1]));
    }
  }

  ghost function OksOf(rules: seq<Rule>): seq<Parsed> {
    if rules == [] then [] else OksOf(rules[..|rules| - 1]) + [Ok(rules[|rules| - 1])]
  }

  lemma ParseOneMore(raws: seq<string>, last: Parsed, front: Option<seq<Rule>>, ps: seq<Parsed>)
    requires raws != [] && last == ParseRule(raws[|raws| - 1])
    requires front == ParseAll(raws[..|raws| - 1]) && ps == RuleStore.Parses(raws[..|raws| - 1])
    requires (front.Some? <==> RuleStore.AllOk(ps)) && (front.Some? ==> OksOf(front.value) == ps)
    ensures RuleStore.Parses(raws) == ps + [last]
    ensures ParseAll(raws).Some? <==> RuleStore.AllOk(ps + [last])
    ensures ParseAll(raws).Some? ==> OksOf(ParseAll(raws).value) == ps + [last]
  {
    assert ParseAll(raws) ==
      if last.Err? then None else if front.None? then None else Some(front.value + [last.rule]);
    AllOkAppend(ps, last);
    if front.Some? && last.Ok? {
      OksAppend(front.value, last.rule);
    }
  }

  lemma AllOkAppend(ps: seq<Parsed>, last: Parsed)
    ensures RuleStore.AllOk(ps + [last]) <==> RuleStore.AllOk(ps) && last.Ok?
  {
    assert forall i :: 0 <= i < |ps| ==> (ps + [last])[i] == ps[i];
    assert (ps + [last])[|ps|] == last;
  }

  lemma OksAppend(rules: seq<Rule>, r: Rule)
    ensures OksOf(rules + [r]) == OksOf(rules) + [Ok(r)]
  {
    assert (rules + [r])[..|rules|] == rules;
  }

  // The texts of parsed rules parse to rules with the same texts.
  ghost predicate SameRawsAs(ps: seq<Parsed>, rules: seq<Rule>) {
    |ps| == |rules| && forall i :: 0 <= i < |rules| ==> ps[i].Ok? && ps[i].rule.raw == rules[i].raw
  }

  lemma {:induction false} Reparsed(rules: seq<Rule>)
    requires forall r :: r in rules ==> WellFormed(r)
    ensures SameRawsAs(RuleStore.Parses(RuleStore.Raws(rules)), rules)
  {
    if rules != [] {
      var front, last := rules[..|rules| - 1], rules[|rules| - 1];
      Reparsed(front);
      var p := ReparsedLast(rules);
      assert SameRawsAs(RuleStore.Parses(RuleStore.Raws(front)) + [p], front + [last]);
      assert rules == front + [last];
    }
  }

  lemma ReparsedLast(rules: seq<Rule>) returns (p: Parsed)
    requires rules != [] && WellFormed(rules[|rules| - 1])
    ensures p.Ok? && p.rule.raw == rules[|rules| - 1].raw
    ensures RuleStore.Parses(RuleStore.Raws(rules)) == RuleStore.Parses(RuleStore.Raws(rules[..|rules| - 1])) + [p]
  {
    var front, last := rules[..|rules| - 1], rules[|rules| - 1];
    ReparseRaw(last);
    p := Ok(Canonical(last));
    assert RuleStore.Raws(rules)[..|rules| - 1] == RuleStore.Raws(front);
    ReparsedNext(RuleStore.Raws(rules), RuleStore.Parses(RuleStore.Raws(front)), p);
  }

  lemma ReparsedNext(raws: seq<string>, ps: seq<Parsed>, last: Parsed)
    requires raws != [] && ps == RuleStore.Parses(raws[..|raws| - 1]) && last == ParseRule(raws[|raws| - 1])
    ensures RuleStore.Parses(raws) == ps + [last]
  {
  }

  lemma {:induction false} ParsedWellFormed(raws: seq<string>)
    ensures ParseAll(raws).Some? ==> forall r :: r in ParseAll(raws).value ==> WellFormed(r)
  {
    if raws != [] {
      ParsedWellFormed(raws[..|raws| - 1]);
      ParsedIsWellFormed(raws[|raws| - 1]);
    }
  }

  // Every listed rule has the text of some entry, and every entry's text is listed.
  ghost predicate SameTexts(ps: seq<Parsed>, rules: seq<Rule>) {
    RuleStore.AllOk(ps) && (forall i :: 0 <= i < |ps| ==> RuleStore.HasRaw(rules, ps[i].rule.raw)) &&
    forall x :: x in rules ==> exists i :: 0 <= i < |ps| && ps[i].rule.raw == x.raw
  }

  // SetRules replaces the list exactly when every text parses and the file can
  // be written, by the canonical texts; otherwise nothing changes.
  lemma SetRulesExact(s: State, raws: seq<string>, fault: bool, dns: Resolver)
    ensures var r := Step(s, SetRulesOp(raws, fault, dns));
      if !(s.store.persistent && fault) && RuleStore.AllOk(RuleStore.Parses(raws))
      then r.state.matcher == r.state.store.rules && RuleStore.Stored(s.store, r.state.store) &&
           SameTexts(RuleStore.Parses(raws), r.state.store.rules)
      else r == Effect(s, false)
  {
    ParseAllExact(raws);
    ParsedWellFormed(raws);
    if ParseAll(raws).Some? {
      SetParsed(s, raws, ParseAll(raws).value, fault, dns);
    }
  }

  lemma {:induction false} OksAt(rules: seq<Rule>)
    ensures |OksOf(rules)| == |rules| && forall i :: 0 <= i < |rules| ==> OksOf(rules)[i] == Ok(rules[i])
  {
    if rules != [] {
      OksAt(rules[..|rules| - 1]);
    }
  }

  lemma SetParsed(s: State, raws: seq<string>, rules: seq<Rule>, fault: bool, dns: Resolver)
    requires ParseAll(raws) == Some(rules) && RuleStore.Parses(raws) == OksOf(rules)
    requires forall r :: r in rules ==> WellFormed(r)
    ensures var r := Step(s, SetRulesOp(raws, fault, dns));
      if !(s.store.persistent && fault)
      then r.state.matcher == r.state.store.rules && RuleStore.Stored(s.store, r.state.store) &&
           SameTexts(OksOf(rules), r.state.store.rules)
      else r == Effect(s, false)
  {
    var c := RuleStore.SetStep(s.store, RuleStore.Raws(rules), fault);
    SetTexts(s.store, rules, fault);
    SetSettles(s, raws, rules, c, fault, dns);
  }

  lemma SetSettles(s: State, raws: seq<string>, rules: seq<Rule>, c: RuleStore.Change, fault: bool, dns: Resolver)
    requires ParseAll(raws) == Some(rules) && c == RuleStore.SetStep(s.store, RuleStore.Raws(rules), fault)
    ensures var r := Step(s, SetRulesOp(raws, fault, dns));
      if c.ok then r.state.store == c.state && r.state.matcher == c.state.rules else r == Effect(s, false)
  {
    SettleResolves(s, c.state, dns);
  }

  lemma SetTexts(store: RuleStore.State, rules: seq<Rule>, fault: bool)
    requires forall r :: r in rules ==> WellFormed(r)
    ensures var c := RuleStore.SetStep(store, RuleStore.Raws(rules), fault);
      c.ok == !(store.persistent && fault) &&
      (c.ok ==> RuleStore.Stored(store, c.state) && SameTexts(OksOf(rules), c.state.rules))
  {
    var texts := RuleStore.Raws(rules);
    Reparsed(rules);
    OksAt(rules);
    RuleStore.SetExact(store, texts, fault);
    var c := RuleStore.SetStep(store, texts, fault);
    if c.ok {
      FirstsAreTexts(RuleStore.Parses(texts), OksOf(rules), c.state.rules);
    }
  }

  lemma FirstsAreTexts(ps: seq<Parsed>, qs: seq<Parsed>, rs: seq<Rule>)
    requires RuleStore.ListsFirsts(ps, rs) && |ps| == |qs|
    requires forall i :: 0 <= i < |qs| ==> ps[i].Ok? && qs[i].Ok? && ps[i].rule.raw == qs[i].rule.raw
    ensures SameTexts(qs, rs)
  {
    forall x | x in rs
      ensures exists i :: 0 <= i < |qs| && qs[i].rule.raw == x.raw
    {
      var k: nat :| RuleStore.NewAt(ps, k, x);
      assert qs[k].rule.raw == x.raw;
    }
  }

  lemma CleanNext(raws: seq<string>, front: seq<Rule>, r: Rule)
    requires raws != [] && RuleStore.CleanAll(raws[..|raws| - 1]) == RuleStore.RuleList(front)
    requires ParseRule(raws[|raws| - 1]) == Ok(r)
    ensures RuleStore.CleanAll(raws) == RuleStore.RuleList(RuleStore.AddUnique(front, r))
  {
  }

  lemma CanonicalIsFixed(r: Rule)
    ensures Canonical(Canonical(r)) == Canonical(r)
  {
  }

  // ---- Loops of the source ----

  function Count(m: map<string, int>, k: string): int {
    if k in m then m[k] else 0
  }

  // The count map, keyed by text, holds the multiplicities of m.
  ghost predicate Tally(count: map<string, int>, m: multiset<IPNet>) {
    forall n :: Count(count, NetString(n)) == m[n]
  }

  lemma TallyUpdate(count: map<string, int>, m: multiset<IPNet>, x: IPNet, v: nat)
    requires Tally(count, m)
    ensures Tally(count[NetString(x) := v], m[x := v])
  {
    StringsIdentify(x);
  }

  method CountTexts(a: seq<IPNet>) returns (count: map<string, int>)
    ensures Tally(count, multiset(a))
  {
    count := map[];
    for i := 0 to |a|
      invariant Tally(count, multiset(a[..i]))
    {
      TallyUpdate(count, multiset(a[..i]), a[i], multiset(a[..i])[a[i]] + 1);
      TakeOneMore(a, i);
      var k := NetString(a[i]);
      count := count[k := Count(count, k) + 1];
    }
    assert a[..|a|] == a;
  }

  // sameNets: a count map keyed by text decides multiset equality.
  method SameNets(a: seq<IPNet>, b: seq<IPNet>) returns (same: bool)
    ensures same <==> multiset(a) == multiset(b)
  {
    if |a| != |b| {
      DifferentLengths(a, b);
      return false;
    }
    var count := CountTexts(a);
    assert multiset(a) - multiset(b[..0]) == multiset(a);
    for i := 0 to |b|
      invariant multiset(b[..i]) <= multiset(a)
      invariant Tally(count, multiset(a) - multiset(b[..i]))
    {
      var k := NetString(b[i]);
      if Count(count, k) == 0 {
        OneTooMany(a, b, i);
        return false;
      }
      ghost var left := multiset(a) - multiset(b[..i]);
      TallyUpdate(count, left, b[i], left[b[i]] - 1);
      TakeOneAway(a, b, i);
      count := count[k := Count(count, k) - 1];
    }
    assert b[..|b|] == b;
    IncludedAndSameSize(a, b);
    return true;
  }

  lemma TakeOneMore(s: seq<IPNet>, i: nat)
    requires i < |s|
    ensures multiset(s[..i + 1]) == multiset(s[..i])[s[i] := multiset(s[..i])[s[i]] + 1]
  {
    assert s[..i + 1] == s[..i] + [s[i]];
  }

  lemma TakeOneAway(a: seq<IPNet>, b: seq<IPNet>, i: nat)
    requires i < |b| && multiset(b[..i]) <= multiset(a)
    requires (multiset(a) - multiset(b[..i]))[b[i]] > 0
    ensures multiset(b[..i + 1]) <= multiset(a)
    ensures var left := multiset(a) - multiset(b[..i]);
      left[b[i] := left[b[i]] - 1] == multiset(a) - multiset(b[..i + 1])
  {
    TakeOneMore(b, i);
  }

  lemma DifferentLengths(a: seq<IPNet>, b: seq<IPNet>)
    requires |a| != |b|
    ensures multiset(a) != multiset(b)
  {
    assert |multiset(a)| == |a| && |multiset(b)| == |b|;
  }

  lemma OneTooMany(a: seq<IPNet>, b: seq<IPNet>, i: nat)
    requires i < |b| && (multiset(a) - multiset(b[..i]))[b[i]] == 0
    ensures multiset(a) != multiset(b)
  {
    assert b == b[..i] + [b[i]] + b[i + 1..];
    assert multiset(b)[b[i]] > multiset(a)[b[i]];
  }

  lemma IncludedAndSameSize(a: seq<IPNet>, b: seq<IPNet>)
    requires |a| == |b| && multiset(b) <= multiset(a)
    ensures multiset(a) == multiset(b)
  {
    var rest := multiset(a) - multiset(b);
    assert multiset(a) == multiset(b) + rest;
    assert |rest| == 0;
  }

  // The lookup loop of Refresh: a failed host is skipped, the first error kept.
  method LookupAll(hosts: seq<string>, dns: Resolver) returns (nets: seq<IPNet>, firstErr: Option<string>)
    ensures nets == ResolveAll(hosts, dns) && firstErr == FirstError(hosts, dns)
  {
    nets := [];
    firstErr := None;
    for i := 0 to |hosts|
      invariant nets == ResolveAll(hosts[..i], dns)
      invariant firstErr == FirstError(hosts[..i], dns)
    {
      assert hosts[..i + 1][..i] == hosts[..i];
      match dns(hosts[i])
      case LookupFailed(e) =>
        if firstErr.None? {
          firstErr := Some(e);
        }
      case Answers(ips) =>
        var found := CollectHosts(ips);
        nets := nets + found;
    }
    assert hosts[..|hosts|] == hosts;
  }

  method CollectHosts(ips: seq<IP>) returns (nets: seq<IPNet>)
    ensures nets == HostNets(ips)
  {
    nets := [];
    for i := 0 to |ips|
      invariant nets == HostNets(ips[..i])
    {
      assert ips[..i + 1][..i] == ips[..i];
      if ips[i].V4? {
        nets := nets + [Host(ips[i].addr)];
      }
    }
    assert ips[..|ips|] == ips;
  }

  // ---- The Manager object ----

  class Manager {
    const store: RuleStore.Store
    var matcher: seq<Rule>
    var fixedNets: seq<IPNet>
    var resolved: seq<IPNet>
    var lastError: Option<string>
    // The networks rebuildPush last read and handed to the routing engine.
    var pushed: Option<seq<IPNet>>

    ghost function View(): State
      reads this, store
    {
      State(store.View(), matcher, fixedNets, resolved, lastError, pushed)
    }

    // NewManager
    constructor (store: RuleStore.Store, fixedNets: seq<IPNet>)
      ensures this.store == store
      ensures View() == State(store.View(), store.rules, fixedNets, [], None, None)
    {
      this.store := store;
      this.fixedNets := fixedNets;
      this.matcher := store.rules;
      this.resolved := [];
      this.lastError := None;
      this.pushed := None;
    }

    // EffectiveBypassNets
    method EffectiveBypassNets() returns (out: seq<IPNet>)
      ensures out == Effective(View())
    {
      var rules := BuildStaticNets(store.rules);
      out := AppendUnseen(fixedNets + rules + resolved);
    }

    // notify, with rebuildPush as the callback
    method PushNets()
      modifies this`pushed
      ensures View() == Notify(old(View()))
    {
      var nets := EffectiveBypassNets();
      pushed := Some(nets);
    }

    method Refresh(dns: Resolver) returns (ok: bool, ghost notified: bool)
      modifies this`resolved, this`lastError, this`pushed
      ensures Effect(View(), notified) == RefreshStep(old(View()), dns)
      ensures ok == View().lastError.None?
    {
      var hosts := BuildDomainsToResolve(store.rules);
      var nets, firstErr := LookupAll(hosts, dns);
      var same := SameNets(resolved, nets);
      resolved := nets;
      lastError := firstErr;
      notified := !same;
      if !same {
        PushNets();
      }
      ok := firstErr.None?;
    }

    // Load: rules from disk, then DNS.
    method Load(readFault: bool, dns: Resolver) returns (ghost notified: bool)
      modifies this, store
      ensures Effect(View(), notified) == Step(old(View()), LoadOp(readFault, dns))
      ensures old(Inv(View())) ==> Inv(View())
    {
      ghost var before := View();
      if Inv(before) { StepKeepsInv(before, LoadOp(readFault, dns)); }
      var ok := store.Load(readFault);
      if !ok {
        return false;
      }
      matcher := store.rules;
      var _, n := Refresh(dns);
      notified := n;
    }

    method SetStatic(nets: seq<IPNet>)
      modifies this`fixedNets, this`pushed
      ensures View() == Step(old(View()), SetStaticOp(nets)).state
    {
      fixedNets := nets;
      PushNets();
    }

    method AddRule(raw: string, fault: bool, dns: Resolver) returns (ok: bool, ghost notified: bool)
      modifies this, store
      ensures Effect(View(), notified) == Step(old(View()), AddOp(raw, fault, dns))
      ensures ok == RuleStore.AddStep(old(store.View()), raw, fault).ok
      ensures old(Inv(View())) ==> Inv(View())
    {
      ghost var before := View();
      if Inv(before) { StepKeepsInv(before, AddOp(raw, fault, dns)); }
      ok := store.Add(raw, fault);
      if !ok {
        return false, false;
      }
      matcher := store.rules;
      var _, n := Refresh(dns);
      notified := n;
    }

    method RemoveRule(raw: string, fault: bool, dns: Resolver) returns (removed: bool, ghost notified: bool)
      modifies this, store
      ensures Effect(View(), notified) == Step(old(View()), RemoveOp(raw, fault, dns))
      ensures removed == RuleStore.RemoveStep(old(store.View()), raw, fault).ok
      ensures old(Inv(View())) ==> Inv(View())
    {
      ghost var before := View();
      if Inv(before) { StepKeepsInv(before, RemoveOp(raw, fault, dns)); }
      removed := store.Remove(raw, fault);
      if !removed {
        return false, false;
      }
      matcher := store.rules;
      var _, n := Refresh(dns);
      notified := n;
    }

    method SetRules(raws: seq<string>, fault: bool, dns: Resolver) returns (ghost notified: bool)
      modifies this, store
      ensures Effect(View(), notified) == Step(old(View()), SetRulesOp(raws, fault, dns))
      ensures old(Inv(View())) ==> Inv(View())
    {
      ghost var before := View();
      if Inv(before) { StepKeepsInv(before, SetRulesOp(raws, fault, dns)); }
      var rules: seq<Rule> := [];
      for i := 0 to |raws|
        invariant ParseAll(raws[..i]) == Some(rules)
        invariant View() == before
      {
        assert raws[..i + 1][..i] == raws[..i];
        var parsed := ParseRule(raws[i]);
        if parsed.Err? {
          ParseAllFails(raws, i + 1);
          return false;
        }
        rules := rules + [parsed.rule];
      }
      assert raws[..|raws|] == raws;
      var ok := store.Set(RuleStore.Raws(rules), fault);
      if !ok {
        return false;
      }
      matcher := store.rules;
      var _, n := Refresh(dns);
      notified := n;
    }
  }

  lemma {:induction false} ParseAllFails(raws: seq<string>, k: nat)
    requires k <= |raws| && ParseAll(raws[..k]).None?
    ensures ParseAll(raws).None?
    decreases |raws| - k
  {
    if k < |raws| {
      assert raws[..k + 1][..k] == raws[..k];
      ParseAllFails(raws, k + 1);
    } else {
      assert raws[..k] == raws;
    }
  }
}
