// internal/bypass/store.go: the deduplicated, file-backed rule list.
module RuleStore {
  import opened Text
  import opened NetAddr
  import opened Rules

  // Written in parts, because the solver unfolds only short literals.
  const HEADER: string := "# outline-gate" + " user rules" + " (managed by" + " UI/API)"

  // ---- Lists without repeated texts ----

  predicate HasRaw(rules: seq<Rule>, raw: string) {
    exists r :: r in rules && r.raw == raw
  }

  function AddUnique(rules: seq<Rule>, r: Rule): seq<Rule> {
    if HasRaw(rules, r.raw) then rules else rules + [r]
  }

  ghost predicate WellFormedList(rules: seq<Rule>) {
    (forall i :: 0 <= i < |rules| ==> WellFormed(rules[i])) &&
    (forall i, j :: 0 <= i < j < |rules| ==> rules[i].raw != rules[j].raw)
  }

  function Raws(rules: seq<Rule>): (raws: seq<string>)
    ensures |raws| == |rules| && forall i :: 0 <= i < |rules| ==> raws[i] == rules[i].raw
  {
    seq(|rules|, i requires 0 <= i < |rules| => rules[i].raw)
  }

  datatype ListResult = RuleList(rules: seq<Rule>) | BadEntry(index: nat, error: RuleError)

  predicate IsSkipped(line: string) {
    TrimSpace(line) == "" || TrimSpace(line)[0] == '#'
  }

  // One line of a rules file: blanks and comments are skipped, the first line
  // that does not parse stops everything, repeated texts are dropped.
  function LineStep(prev: ListResult, index: nat, line: string): ListResult {
    match prev
    case BadEntry(i, e) => prev
    case RuleList(rs) =>
      if IsSkipped(line) then prev
      else match ParseRule(TrimSpace(line))
        case Err(e) => BadEntry(index, e)
        case Ok(r) => RuleList(AddUnique(rs, r))
  }

  lemma LineStepKeeps(prev: ListResult, index: nat, line: string)
    requires prev.RuleList? ==> WellFormedList(prev.rules)
    ensures var res := LineStep(prev, index, line); res.RuleList? ==> WellFormedList(res.rules)
  {
    if ParseRule(TrimSpace(line)).Ok? {
      ParsedIsWellFormed(TrimSpace(line));
    }
  }

  function ParseLines(lines: seq<string>): (res: ListResult)
    ensures res.RuleList? ==> WellFormedList(res.rules)
  {
    if lines == [] then RuleList([])
    else
      var prev := ParseLines(lines[..|lines| - 1]);
      LineStepKeeps(prev, |lines| - 1, lines[|lines| - 1]);
      LineStep(prev, |lines| - 1, lines[|lines| - 1])
  }

  function ParseRulesFile(content: string): ListResult {
    ParseLines(Split(content, '\n'))
  }

  // Store.Set re-parses every text and drops repeats.
  function CleanAll(raws: seq<string>): (res: ListResult)
    ensures res.RuleList? ==> WellFormedList(res.rules)
  {
    if raws == [] then RuleList([])
    else
      var last := raws[|raws| - 1];
      match CleanAll(raws[..|raws| - 1])
      case BadEntry(i, e) => BadEntry(i, e)
      case RuleList(rs) =>
        match ParseRule(last)
        case Err(e) => BadEntry(|raws| - 1, e)
        case Ok(r) =>
          ParsedIsWellFormed(last);
          RuleList(AddUnique(rs, r))
  }

  // What the texts of a list parse to, one by one.
  ghost function Parses(raws: seq<string>): seq<Parsed> {
    if raws == [] then [] else Parses(raws[..|raws| - 1]) + [ParseRule(raws[|raws| - 1])]
  }

  lemma {:induction false} ParsesAt(raws: seq<string>, i: nat)
    requires i < |raws|
    ensures |Parses(raws)| == |raws| && Parses(raws)[i] == ParseRule(raws[i])
  {
    var front := raws[..|raws| - 1];
    if i < |front| {
      ParsesAt(front, i);
    } else if front != [] {
      ParsesAt(front, 0);
    }
  }

  // The rule of entry k, whose text no entry before it has.
  ghost predicate NewAt(ps: seq<Parsed>, k: nat, r: Rule) {
    k < |ps| && ps[k] == Ok(r) && forall j :: 0 <= j < k ==> ps[j].Ok? && ps[j].rule.raw != r.raw
  }

  ghost predicate AllOk(ps: seq<Parsed>) {
    forall i :: 0 <= i < |ps| ==> ps[i].Ok?
  }

  // Exactly the rules whose text occurs for the first time.
  ghost predicate ListsFirsts(ps: seq<Parsed>, rs: seq<Rule>) {
    AllOk(ps) && (forall i :: 0 <= i < |ps| ==> HasRaw(rs, ps[i].rule.raw)) &&
    forall r :: r in rs ==> exists k: nat :: NewAt(ps, k, r)
  }

  ghost predicate CleansTo(ps: seq<Parsed>, res: ListResult) {
    match res
    case RuleList(rs) => ListsFirsts(ps, rs)
    case BadEntry(i, e) => 0 <= i < |ps| && ps[i] == Err(e) && AllOk(ps[..i])
  }

  // The cleaned list holds exactly these; the first text that does not parse
  // stops everything.
  lemma {:induction false} CleanExact(raws: seq<string>)
    ensures CleansTo(Parses(raws), CleanAll(raws)) && |Parses(raws)| == |raws|
  {
    if raws != [] {
      var front, last := raws[..|raws| - 1], ParseRule(raws[|raws| - 1]);
      CleanExact(front);
      CleanNext(raws, last, CleanAll(front), Parses(front));
    }
  }

  lemma CleanNext(raws: seq<string>, last: Parsed, before: ListResult, ps: seq<Parsed>)
    requires raws != [] && last == ParseRule(raws[|raws| - 1])
    requires before == CleanAll(raws[..|raws| - 1]) && ps == Parses(raws[..|raws| - 1]) && |ps| == |raws| - 1
    requires CleansTo(ps, before)
    ensures CleansTo(Parses(raws), CleanAll(raws)) && |Parses(raws)| == |raws|
  {
    assert Parses(raws) == ps + [last];
    match before
    case BadEntry(i, e) => assert (ps + [last])[..i] == ps[..i];
    case RuleList(rs) =>
      if last.Ok? {
        FirstsGrow(ps, rs, last.rule);
      } else {
        assert (ps + [last])[..|ps|] == ps;
      }
  }

  lemma FirstsGrow(ps: seq<Parsed>, rs: seq<Rule>, r: Rule)
    requires ListsFirsts(ps, rs)
    ensures ListsFirsts(ps + [Ok(r)], AddUnique(rs, r))
  {
    var after, qs := AddUnique(rs, r), ps + [Ok(r)];
    forall i | 0 <= i < |qs|
      ensures HasRaw(after, qs[i].rule.raw)
    {
      if i < |ps| {
        var x :| x in rs && x.raw == ps[i].rule.raw;
        assert x in after;
      } else if !HasRaw(rs, r.raw) {
        assert r in after;
      }
    }
    forall x | x in after
      ensures exists k: nat :: NewAt(qs, k, x)
    {
      if x in rs {
        var k: nat :| NewAt(ps, k, x);
        assert NewAt(qs, k, x);
      } else {
        assert NewAt(qs, |ps|, x);
      }
    }
  }

  // A longer list only appends.
  lemma {:induction false} CleanOrder(a: seq<string>, b: seq<string>)
    ensures CleanAll(a + b).RuleList? ==> CleanAll(a).RuleList? && CleanAll(a).rules <= CleanAll(a + b).rules
  {
    if b == [] {
      assert a + b == a;
    } else {
      CleanOrder(a, b[..|b| - 1]);
      assert (a + b)[..|a + b| - 1] == a + b[..|b| - 1];
    }
  }

  // The texts of a file: its trimmed lines without blank ones and comments.
  ghost function Texts(lines: seq<string>): seq<string> {
    if lines == [] then []
    else
      var front, last := Texts(lines[..|lines| - 1]), TrimSpace(lines[|lines| - 1]);
      if last != "" && last[0] != '#' then front + [last] else front
  }

  // Reading a file is cleaning its texts.
  lemma {:induction false} LinesAreTexts(lines: seq<string>)
    ensures SameRules(ParseLines(lines), CleanAll(Texts(lines)))
  {
    if lines != [] {
      var front, last := lines[..|lines| - 1], TrimSpace(lines[|lines| - 1]);
      LinesAreTexts(front);
      if last != "" && last[0] != '#' {
        var texts := Texts(front);
        OneMoreText(lines, texts, last, ParseLines(front), CleanAll(texts), ParseRule(last));
      }
    }
  }

  // Equal, but for the number of the line that does not parse.
  ghost predicate SameRules(a: ListResult, b: ListResult) {
    if a.RuleList? then a == b else b.BadEntry? && a.error == b.error
  }

  lemma OneMoreText(lines: seq<string>, texts: seq<string>, last: string, a: ListResult, b: ListResult, p: Parsed)
    requires lines != [] && last == TrimSpace(lines[|lines| - 1]) && last != "" && last[0] != '#'
    requires p == ParseRule(last) && a == ParseLines(lines[..|lines| - 1]) && b == CleanAll(texts) && SameRules(a, b)
    ensures SameRules(ParseLines(lines), CleanAll(texts + [last]))
  {
    assert (texts + [last])[..|texts|] == texts;
  }

  lemma {:induction false} ParseLinesStopsAtBad(lines: seq<string>, k: nat)
    requires k <= |lines| && ParseLines(lines[..k]).BadEntry?
    ensures ParseLines(lines) == ParseLines(lines[..k])
    decreases |lines| - k
  {
    if k < |lines| {
      assert lines[..k + 1][..k] == lines[..k];
      ParseLinesStopsAtBad(lines, k + 1);
    } else {
      assert lines[..k] == lines;
    }
  }

  lemma {:induction false} CleanAllStopsAtBad(raws: seq<string>, k: nat)
    requires k <= |raws| && CleanAll(raws[..k]).BadEntry?
    ensures CleanAll(raws) == CleanAll(raws[..k])
    decreases |raws| - k
  {
    if k < |raws| {
      assert raws[..k + 1][..k] == raws[..k];
      CleanAllStopsAtBad(raws, k + 1);
    } else {
      assert raws[..k] == raws;
    }
  }

  // ParseRulesFile as the source runs it: one pass with a seen-map.
  method ParseFile(content: string) returns (res: ListResult)
    ensures res == ParseRulesFile(content)
  {
    var lines := Split(content, '\n');
    var rules: seq<Rule> := [];
    var seen: set<string> := {};
    for i := 0 to |lines|
      invariant ParseLines(lines[..i]) == RuleList(rules)
      invariant forall k :: k in seen <==> HasRaw(rules, k)
    {
      assert lines[..i + 1][..i] == lines[..i];
      assert ParseLines(lines[..i + 1]) == LineStep(RuleList(rules), i, lines[i]);
      var line := TrimSpace(lines[i]);
      if line == "" || line[0] == '#' {
        continue;
      }
      var parsed := ParseRule(line);
      if parsed.Err? {
        ParseLinesStopsAtBad(lines, i + 1);
        return BadEntry(i, parsed.error);
      }
      if parsed.rule.raw in seen {
        continue;
      }
      seen := seen + {parsed.rule.raw};
      rules := rules + [parsed.rule];
    }
    assert lines[..|lines|] == lines;
    return RuleList(rules);
  }

  // ---- The persisted text ----

  function RenderLines(rules: seq<Rule>): string {
    if rules == [] then "" else rules[0].raw + ['\n'] + RenderLines(rules[1..])
  }

  function Render(rules: seq<Rule>): string {
    HEADER + ['\n'] + RenderLines(rules)
  }

  predicate OneLine(raw: string) {
    raw != "" && '\n' !in raw && raw[0] != '#' && TrimSpace(raw) == raw
  }

  lemma DottedIsOneLine(a: Addr, bits: Bits)
    ensures OneLine(Dotted(a)) && OneLine(NetString(V4Net(a, bits)))
  {
    DottedChars(a);
    DecRoundTrip(bits);
    TrimSpaceStable(Dotted(a));
    TrimSpaceStable(NetString(V4Net(a, bits)));
  }

  lemma HostIsOneLine(host: string)
    requires ValidHostname(host)
    ensures OneLine(host) && OneLine("*." + host)
  {
    HostnameText(host);
    HostnameChars(host);
  }

  lemma RawIsOneLine(r: Rule)
    requires WellFormed(r)
    ensures OneLine(r.raw)
  {
    match r.kind
    case KindIP => DottedIsOneLine(r.net.value.addr, 32);
    case KindCIDR => DottedIsOneLine(r.net.value.addr, r.net.value.bits);
    case KindDomain => HostIsOneLine(r.host);
    case KindSuffix => HostIsOneLine(r.host);
  }

  lemma {:induction false} SplitRendered(rules: seq<Rule>)
    requires forall i :: 0 <= i < |rules| ==> '\n' !in rules[i].raw
    ensures Split(RenderLines(rules), '\n') == Raws(rules) + [""]
  {
    if rules != [] {
      SplitWithout(rules[0].raw, '\n');
      SplitAppend(rules[0].raw, '\n', RenderLines(rules[1..]));
      SplitRendered(rules[1..]);
      assert Raws(rules) == [rules[0].raw] + Raws(rules[1..]);
    }
  }

  function CanonicalAll(rules: seq<Rule>): (rs: seq<Rule>)
    ensures |rs| == |rules| && forall i :: 0 <= i < |rules| ==> rs[i] == Canonical(rules[i])
  {
    seq(|rules|, i requires 0 <= i < |rules| => Canonical(rules[i]))
  }

  lemma SkippedLine(lines: seq<string>, line: string)
    requires IsSkipped(line)
    ensures ParseLines(lines + [line]) == ParseLines(lines)
  {
    assert (lines + [line])[..|lines|] == lines;
  }

  lemma RuleLine(lines: seq<string>, rs: seq<Rule>, line: string, r: Rule)
    requires ParseLines(lines) == RuleList(rs) && !IsSkipped(line)
    requires ParseRule(TrimSpace(line)) == Ok(r) && !HasRaw(rs, r.raw)
    ensures ParseLines(lines + [line]) == RuleList(rs + [r])
  {
    assert (lines + [line])[..|lines|] == lines;
  }

  lemma HeaderIsSkipped()
    ensures IsSkipped(HEADER) && '\n' !in HEADER
  {
    var a, b, c, d := "# outline-gate", " user rules", " (managed by", " UI/API)";
    assert '\n' !in a && a[0] == '#';
    assert '\n' !in b;
    assert '\n' !in c;
    assert '\n' !in d && d[7] == ')';
    assert HEADER == a + b + c + d;
    TrimSpaceStable(a + b + c + d);
  }

  lemma FrontOfList(rules: seq<Rule>)
    requires WellFormedList(rules) && rules != []
    ensures WellFormedList(rules[..|rules| - 1]) && WellFormed(rules[|rules| - 1])
    ensures !HasRaw(rules[..|rules| - 1], rules[|rules| - 1].raw)
  {
  }

  lemma CanonicalLacks(rules: seq<Rule>, raw: string)
    requires WellFormedList(rules) && !HasRaw(rules, raw)
    ensures !HasRaw(CanonicalAll(rules), raw)
  {
    SameRaws(rules);
    assert forall i :: 0 <= i < |rules| ==> CanonicalAll(rules)[i].raw == Raws(CanonicalAll(rules))[i];
  }

  lemma LastRule(lines: seq<string>, front: seq<Rule>, last: Rule)
    requires WellFormedList(front) && WellFormed(last) && !HasRaw(front, last.raw)
    requires ParseLines(lines) == RuleList(CanonicalAll(front))
    ensures ParseLines(lines + [last.raw]) == RuleList(CanonicalAll(front) + [Canonical(last)])
  {
    RawIsOneLine(last);
    ReparseRaw(last);
    CanonicalLacks(front, last.raw);
    RuleLine(lines, CanonicalAll(front), last.raw, Canonical(last));
  }

  lemma UnsnocLists(head: seq<string>, rules: seq<Rule>)
    requires rules != []
    ensures var front, last := rules[..|rules| - 1], rules[|rules| - 1];
      head + Raws(rules) == head + Raws(front) + [last.raw] &&
      CanonicalAll(rules) == CanonicalAll(front) + [Canonical(last)]
  {
  }

  lemma {:induction false} ParseAppendedRaws(head: seq<string>, rules: seq<Rule>)
    requires ParseLines(head) == RuleList([]) && WellFormedList(rules)
    ensures ParseLines(head + Raws(rules)) == RuleList(CanonicalAll(rules))
  {
    if rules == [] {
      assert head + Raws(rules) == head;
    } else {
      var front, last := rules[..|rules| - 1], rules[|rules| - 1];
      FrontOfList(rules);
      ParseAppendedRaws(head, front);
      LastRule(head + Raws(front), front, last);
      UnsnocLists(head, rules);
    }
  }

  // Parsing the persisted text of a list gives back its rules, each in the
  // form its own text parses to: same texts, same order, no repeats.
  lemma FileRoundTrip(rules: seq<Rule>)
    requires WellFormedList(rules)
    ensures ParseRulesFile(Render(rules)) == RuleList(CanonicalAll(rules))
    ensures Raws(CanonicalAll(rules)) == Raws(rules)
  {
    RenderedLines(rules);
    SkippedLine([HEADER] + Raws(rules), "");
    HeaderIsSkipped();
    SkippedLine([], HEADER);
    assert [] + [HEADER] == [HEADER];
    ParseAppendedRaws([HEADER], rules);
    SameRaws(rules);
  }

  lemma RenderedLines(rules: seq<Rule>)
    requires WellFormedList(rules)
    ensures Split(Render(rules), '\n') == [HEADER] + Raws(rules) + [""]
  {
    HeaderIsSkipped();
    SplitWithout(HEADER, '\n');
    SplitAppend(HEADER, '\n', RenderLines(rules));
    forall i | 0 <= i < |rules|
      ensures '\n' !in rules[i].raw
    {
      RawIsOneLine(rules[i]);
    }
    SplitRendered(rules);
  }

  lemma SameRaws(rules: seq<Rule>)
    requires forall i :: 0 <= i < |rules| ==> WellFormed(rules[i])
    ensures Raws(CanonicalAll(rules)) == Raws(rules)
  {
    forall i | 0 <= i < |rules|
      ensures Canonical(rules[i]).raw == rules[i].raw
    {
      ReparseRaw(rules[i]);
    }
  }

  // The same rules come back, kinds and networks included, exactly when no
  // rule is a domain rule whose text is an IPv4 literal, which only an input
  // with a trailing dot creates (Rules.ReparseExact).
  lemma FileRoundTripExact(rules: seq<Rule>)
    requires WellFormedList(rules)
    ensures ParseRulesFile(Render(rules)) == RuleList(rules) <==>
      forall r :: r in rules ==> !(r.kind == KindDomain && ParseIPv4(r.host).Some?)
  {
    FileRoundTrip(rules);
    if forall r :: r in rules ==> !(r.kind == KindDomain && ParseIPv4(r.host).Some?) {
      assert CanonicalAll(rules) == rules;
    } else {
      var i :| 0 <= i < |rules| && rules[i].kind == KindDomain && ParseIPv4(rules[i].host).Some?;
      assert CanonicalAll(rules)[i] != rules[i];
    }
  }

  // Such a list exists: one accepted input makes it, and a restart turns its rule into another.
  lemma DottedRuleChanges(a: Addr)
    ensures CleanAll([Dotted(a) + "."]).RuleList?
    ensures var rules := CleanAll([Dotted(a) + "."]).rules;
      |rules| == 1 && rules[0].kind == KindDomain &&
      ParseRulesFile(Render(rules)) == RuleList([Rule(Dotted(a), KindIP, Some(Host(a)), "")])
  {
    TextCollision(a);
    ParseDotted(a);
    var rule := Rule(Dotted(a), KindDomain, None, Dotted(a));
    assert [Dotted(a) + "."][..0] == [];
    assert CleanAll([Dotted(a) + "."]) == RuleList([rule]);
    FileRoundTrip([rule]);
    assert CanonicalAll([rule]) == [Canonical(rule)];
  }

  // ---- Store operations as functions of the state ----

  // disk is the content of the rules file; None when it does not exist.
  datatype State = State(persistent: bool, disk: Option<string>, rules: seq<Rule>)

  datatype Change = Change(state: State, ok: bool)

  // persistLocked followed by the assignment of s.rules: temp file and rename
  // leave the old file in place when any file operation fails.
  function Replace(s: State, next: seq<Rule>, fault: bool): Change {
    if !s.persistent then Change(s.(rules := next), true)
    else if fault then Change(s, false)
    else Change(s.(disk := Some(Render(next)), rules := next), true)
  }

  function LoadStep(s: State, readFault: bool): Change {
    if !s.persistent then Change(s.(rules := []), true)
    else if readFault then Change(s, false)
    else if s.disk.None? then Change(s.(rules := []), true)
    else match ParseRulesFile(s.disk.value)
      case BadEntry(_, _) => Change(s, false)
      case RuleList(rs) => Change(s.(rules := rs), true)
  }

  function SetStep(s: State, raws: seq<string>, fault: bool): Change {
    match CleanAll(raws)
    case BadEntry(_, _) => Change(s, false)
    case RuleList(rs) => Replace(s, rs, fault)
  }

  function AddStep(s: State, raw: string, fault: bool): Change {
    match ParseRule(raw)
    case Err(_) => Change(s, false)
    case Ok(r) => if HasRaw(s.rules, r.raw) then Change(s, true) else Replace(s, s.rules + [r], fault)
  }

  function Without(rules: seq<Rule>, raw: string): seq<Rule> {
    if rules == [] then []
    else
      var front, last := Without(rules[..|rules| - 1], raw), rules[|rules| - 1];
      if last.raw == raw then front else front + [last]
  }

  // ok tells "removed"; a text that is not listed leaves everything as it was.
  function RemoveStep(s: State, raw: string, fault: bool): Change {
    match ParseRule(raw)
    case Err(_) => Change(s, false)
    case Ok(r) => if HasRaw(s.rules, r.raw) then Replace(s, Without(s.rules, r.raw), fault) else Change(s, false)
  }

  lemma {:induction false} WithoutMembers(rules: seq<Rule>, raw: string)
    ensures forall r :: r in Without(rules, raw) <==> r in rules && r.raw != raw
  {
    if rules != [] {
      var front, last := rules[..|rules| - 1], rules[|rules| - 1];
      WithoutMembers(front, raw);
      assert rules == front + [last];
    }
  }

  lemma {:induction false} WithoutWellFormed(rules: seq<Rule>, raw: string)
    requires WellFormedList(rules)
    ensures WellFormedList(Without(rules, raw))
  {
    if rules != [] {
      var front, last := rules[..|rules| - 1], rules[|rules| - 1];
      FrontOfList(rules);
      WithoutWellFormed(front, raw);
      WithoutMembers(front, raw);
      forall r | r in Without(front, raw)
        ensures r.raw != last.raw
      {
        var i :| 0 <= i < |front| && front[i] == r;
      }
      AppendFresh(Without(front, raw), last);
    }
  }

  lemma AppendFresh(rules: seq<Rule>, r: Rule)
    requires WellFormedList(rules) && WellFormed(r) && !HasRaw(rules, r.raw)
    ensures WellFormedList(rules + [r])
  {
  }

  // What the file holds is what the store holds, up to the kinds.
  ghost predicate Synced(s: State) {
    s.persistent ==>
      match s.disk
      case None => s.rules == []
      case Some(content) => ParseRulesFile(content).RuleList? && Raws(ParseRulesFile(content).rules) == Raws(s.rules)
  }

  ghost predicate Valid(s: State) {
    WellFormedList(s.rules)
  }

  lemma ReplaceKeeps(s: State, next: seq<Rule>, fault: bool)
    requires Valid(s) && WellFormedList(next)
    ensures Valid(Replace(s, next, fault).state)
    ensures Synced(s) || (s.persistent && !fault) ==> Synced(Replace(s, next, fault).state)
  {
    FileRoundTrip(next);
  }

  // Every operation keeps the list well formed and the file in step with it,
  // whatever file operations fail.
  ghost predicate Keeps(s: State, s': State) {
    Valid(s') && (Synced(s) ==> Synced(s'))
  }

  lemma LoadKeeps(s: State, fault: bool)
    requires Valid(s)
    ensures Keeps(s, LoadStep(s, fault).state)
  {
  }

  lemma SetKeeps(s: State, raws: seq<string>, fault: bool)
    requires Valid(s)
    ensures Keeps(s, SetStep(s, raws, fault).state)
  {
    if CleanAll(raws).RuleList? {
      ReplaceKeeps(s, CleanAll(raws).rules, fault);
    }
  }

  lemma AddKeeps(s: State, raw: string, fault: bool)
    requires Valid(s)
    ensures Keeps(s, AddStep(s, raw, fault).state)
  {
    if ParseRule(raw).Ok? {
      var r := ParseRule(raw).rule;
      ParsedIsWellFormed(raw);
      if !HasRaw(s.rules, r.raw) {
        AppendFresh(s.rules, r);
        ReplaceKeeps(s, s.rules + [r], fault);
      }
    }
  }

  lemma RemoveKeeps(s: State, raw: string, fault: bool)
    requires Valid(s)
    ensures Keeps(s, RemoveStep(s, raw, fault).state)
  {
    if ParseRule(raw).Ok? {
      var r := ParseRule(raw).rule;
      WithoutWellFormed(s.rules, r.raw);
      ReplaceKeeps(s, Without(s.rules, r.raw), fault);
    }
  }

  // A restart loses no rule: a load of a file in step succeeds, unless the
  // read fails, and yields the same texts in the same order.
  lemma ReloadKeepsTexts(s: State)
    requires s.persistent
    ensures Synced(s) ==> LoadStep(s, false).ok && Raws(LoadStep(s, false).state.rules) == Raws(s.rules)
  {
  }

  // What each operation stores, and when it reports success.
  ghost predicate Stored(s: State, s': State) {
    s'.persistent == s.persistent && s'.disk == if s.persistent then Some(Render(s'.rules)) else s.disk
  }

  // A set succeeds exactly when every text parses and the file can be written;
  // then exactly the new texts are listed, and stored.
  lemma SetExact(s: State, raws: seq<string>, fault: bool)
    ensures var r := SetStep(s, raws, fault);
      (r.ok <==> !(s.persistent && fault) && AllOk(Parses(raws))) &&
      (r.ok ==> Stored(s, r.state) && ListsFirsts(Parses(raws), r.state.rules)) && (!r.ok ==> r.state == s)
  {
    CleanExact(raws);
  }

  // An addition appends the rule unless its text is listed already.
  lemma AddExact(s: State, raw: string, fault: bool)
    ensures var r := AddStep(s, raw, fault);
      if ParseRule(raw).Err? then r == Change(s, false)
      else
        var rule := ParseRule(raw).rule;
        if exists x :: x in s.rules && x.raw == rule.raw then r == Change(s, true)
        else if s.persistent && fault then r == Change(s, false)
        else r.ok && r.state.rules == s.rules + [rule] && Stored(s, r.state)
  {
  }

  // A removal takes out the rules with the text, and only those, in place.
  lemma RemoveExact(s: State, raw: string, fault: bool)
    ensures var r := RemoveStep(s, raw, fault);
      (r.ok <==> ParseRule(raw).Ok? && !(s.persistent && fault) &&
                 exists x :: x in s.rules && x.raw == ParseRule(raw).rule.raw) &&
      (!r.ok ==> r.state == s) &&
      (r.ok ==> Stored(s, r.state)) &&
      (r.ok ==> forall x :: x in r.state.rules <==> x in s.rules && x.raw != ParseRule(raw).rule.raw)
  {
    if ParseRule(raw).Ok? {
      WithoutMembers(s.rules, ParseRule(raw).rule.raw);
    }
  }

  // A load reads what the file holds, whatever was listed; a store without a
  // file starts empty.
  lemma LoadExact(s: State, fault: bool)
    ensures var r := LoadStep(s, fault);
      r.state.disk == s.disk && r.state.persistent == s.persistent &&
      (!r.ok ==> r.state == s) &&
      (!s.persistent || (!fault && s.disk.None?) ==> r.ok && r.state.rules == []) &&
      (s.persistent && s.disk.Some? ==>
        var texts := Texts(Split(s.disk.value, '\n'));
        (r.ok <==> !fault && CleanAll(texts).RuleList?) && (r.ok ==> r.state.rules == CleanAll(texts).rules))
  {
    if s.disk.Some? {
      LinesAreTexts(Split(s.disk.value, '\n'));
    }
  }

  // Removing what was added restores the list, when the text was not listed.
  lemma RemoveUndoesAdd(s: State, raw: string)
    ensures ParseRule(raw).Ok? && !HasRaw(s.rules, ParseRule(raw).rule.raw) ==>
      RemoveStep(AddStep(s, raw, false).state, raw, false).state.rules == s.rules
  {
    if ParseRule(raw).Ok? && !HasRaw(s.rules, ParseRule(raw).rule.raw) {
      var r := ParseRule(raw).rule;
      var added := AddStep(s, raw, false).state.rules;
      assert added[..|added| - 1] == s.rules && added[|added| - 1] == r;
      WithoutAbsent(s.rules, r.raw);
      assert r in added;
    }
  }

  lemma {:induction false} WithoutAbsent(rules: seq<Rule>, raw: string)
    requires !HasRaw(rules, raw)
    ensures Without(rules, raw) == rules
  {
    if rules != [] {
      var front := rules[..|rules| - 1];
      assert rules == front + [rules[|rules| - 1]];
      WithoutAbsent(front, raw);
    }
  }

  // After an accepted Add of an IP or CIDR rule, the listed rule with its text
  // matches the addresses of the network exactly when no domain rule with that
  // text was stored before: the texts are compared, not the rules.
  lemma AddedRuleMatches(s: State, raw: string, rule: Rule, fault: bool)
    requires Valid(s) && rule.net.Some?
    ensures ParseRule(raw) == Ok(rule) && AddStep(s, raw, fault).ok ==>
      ((exists r :: r in AddStep(s, raw, fault).state.rules && r.raw == rule.raw && MatchesNet(r, rule.net.value))
       <==> !HasDomainRaw(s.rules, rule.raw))
  {
    if ParseRule(raw) == Ok(rule) && AddStep(s, raw, fault).ok {
      ParsedIsWellFormed(raw);
      if HasRaw(s.rules, rule.raw) {
        var r :| r in s.rules && r.raw == rule.raw;
        ListedRuleMatches(s.rules, r, rule);
      } else {
        var after := AddStep(s, raw, fault).state.rules;
        assert after == s.rules + [rule];
        assert rule in after && MatchesNet(rule, rule.net.value);
      }
    }
  }

  ghost predicate MatchesNet(r: Rule, n: IPNet) {
    forall ip: Addr :: Contains(n, ip) ==> IPRuleMatches(r, ip)
  }

  predicate HasDomainRaw(rules: seq<Rule>, raw: string) {
    exists r :: r in rules && r.raw == raw && r.kind == KindDomain
  }

  lemma OneRulePerText(rules: seq<Rule>, r: Rule)
    requires WellFormedList(rules) && r in rules
    ensures WellFormed(r) && forall x :: x in rules && x.raw == r.raw ==> x == r
  {
  }

  lemma SameTextAsNet(r: Rule, rule: Rule)
    requires WellFormed(r) && WellFormed(rule) && rule.net.Some? && r.raw == rule.raw
    ensures rule.net.value.V4Net? && (if r.kind == KindDomain then r.net.None? else r == rule)
  {
    SameText(r, rule);
  }

  lemma ListedRuleMatches(rules: seq<Rule>, r: Rule, rule: Rule)
    requires WellFormedList(rules) && r in rules && WellFormed(rule) && rule.net.Some? && r.raw == rule.raw
    ensures (exists x :: x in rules && x.raw == rule.raw && MatchesNet(x, rule.net.value)) <==>
      !HasDomainRaw(rules, rule.raw)
  {
    OneRulePerText(rules, r);
    SameTextAsNet(r, rule);
    if r.kind == KindDomain {
      assert Contains(rule.net.value, rule.net.value.addr) && !IPRuleMatches(r, rule.net.value.addr);
    } else {
      assert MatchesNet(r, rule.net.value);
    }
  }

  // The failing case: after "1.2.3.4." was stored, adding "1.2.3.4" is accepted,
  // changes nothing, and the address stays unmatched.
  lemma AddedAddressUnmatched(s: State, a: Addr, fault: bool)
    requires s.rules == [] && (s.persistent ==> !fault)
    ensures var s1 := AddStep(s, Dotted(a) + ".", fault).state;
      AddStep(s1, Dotted(a), fault) == Change(s1, true) && MatchIPDetail(s1.rules, a).None?
  {
    TextCollision(a);
    var s1 := AddStep(s, Dotted(a) + ".", fault).state;
    assert s1.rules == [Rule(Dotted(a), KindDomain, None, Dotted(a))];
    assert s1.rules[0] in s1.rules;
  }

  // ---- The Store object ----

  class Store {
    const persistent: bool
    var disk: Option<string>
    var rules: seq<Rule>

    ghost function View(): State
      reads this
    {
      State(persistent, disk, rules)
    }

    constructor (persistent: bool, disk: Option<string>)
      ensures View() == State(persistent, disk, [])
    {
      this.persistent := persistent;
      this.disk := disk;
      this.rules := [];
    }

    method Load(readFault: bool) returns (ok: bool)
      modifies this
      ensures Change(View(), ok) == LoadStep(old(View()), readFault)
    {
      if !persistent {
        rules := [];
        return true;
      }
      if readFault {
        return false;
      }
      if disk.None? {
        rules := [];
        return true;
      }
      var res := ParseFile(disk.value);
      if res.BadEntry? {
        return false;
      }
      rules := res.rules;
      return true;
    }

    // persistLocked
    method Persist(next: seq<Rule>, fault: bool) returns (ok: bool)
      modifies this`disk
      ensures ok == (!persistent || !fault)
      ensures disk == if persistent && ok then Some(Render(next)) else old(disk)
    {
      if !persistent {
        return true;
      }
      var text := HEADER + ['\n'];
      for i := 0 to |next|
        invariant text + RenderLines(next[i..]) == Render(next)
      {
        assert next[i..][1..] == next[i + 1..];
        text := text + next[i].raw + ['\n'];
      }
      assert text + "" == text;
      if fault {
        return false;
      }
      disk := Some(text);
      return true;
    }

    method Set(raws: seq<string>, fault: bool) returns (ok: bool)
      modifies this
      ensures Change(View(), ok) == SetStep(old(View()), raws, fault)
    {
      var seen: set<string> := {};
      var clean: seq<Rule> := [];
      for i := 0 to |raws|
        invariant CleanAll(raws[..i]) == RuleList(clean)
        invariant forall k :: k in seen <==> HasRaw(clean, k)
        invariant View() == old(View())
      {
        assert raws[..i + 1][..i] == raws[..i];
        var parsed := ParseRule(raws[i]);
        if parsed.Err? {
          CleanAllStopsAtBad(raws, i + 1);
          return false;
        }
        if parsed.rule.raw !in seen {
          seen := seen + {parsed.rule.raw};
          clean := clean + [parsed.rule];
        }
      }
      assert raws[..|raws|] == raws;
      ok := Persist(clean, fault);
      if ok {
        rules := clean;
      }
    }

    method Add(raw: string, fault: bool) returns (ok: bool)
      modifies this
      ensures Change(View(), ok) == AddStep(old(View()), raw, fault)
    {
      var parsed := ParseRule(raw);
      if parsed.Err? {
        return false;
      }
      for i := 0 to |rules|
        invariant forall j :: 0 <= j < i ==> rules[j].raw != parsed.rule.raw
      {
        if rules[i].raw == parsed.rule.raw {
          return true;
        }
      }
      var next := rules + [parsed.rule];
      ok := Persist(next, fault);
      if ok {
        rules := next;
      }
    }

    method Remove(raw: string, fault: bool) returns (removed: bool)
      modifies this
      ensures Change(View(), removed) == RemoveStep(old(View()), raw, fault)
    {
      var parsed := ParseRule(raw);
      if parsed.Err? {
        return false;
      }
      var next: seq<Rule> := [];
      var found := false;
      for i := 0 to |rules|
        invariant next == Without(rules[..i], parsed.rule.raw)
        invariant found == HasRaw(rules[..i], parsed.rule.raw)
      {
        assert rules[..i + 1][..i] == rules[..i];
        assert rules[..i + 1] == rules[..i] + [rules[i]];
        if rules[i].raw == parsed.rule.raw {
          found := true;
          continue;
        }
        next := next + [rules[i]];
      }
      assert rules[..|rules|] == rules;
      if !found {
        return false;
      }
      removed := Persist(next, fault);
      if removed {
        rules := next;
      }
    }
  }
}
