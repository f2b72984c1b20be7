# outline-gate: verified model

outline-gate is a split-tunnel gateway: it sends TCP through an Outline tunnel, directly, or nowhere, by a
configured policy. This project models the five parts of it that carry hard properties and proves those
properties in Dafny. `dafny verify dfyconfig.toml` checks everything.

| file | models |
|---|---|
| `Text.dfy`, `NetAddr.dfy` | ASCII string operations, IPv4 text and CIDR networks, network lists |
| `Routing.dfy` | the userspace decision `Engine.Decide` |
| `Nft.dfy` | nftables as a rule language: sets, ordered chains, atomic scripts, first-match evaluation |
| `Gateway.dfy` | the compiled table, the emitted scripts, the set patch, the lifecycle of the installed rules |
| `Handles.dfy` | several gateway objects over one kernel: a reload against an apply under way |
| `PathDecider.dfy`, `Policy.dfy` | kernel program plus userspace decision: end-to-end policy and loop freedom |
| `Rules.dfy`, `RuleStore.dfy` | the canonicalising rule parser, the matcher, the persisted rule list |
| `BypassManager.dfy` | the rule manager: two lookup paths, DNS results, change notification |
| `ManagerThreads.dfy` | matcher rebuilds of overlapping rule edits |
| `RefreshThreads.dfy` | overlapping DNS refreshes and pushes |
| `ConnLog.dfy` | the bounded event buffer against the full history, and fan-out to subscribers |
| `Proxy.dfy`, `Socks5.dfy`, `Transparent.dfy` | the SOCKS5 handshake and the handler of redirected connections |
| `Client.dfy` | the Outline client with atomic operations |
| `ClientThreads.dfy` | the same client under any interleaving of any number of threads |
| `ServerThreads.dfy` | overlapping rebuilds of the dialer and pushes of its server |
| `Supervisor.dfy` | the MaintainReady loop: backoff, probe, refresh, wake-up |
| `System.dfy` | managers, engine, table and proxies together, as `cmd/outline-gate` wires them |
| `App.dfy` | runs of everything in `cmd/outline-gate` that moves the client's server, pushes an engine or touches the kernel's table |

Code that changes state is a class whose methods tie the new state to a function of the old one (`Step`,
`RecordStep`, `RoundStep`, ...); the theorems are about runs of those functions. The outside world (nft
failures, file failures, DNS answers, dial and rebuild outcomes, clocks) enters as arguments without any
restriction. Networks are kept without repeats by their CIDR text, which is proved injective, so those seen-maps
remove exactly the repeats. Rule lists are kept without repeats by the canonical text, which is not injective
(`Rules.TextCollision`); what that costs is the first item below.

The functions the theorems are about are pinned down themselves: prefixes by binary digits and octets, rules by the
texts they are read from, a refresh by rules and DNS answers, a SOCKS conversation by its bytes, a supervisor round by
its inputs, a pushed engine by what the rule manager matches, and every thread model by the atomic operation it
interleaves (`...Exact`, `...Exactly`, `...Accepted`, `...Alone`).

## What the proofs found

Each of these is code behaviour, kept as it is, with a theorem that says exactly when it occurs.

- An IPv4 literal with a trailing dot is accepted as a domain rule with the text of the literal, and it is the only
  input whose kind changes when its text is parsed again (`Rules.ReparseExact`, `RuleStore.FileRoundTripExact`).
  Stores compare texts: once `1.2.3.4.` is listed, adding `1.2.3.4` succeeds and changes nothing. The listed rule
  matches the added network exactly when no domain rule with that text was stored (`RuleStore.AddedRuleMatches`).
- User rules do not always keep traffic out of the tunnel, although `docs/routing.md:7-11` says so and the comment at
  `internal/gateway/gateway.go:227-229` takes every direct dial to be in `@bypass`. SOCKS decides by host name, OUTPUT
  by address. In exclude mode the direct dial of a name that bypass matches stays direct if and only if its address is
  private, a pushed server or in the exported networks; otherwise it is redirected and ends in the tunnel, or is dropped
  by a block rule (`System.NamedDialExclude`). A suffix rule exports only the answers for its apex, so every other address of a
  subdomain is such a case (`System.SuffixNameTunneled`). In include mode it happens for addresses of the tunnel list,
  without end when they are exported too (`System.NamedDialInclude`). The fetch of a dynamic key is one more direct
  dial: outside those addresses it is redirected and then refused for as long as the client is not ready
  (`App.KeyFetchRefused`).
- Own dials and redirect loops. This item and the previous one need a host that has a public address of its own: OUTPUT
  returns on private sources, so a host with private addresses only redirects none of its own dials. With one, no own
  dial is redirected if and only if `LoopSafe` holds and OUTPUT selects no address that is dialed without asking the
  engine (`Policy.OwnDialsEscape`), and some packet is redirected without end if and only if an unblocked public
  address is in both `@tunnel` and `@bypass` in include mode (the include OUTPUT chain has no `@bypass` skip), or the
  tunnel server in use is an address that OUTPUT selects and policy does not drop (`Policy.LoopFreedom`).
- The engine knows the server only as the client resolved it. A key of several parts resolves to nothing
  (`internal/outline/client.go:623-625`), a failed lookup too, and the client is ready all the same; for a host name the
  dialer resolves again and may dial another address. `docs/design-plan.md:118` says that the server must always be in
  bypass. In exclude mode the dials of a ready client to an address loop exactly when the rules catch them and that
  address is not the resolved one and is public, unlisted and not blocked, over every run in which no restart moved the
  server (`App.RunLoopExact`). One accepted key of several parts is enough, without any restart
  (`App.UnresolvedKeyLoops`).
- What was pushed and what the client resolved are synchronised only by `rebuildPush`. Over every run they agree while
  the client is ready if and only if no RestartServices call brought the client up with another server
  (`App.RunExact`): that handler reconnects and re-applies the old engine (`cmd/outline-gate/main.go:355-386`). Tunnel
  dials to any other outside address then loop (`App.RestartLoops`), and with a static key no supervisor round that
  finds the client ready repairs it (`App.ReadyRoundPushesNothing`). Everything else pushes what it makes ready, but
  only afterwards: a probe (`App.ProbeBeforePush`), live dials (`App.RefreshBeforePush`) and dials until a key is on disk
  (`App.KeyBeforePush`) still meet the old engine. Under interleaving the same restart is the only way to lose it
  (`ServerThreads.RunExact`).
- A key replaced in the UI that cannot be expanded is reported as accepted while the dialer is built from the remembered
  key of the old one, although `internal/outline/client.go:212-214` says that a failure leaves the client not ready
  (`Client.OldKeyReported`). The key in use is that of the access key in force all the time if and only if no switch to
  another access key went without a dialer of its own (`Client.RunOriginExact`).
- The kernel holds the table of the last pushed engine while the rules are active, and none otherwise, over every run and
  whatever nft calls fail, if and only if no active rules had to be rebuilt over a table that could not be deleted, no
  flush failed to delete, and no reload of active rules came without a port (`App.KernelRunExact`); `App.ApplyRepairs`
  says which attempts to apply put it right.
- A reload replaces the gateway, but the start loop and RestartServices may have read the old one before and apply it
  afterwards (`cmd/outline-gate/main.go:375-379,539-545`). The active current gateway keeps its own table if and only if
  no such apply brought other sets or chains, deleted without rebuilding, or appended (`Handles.RunExact`); without any
  nft failure a start loop that is overtaken by a reload leaves the old table (`Handles.StaleStart`).
- Block rules and the direct policy do not bind local packets: OUTPUT returns on `@bypass` before anything asks the block
  list, and in include mode on everything outside `@tunnel`. `Policy.LocalEndToEnd` gives the exact cases in which a
  local packet meets the documented policy.
- A packet forwarded to the proxy port itself is not redirected, so it goes direct whatever the policy says
  (`Policy.EndToEnd`).
- A rebuild whose "delete table" failed over an existing table succeeds and appends every rule again
  (`Gateway.RebuildExact`, reached in `Gateway.DoubledRules`); it is the only way to lose "active means compiled"
  (`Gateway.Lifecycle`). And an `UpdateEngine(nil)` on active rules fails
  without clearing `active` (`Gateway.FailureLeavesInactive`).
- A rule edit that leaves the resolved networks unchanged is not pushed, although the comment at
  `internal/bypass/manager.go:14` says rule changes are. After any run of loads, edits and refreshes the pushed
  networks are current exactly when every address that only the pushed or only the present rules match is covered
  without them (`BypassManager.RunFreshExact`; `AddedNetFresh` and `RemovedRuleFresh` for single additions and
  removals). A removed bypass that nothing else covers stays in the kernel (`BypassManager.RemovedNetStaysPushed`).
  The same holds for the installed engine over every run of the process (`App.RunEngineExact`), and for the rules a
  SIGHUP loads, although the comment at `cmd/outline-gate/main.go:595` says that a load always pushes
  (`App.ReloadExact`).
- `rebuildMatcher` reads the rules and writes the matcher in two critical sections, so overlapping edits can leave a
  quiet manager with an old matcher (`ManagerThreads.LostRule`). Once edits stop, the matcher ends up current under
  every schedule if and only if no thread holds a snapshot older than the last edit and the matcher is current already
  or some thread still has to rebuild it (`ManagerThreads.SettlesExactly`).
- `Refresh` reads the hosts, asks DNS and writes the answers without holding a lock over all three. Whenever the manager
  is quiet the installed engine covers exactly the resolved networks, under every interleaving of refreshes and pushes
  (`RefreshThreads.QuietIsPushed`). The resolved networks themselves can be those of outdated hosts
  (`RefreshThreads.LostHost`), until the next refresh (`RefreshThreads.RefreshRepairs`): they end up current under
  every schedule if and only if they are current or some refresh has still to write, and no refresh asks for outdated
  hosts (`RefreshThreads.ResolvesExactly`).
- A probe that times out while waiting for a dial slot is a transport failure that nobody counts
  (`Client.ProbeCountsOnce`).
- `OnUnready` is called after the exclusive swap of `ready`, not within it. For every state and threshold, the numbers
  of calls possible before the next rebuild are exactly those up to the pending calls, plus one if the client is ready
  and some thread can dial (`ClientThreads.CallsExactly`); so at most one call is certain if and only if no call is
  pending on a ready client and at most one otherwise (`ClientThreads.AtMostOneExactly`). A state with two is reachable
  for every threshold (`ClientThreads.TwoCallsInOneEpoch`).
- A client that is ready with a failure count at the threshold is always about to be marked unready, except after a
  rebuild that sets `ready` over failures counted since it cleared the count; that is the only way to lose it
  (`ClientThreads.GuardedExactly`), it is reachable for every threshold (`ClientThreads.ThresholdRace`), and never
  happens with atomic operations (`Client.RunKeepsInv`).

## Model

| member | source | states |
|---|---|---|
| NetAddr.ParseDotted | internal/bypass/rule.go:52-56 | rendering an IPv4 address and parsing the text gives the address back |
| NetAddr.DottedParse | internal/bypass/rule.go:52-56 | every text that parses as IPv4 is the canonical rendering of its address |
| NetAddr.NetStringInjective | internal/gateway/gateway.go:216-220 | two networks with the same text are the same network, so text-keyed seen-maps drop exactly repeats |
| NetAddr.AppendUnseen | internal/bypass/manager.go:213-221 | the seen-map loop keeps the first occurrence of each network, in order |
| NetAddr.DedupFaithful | internal/gateway/gateway.go:210-223 | removing repeats changes no covered address and leaves no network twice |
| NetAddr.MergeIPNets | internal/config/config.go:602-616 | the merged list holds exactly the networks of both lists, none twice, and covers the same addresses |
| NetAddr.MaskBlock | internal/config/config.go:566-570 | masking keeps the block of an address and is idempotent |
| NetAddr.ContainsDigits | internal/routing/routing.go:160-167 | a network contains exactly the addresses whose first binary digits, as many as its prefix is long, are its own |
| NetAddr.MaskDigits | internal/config/config.go:566-570 | masking keeps exactly those digits and clears the others |
| NetAddr.OctetPrefixes | internal/routing/routing.go:160-167 | a /8, /16, /24 or /32 contains exactly the addresses with the same leading octets |
| NetAddr.PrivateOctets | internal/config/config.go:582-600 | the private ranges, written out as ranges of octets |
| NetAddr.ParseCIDRExact | internal/config/config.go:566-570 | exactly an address, a slash and digits of at most 32 parse as a network, to the block of the address |
| Routing.BuildBypassNets | internal/routing/routing.go:127-139 | the exported bypass list covers exactly the server addresses and the addresses of the bypass list |
| PathDecider.VerdictExact | internal/proxy/path_decider.go:22-60 | path and label of an address that is not blocked, from the configuration and the pushed lists alone: pushed server, bypass, then the mode |
| Gateway.AddIPv4SetElements | internal/gateway/gateway.go:210-223 | the emitted elements are the IPv4 networks of the list, each once, in order |
| Gateway.KernelSetsMatchEngine | internal/routing/routing.go:87-114 | for every IPv4 address, membership in `@bypass`, `@tunnel`, `@private` is what the userspace tests answer; in exclude mode Decide is Tunnel exactly outside `@bypass` |
| Gateway.BuildNFTScript | internal/gateway/gateway.go:131-208 | no script without an engine or a positive port; otherwise the emitted script, run on an empty ruleset, installs exactly the compiled table |
| Gateway.ScriptBuildsCompiled | internal/gateway/gateway.go:131-208 | the command sequence yields the declaratively described sets and chains, in order |
| Gateway.PatchEqualsRebuild | internal/gateway/gateway.go:90-103 | the set patch for an engine, on any table of the same configuration, yields exactly the table a full rebuild installs |
| Gateway.StepInvExact | internal/gateway/gateway.go:53-129 | whatever nft calls fail, a step keeps "active means the kernel holds the table compiled from the current engine" exactly when it is not an apply that reaches the rebuild, fails to delete an existing table and then succeeds |
| Gateway.Lifecycle | internal/gateway/gateway.go:53-129 | over every run of Apply, UpdateEngine, Flush and SIGHUP replacement with any nft failures, that holds all the time if and only if no such apply happened |
| Gateway.FailureLeavesInactive | internal/gateway/gateway.go:53-87 | a failed Apply or UpdateEngine leaves the rules marked active exactly when they were active and the engine is nil |
| Gateway.RebuildExact | internal/gateway/gateway.go:75-81 | a rebuild succeeds over whatever table is there unless nft fails, and installs the compiled table exactly when the delete succeeded or no table existed |
| Gateway.DoubledRules | internal/gateway/gateway.go:75-81 | one failed delete after a reload leaves the rules active over a table that is not the compiled one |
| Gateway.ApplyOutcome | internal/gateway/gateway.go:53-88 | for every failure: an attempt to apply an engine changes nothing without a port, leaves the old table inactive or a longer one active when it rebuilds without deleting, and otherwise the compiled table and active rules or neither |
| Gateway.FlushExact | internal/gateway/gateway.go:105-117 | Flush clears active, removes the table unless the delete failed, and fails only for errors that do not read as not found |
| Gateway.Gateway.Apply | internal/gateway/gateway.go:45-88 | patch first when active, else delete and rebuild; result and new state for every failure pattern, invariant kept exactly when it does not append |
| Gateway.Gateway.Flush | internal/gateway/gateway.go:105-117 | the table is gone unless the delete failed, active is cleared, a not-found error counts as success |
| Gateway.Gateway.UpdateEngine | internal/gateway/gateway.go:119-129 | the engine is replaced and, when active, applied; invariant kept exactly when that does not append |
| Handles.DoExact | cmd/outline-gate/main.go:539-545 | with several gateways over one kernel, every read, apply, push and reload keeps "an active current gateway has its own table", except exactly a clashing apply of a replaced gateway and an append of its own |
| Handles.RunExact | cmd/outline-gate/main.go:578-600 | over every interleaving of them, with any nft failures, that holds all the time if and only if none of those happened |
| Handles.StaleStart | cmd/outline-gate/main.go:539-545 | a start loop overtaken by a reload leaves the current gateway active over the old table without any nft failure, unless both compile to the same table |
| Handles.SingleGateway | cmd/outline-gate/main.go:375-379 | with one gateway object, reading and applying it is Apply, and a push is UpdateEngine |
| Policy.PreroutingVerdict | internal/gateway/gateway.go:165-174 | PREROUTING redirects exactly TCP to public destinations not aimed at the proxy port |
| Policy.OutputVerdict | internal/gateway/gateway.go:225-249 | OUTPUT redirects exactly the local TCP the mode selects, from public sources, not to the proxy port nor through the AmneziaWG device |
| Policy.QuicRefused | internal/gateway/gateway.go:176-190 | UDP 443/5228 is rejected exactly when forwarded to a public address, or local and outside `@bypass` and the AmneziaWG device |
| Policy.MasqueradeScope | internal/gateway/gateway.go:192-205 | masquerading never touches loopback sources, the loopback device or the AmneziaWG device, and is limited to the LAN interface when one is set |
| Policy.EndToEnd | internal/proxy/path_decider.go:21-60 | every forwarded TCP packet meets the documented policy (private direct, blocked dropped, else bypass and mode) exactly when it is not aimed at the proxy port or the policy is direct anyway |
| Policy.PrivateAgrees | internal/config/config.go:339-343 | with the defaults in the bypass list, kernel path and Decide agree on private destinations |
| Policy.LocalEndToEnd | internal/gateway/gateway.go:225-249 | a local packet that OUTPUT looks at meets the documented policy exactly when it is private or: in include mode its address is in the tunnel list, or is not blocked and listed for bypass or allowed direct; otherwise it is not both blocked and listed |
| Policy.OwnDialsEscape | internal/gateway/gateway.go:225-249 | for any set of addresses that are dialed without asking the engine (SOCKS names, the host of a dynamic key): no dial of the process is redirected back into it if and only if the host has no public address, or LoopSafe holds and OUTPUT selects none of that set |
| Policy.LoopFreedom | internal/gateway/gateway.go:225-249 | the exact conditions, for every block list, server and set of own addresses, under which every redirect, proxy, dial chain has at most one redirect and under which some packet is redirected without end; otherwise chains end after two |
| Policy.NoOutputNoLoop | internal/gateway/gateway.go:225-249 | with the OUTPUT redirect off every such chain has at most one redirect |
| Policy.PushedServerEscapes | cmd/outline-gate/main.go:166-178 | in exclude mode an engine pushed for the server in use, or the AmneziaWG endpoint, makes the dials safe that the engine decides; dials made without asking it are safe exactly when they go to private, pushed or listed addresses, or the host has no public address |
| Policy.UnpushedServerLoops | cmd/outline-gate/main.go:166-178 | in exclude mode some packet is redirected without end exactly when the host has a public address and the server in use was not pushed, is not the AmneziaWG endpoint, and is public, unlisted and not blocked |
| Rules.RawFixpoint | internal/bypass/rule.go:32-78 | the canonical text of every accepted rule parses to itself |
| Rules.ReparseExact | internal/bypass/rule.go:32-78 | kind and network survive a reparse exactly for inputs that are not an IPv4 literal with a trailing dot, and every such literal is accepted |
| Rules.DottedLiteralIsDomain | internal/bypass/rule.go:32-78 | every IPv4 literal with a trailing dot is accepted as the domain rule with the text of the literal |
| Rules.TextCollision | internal/bypass/rule.go:52-78 | for every address, the literal and the literal with a dot are an IP rule and a domain rule with the same text |
| Rules.SameText | internal/bypass/rule.go:32-78 | two rules have the same text exactly when they have the same canonical form; different rules with one text are an IP rule and a domain rule |
| Rules.ParsedIsWellFormed | internal/bypass/rule.go:32-78 | networks are masked and host names lower-case and valid in every parsed rule |
| Rules.HostnameExact | internal/bypass/rule.go:80-109 | a host name is valid exactly when it has at most 253 characters and every label has 1 to 63 letters, digits and inner hyphens; the checks for dots at an end and adjacent dots follow |
| Rules.DomainAccepted | internal/bypass/rule.go:72-77 | a domain rule is read from exactly the spellings of a valid name that is no IPv4 literal: any case, blanks around it, one trailing dot |
| Rules.SuffixAccepted | internal/bypass/rule.go:61-70 | a suffix rule is read from exactly the spellings of `*.` and a valid name |
| Rules.AddressAccepted | internal/bypass/rule.go:52-57 | an address rule is read from exactly the address, with blanks around it |
| Rules.NetworkAccepted | internal/bypass/rule.go:42-49 | a network rule is read from exactly the network texts, and is the block |
| Rules.SameNetworks | internal/config/config.go:559-580 | the configuration parser and the rule parser accept the same addresses and networks |
| Rules.SuffixAtLabelBoundary | internal/bypass/matcher.go:38-49 | a suffix rule matches exactly the hosts whose labels end with the labels of the apex |
| Rules.FirstHostExact | internal/bypass/matcher.go:38-50 | a host is matched by the first rule that names it, as a domain or by the labels of its apex |
| Rules.FirstIPExact | internal/bypass/matcher.go:60-74 | an address is matched by the first rule whose network contains it |
| Rules.NormalizedSpelling | internal/bypass/rule.go:112-114 | case, blanks around it and one trailing dot of an asked name do not matter |
| Rules.DomainsExact | internal/bypass/matcher.go:98-119 | a host is resolved exactly when it is the non-empty host of some domain or suffix rule |
| Rules.DomainsOnce | internal/bypass/matcher.go:98-119 | no host is resolved twice |
| Rules.StaticNetsCoverMatches | internal/bypass/matcher.go:60-94 | the networks exported from the rules cover exactly the addresses the matcher's scan matches |
| RuleStore.FileRoundTrip | internal/bypass/store.go:47-67 | parsing the persisted text gives the same texts in the same order, none twice |
| RuleStore.FileRoundTripExact | internal/bypass/store.go:47-67 | the very same rules come back exactly when none is a domain rule spelled as an IPv4 literal |
| RuleStore.DottedRuleChanges | internal/bypass/store.go:47-67 | for every address, the list made from the literal with a dot comes back from its file as an IP rule |
| RuleStore.AddedRuleMatches | internal/bypass/store.go:103-122 | after an accepted Add of an IP or CIDR rule, the listed rule with its text matches the whole network exactly when no domain rule with that text was stored |
| RuleStore.AddedAddressUnmatched | internal/bypass/store.go:111-115 | adding an address after the same address with a dot is accepted, changes nothing and leaves the address unmatched by the rules |
| RuleStore.ParseFile | internal/bypass/store.go:47-67 | the one-pass loop with a seen-map skips blanks and comments, drops repeats and stops at the first bad line |
| RuleStore.LinesAreTexts | internal/bypass/store.go:48-68 | reading a file gives the rules of its trimmed lines without blanks and comments |
| RuleStore.CleanExact | internal/bypass/store.go:79-95 | cleaning keeps exactly the rules whose text occurs for the first time, and stops at the first text that does not parse |
| RuleStore.SetExact | internal/bypass/store.go:79-102 | a set succeeds exactly when all texts parse and the file can be written; then exactly these texts are listed and stored, otherwise nothing changes |
| RuleStore.AddExact | internal/bypass/store.go:104-123 | an addition appends and stores the rule unless its text is listed, and changes nothing when it fails |
| RuleStore.RemoveExact | internal/bypass/store.go:125-149 | a removal succeeds exactly when the text is listed and the file can be written, and takes out exactly the rules with that text |
| RuleStore.LoadExact | internal/bypass/store.go:24-46 | a load yields the rules of the file's texts whatever was listed, an empty list without a file, and changes nothing when it fails |
| RuleStore.ReplaceKeeps | internal/bypass/store.go:151-190 | whatever file operation fails, file and list stay in step and the list stays without repeats |
| RuleStore.ReloadKeepsTexts | internal/bypass/store.go:23-45 | a reload of a file in step loses no rule |
| RuleStore.RemoveUndoesAdd | internal/bypass/store.go:103-149 | removing a rule that was just added restores the list |
| RuleStore.Store.Add | internal/bypass/store.go:103-122 | new list, file and result for every input and failure |
| RuleStore.Store.Set | internal/bypass/store.go:78-101 | texts re-parsed, repeats dropped, nothing changed on a bad text or a failed persist |
| RuleStore.Store.Remove | internal/bypass/store.go:124-149 | the rule with the canonical text is removed, or nothing changes |
| RuleStore.Store.Load | internal/bypass/store.go:23-45 | the list is replaced by the parsed file, emptied without a file, or kept on errors |
| BypassManager.RunPathsAgree | internal/bypass/manager.go:144-233 | after any run of operations, with any DNS answers and persist failures, MatchIP is true exactly when an effective network contains the address |
| BypassManager.LiteralMatches | internal/bypass/manager.go:151-168 | an address literal asked by name gets the answer of the address |
| BypassManager.NameMatches | internal/bypass/manager.go:153-168 | a name, in any spelling, is matched by the first rule that names it, whatever networks are static or resolved |
| BypassManager.AddressLabel | internal/bypass/manager.go:170-201 | the label of an address is the first matching rule's text, else that of the static networks, else that of DNS |
| BypassManager.TwiceDotted | internal/bypass/manager.go:153-168 | the name is normalised twice, so an address with two trailing dots is matched by the rules alone |
| BypassManager.RunFresh | internal/bypass/manager.go:251-285 | over every run, the pushed coverage equals the effective one unless a rule edit was followed by no notification |
| BypassManager.RunFreshExact | internal/bypass/manager.go:96-136 | over every run, the pushed coverage equals the effective one exactly when static and resolved networks cover every address on which the rules of the last notification and the present rules differ |
| BypassManager.EditFresh | internal/bypass/manager.go:96-136 | the same for one load, addition, removal, replacement or refresh: current exactly when it notified or old and new rules differ only on covered addresses |
| BypassManager.AddedNetFresh | internal/bypass/manager.go:96-105 | adding an IP or CIDR rule keeps the pushed engine current exactly when DNS moved or the network was covered already |
| BypassManager.AddedNetNotPushed | internal/bypass/manager.go:273-283 | while DNS is quiet, a newly listed address is bypassed by the matcher but missing from the pushed engine |
| BypassManager.RemovedRuleFresh | internal/bypass/manager.go:107-118 | removing a rule keeps the pushed engine current exactly when DNS moved or every address of the rule is still covered |
| BypassManager.RemovedNetStaysPushed | internal/bypass/manager.go:107-118 | while DNS is quiet, an address that only the removed rule covered is matched no longer but stays in the pushed engine |
| BypassManager.SetRulesCanonical | internal/bypass/manager.go:121-136 | rules entered through SetRules are the ones their texts stand for |
| BypassManager.SetRulesExact | internal/bypass/manager.go:122-137 | SetRules replaces the list by exactly the given texts if and only if all parse and the file can be written; otherwise nothing changes |
| BypassManager.StoreOpExact | internal/bypass/manager.go:75-120 | a load, addition or removal that succeeds rebuilds the matcher and resolves exactly the new rules; one that fails changes nothing |
| BypassManager.RefreshExact | internal/bypass/manager.go:252-286 | for any DNS, the resolved networks cover exactly the IPv4 answers of the domain and suffix rules; the error is that of the first such rule without an answer; onChange is called exactly when the networks changed as a multiset |
| BypassManager.NotifiedPushesMatches | internal/bypass/manager.go:308-312 | what a notifying operation pushes covers exactly the addresses the manager matches afterwards |
| BypassManager.StaticPushed | internal/bypass/manager.go:84-90 | new static networks are always pushed, together with the rules' and the resolved ones |
| BypassManager.SameNets | internal/bypass/manager.go:314-330 | the count map decides multiset equality |
| BypassManager.Manager.Refresh | internal/bypass/manager.go:252-286 | the lookup loop, the comparison and the push compute the step that RefreshExact characterises by the rules and DNS alone |
| BypassManager.Manager.AddRule | internal/bypass/manager.go:96-105 | new state and notification for every input, failure and DNS answer |
| BypassManager.Manager.SetRules | internal/bypass/manager.go:121-136 | all texts parsed first, then the store replaced, matcher rebuilt and DNS refreshed |
| ManagerThreads.SettlesExactly | internal/bypass/manager.go:301-306 | for every state, once edits stop the matcher ends up equal to the rules under every schedule exactly when it is equal or some thread still has to rebuild it, and no thread holds an outdated snapshot |
| ManagerThreads.WithoutStaleReaders | internal/bypass/manager.go:301-306 | without outdated snapshots every schedule that stops editing ends with a current matcher |
| ManagerThreads.LostRule | internal/bypass/manager.go:96-105 | two overlapping AddRule calls can leave an address exported but unmatched in a quiet manager that owes no rebuild |
| ManagerThreads.EditAlone | internal/bypass/manager.go:301-306 | with no other thread in between, an edit leaves its rules in the store and in the matcher |
| RefreshThreads.QuietIsPushed | internal/bypass/manager.go:251-285 | under every interleaving of edits, refreshes and pushes, a quiet manager has pushed exactly the resolved networks |
| RefreshThreads.RefreshAlone | internal/bypass/manager.go:252-286 | with no other thread in between, a refresh resolves what the atomic one resolves and pushes exactly when that notifies |
| RefreshThreads.ResolvesExactly | internal/bypass/manager.go:251-285 | for every state, once edits stop the resolved networks end up being those of the current hosts under every schedule exactly when they are or some refresh has still to write, and no refresh asks for outdated hosts |
| RefreshThreads.LostHost | internal/bypass/manager.go:96-105 | two overlapping edits can leave a quiet manager with the networks of the hosts before the second edit |
| RefreshThreads.RefreshRepairs | internal/bypass/manager.go:287-299 | from a quiet state the next tick of the refresh loop makes them current under every schedule |
| ConnLog.RunExact | internal/connlog/store.go:97-150 | with TTL on and non-decreasing times the buffer's length is min(cap, events within TTL at the last prune) |
| ConnLog.BufferIds | internal/connlog/store.go:97-128 | buffered IDs are consecutive up to the last recorded one |
| ConnLog.RecordExact | internal/connlog/store.go:99-127 | a recorded event is the newest of the buffer, with the next ID, its own time or the clock's, and everything else as given |
| ConnLog.PruneDrops | internal/connlog/store.go:131-152 | whatever the order of times, a prune drops only expired events and leaves an unexpired one in front; without TTL it drops nothing |
| ConnLog.RunWithoutTTL | internal/connlog/store.go:99-152 | over every run without TTL the buffer holds the last events up to capacity |
| ConnLog.CountsExact | internal/connlog/store.go:175-204 | each number counts exactly the events it is named for since the given time |
| ConnLog.CountsBalance | internal/connlog/store.go:174-202 | every counted event has one outcome, and one path unless dropped; the total is the number in range |
| ConnLog.FanStepKeepsInv | internal/connlog/store.go:117-126 | queues stay within 32, only open channels are subscribed, and received plus queued is a subsequence of the events recorded while subscribed |
| ConnLog.SubscriptionExact | internal/connlog/store.go:206-226 | a subscriber starts empty, receives the oldest queued event, and gets nothing after leaving |
| ConnLog.DeliveryExact | internal/connlog/store.go:117-126 | over every run, event by event: a subscriber is given exactly the events offered while its queue had room, in order, and the events recorded while it was subscribed are those and the ones offered at a full queue |
| ConnLog.NoSkipNoLoss | internal/connlog/store.go:204-225 | a subscriber whose queue never fills gets every event recorded since it joined |
| ConnLog.DeliveredIdsIncrease | internal/connlog/store.go:117-126 | what a subscriber has received plus its queue is strictly increasing in ID |
| ConnLog.Store.Record | internal/connlog/store.go:97-128 | the array buffer holds the specified suffix of the history, and each open subscriber is offered the event |
| ConnLog.Store.Prune | internal/connlog/store.go:130-150 | the in-place shift drops exactly the leading events older than the TTL |
| ConnLog.Store.Snapshot | internal/connlog/store.go:152-172 | the result is the last events of the history, up to the limit and the pruned length |
| Socks5.DecodeEncoded | internal/proxy/socks5.go:194-238 | decoding the encoding of a CONNECT request, followed by any bytes, gives its host and port and consumes exactly the encoding |
| Socks5.RequestBytes | internal/proxy/socks5.go:190-238 | the bytes of a CONNECT request, written out |
| Socks5.CompletedExact | internal/proxy/socks5.go:150-238 | a request is complete exactly when the client is admitted, the greeting was answered, and the bytes are a greeting and the encoding of a CONNECT request for that host and port |
| Socks5.EncodedConversation | internal/proxy/socks5.go:172-277 | a client that sends a greeting, an encoded request and more bytes gets exactly the further bytes relayed, when its host is not blocked and the dial succeeds |
| Socks5.OneEventOneReply | internal/proxy/socks5.go:240-278 | a completed request yields one event and one reply; one dial, and none when the host is blocked, even if bypass matches |
| Socks5.VerdictOrder | internal/proxy/socks5.go:240-278 | on every input: only the requested host and port are dialed or recorded, only when not blocked, by the dialer bypass selects; success replies only after a successful dial that the event names, relay only after that; nothing of this without a complete request |
| Socks5.RelayExact | internal/proxy/socks5.go:240-277 | relaying starts after the first k bytes if and only if they ask for a host that is not blocked, the dial bypass selects succeeds and the reply is written; stated on the bytes alone |
| Socks5.BlockedExactly | internal/proxy/socks5.go:243-252 | a blocked host: exactly the greeting reply, the drop event with the block rule, and reply 2 |
| Socks5.FailedExactly | internal/proxy/socks5.go:254-266 | a failed dial: exactly the greeting reply, the dial, its event and reply 5 |
| Socks5.ReachedExactly | internal/proxy/socks5.go:268-277 | a successful dial: exactly the greeting reply, the dial, its event, reply 0, and the relay of everything after the request |
| Socks5.RefusedExactly | internal/proxy/socks5.go:152-231 | a client outside the list gets nothing; other versions and commands get reply 7, other address types and unmapped IPv6 reply 8, a short request nothing |
| Socks5.OtherProtocol | internal/proxy/socks5.go:166-174 | another first byte, from an admitted client, is handed over and nothing else happens |
| Proxy.TargetParts | internal/proxy/socks5.go:240-241 | the target of a plain host splits at its only colon into host and port; a host with a colon is bracketed |
| Socks5.Conn.Handle | internal/proxy/socks5.go:150-278 | the handler with its 258-byte buffer performs exactly the specified actions on every stream |
| Transparent.OneEventOneDial | internal/proxy/transparent.go:103-174 | for every destination, verdict and outcome: one event, one dial unless dropped, by the dialer of the verdict to the original destination; the event tells the outcome; relaying exactly after the event of a successful dial |
| Transparent.EventExact | internal/proxy/transparent.go:120-174 | every field of the one event, for every verdict and outcome, the tunnel without a decider; relaying from the first byte exactly after a successful dial |
| System.BlockedIsCovered | internal/proxy/path_decider.go:36-40 | an address is blocked at L3 exactly when the block manager's effective networks cover it |
| System.KernelFollowsManager | cmd/outline-gate/main.go:166-178 | after a push `@bypass` holds exactly the addresses the manager matches plus the servers |
| System.PrivateStaysDirect | cmd/outline-gate/main.go:180-187 | the private defaults reach the pushed engine, so kernel and Decide agree on them |
| System.SocksServes | internal/proxy/socks5.go:240-315 | a SOCKS request is dialed exactly once, first, by the path of its name, or recorded with the block rule and never dialed |
| System.SocksAgreesWithL3 | cmd/outline-gate/main.go:460-495 | in every mode a SOCKS request for an address and a redirected packet to it take the same path exactly when a block or bypass rule matches, or the address is not a pushed server and the mode sends it to the tunnel |
| System.DirectDialExclude | internal/gateway/gateway.go:225-249 | exclude mode: any direct dial of the process is redirected exactly when its address is public, not a pushed server and not exported, and then ends in the tunnel or is dropped by a block rule |
| System.DirectDialInclude | internal/gateway/gateway.go:225-249 | include mode: any direct dial is redirected exactly when its address is a public one of the tunnel list; then it is dropped if blocked, loops if exported, and ends in the tunnel otherwise |
| System.NamedDialExclude | internal/proxy/socks5.go:289-315 | exclude mode: a name that bypass matches and no block rule does is dialed direct, once, and that dial fares as DirectDialExclude says |
| System.NamedDialInclude | internal/proxy/socks5.go:289-315 | include mode: the same with DirectDialInclude |
| System.LiteralDialEscapes | internal/proxy/socks5.go:289-315 | exclude mode: the direct dial of a literal that bypass matches is never redirected |
| System.SuffixNameTunneled | internal/bypass/matcher.go:96-119 | with a suffix rule just added and the answers for its apex pushed, SOCKS dials a subdomain direct, and the dial to any other public address is redirected and ends in the tunnel or is dropped by a block rule |
| System.ForwardedIsProxied | internal/proxy/transparent.go:120-174 | a forwarded public TCP packet is dialed once by the dialer the policy intends, or recorded as dropped and never dialed |
| App.RoundPushesOnReady | cmd/outline-gate/main.go:434-439 | a round of the supervisor pushes an engine once for every report of being ready |
| App.StepExact | cmd/outline-gate/main.go:166-605 | every event (supervisor round, dial, key replaced, rule edit, push, restart, apply, reload, shutdown) keeps "what was pushed is what a ready client resolved, nothing if it resolved nothing", except exactly a restart that brings the client up with another resolved server |
| App.RunExact | cmd/outline-gate/main.go:166-605 | over every run that holds all the time if and only if no such restart happened; where the dialer really dials is the subject of RunLoopExact |
| App.KernelStep | cmd/outline-gate/main.go:166-605 | whatever nft calls fail, every event keeps "active rules are the table of the last pushed engine, inactive ones no table", except exactly a push or apply that rebuilds active rules without deleting (and is not cleaned up in the same round), a flush whose delete failed, and a reload of active rules that cannot delete or has no port |
| App.KernelRunExact | cmd/outline-gate/main.go:166-605 | over every run with any nft failures that holds all the time if and only if no such event happened |
| App.PushExact | cmd/outline-gate/main.go:166-178 | after every ready report, accepted key, notified edit or explicit push the engine bypasses exactly the addresses the rule manager matches and has mode, lists and servers of configuration and client; every other event leaves the engine alone |
| App.ReloadExact | cmd/outline-gate/main.go:564-612 | a reload installs the new configuration and its static networks; of what it loads, only rules that did not change the resolved networks may be missing in the engine |
| App.RunEngineExact | cmd/outline-gate/main.go:166-605 | over every run, with any failures, the installed engine bypasses exactly what the manager matches if and only if every address that only the rules it was built from or only the present ones match is static or resolved |
| App.RoundsOnly | cmd/outline-gate/main.go:434-439 | over supervisor rounds the client and the loop are those of MaintainReady; a dial changes the client alone |
| App.ApplyRepairs | cmd/outline-gate/main.go:525-560 | from any table, an attempt to apply with a port restores it exactly when it is not a rebuild that cannot delete an existing table |
| App.RunLoopExact | cmd/outline-gate/main.go:668-676 | exclude mode, any run without such a restart, any address the dialer may dial: dials of a ready client loop exactly when rules are active on a host with a public address and the address is not the resolved one, public, unlisted and not blocked |
| App.UnresolvedKeyLoops | internal/outline/client.go:188-198 | one accepted key from which no address is resolved, as every key of several parts, leaves a ready client with no server pushed, and its dials loop for every such address |
| App.RestartLoops | cmd/outline-gate/main.go:355-386 | a successful restart leaves a ready client, and active rules unless nft fails, with the old push in place; dials to an address loop exactly when rules are active on a host with a public address and it is not the server pushed before, public, unlisted and not blocked |
| App.ProbeBeforePush | internal/outline/client.go:423-456 | the probe of a fresh dialer runs before the push, whatever address it dials: it loops under the same exact condition |
| App.RefreshBeforePush | internal/outline/client.go:466-480 | a refresh of a ready client exposes its probe and live dials to the old engine before the push, under the same exact condition |
| App.KeyBeforePush | internal/webui/outline.go:59-69 | so does a key replaced in the UI, until the key was persisted |
| ServerThreads.StepExact | cmd/outline-gate/main.go:166-440 | under interleaving, every step of rebuilds, probes, reports and pushes keeps "the resolved server of a ready client is pushed or going to be", except exactly a restart that ends a rebuild nobody else will read and that is not pushed |
| ServerThreads.RunExact | cmd/outline-gate/main.go:166-440 | over every schedule that holds all the time if and only if no such restart happened |
| ServerThreads.QuietIsPushed | cmd/outline-gate/main.go:166-440 | after such a schedule, whenever everything is quiet the resolved server of a ready client is the pushed one |
| ServerThreads.WithoutFinish | cmd/outline-gate/main.go:355-386 | schedules without restarts lose nothing |
| ServerThreads.ReportAlone | cmd/outline-gate/main.go:166-440 | with no other thread in between, a reported rebuild ends with its server pushed and the client ready |
| App.KeyFetchRefused | internal/outline/ssconf.go:73-116 | exclude mode: the fetch of a dynamic key leaves the host exactly when its address is private, pushed or listed; otherwise it is handed to the tunnel (or dropped) and refused while the client is not ready |
| App.ReadyRoundPushesNothing | internal/outline/client.go:412-490 | with a static key, a round that finds the client ready pushes nothing and keeps the server |
| Client.RunKeepsInv | internal/outline/client.go:155-203 | in every reachable state ready implies a dialer and a count below the threshold, and dialer, key and server are from one rebuild |
| Client.RunUsesLast | internal/outline/client.go:182-203 | after every run, dialer, key and server are those of the most recent successful rebuild |
| Client.RefreshExact | internal/outline/client.go:574-614 | a refresh replaces the dialer exactly when the key is dynamic, expands to another key and a dialer can be built, and then acts as Connect; otherwise it changes nothing |
| Client.ConnectExact | internal/outline/client.go:155-203 | Connect succeeds exactly with a key (expanded, or the last static one) and a dialer built from it; failure keeps dialer, key and server and clears ready |
| Client.SetAccessKeyExact | internal/outline/client.go:212-229 | a rejected key changes nothing; an accepted one succeeds exactly when a dialer can be built from its expansion or, without one, from the last static key, which then stays in use; on failure it is kept for retry with the old dialer in place and the supervisor woken |
| Client.OldKeyReported | internal/outline/client.go:163-171 | SetAccessKey reports success on a dialer of another access key exactly when the new key cannot be expanded and a dialer of the remembered static key can be built |
| Client.RunOriginExact | internal/outline/client.go:155-229 | over every run the static key in use is the expansion last built from, and it is that of the access key in force all the time if and only if no switch to another access key went without a dialer of its own |
| Client.ReconnectExact | internal/outline/client.go:333-351 | Reconnect reports success exactly when the client ends up ready, needs a passing probe when a target is set, and always wakes the supervisor |
| Client.SuccessForgives | internal/outline/client.go:257-281 | a successful dial resets the count: failures short of the threshold before and after it leave the client ready |
| Client.DestinationErrorsIgnored | internal/outline/client.go:231-266 | leaving out of any run the dials that were refused, found no slot or failed at the destination gives the same state |
| Client.IgnoredExactly | internal/outline/client.go:231-266 | a dial leaves the state unchanged exactly when it is one of those, or succeeds with no failure counted |
| Client.FailureRun | internal/outline/client.go:268-281 | after k counted failures a ready client is still ready exactly when the count stays below the threshold |
| Client.RunUnready | internal/outline/client.go:268-281 | OnUnready fires at most once between two successful rebuilds, operations taken as atomic |
| Client.Client.Connect | internal/outline/client.go:155-180 | new state for every expansion and dialer outcome, with the last static key as fallback |
| Client.Client.Reconnect | internal/outline/client.go:333-351 | new state for every outcome; a failed probe leaves the client not ready |
| Client.ProbeCountsOnce | internal/outline/client.go:540-572 | a failed probe counts exactly once, except that one that timed out waiting for a slot does not count; a passed one clears the count |
| Client.TransportExact | internal/outline/client.go:290-309 | an error is a transport failure exactly when it is a time-out or its text contains one or the server's address |
| Client.DialExact | internal/outline/client.go:231-281 | a dial of a ready client, for every outcome: result and full new state; at the limit, two unless set, it is marked unready, signalled once and the supervisor woken |
| Client.ProbeExact | internal/outline/client.go:540-572 | the same for a probe of a ready client |
| Client.KeyExact | internal/outline/client.go:353-365 | a key is valid exactly with one of the two schemes, without white space and without a masked part |
| Client.ResolveExact | internal/outline/client.go:616-660 | a key of several parts and a blank one resolve to nothing, any other to the answer for its host |
| Client.Client.Probe | internal/outline/client.go:540-572 | new state and error for every dial outcome, invariant kept |
| Supervisor.NextWakeBounds | internal/outline/client.go:498-522 | the wait is within 10ms and 5s, passes no due time by more than 10ms, and ends at a due time or one of the two |
| Supervisor.RunBackoff | internal/outline/client.go:396-445 | the delay is min(base*2^k, max) for the k failed attempts since the last success, whatever other goroutines do |
| Supervisor.RoundBackoff | internal/outline/client.go:405-445 | a failed attempt waits exactly that delay, reports not ready once and leaves the client not ready |
| Supervisor.ReadyRound | internal/outline/client.go:436-488 | a round that finds the client ready, from its inputs alone: the dialer is rebuilt exactly by a due refresh of a dynamic key that expands to another key; each due probe resets or raises the failure count; readiness, reports and due times follow |
| Supervisor.ColdRound | internal/outline/client.go:404-435 | a round that finds the client not ready: connects with the expanded or the last static key, waits the delay without a dialer or after a failed probe, and otherwise reports ready and goes on like a ready round with both clocks reset |
| Supervisor.FirstRound | internal/outline/client.go:396-400 | the loop starts with the base delay, probes a ready client at once if a target is set, and does not refresh yet |
| Supervisor.RunOnTime | internal/outline/client.go:447-522 | over every run, whatever other goroutines do: after a round that leaves the client ready, the next one finds no refresh and no probe overdue by more than 10ms and the lags of the clock readings |
| Supervisor.RoundsKeepInv | internal/outline/client.go:396-496 | every run of the loop keeps the client's invariant and its bound on OnUnready |
| Supervisor.MaintainReady | internal/outline/client.go:396-496 | the loop's waits, notifications and client are the fold of the rounds that ReadyRound and ColdRound characterise |
| ClientThreads.Reachable | internal/outline/client.go:231-255 | under every interleaving: slots count the dials between acquire and release and never exceed 8, release always finds a slot, and ready implies a dialer with its own key and server |
| ClientThreads.DialAlone | internal/outline/client.go:231-281 | with no other thread in between, the steps of a dial and of a probe do what the atomic operations do, for every outcome, and give the slot back |
| ClientThreads.RebuildAlone | internal/outline/client.go:182-203 | so do those of a rebuild |
| ClientThreads.UnreadyMeanwhile | internal/outline/client.go:239-248 | a dial that got its slot while the client was ready checks again and gives the slot back undialed when another thread cleared ready |
| ClientThreads.EpochSignals | internal/outline/client.go:268-281 | between two rebuilds at most one swap succeeds, and OnUnready is called at most once more than was pending |
| ClientThreads.CallsExactly | internal/outline/client.go:271-280 | for every state and threshold, n calls of OnUnready before the next rebuild are possible exactly when n is at most the pending calls, plus one if the client is ready and some thread is not inside a rebuild |
| ClientThreads.AtMostOneExactly | internal/outline/client.go:271-280 | every schedule without a rebuild calls OnUnready at most once if and only if no call is pending on a ready client, and at most one otherwise |
| ClientThreads.TwoCallsInOneEpoch | internal/outline/client.go:271-280 | for every threshold, a state from which a second call is possible is reachable from the initial state with two threads |
| ClientThreads.GuardExact | internal/outline/client.go:197-198 | for every positive threshold, a step keeps "ready with a count at the threshold means about to be marked unready" except exactly a store of ready over a count at the threshold with nobody about to swap |
| ClientThreads.GuardedExactly | internal/outline/client.go:197-198 | over every run from the initial state that property holds in every state if and only if no such step was taken |
| ClientThreads.ThresholdRace | internal/outline/client.go:197-198 | for every threshold, such a step is reachable from the initial state with two threads |

## Left out

- IPv6: an IPv6 network is an opaque text that covers no IPv4 address; IPv6 packets, IPv6 destinations of Decide and IPv6 rule texts are not modelled.
- Non-ASCII text: letters and white space outside ASCII are treated as ordinary invalid characters.
- ConnLog.RunExact: assumes TTL on and non-decreasing times; the other invariants of the buffer hold without it.
- nft as a program: the scripts are command sequences, not text; overlapping interval elements that a kernel may refuse are one of the arbitrary failures.
- Integer widths of the event counter and the failure counter are unbounded.
- Concurrency of the store, each gateway object and the log: their operations are atomic, as their mutexes make them; several gateway objects over one kernel are the subject of `Handles.dfy`. The rule manager's matcher rebuild and its refreshes are modelled under interleaving one at a time, not together.
- The order in which a record is offered to its subscribers; the durations in events; write deadlines.
- App.RunExact: events of different goroutines are atomic (`ServerThreads.dfy` and `Handles.dfy` interleave them), the gateway is enabled, and the backend is Outline; of the AmneziaWG backend only its push is modelled there.
- BypassManager.RunFreshExact: counts the pushes of the manager's own notifications; other calls of rebuildPush refresh the networks too and are events of `App.dfy`.
- Which goroutine runs a wait or a callback; the context is cancelled only between rounds of MaintainReady.
- Client.Client.Connect: key expansion, dialer construction and host resolution are arbitrary outcomes; the URL, JSON and HTTP code behind them is not part of this model.
- HTTP on the SOCKS port: the hand-over is one action.
- internal/webui, health, metrics, logging, dnsdoh, amnezia, netrecover, netdns, tunnel and environment parsing: plumbing, system calls or thin switches; the AmneziaWG endpoint appears as one more pushed server and its device as an output interface.
- Durability of the rules file beyond "the old file stays when an operation fails".
