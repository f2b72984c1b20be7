// internal/bypass/manager.go and cmd/outline-gate/main.go under interleaving:
// Refresh reads the hosts, asks DNS, writes the networks and then pushes, and
// every push holds the lock of main while it reads and installs.
module RefreshThreads {
  import opened NetAddr
  import opened Rules
  import opened BypassManager

  datatype Place =
    | Idle
    | Begun                            // inside Refresh, the hosts not yet read
    | Asked(hosts: seq<string>)        // the hosts read, the networks not yet written
    | Owes                             // about to call rebuildPush
    | Holds                            // rebuildPush has its lock, nothing read
    | Read(snapshot: seq<IPNet>)       // the networks read, not yet installed

  // resolvedFor are the hosts whose answers were written last; pushed is the
  // resolved part of what was installed last.
  datatype State = State(
    rules: seq<Rule>, resolved: seq<IPNet>, resolvedFor: seq<string>, pushed: seq<IPNet>, threads: map<nat, Place>)

  datatype Action =
    | Edit(next: seq<Rule>)            // an accepted edit, followed by Refresh
    | StartRefresh                     // a tick of RunRefreshLoop
    | StartPush                        // rebuildPush for another reason
    | ReadHosts
    | WriteNets(dns: Resolver)
    | Lock
    | ReadNets
    | Install

  predicate Holding(p: Place) {
    p.Holds? || p.Read?
  }

  predicate Unlocked(s: State) {
    forall t :: t in s.threads ==> !Holding(s.threads[t])
  }

  function Move(s: State, t: nat, p: Place): State {
    s.(threads := s.threads[t := p])
  }

  // The write of Refresh; a push follows only when the networks changed as a multiset.
  function Written(s: State, t: nat, hosts: seq<string>, nets: seq<IPNet>): State {
    Move(s, t, if multiset(s.resolved) != multiset(nets) then Owes else Idle).(resolved := nets, resolvedFor := hosts)
  }

  // An action that is not possible is skipped, so a schedule is any list.
  function Step(s: State, t: nat, a: Action): State {
    if t !in s.threads then s
    else match (s.threads[t], a)
      case (Idle, Edit(next)) => Move(s, t, Begun).(rules := next)
      case (Idle, StartRefresh) => Move(s, t, Begun)
      case (Idle, StartPush) => Move(s, t, Owes)
      case (Begun, ReadHosts) => Move(s, t, Asked(DomainsToResolve(s.rules)))
      case (Asked(hosts), WriteNets(dns)) => Written(s, t, hosts, ResolveAll(hosts, dns))
      case (Owes, Lock) => if Unlocked(s) then Move(s, t, Holds) else s
      case (Holds, ReadNets) => Move(s, t, Read(s.resolved))
      case (Read(snapshot), Install) => Move(s, t, Idle).(pushed := snapshot)
      case _ => s
  }

  type Schedule = seq<(nat, Action)>

  function Run(s: State, steps: Schedule): State
    decreases |steps|
  {
    if steps == [] then s else Run(Step(s, steps[0].0, steps[0].1), steps[1..])
  }

  predicate Quiet(s: State) {
    forall t :: t in s.threads ==> s.threads[t] == Idle
  }

  // ---- What is pushed follows what is resolved ----

  predicate OneHolder(s: State) {
    forall t, u :: t in s.threads && u in s.threads && Holding(s.threads[t]) && Holding(s.threads[u]) ==> t == u
  }

  // A push that will read the networks is still to come.
  predicate Owing(s: State) {
    exists t :: t in s.threads && (s.threads[t].Owes? || s.threads[t].Holds?)
  }

  predicate Reading(s: State, t: nat) {
    t in s.threads && s.threads[t].Read?
  }

  // Without a push to come, what is installed now, or by the push that has read
  // already, are the resolved networks.
  ghost predicate PushInv(s: State) {
    OneHolder(s) &&
    (Owing(s) ||
     ((forall t :: Reading(s, t) ==> multiset(s.threads[t].snapshot) == multiset(s.resolved)) &&
      ((forall t :: t in s.threads ==> !Reading(s, t)) ==> multiset(s.pushed) == multiset(s.resolved))))
  }

  lemma LockKeeps(s: State, t: nat)
    requires PushInv(s) && t in s.threads && s.threads[t] == Owes && Unlocked(s)
    ensures PushInv(Move(s, t, Holds))
  {
    assert t in Move(s, t, Holds).threads;
  }

  lemma ReadKeeps(s: State, t: nat)
    requires PushInv(s) && t in s.threads && s.threads[t] == Holds
    ensures PushInv(Move(s, t, Read(s.resolved)))
  {
    var s' := Move(s, t, Read(s.resolved));
    assert Reading(s', t);
    forall u | u in s.threads && u != t
      ensures u in s'.threads && s'.threads[u] == s.threads[u] && !Holding(s.threads[u])
    {
    }
  }

  lemma InstallKeeps(s: State, t: nat)
    requires PushInv(s) && Reading(s, t)
    ensures PushInv(Move(s, t, Idle).(pushed := s.threads[t].snapshot))
  {
    var s' := Move(s, t, Idle).(pushed := s.threads[t].snapshot);
    forall u | u in s'.threads
      ensures !Reading(s', u)
    {
      assert u != t ==> s'.threads[u] == s.threads[u];
    }
    if Owing(s) {
      var u :| u in s.threads && (s.threads[u].Owes? || s.threads[u].Holds?);
      assert u in s'.threads && s'.threads[u] == s.threads[u];
    }
  }

  // A thread outside a push moves to a place outside a push, or asks for one.
  lemma OtherKeeps(s: State, s': State, t: nat)
    requires PushInv(s) && t in s.threads && !Holding(s.threads[t]) && !s.threads[t].Owes?
    requires t in s'.threads && s'.threads == s.threads[t := s'.threads[t]] && s'.pushed == s.pushed
    requires s'.threads[t].Owes? || (!Holding(s'.threads[t]) && multiset(s'.resolved) == multiset(s.resolved))
    ensures PushInv(s')
  {
    forall u | u in s.threads && u != t
      ensures u in s'.threads && s'.threads[u] == s.threads[u]
    {
    }
    if s'.threads[t].Owes? {
      assert Owing(s');
    } else if Owing(s) {
      var u :| u in s.threads && (s.threads[u].Owes? || s.threads[u].Holds?);
      assert u in s'.threads && s'.threads[u] == s.threads[u];
    } else if forall u :: u in s'.threads ==> !Reading(s', u) {
      assert forall u :: u in s.threads ==> !Reading(s, u);
    }
  }

  lemma StepKeepsPushInv(s: State, t: nat, a: Action)
    requires PushInv(s)
    ensures PushInv(Step(s, t, a))
  {
    if t in s.threads && Step(s, t, a) != s {
      match s.threads[t]
      case Owes => LockKeeps(s, t);
      case Holds => ReadKeeps(s, t);
      case Read(_) => InstallKeeps(s, t);
      case _ => OtherKeeps(s, Step(s, t, a), t);
    }
  }

  lemma {:induction false} RunKeepsPushInv(s: State, steps: Schedule)
    requires PushInv(s)
    ensures PushInv(Run(s, steps))
    decreases |steps|
  {
    if steps != [] {
      StepKeepsPushInv(s, steps[0].0, steps[0].1);
      RunKeepsPushInv(Step(s, steps[0].0, steps[0].1), steps[1..]);
    }
  }

  // Under every interleaving of edits, refreshes and pushes of any number of
  // threads, whenever the manager is quiet the installed engine covers exactly
  // the resolved networks.
  lemma QuietIsPushed(s: State, steps: Schedule)
    requires Quiet(s) && multiset(s.pushed) == multiset(s.resolved)
    ensures Quiet(Run(s, steps)) ==> SameCoverage(Run(s, steps).pushed, Run(s, steps).resolved)
  {
    RunKeepsPushInv(s, steps);
    var r := Run(s, steps);
    if Quiet(r) {
      SameNetsSameCoverage(r.pushed, r.resolved);
    }
  }

  // ---- What is resolved follows the rules, or not ----

  function HostsNow(s: State): seq<string> {
    DomainsToResolve(s.rules)
  }

  predicate NoEdits(steps: Schedule) {
    forall i :: 0 <= i < |steps| ==> !steps[i].1.Edit?
  }

  // A thread asks DNS for hosts of rules that were edited since.
  predicate StaleAsker(s: State, t: nat) {
    t in s.threads && s.threads[t].Asked? && s.threads[t].hosts != HostsNow(s)
  }

  predicate Refreshing(p: Place) {
    p.Begun? || p.Asked?
  }

  // The networks are for the current hosts, or some thread will still write them.
  predicate Owed(s: State) {
    s.resolvedFor == HostsNow(s) || exists t :: t in s.threads && Refreshing(s.threads[t])
  }

  predicate NoStaleAsker(s: State) {
    forall t :: t in s.threads ==> !StaleAsker(s, t)
  }

  lemma StepKeepsOwed(s: State, t: nat, a: Action)
    requires Owed(s) && NoStaleAsker(s) && !a.Edit?
    ensures var s' := Step(s, t, a); s'.rules == s.rules && Owed(s') && NoStaleAsker(s')
  {
    var s' := Step(s, t, a);
    if s' != s {
      assert t in s'.threads;
      forall u | u in s.threads && u != t
        ensures u in s'.threads && s'.threads[u] == s.threads[u]
      {
      }
      if s.resolvedFor != HostsNow(s) && !Refreshing(s.threads[t]) {
        var u :| u in s.threads && Refreshing(s.threads[u]);
        assert u in s'.threads;
      }
    }
  }

  lemma NoEditsTail(steps: Schedule)
    requires NoEdits(steps) && steps != []
    ensures !steps[0].1.Edit? && NoEdits(steps[1..])
  {
    forall i | 0 <= i < |steps[1..]|
      ensures !steps[1..][i].1.Edit?
    {
      assert !steps[i + 1].1.Edit?;
    }
  }

  lemma {:induction false} WithoutStaleAskers(s: State, steps: Schedule)
    requires Owed(s) && NoStaleAsker(s) && NoEdits(steps)
    ensures Quiet(Run(s, steps)) ==> Run(s, steps).resolvedFor == HostsNow(s)
    decreases |steps|
  {
    if steps != [] {
      NoEditsTail(steps);
      StepKeepsOwed(s, steps[0].0, steps[0].1);
      WithoutStaleAskers(Step(s, steps[0].0, steps[0].1), steps[1..]);
    }
  }

  // ---- Finishing what was begun ----

  lemma RunCons(s: State, t: nat, a: Action, rest: Schedule)
    ensures Run(s, [(t, a)] + rest) == Run(Step(s, t, a), rest)
  {
    assert ([(t, a)] + rest)[1..] == rest;
  }

  lemma {:induction false} RunConcat(s: State, a: Schedule, b: Schedule)
    ensures Run(s, a + b) == Run(Run(s, a), b)
    decreases |a|
  {
    if a == [] {
      assert a + b == b;
    } else {
      assert (a + b)[1..] == a[1..] + b;
      RunConcat(Step(s, a[0].0, a[0].1), a[1..], b);
    }
  }

  function Onward(p: Place): Action {
    match p
    case Idle => Lock
    case Begun => ReadHosts
    case Asked(_) => WriteNets(_ => Answers([]))
    case Owes => Lock
    case Holds => ReadNets
    case Read(_) => Install
  }

  function StepsLeft(p: Place): nat {
    match p
    case Idle => 0
    case Begun => 5
    case Asked(_) => 4
    case Owes => 3
    case Holds => 2
    case Read(_) => 1
  }

  predicate CanFinish(s: State, u: nat) {
    u in s.threads && (s.threads[u] == Idle || Holding(s.threads[u]) || Unlocked(s))
  }

  lemma OnwardStep(s: State, u: nat)
    requires CanFinish(s, u) && s.threads[u] != Idle
    ensures var s' := Step(s, u, Onward(s.threads[u]));
      CanFinish(s', u) && s'.threads == s.threads[u := s'.threads[u]] && s'.rules == s.rules &&
      StepsLeft(s'.threads[u]) < StepsLeft(s.threads[u]) &&
      s'.resolvedFor == (if s.threads[u].Asked? then s.threads[u].hosts else s.resolvedFor) &&
      (s.threads[u].Begun? ==> s'.threads[u] == Asked(HostsNow(s))) &&
      (!s.threads[u].Begun? ==> !Refreshing(s'.threads[u]))
  {
    var s' := Step(s, u, Onward(s.threads[u]));
    forall t | t in s.threads && t != u
      ensures t in s'.threads && s'.threads[t] == s.threads[t]
    {
    }
  }

  // Thread u alone finishes what it began.
  lemma {:induction false} Finish(s: State, u: nat) returns (steps: Schedule)
    requires CanFinish(s, u)
    ensures NoEdits(steps)
    ensures var r := Run(s, steps);
      r.rules == s.rules && r.threads == s.threads[u := Idle] &&
      r.resolvedFor == match s.threads[u]
                       case Asked(hosts) => hosts
                       case Begun => HostsNow(s)
                       case _ => s.resolvedFor
    decreases StepsLeft(s.threads[u])
  {
    if s.threads[u] == Idle {
      steps := [];
      assert s.threads[u := Idle] == s.threads;
    } else {
      var a := Onward(s.threads[u]);
      OnwardStep(s, u);
      var s' := Step(s, u, a);
      var rest := Finish(s', u);
      steps := [(u, a)] + rest;
      RunCons(s, u, a, rest);
      assert s'.threads[u := Idle] == s.threads[u := Idle];
    }
  }

  function Busy(s: State): set<nat> {
    set t | t in s.threads && s.threads[t] != Idle
  }

  lemma SomebodyCanFinish(s: State, keep: set<nat>) returns (u: nat)
    requires Busy(s) - keep != {} && forall k :: k in keep && k in s.threads ==> !Holding(s.threads[k])
    ensures u in Busy(s) - keep && CanFinish(s, u)
  {
    if Unlocked(s) {
      u :| u in Busy(s) - keep;
    } else {
      u :| u in s.threads && Holding(s.threads[u]);
      assert u in Busy(s) - keep;
    }
  }

  // Every thread outside keep finishes; the holder of the lock goes first.
  lemma {:induction false} Drain(s: State, keep: set<nat>) returns (steps: Schedule)
    requires forall k :: k in keep && k in s.threads ==> !Holding(s.threads[k])
    ensures NoEdits(steps)
    ensures var r := Run(s, steps);
      r.rules == s.rules && r.threads.Keys == s.threads.Keys &&
      (forall t :: t in s.threads ==> r.threads[t] == if t in keep then s.threads[t] else Idle) &&
      ((forall t :: t in s.threads && t !in keep ==> !Refreshing(s.threads[t])) ==> r.resolvedFor == s.resolvedFor)
    decreases |Busy(s) - keep|
  {
    if Busy(s) - keep == {} {
      steps := [];
      forall t | t in s.threads && t !in keep
        ensures s.threads[t] == Idle
      {
        assert t !in Busy(s) - keep;
      }
    } else {
      var u := SomebodyCanFinish(s, keep);
      var first := Finish(s, u);
      var s1 := Run(s, first);
      assert Busy(s1) - keep == Busy(s) - keep - {u};
      var rest := Drain(s1, keep);
      steps := first + rest;
      RunConcat(s, first, rest);
    }
  }

  ghost predicate AlwaysResolved(s: State) {
    forall steps :: NoEdits(steps) && Quiet(Run(s, steps)) ==> Run(s, steps).resolvedFor == HostsNow(s)
  }

  lemma StaleAskerSpoils(s: State, t: nat) returns (steps: Schedule)
    requires StaleAsker(s, t)
    ensures NoEdits(steps) && Quiet(Run(s, steps)) && Run(s, steps).resolvedFor != HostsNow(s)
  {
    var others := Drain(s, {t});
    var s1 := Run(s, others);
    assert s1.threads[t] == s.threads[t];
    var last := Finish(s1, t);
    steps := others + last;
    RunConcat(s, others, last);
  }

  // For every state: once edits stop, the resolved networks end up being those
  // of the current hosts under every schedule exactly when they are already or
  // some refresh has still to write, and no refresh asks for outdated hosts.
  lemma ResolvesExactly(s: State)
    ensures AlwaysResolved(s) <==> Owed(s) && NoStaleAsker(s)
  {
    if Owed(s) && NoStaleAsker(s) {
      forall steps | NoEdits(steps) && Quiet(Run(s, steps))
        ensures Run(s, steps).resolvedFor == HostsNow(s)
      {
        WithoutStaleAskers(s, steps);
      }
    } else if !NoStaleAsker(s) {
      var t :| t in s.threads && StaleAsker(s, t);
      var steps := StaleAskerSpoils(s, t);
      assert NoEdits(steps) && Quiet(Run(s, steps));
    } else {
      var steps := Drain(s, {});
      assert NoEdits(steps) && Quiet(Run(s, steps));
    }
  }

  // The edit and the reading of u, then the edit of v.
  lemma Overlap(s: State, u: nat, v: nat, one: seq<Rule>, two: seq<Rule>) returns (steps: Schedule)
    requires Quiet(s) && u in s.threads && v in s.threads && u != v
    ensures Run(s, steps).rules == two
    ensures Run(s, steps).threads == s.threads[u := Asked(DomainsToResolve(one))][v := Begun]
  {
    var s1 := Step(s, u, Edit(one));
    var s2 := Step(s1, u, ReadHosts);
    RunCons(s2, v, Edit(two), []);
    RunCons(s1, u, ReadHosts, [(v, Edit(two))] + []);
    RunCons(s, u, Edit(one), [(u, ReadHosts)] + ([(v, Edit(two))] + []));
    steps := [(u, Edit(one))] + ([(u, ReadHosts)] + ([(v, Edit(two))] + []));
    assert s1.threads[u] == Begun && s2.threads[v] == Idle;
    assert s2.threads == s.threads[u := Asked(DomainsToResolve(one))];
  }

  // Two overlapping edits can leave a quiet manager whose networks are those of
  // the hosts before the second edit: the slower DNS answers win.
  lemma LostHost(s: State, u: nat, v: nat, one: seq<Rule>, two: seq<Rule>)
    requires Quiet(s) && u in s.threads && v in s.threads && u != v
    ensures exists steps ::
      Quiet(Run(s, steps)) && Run(s, steps).rules == two && Run(s, steps).resolvedFor == DomainsToResolve(one)
  {
    var start := Overlap(s, u, v, one, two);
    var s3 := Run(s, start);
    var fast := Finish(s3, v);
    var s4 := Run(s3, fast);
    var slow := Finish(s4, u);
    RunConcat(s3, fast, slow);
    RunConcat(s, start, fast + slow);
    assert Quiet(Run(s, start + (fast + slow)));
  }

  // The next refresh of the loop repairs it.
  lemma RefreshRepairs(s: State, u: nat)
    requires Quiet(s) && u in s.threads
    ensures Owed(Step(s, u, StartRefresh)) && NoStaleAsker(Step(s, u, StartRefresh))
    ensures AlwaysResolved(Step(s, u, StartRefresh))
  {
    var s1 := Step(s, u, StartRefresh);
    assert u in s1.threads && s1.threads[u] == Begun;
    ResolvesExactly(s1);
  }

  // ---- One thread alone ----

  lemma RunTwo(s: State, t: nat, a: Action, b: Action)
    ensures Run(s, [(t, a), (t, b)]) == Step(Step(s, t, a), t, b)
  {
    assert [(t, a), (t, b)][1..] == [(t, b)] && [(t, b)][1..] == [];
    assert Run(Step(s, t, a), [(t, b)]) == Run(Step(Step(s, t, a), t, b), []);
  }

  lemma RunOne(s: State, t: nat, a: Action)
    ensures Run(s, [(t, a)]) == Step(s, t, a)
  {
    assert [(t, a)][1..] == [] && Run(Step(s, t, a), []) == Step(s, t, a);
  }

  // A push that is owed, when nobody else holds the lock.
  lemma OwedAlone(s: State, t: nat)
    requires t in s.threads && s.threads[t] == Owes && Unlocked(s)
    ensures Run(s, [(t, Lock), (t, ReadNets)] + [(t, Install)]) ==
      s.(pushed := s.resolved, threads := s.threads[t := Idle])
  {
    RunConcat(s, [(t, Lock), (t, ReadNets)], [(t, Install)]);
    RunTwo(s, t, Lock, ReadNets);
    var read := Move(s, t, Read(s.resolved));
    assert Step(Move(s, t, Holds), t, ReadNets) == read;
    RunOne(read, t, Install);
  }

  // The steps of a push do nothing for an idle thread.
  lemma IdleAlone(s: State, t: nat)
    requires t in s.threads && s.threads[t] == Idle
    ensures Run(s, [(t, Lock), (t, ReadNets)] + [(t, Install)]) == s
  {
    RunConcat(s, [(t, Lock), (t, ReadNets)], [(t, Install)]);
    RunTwo(s, t, Lock, ReadNets);
    RunOne(s, t, Install);
  }

  lemma BackToIdle(s: State, t: nat, p: Place)
    requires t in s.threads && s.threads[t] == Idle
    ensures s.threads[t := p][t := Idle] == s.threads
    ensures Quiet(s) && !Holding(p) ==> Unlocked(Move(s, t, p))
  {
  }

  // The atomic manager with the rules and the resolved networks of s.
  ghost predicate SameManager(s: State, m: BypassManager.State) {
    m.store.rules == s.rules && m.resolved == s.resolved
  }

  // With no other thread in between, a refresh resolves what the atomic one
  // resolves and pushes exactly when that notifies.
  lemma RefreshAlone(s: State, m: BypassManager.State, t: nat, dns: Resolver)
    requires t in s.threads && Quiet(s) && SameManager(s, m)
    ensures var push := [(t, Lock), (t, ReadNets)] + [(t, Install)];
      var r := Run(s, [(t, StartRefresh), (t, ReadHosts)] + ([(t, WriteNets(dns))] + push));
      var e := RefreshStep(m, dns);
      SameManager(r, e.state) && r.pushed == (if e.notified then e.state.resolved else s.pushed) &&
      r.threads == s.threads
  {
    var push := [(t, Lock), (t, ReadNets)] + [(t, Install)];
    var hosts := DomainsToResolve(s.rules);
    RefreshWrites(s, t, hosts, dns, push);
    WrittenAlone(s, Move(s, t, Asked(hosts)), t, hosts, ResolveAll(hosts, dns), push);
    AtomicRefresh(m, dns);
  }

  lemma AtomicRefresh(m: BypassManager.State, dns: Resolver)
    ensures var e := RefreshStep(m, dns);
      e.state.store == m.store && e.state.resolved == ResolveAll(DomainsToResolve(m.store.rules), dns) &&
      (e.notified <==> multiset(m.resolved) != multiset(e.state.resolved))
  {
  }

  lemma RefreshWrites(s: State, t: nat, hosts: seq<string>, dns: Resolver, push: Schedule)
    requires t in s.threads && s.threads[t] == Idle && hosts == DomainsToResolve(s.rules)
    ensures Run(s, [(t, StartRefresh), (t, ReadHosts)] + ([(t, WriteNets(dns))] + push)) ==
      Run(Written(Move(s, t, Asked(hosts)), t, hosts, ResolveAll(hosts, dns)), push)
  {
    var asked := Move(s, t, Asked(hosts));
    RunConcat(s, [(t, StartRefresh), (t, ReadHosts)], [(t, WriteNets(dns))] + push);
    RunTwo(s, t, StartRefresh, ReadHosts);
    assert Step(Move(s, t, Begun), t, ReadHosts) == asked;
    RunConcat(asked, [(t, WriteNets(dns))], push);
    RunOne(asked, t, WriteNets(dns));
  }

  lemma WrittenAlone(s: State, asked: State, t: nat, hosts: seq<string>, nets: seq<IPNet>, push: Schedule)
    requires t in s.threads && Quiet(s) && asked == Move(s, t, Asked(hosts))
    requires push == [(t, Lock), (t, ReadNets)] + [(t, Install)]
    ensures var r := Run(Written(asked, t, hosts, nets), push);
      r.rules == s.rules && r.resolved == nets && r.threads == s.threads &&
      r.pushed == if multiset(s.resolved) != multiset(nets) then nets else s.pushed
  {
    var w := Written(asked, t, hosts, nets);
    BackToIdle(s, t, Owes);
    if multiset(s.resolved) != multiset(nets) {
      assert w == Move(s, t, Owes).(resolved := nets, resolvedFor := hosts);
      OwedAlone(w, t);
    } else {
      assert w == Move(s, t, Idle).(resolved := nets, resolvedFor := hosts);
      assert s.threads[t := Idle] == s.threads;
      IdleAlone(w, t);
    }
  }

  // An edit is followed by such a refresh of its rules; a push for another
  // reason installs what is resolved.
  lemma EditAlone(s: State, t: nat, next: seq<Rule>)
    requires t in s.threads && Quiet(s)
    ensures Step(s, t, Edit(next)) == Step(s.(rules := next), t, StartRefresh)
    ensures Run(s, [(t, StartPush)] + ([(t, Lock), (t, ReadNets)] + [(t, Install)])) == s.(pushed := s.resolved)
  {
    BackToIdle(s, t, Owes);
    RunConcat(s, [(t, StartPush)], [(t, Lock), (t, ReadNets)] + [(t, Install)]);
    RunOne(s, t, StartPush);
    OwedAlone(Move(s, t, Owes), t);
  }
}
