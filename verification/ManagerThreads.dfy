// internal/bypass/manager.go under interleaving: an edit of the store, the
// snapshot rebuildMatcher takes of its rules, and the write of the matcher are
// three separate critical sections.
module ManagerThreads {
  import opened NetAddr
  import opened Rules

  datatype Place =
    | Idle
    | Edited                       // the store is changed, rebuildMatcher not yet begun
    | Took(snapshot: seq<Rule>)    // store.Rules was read, the matcher not yet written

  datatype State = State(rules: seq<Rule>, matcher: seq<Rule>, threads: map<nat, Place>)

  datatype Action = Edit(next: seq<Rule>) | Take | Write

  function Step(s: State, t: nat, a: Action): State {
    if t !in s.threads then s
    else match (s.threads[t], a)
      case (Idle, Edit(next)) => State(next, s.matcher, s.threads[t := Edited])
      case (Edited, Take) => State(s.rules, s.matcher, s.threads[t := Took(s.rules)])
      case (Took(snapshot), Write) => State(s.rules, snapshot, s.threads[t := Idle])
      case _ => s
  }

  type Schedule = seq<(nat, Action)>

  function Run(s: State, steps: Schedule): State
    decreases |steps|
  {
    if steps == [] then s else Run(Step(s, steps[0].0, steps[0].1), steps[1..])
  }

  predicate Quiet(s: State) {
    forall t :: t in s.threads ==> s.threads[t] == Idle
  }

  // No edit happens in the schedule.
  predicate NoEdits(steps: Schedule) {
    forall i :: 0 <= i < |steps| ==> !steps[i].1.Edit?
  }

  // A thread still holds a snapshot of rules that were edited since.
  predicate StaleReader(s: State, t: nat) {
    t in s.threads && s.threads[t].Took? && s.threads[t].snapshot != s.rules
  }

  // The matcher is current, or some thread will still rebuild it.
  predicate Owed(s: State) {
    s.matcher == s.rules || exists t :: t in s.threads && s.threads[t] != Idle
  }

  lemma StepKeepsOwed(s: State, t: nat, a: Action)
    requires Owed(s)
    requires forall u :: u in s.threads ==> !StaleReader(s, u)
    ensures Owed(Step(s, t, a))
    ensures !a.Edit? ==> Step(s, t, a).rules == s.rules
    ensures !a.Edit? ==> (forall u :: u in Step(s, t, a).threads ==> !StaleReader(Step(s, t, a), u))
  {
    var s' := Step(s, t, a);
    if s' != s && s'.threads[t] != Idle {
      assert t in s'.threads;
    }
  }

  lemma {:induction false} WithoutStaleReaders(s: State, steps: Schedule)
    requires Owed(s) && NoEdits(steps) && forall u :: u in s.threads ==> !StaleReader(s, u)
    ensures Quiet(Run(s, steps)) ==> Run(s, steps).matcher == Run(s, steps).rules
    decreases |steps|
  {
    if steps != [] {
      assert !steps[0].1.Edit?;
      StepKeepsOwed(s, steps[0].0, steps[0].1);
      forall i | 0 <= i < |steps[1..]|
        ensures !steps[1..][i].1.Edit?
      {
        assert !steps[i + 1].1.Edit?;
      }
      WithoutStaleReaders(Step(s, steps[0].0, steps[0].1), steps[1..]);
    }
  }

  lemma {:induction false} RunConcat(s: State, a: Schedule, b: Schedule)
    ensures Run(s, a + b) == Run(Run(s, a), b)
    decreases |a|
  {
    if a == [] {
      assert a + b == b;
    } else {
      assert (a + b)[1..] == a[1..] + b;
      RunConcat(Step(s, a[0].0, a[0].1), a[1..], b);
    }
  }

  function Busy(s: State): set<nat> {
    set t | t in s.threads && s.threads[t] != Idle
  }

  // Thread u alone finishes what it began.
  lemma Finish(s: State, u: nat) returns (steps: Schedule)
    requires u in s.threads
    ensures NoEdits(steps)
    ensures Run(s, steps).rules == s.rules && Run(s, steps).threads == s.threads[u := Idle]
    ensures s.threads[u].Took? ==> Run(s, steps).matcher == s.threads[u].snapshot
  {
    match s.threads[u]
    case Idle =>
      steps := [];
      assert s.threads[u := Idle] == s.threads;
    case Edited =>
      steps := [(u, Take), (u, Write)];
      RunTwo(s, (u, Take), (u, Write));
      assert Step(s, u, Take).threads[u] == Took(s.rules);
    case Took(_) =>
      steps := [(u, Write)];
      RunOne(s, (u, Write));
  }

  // Every thread but t finishes.
  lemma Drain(s: State, t: nat) returns (steps: Schedule)
    requires t in s.threads
    ensures NoEdits(steps) && Run(s, steps).rules == s.rules
    ensures Run(s, steps).threads.Keys == s.threads.Keys && Run(s, steps).threads[t] == s.threads[t]
    ensures forall u :: u in s.threads && u != t ==> Run(s, steps).threads[u] == Idle
    decreases |Busy(s) - {t}|
  {
    if Busy(s) - {t} == {} {
      steps := [];
      forall u | u in s.threads && u != t
        ensures s.threads[u] == Idle
      {
        assert u !in Busy(s) - {t};
      }
    } else {
      var u :| u in Busy(s) - {t};
      var first := Finish(s, u);
      var s1 := Run(s, first);
      assert Busy(s1) - {t} == Busy(s) - {t} - {u};
      var rest := Drain(s1, t);
      steps := first + rest;
      RunConcat(s, first, rest);
    }
  }

  ghost predicate AlwaysSettles(s: State) {
    forall steps :: NoEdits(steps) && Quiet(Run(s, steps)) ==> Run(s, steps).matcher == s.rules
  }

  lemma {:induction false} NoEditsKeepsRules(s: State, steps: Schedule)
    requires NoEdits(steps)
    ensures Run(s, steps).rules == s.rules
    decreases |steps|
  {
    if steps != [] {
      assert !steps[0].1.Edit?;
      forall i | 0 <= i < |steps[1..]|
        ensures !steps[1..][i].1.Edit?
      {
        assert !steps[i + 1].1.Edit?;
      }
      NoEditsKeepsRules(Step(s, steps[0].0, steps[0].1), steps[1..]);
    }
  }

  lemma StaleReaderSpoils(s: State, t: nat) returns (steps: Schedule)
    requires StaleReader(s, t)
    ensures NoEdits(steps) && Quiet(Run(s, steps)) && Run(s, steps).matcher != s.rules
  {
    var others := Drain(s, t);
    var s1 := Run(s, others);
    var last := Finish(s1, t);
    steps := others + last;
    RunConcat(s, others, last);
  }

  // Once edits stop, the matcher ends up equal to the rules under every
  // schedule exactly when it is equal already or some thread still has to
  // rebuild it, and no thread holds a snapshot taken before the last edit.
  lemma SettlesExactly(s: State)
    ensures AlwaysSettles(s) <==> Owed(s) && forall t :: t in s.threads ==> !StaleReader(s, t)
  {
    if !Owed(s) {
      assert NoEdits([]) && Quiet(Run(s, []));
    } else if forall t :: t in s.threads ==> !StaleReader(s, t) {
      forall steps | NoEdits(steps) && Quiet(Run(s, steps))
        ensures Run(s, steps).matcher == s.rules
      {
        WithoutStaleReaders(s, steps);
        NoEditsKeepsRules(s, steps);
      }
    } else {
      var t :| StaleReader(s, t);
      var steps := StaleReaderSpoils(s, t);
      assert NoEdits(steps) && Quiet(Run(s, steps));
    }
  }

  // Two overlapping AddRule calls can leave a quiet manager whose exported
  // networks cover an address that its matcher does not match.
  lemma LostRule(s: State, u: nat, v: nat, r1: Rule, r2: Rule, ip: Addr)
    requires Quiet(s) && u in s.threads && v in s.threads && u != v
    requires IPRuleMatches(r2, ip) && MatchIPDetail(s.rules + [r1], ip).None?
    ensures exists steps ::
      Quiet(Run(s, steps)) && Run(s, steps).rules == s.rules + [r1] + [r2] &&
      Covered(StaticNets(Run(s, steps).rules), ip) && MatchIPDetail(Run(s, steps).matcher, ip).None? &&
      !Owed(Run(s, steps))
  {
    var one, two := s.rules + [r1], s.rules + [r1] + [r2];
    var steps := OverlappingEdits(s, u, v, one, two);
    var r := Run(s, steps);
    assert r2 in two;
    StaticNetsCoverMatches(two, ip);
    assert |one| != |two|;
    assert Quiet(r) && r.rules == two && !Owed(r);
  }

  // The thread that edits second takes and writes first.
  lemma OverlappingEdits(s: State, u: nat, v: nat, one: seq<Rule>, two: seq<Rule>) returns (steps: Schedule)
    requires Quiet(s) && u in s.threads && v in s.threads && u != v
    ensures Quiet(Run(s, steps)) && Run(s, steps).rules == two && Run(s, steps).matcher == one
  {
    var first: Schedule := [(u, Edit(one)), (u, Take)];
    var second: Schedule := [(v, Edit(two)), (v, Take)];
    var third: Schedule := [(v, Write), (u, Write)];
    RunTwo(s, first[0], first[1]);
    var s1 := Run(s, first);
    assert s1 == State(one, s.matcher, s.threads[u := Took(one)]);
    RunTwo(s1, second[0], second[1]);
    var s2 := Run(s1, second);
    assert s2.rules == two && s2.threads == s1.threads[v := Took(two)];
    RunTwo(s2, third[0], third[1]);
    var s3 := Run(s2, third);
    assert s3.matcher == one && Quiet(s3);
    RunConcat(s, first, second);
    RunConcat(s, first + second, third);
    steps := first + second + third;
  }

  lemma RunOne(s: State, x: (nat, Action))
    ensures Run(s, [x]) == Step(s, x.0, x.1)
  {
    assert [x][1..] == [];
    assert Run(Step(s, x.0, x.1), []) == Step(s, x.0, x.1);
  }

  lemma RunTwo(s: State, x: (nat, Action), y: (nat, Action))
    ensures Run(s, [x, y]) == Step(Step(s, x.0, x.1), y.0, y.1)
  {
    assert [x, y][1..] == [y];
    assert [y][1..] == [];
    assert Run(Step(s, x.0, x.1), [y]) == Step(Step(s, x.0, x.1), y.0, y.1);
  }

  // With no other thread in between, an edit leaves its rules in the store and in the matcher.
  lemma EditAlone(s: State, t: nat, next: seq<Rule>)
    requires t in s.threads && s.threads[t] == Idle
    ensures Run(s, [(t, Edit(next))] + [(t, Take), (t, Write)]) == State(next, next, s.threads)
  {
    RunConcat(s, [(t, Edit(next))], [(t, Take), (t, Write)]);
    RunOne(s, (t, Edit(next)));
    RunTwo(Step(s, t, Edit(next)), (t, Take), (t, Write));
    assert s.threads[t := Idle] == s.threads;
  }
}
