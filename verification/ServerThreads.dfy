// internal/outline and cmd/outline-gate/main.go under interleaving: rebuilds of
// the client's dialer, what follows them, and pushes that hold the lock of main
// while they read the server and install the engine.
module ServerThreads {
  import opened Text
  import opened NetAddr

  datatype Place =
    | Idle
    | Rebuilt             // the dialer replaced and ready set, nothing reported yet
    | Owes                // about to call rebuildPush
    | Holds               // rebuildPush has its lock, the server not yet read
    | Read(server: IP)    // the server read, the engine not yet installed

  // server is the client's, pushed that of the engine installed last.
  datatype State = State(server: IP, ready: bool, pushed: IP, threads: map<nat, Place>)

  datatype Action =
    | Rebuild(server: IP)  // applyExpanded of any operation
    | ClearReady           // a failure that clears ready outside a rebuild
    | Report               // onChange(true), or OnReplaced after the key was persisted
    | Fail                 // the probe of the new dialer failed: ready is cleared, nothing reported
    | SeeUnready           // a failed probe that finds ready cleared already
    | Finish               // RestartServices: nothing reported at all
    | StartPush            // rebuildPush for another reason
    | Lock
    | ReadServer
    | Install

  predicate Holding(p: Place) {
    p.Holds? || p.Read?
  }

  predicate Unlocked(s: State) {
    forall t :: t in s.threads ==> !Holding(s.threads[t])
  }

  function Move(s: State, t: nat, p: Place): State {
    s.(threads := s.threads[t := p])
  }

  // The step of thread t, or None when that action is not possible there.
  function Next(s: State, t: nat, a: Action): Option<State> {
    if t !in s.threads then None
    else match (s.threads[t], a)
      case (Idle, Rebuild(server)) => Some(Move(s, t, Rebuilt).(server := server, ready := true))
      case (Idle, ClearReady) => Some(s.(ready := false))
      case (Idle, StartPush) => Some(Move(s, t, Owes))
      case (Rebuilt, Report) => Some(Move(s, t, Owes))
      case (Rebuilt, Fail) => Some(Move(s, t, Idle).(ready := false))
      case (Rebuilt, SeeUnready) => if s.ready then None else Some(Move(s, t, Idle))
      case (Rebuilt, Finish) => Some(Move(s, t, Idle))
      case (Owes, Lock) => if Unlocked(s) then Some(Move(s, t, Holds)) else None
      case (Holds, ReadServer) => Some(Move(s, t, Read(s.server)))
      case (Read(server), Install) => Some(Move(s, t, Idle).(pushed := server))
      case _ => None
  }

  // An action that is not possible is skipped, so a schedule is any list.
  function Step(s: State, t: nat, a: Action): State {
    match Next(s, t, a)
    case Some(s') => s'
    case None => s
  }

  type Schedule = seq<(nat, Action)>

  function Run(s: State, steps: Schedule): State
    decreases |steps|
  {
    if steps == [] then s else Run(Step(s, steps[0].0, steps[0].1), steps[1..])
  }

  predicate Quiet(s: State) {
    forall t :: t in s.threads ==> s.threads[t] == Idle
  }

  predicate OneHolder(s: State) {
    forall t, u :: t in s.threads && u in s.threads && Holding(s.threads[t]) && Holding(s.threads[u]) ==> t == u
  }

  // A thread that will still read the server, or clear ready.
  predicate WillRead(p: Place) {
    p.Rebuilt? || p.Owes? || p.Holds?
  }

  predicate Pending(s: State) {
    exists t :: t in s.threads && WillRead(s.threads[t])
  }

  predicate Reading(s: State, t: nat) {
    t in s.threads && s.threads[t].Read?
  }

  // What a ready client's server is pushed as, once the push under way is installed.
  ghost predicate Pushed(s: State) {
    (forall t :: Reading(s, t) ==> s.threads[t].server == s.server) &&
    ((forall t :: t in s.threads ==> !Reading(s, t)) ==> s.pushed == s.server)
  }

  // The server of a ready client is pushed, or is going to be.
  ghost predicate Inv(s: State) {
    OneHolder(s) && (s.ready ==> Pending(s) || Pushed(s))
  }

  // A restart finishes a rebuild of a ready client, nobody else is going to read
  // the server, and it is not the one pushed.
  ghost predicate Loses(s: State, t: nat, a: Action) {
    t in s.threads && s.threads[t].Rebuilt? && a == Finish && s.ready && !Pushed(s) &&
    forall u :: u in s.threads && u != t ==> !WillRead(s.threads[u])
  }

  // Which places and fields a step may change.
  lemma StepFrame(s: State, t: nat, a: Action)
    requires Next(s, t, a).Some?
    ensures var s' := Next(s, t, a).value;
      t in s.threads && t in s'.threads && s'.threads.Keys == s.threads.Keys &&
      (forall u :: u in s.threads && u != t ==> s'.threads[u] == s.threads[u])
  {
  }

  lemma MovingOn(s: State, s': State, t: nat)
    requires Inv(s) && t in s.threads && s'.threads.Keys == s.threads.Keys
    requires forall u :: u in s.threads && u != t ==> s'.threads[u] == s.threads[u]
    requires !Holding(s.threads[t]) && (Holding(s'.threads[t]) ==> Unlocked(s))
    requires WillRead(s'.threads[t]) || !s'.ready
    ensures Inv(s')
  {
    assert t in s'.threads;
  }

  lemma ReadKeeps(s: State, t: nat)
    requires Inv(s) && t in s.threads && s.threads[t] == Holds
    ensures Inv(Move(s, t, Read(s.server)))
  {
    var s' := Move(s, t, Read(s.server));
    assert Reading(s', t);
    forall u | u in s.threads && u != t
      ensures u in s'.threads && s'.threads[u] == s.threads[u] && !Holding(s.threads[u])
    {
    }
  }

  lemma InstallKeeps(s: State, t: nat)
    requires Inv(s) && Reading(s, t)
    ensures Inv(Move(s, t, Idle).(pushed := s.threads[t].server))
  {
    var s' := Move(s, t, Idle).(pushed := s.threads[t].server);
    forall u | u in s.threads && u != t
      ensures u in s'.threads && s'.threads[u] == s.threads[u] && !Holding(s.threads[u])
    {
    }
    if Pending(s) {
      var u :| u in s.threads && WillRead(s.threads[u]);
      assert u in s'.threads && WillRead(s'.threads[u]);
    } else {
      assert forall u :: u in s'.threads ==> !Reading(s', u);
    }
  }

  lemma ClearKeeps(s: State, t: nat)
    requires Inv(s) && t in s.threads && s.threads[t] == Idle
    ensures Inv(s.(ready := false))
  {
  }

  lemma FinishExact(s: State, t: nat)
    requires Inv(s) && t in s.threads && s.threads[t] == Rebuilt
    ensures Inv(Move(s, t, Idle)) <==> !Loses(s, t, Finish)
  {
    var s' := Move(s, t, Idle);
    forall u | u in s.threads && u != t
      ensures u in s'.threads && s'.threads[u] == s.threads[u]
    {
    }
    assert Pushed(s') <==> Pushed(s) by {
      assert forall u :: Reading(s', u) <==> Reading(s, u);
      assert (forall u :: u in s'.threads ==> !Reading(s', u)) <==> (forall u :: u in s.threads ==> !Reading(s, u));
    }
    if Pending(s') {
      var u :| u in s'.threads && WillRead(s'.threads[u]);
      assert u != t && WillRead(s.threads[u]);
    }
  }

  // Every step keeps the invariant, except exactly a restart that loses it.
  lemma StepExact(s: State, t: nat, a: Action)
    requires Inv(s)
    ensures Inv(Step(s, t, a)) <==> !Loses(s, t, a)
  {
    if Next(s, t, a).Some? {
      StepFrame(s, t, a);
      match s.threads[t]
      case Holds => ReadKeeps(s, t);
      case Read(_) => InstallKeeps(s, t);
      case Rebuilt =>
        if a == Finish {
          FinishExact(s, t);
        } else {
          MovingOn(s, Step(s, t, a), t);
        }
      case _ =>
        if a == ClearReady {
          ClearKeeps(s, t);
        } else {
          MovingOn(s, Step(s, t, a), t);
        }
    }
  }

  ghost predicate InvThroughout(s: State, steps: Schedule)
    decreases |steps|
  {
    Inv(s) && (steps != [] ==> InvThroughout(Step(s, steps[0].0, steps[0].1), steps[1..]))
  }

  ghost predicate NothingLost(s: State, steps: Schedule)
    decreases |steps|
  {
    steps != [] ==>
      !Loses(s, steps[0].0, steps[0].1) && NothingLost(Step(s, steps[0].0, steps[0].1), steps[1..])
  }

  // Under every interleaving, the server of a ready client is pushed or going to
  // be pushed all the time if and only if no restart lost it.
  lemma {:induction false} RunExact(s: State, steps: Schedule)
    requires Inv(s)
    ensures InvThroughout(s, steps) <==> NothingLost(s, steps)
    ensures NothingLost(s, steps) ==> Inv(Run(s, steps))
    decreases |steps|
  {
    if steps != [] {
      var s' := Step(s, steps[0].0, steps[0].1);
      StepExact(s, steps[0].0, steps[0].1);
      if Inv(s') {
        RunExact(s', steps[1..]);
      } else {
        assert !InvThroughout(s', steps[1..]);
      }
    }
  }

  // So whenever everything is quiet after such a run, a ready client's server is
  // the pushed one, whatever the rebuilds, probes and pushes overlapped with.
  lemma QuietIsPushed(s: State, steps: Schedule)
    requires Quiet(s) && s.pushed == s.server
    ensures NothingLost(s, steps) && Quiet(Run(s, steps)) && Run(s, steps).ready ==>
      Run(s, steps).pushed == Run(s, steps).server
  {
    assert Inv(s);
    RunExact(s, steps);
  }

  // Schedules without a restart lose nothing.
  lemma {:induction false} WithoutFinish(s: State, steps: Schedule)
    requires forall i :: 0 <= i < |steps| ==> steps[i].1 != Finish
    ensures NothingLost(s, steps)
    decreases |steps|
  {
    if steps != [] {
      assert steps[0].1 != Finish;
      forall i | 0 <= i < |steps[1..]|
        ensures steps[1..][i].1 != Finish
      {
        assert steps[i + 1].1 != Finish;
      }
      WithoutFinish(Step(s, steps[0].0, steps[0].1), steps[1..]);
    }
  }

  // ---- One thread alone ----

  lemma RunTwo(s: State, t: nat, a: Action, b: Action)
    ensures Run(s, [(t, a), (t, b)]) == Step(Step(s, t, a), t, b)
  {
    assert [(t, a), (t, b)][1..] == [(t, b)] && [(t, b)][1..] == [];
    assert Run(Step(s, t, a), [(t, b)]) == Run(Step(Step(s, t, a), t, b), []);
  }

  lemma {:induction false} RunConcat(s: State, a: Schedule, b: Schedule)
    ensures Run(s, a + b) == Run(Run(s, a), b)
    decreases |a|
  {
    if a == [] {
      assert a + b == b;
    } else {
      assert (a + b)[1..] == a[1..] + b;
      RunConcat(Step(s, a[0].0, a[0].1), a[1..], b);
    }
  }

  // A push that is owed, when nobody else holds the lock.
  lemma OwedAlone(s: State, t: nat)
    requires t in s.threads && s.threads[t] == Owes && Unlocked(s)
    ensures Run(s, [(t, Lock), (t, ReadServer)] + [(t, Install)]) ==
      s.(pushed := s.server, threads := s.threads[t := Idle])
  {
    RunConcat(s, [(t, Lock), (t, ReadServer)], [(t, Install)]);
    RunTwo(s, t, Lock, ReadServer);
    var read := Move(s, t, Read(s.server));
    assert Step(Move(s, t, Holds), t, ReadServer) == read;
    RunOne(read, t, Install);
  }

  lemma RunOne(s: State, t: nat, a: Action)
    ensures Run(s, [(t, a)]) == Step(s, t, a)
  {
    assert [(t, a)][1..] == [] && Run(Step(s, t, a), []) == Step(s, t, a);
  }

  lemma BackToIdle(s: State, t: nat, p: Place)
    requires t in s.threads && s.threads[t] == Idle
    ensures s.threads[t := p][t := Idle] == s.threads
    ensures Quiet(s) && !Holding(p) ==> Unlocked(Move(s, t, p))
  {
  }

  // rebuildPush alone installs the server the client uses.
  lemma PushAlone(s: State, t: nat)
    requires t in s.threads && Quiet(s)
    ensures Run(s, [(t, StartPush)] + ([(t, Lock), (t, ReadServer)] + [(t, Install)])) == s.(pushed := s.server)
  {
    BackToIdle(s, t, Owes);
    RunConcat(s, [(t, StartPush)], [(t, Lock), (t, ReadServer)] + [(t, Install)]);
    RunOne(s, t, StartPush);
    OwedAlone(Move(s, t, Owes), t);
  }

  // A reported rebuild alone makes the client ready and its server the pushed one ...
  lemma ReportAlone(s: State, t: nat, v: IP)
    requires t in s.threads && Quiet(s)
    ensures Run(s, [(t, Rebuild(v)), (t, Report)] + ([(t, Lock), (t, ReadServer)] + [(t, Install)])) ==
      State(v, true, v, s.threads)
  {
    var owing := Move(s, t, Owes).(server := v, ready := true);
    BackToIdle(s, t, Owes);
    RunConcat(s, [(t, Rebuild(v)), (t, Report)], [(t, Lock), (t, ReadServer)] + [(t, Install)]);
    RunTwo(s, t, Rebuild(v), Report);
    assert Step(Step(s, t, Rebuild(v)), t, Report) == owing;
    OwedAlone(owing, t);
  }

  // ... a failed one and a restart push nothing.
  lemma SilentAlone(s: State, t: nat, v: IP)
    requires t in s.threads && s.threads[t] == Idle
    ensures Run(s, [(t, Rebuild(v)), (t, Fail)]) == State(v, false, s.pushed, s.threads)
    ensures Run(s, [(t, Rebuild(v)), (t, Finish)]) == State(v, true, s.pushed, s.threads)
    ensures Step(s, t, ClearReady) == s.(ready := false)
  {
    BackToIdle(s, t, Rebuilt);
    RunTwo(s, t, Rebuild(v), Fail);
    RunTwo(s, t, Rebuild(v), Finish);
  }

  // A probe that finds ready cleared by another thread reports nothing either.
  lemma UnreadySeen(s: State, t: nat)
    requires t in s.threads && s.threads[t] == Rebuilt
    ensures Step(s, t, SeeUnready) == if s.ready then s else Move(s, t, Idle)
  {
  }
}
