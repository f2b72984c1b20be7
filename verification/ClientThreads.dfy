// internal/outline/client.go under any interleaving of any number of threads:
// one step is one access to the shared atomics, the mutex-protected fields or
// the slot channel.
module ClientThreads {
  import opened Text
  import opened NetAddr
  import opened Client
  import C = Client

  const SLOTS: nat := 8

  // What a thread does after noting a tunnel failure: give its slot back
  // (and, for a probe, possibly note the failure once more), or nothing.
  datatype After = ReleaseThen(note: bool) | Finish

  // Where a thread is. probe tells a probe's dial from an ordinary one.
  datatype Place =
    | Idle
    | DialEnter(probe: bool)
    | Acquire(probe: bool)
    | Load(probe: bool)
    | Check(probe: bool, loaded: Option<nat>)
    | InDial(probe: bool)
    | CountIt(after: After)        // before failCount.Add
    | SwapIt(after: After)         // threshold reached, before ready.Swap(false)
    | CallIt(after: After)         // swapped, before OnUnready
    | Release(note: bool)
    | Publish(key: string, server: IP)
    | ZeroCount                    // fields replaced, before failCount.Store(0)
    | SetReady                     // before ready.Store(true)

  // builds records every publication of dialer, key and server; rebuilds,
  // marks and fired count ready.Store(true), successful swaps and OnUnready calls.
  datatype State = State(
    slots: nat, ready: bool, failCount: nat,
    dialer: Option<nat>, expandedKey: string, serverIP: IP, builds: seq<Build>,
    rebuilds: nat, marks: nat, fired: nat,
    threads: map<nat, Place>)

  datatype Action =
    | StartDial(probe: bool)
    | CheckReady
    | TakeSlot
    | GiveUp(note: bool)           // the context ends while waiting for a slot
    | LoadDialer
    | CheckDialer
    | DialSucceeds
    | DestinationError
    | TransportError(note: bool)
    | Proceed                      // the one possible next step of a deterministic place
    | StartApply(key: string, server: IP)
    | StoreUnready                 // Connect failed, SetAccessKey, Reconnect, failed fresh probe
    | ResetCount                   // Reconnect

  predicate HoldsSlot(p: Place) {
    match p
    case Load(_) => true
    case Check(_, _) => true
    case InDial(_) => true
    case CountIt(a) => a.ReleaseThen?
    case SwapIt(a) => a.ReleaseThen?
    case CallIt(a) => a.ReleaseThen?
    case Release(_) => true
    case _ => false
  }

  function Continue(a: After): Place {
    match a
    case ReleaseThen(note) => Release(note)
    case Finish => Idle
  }

  function Move(s: State, t: nat, p: Place): State {
    s.(threads := s.threads[t := p])
  }

  // The next step of a place where only one thing can happen.
  function Advance(s: State, threshold: nat, t: nat): Option<State>
    requires t in s.threads
  {
    match s.threads[t]
    case CountIt(k) =>
      Some(Move(s, t, if s.failCount + 1 >= threshold then SwapIt(k) else Continue(k)).(failCount := s.failCount + 1))
    case SwapIt(k) =>
      if s.ready then Some(Move(s, t, CallIt(k)).(ready := false, marks := s.marks + 1))
      else Some(Move(s, t, Continue(k)))
    case CallIt(k) => Some(Move(s, t, Continue(k)).(fired := s.fired + 1))
    case Release(note) =>
      // the default branch of the channel receive is the case slots == 0
      Some(Move(s, t, if note then CountIt(Finish) else Idle).(slots := if s.slots > 0 then s.slots - 1 else 0))
    case Publish(key, server) =>
      Some(Move(s, t, ZeroCount).(dialer := Some(|s.builds|), expandedKey := key, serverIP := server,
                                  builds := s.builds + [Build(key, server)]))
    case ZeroCount => Some(Move(s, t, SetReady).(failCount := 0))
    case SetReady => Some(Move(s, t, Idle).(ready := true, rebuilds := s.rebuilds + 1))
    case _ => None
  }

  // The steps that depend on a choice or on the outside world.
  function Choose(s: State, t: nat, a: Action): Option<State>
    requires t in s.threads
  {
    match (s.threads[t], a)
    case (Idle, StartDial(probe)) => Some(Move(s, t, DialEnter(probe)))
    case (DialEnter(probe), CheckReady) =>
      Some(Move(s, t, if s.ready then Acquire(probe) else if probe then CountIt(Finish) else Idle))
    case (Acquire(probe), TakeSlot) =>
      if s.slots < SLOTS then Some(Move(s, t, Load(probe)).(slots := s.slots + 1)) else None
    case (Acquire(probe), GiveUp(note)) => Some(Move(s, t, if probe && note then CountIt(Finish) else Idle))
    case (Load(probe), LoadDialer) => Some(Move(s, t, Check(probe, s.dialer)))
    case (Check(probe, d), CheckDialer) =>
      Some(Move(s, t, if d.Some? && s.ready then InDial(probe) else Release(probe)))
    case (InDial(probe), DialSucceeds) => Some(Move(s, t, Release(false)).(failCount := 0))
    case (InDial(probe), DestinationError) => Some(Move(s, t, Release(probe)))
    case (InDial(probe), TransportError(note)) => Some(Move(s, t, CountIt(ReleaseThen(probe && note))))
    case (Idle, StartApply(key, server)) => Some(Move(s, t, Publish(key, server)))
    case (Idle, StoreUnready) => Some(Move(s, t, Idle).(ready := false))
    case (Idle, ResetCount) => Some(Move(s, t, Idle).(failCount := 0))
    case _ => None
  }

  // The step thread t takes, or None when that action is not possible there.
  function Next(s: State, threshold: nat, t: nat, a: Action): Option<State> {
    if t !in s.threads then None
    else if a == Proceed then Advance(s, threshold, t)
    else Choose(s, t, a)
  }

  // An action that is not possible is skipped, so a schedule is any list.
  function Step(s: State, threshold: nat, t: nat, a: Action): State {
    match Next(s, threshold, t, a)
    case Some(s') => s'
    case None => s
  }

  type Schedule = seq<(nat, Action)>

  function Run(s: State, threshold: nat, steps: Schedule): State
    decreases |steps|
  {
    if steps == [] then s else Run(Step(s, threshold, steps[0].0, steps[0].1), threshold, steps[1..])
  }

  function Holders(s: State): set<nat> {
    set t | t in s.threads && HoldsSlot(s.threads[t])
  }

  function Pending(s: State): set<nat> {
    set t | t in s.threads && s.threads[t].CallIt?
  }

  predicate Initial(s: State) {
    s.slots == 0 && !s.ready && s.dialer.None? && s.builds == [] && s.rebuilds == s.marks == s.fired == 0 &&
    forall t :: t in s.threads ==> s.threads[t] == Idle
  }

  // Slots count exactly the dials between acquire and release; a dialer exists
  // whenever ready is or is about to be set, and dialer, key and server are
  // from one rebuild; swaps are paid for by rebuilds, and OnUnready calls by swaps.
  predicate Inv(s: State) {
    && s.slots == |Holders(s)| && s.slots <= SLOTS
    && DialerInv(s)
    && (forall t :: t in s.threads && SetsReady(s, t) ==> s.dialer.Some?)
    && s.marks + (if s.ready then 1 else 0) <= s.rebuilds
    && s.fired + |Pending(s)| == s.marks
  }

  lemma HoldersMove(s: State, t: nat, p: Place)
    requires t in s.threads
    ensures Holders(Move(s, t, p)) == if HoldsSlot(p) then Holders(s) + {t} else Holders(s) - {t}
    ensures t in Holders(s) <==> HoldsSlot(s.threads[t])
    ensures Pending(Move(s, t, p)) == if p.CallIt? then Pending(s) + {t} else Pending(s) - {t}
    ensures t in Pending(s) <==> s.threads[t].CallIt?
  {
  }

  lemma CountsMove(s: State, t: nat, p: Place)
    requires t in s.threads
    ensures |Holders(Move(s, t, p))| ==
      |Holders(s)| + (if HoldsSlot(p) then 1 else 0) - (if HoldsSlot(s.threads[t]) then 1 else 0)
    ensures |Pending(Move(s, t, p))| ==
      |Pending(s)| + (if p.CallIt? then 1 else 0) - (if s.threads[t].CallIt? then 1 else 0)
  {
    HoldersMove(s, t, p);
    CardinalityPlusMinus(Holders(s), t);
    CardinalityPlusMinus(Pending(s), t);
  }

  lemma CardinalityPlusMinus(x: set<nat>, t: nat)
    ensures |x + {t}| == |x| + (if t in x then 0 else 1)
    ensures |x - {t}| == |x| - (if t in x then 1 else 0)
  {
    if t in x {
      assert x + {t} == x;
      assert x == (x - {t}) + {t};
    } else {
      assert x - {t} == x;
    }
  }

  lemma SameThreadsSameCounts(s: State, s': State)
    requires s'.threads == s.threads
    ensures Holders(s') == Holders(s) && Pending(s') == Pending(s)
  {
  }

  // What one step may change of the signalling counters.
  predicate Spends(s: State, s': State) {
    s'.rebuilds >= s.rebuilds && s'.marks >= s.marks &&
    (s'.marks - s.marks) + (if s'.ready then 1 else 0) <= (if s.ready then 1 else 0) + (s'.rebuilds - s.rebuilds)
  }

  function One(b: bool): nat {
    if b then 1 else 0
  }

  // Every change of the slot counter and of the signalling counters goes with
  // the matching change of the thread's place.
  predicate CountsMatch(s: State, s': State, t: nat) {
    t in s.threads && t in s'.threads && s'.threads == s.threads[t := s'.threads[t]] && s'.slots <= SLOTS &&
    s'.slots + One(HoldsSlot(s.threads[t])) == s.slots + One(HoldsSlot(s'.threads[t])) &&
    s'.fired - s.fired + One(s'.threads[t].CallIt?) - One(s.threads[t].CallIt?) == s'.marks - s.marks
  }

  predicate SlotAvailable(s: State, t: nat) {
    t in s.threads && s.slots <= SLOTS && (HoldsSlot(s.threads[t]) ==> s.slots > 0)
  }

  lemma AdvanceCounts(s: State, threshold: nat, t: nat)
    requires SlotAvailable(s, t) && Advance(s, threshold, t).Some?
    ensures CountsMatch(s, Advance(s, threshold, t).value, t)
  {
  }

  lemma ChooseCounts(s: State, t: nat, a: Action)
    requires SlotAvailable(s, t) && Choose(s, t, a).Some?
    ensures CountsMatch(s, Choose(s, t, a).value, t)
  {
  }

  // The dialer and its fields, and who may be about to set ready.
  predicate DialerInv(s: State) {
    && (s.ready ==> s.dialer.Some?)
    && (s.dialer.Some? ==> s.dialer.value < |s.builds| && s.builds[s.dialer.value] == Build(s.expandedKey, s.serverIP))
  }

  predicate SetsReady(s: State, t: nat) {
    t in s.threads && (s.threads[t].ZeroCount? || s.threads[t].SetReady?)
  }

  lemma AdvanceShared(s: State, threshold: nat, t: nat)
    requires t in s.threads && DialerInv(s) && (SetsReady(s, t) ==> s.dialer.Some?) && Advance(s, threshold, t).Some?
    ensures var s' := Advance(s, threshold, t).value;
      DialerInv(s') && (s.dialer.Some? ==> s'.dialer.Some?) && (SetsReady(s', t) ==> s'.dialer.Some?) && Spends(s, s')
  {
  }

  lemma ChooseShared(s: State, t: nat, a: Action)
    requires t in s.threads && DialerInv(s) && Choose(s, t, a).Some?
    ensures var s' := Choose(s, t, a).value;
      DialerInv(s') && s'.dialer == s.dialer && !SetsReady(s', t) && Spends(s, s')
  {
  }

  lemma StepKeepsInv(s: State, threshold: nat, t: nat, a: Action)
    requires Inv(s)
    ensures Inv(Step(s, threshold, t, a)) && Spends(s, Step(s, threshold, t, a))
  {
    if Next(s, threshold, t, a).Some? {
      var s' := Step(s, threshold, t, a);
      CountsMove(s, t, s.threads[t]);
      if HoldsSlot(s.threads[t]) {
        assert t in Holders(s);
      }
      if a == Proceed {
        AdvanceCounts(s, threshold, t);
        AdvanceShared(s, threshold, t);
      } else {
        ChooseCounts(s, t, a);
        ChooseShared(s, t, a);
      }
      CountsMove(s, t, s'.threads[t]);
      SameThreadsSameCounts(Move(s, t, s'.threads[t]), s');
    }
  }

  // Under every interleaving of any number of threads the invariant holds.
  lemma {:induction false} RunKeepsInv(s: State, threshold: nat, steps: Schedule)
    requires Inv(s)
    ensures Inv(Run(s, threshold, steps)) && Spends(s, Run(s, threshold, steps))
    decreases |steps|
  {
    if steps != [] {
      StepKeepsInv(s, threshold, steps[0].0, steps[0].1);
      RunKeepsInv(Step(s, threshold, steps[0].0, steps[0].1), threshold, steps[1..]);
    }
  }

  lemma InitialInv(s: State)
    requires Initial(s)
    ensures Inv(s)
  {
    assert Holders(s) == {};
    assert Pending(s) == {};
  }

  // In every reachable state: at most 8 dials hold a slot and the counter says
  // exactly how many; a thread about to release finds a slot to take back, so
  // the default branch of release is unreachable; ready implies a dialer built
  // with the current key and server.
  lemma Reachable(s: State, threshold: nat, steps: Schedule)
    requires Initial(s)
    ensures var r := Run(s, threshold, steps);
      r.slots == |Holders(r)| <= 8 &&
      (forall t :: t in r.threads && r.threads[t].Release? ==> r.slots > 0) &&
      (r.ready ==> r.dialer.Some? && r.dialer.value < |r.builds| &&
                   r.builds[r.dialer.value] == Build(r.expandedKey, r.serverIP)) &&
      r.fired <= r.marks <= r.rebuilds
  {
    InitialInv(s);
    RunKeepsInv(s, threshold, steps);
    var r := Run(s, threshold, steps);
    forall t | t in r.threads && r.threads[t].Release?
      ensures r.slots > 0
    {
      assert t in Holders(r);
    }
  }

  // Between two successful rebuilds the client is marked unready at most once,
  // and OnUnready is called at most once more than calls were pending at the start.
  lemma EpochSignals(s: State, threshold: nat, steps: Schedule)
    requires Inv(s) && Run(s, threshold, steps).rebuilds == s.rebuilds
    ensures var r := Run(s, threshold, steps);
      r.marks - s.marks <= (if s.ready then 1 else 0) &&
      r.fired - s.fired <= |Pending(s)| + (if s.ready then 1 else 0)
  {
    RunKeepsInv(s, threshold, steps);
  }

  lemma {:induction false} RunConcat(s: State, threshold: nat, a: Schedule, b: Schedule)
    ensures Run(s, threshold, a + b) == Run(Run(s, threshold, a), threshold, b)
    decreases |a|
  {
    if a == [] {
      assert a + b == b;
    } else {
      assert (a + b)[1..] == a[1..] + b;
      RunConcat(Step(s, threshold, a[0].0, a[0].1), threshold, a[1..], b);
    }
  }

  lemma RunCons(s: State, threshold: nat, t: nat, a: Action, rest: Schedule)
    ensures Run(s, threshold, [(t, a)] + rest) == Run(Step(s, threshold, t, a), threshold, rest)
  {
    assert ([(t, a)] + rest)[1..] == rest;
  }

  // ---- How often OnUnready is called between two rebuilds ----

  predicate Rebuilding(p: Place) {
    p.Publish? || p.ZeroCount? || p.SetReady?
  }

  // The next action of a thread whose dials keep failing.
  function Failing(p: Place): Action {
    match p
    case Idle => StartDial(false)
    case DialEnter(_) => CheckReady
    case Acquire(_) => TakeSlot
    case Load(_) => LoadDialer
    case Check(_, _) => CheckDialer
    case InDial(_) => TransportError(false)
    case _ => Proceed
  }

  // How far that thread is from its OnUnready call when the next failure is the decisive one.
  function Distance(p: Place): nat {
    match p
    case Check(_, None) => 10
    case Release(_) => 9
    case Idle => 8
    case DialEnter(_) => 7
    case Acquire(_) => 6
    case Load(_) => 5
    case Check(_, Some(_)) => 4
    case InDial(_) => 3
    case CountIt(_) => 2
    case SwapIt(_) => 1
    case _ => 0
  }

  predicate CanFail(s: State, h: nat) {
    h in s.threads && !Rebuilding(s.threads[h]) && s.dialer.Some? && s.slots <= SLOTS &&
    (HoldsSlot(s.threads[h]) || s.slots < SLOTS) && (s.ready || s.threads[h].CallIt?)
  }

  function Missing(s: State, threshold: nat): nat {
    if threshold > s.failCount then threshold - s.failCount else 0
  }

  lemma FailingStep(s: State, threshold: nat, h: nat)
    requires CanFail(s, h) && !s.threads[h].CallIt?
    ensures var s1 := Step(s, threshold, h, Failing(s.threads[h]));
      CanFail(s1, h) && s1.threads == s.threads[h := s1.threads[h]] &&
      s1.rebuilds == s.rebuilds && s1.fired == s.fired &&
      (Missing(s1, threshold) < Missing(s, threshold) ||
       (Missing(s1, threshold) == Missing(s, threshold) && Distance(s1.threads[h]) < Distance(s.threads[h])))
  {
  }

  // A thread that finds a slot and a ready client can fail its dials until it is about to call OnUnready.
  lemma {:induction false} DriveToCall(s: State, threshold: nat, h: nat) returns (steps: Schedule)
    requires CanFail(s, h)
    ensures var r := Run(s, threshold, steps);
      h in r.threads && r.threads[h].CallIt? && r.threads == s.threads[h := r.threads[h]] &&
      r.rebuilds == s.rebuilds && r.fired == s.fired
    decreases Missing(s, threshold), Distance(s.threads[h])
  {
    if s.threads[h].CallIt? {
      steps := [];
      assert s.threads[h := s.threads[h]] == s.threads;
    } else {
      var a := Failing(s.threads[h]);
      FailingStep(s, threshold, h);
      var s1 := Step(s, threshold, h, a);
      var rest := DriveToCall(s1, threshold, h);
      steps := [(h, a)] + rest;
      RunCons(s, threshold, h, a, rest);
    }
  }

  // The largest number of OnUnready calls before the next rebuild: every
  // pending one, and one more if the client is ready and somebody can dial.
  ghost function MaxCalls(s: State): nat {
    |Pending(s)| + (if s.ready && exists t :: t in s.threads && !Rebuilding(s.threads[t]) then 1 else 0)
  }

  // A schedule without a rebuild in which OnUnready is called n times.
  ghost predicate CanCall(s: State, threshold: nat, n: nat) {
    exists steps :: Run(s, threshold, steps).rebuilds == s.rebuilds && Run(s, threshold, steps).fired == s.fired + n
  }

  lemma OneMoreCall(s: State, threshold: nat, h: nat)
    requires CanFail(s, h)
    ensures CanCall(s, threshold, 1)
  {
    var steps := DriveToCall(s, threshold, h);
    var r := Run(s, threshold, steps);
    RunConcat(s, threshold, steps, [(h, Proceed)]);
    RunCons(r, threshold, h, Proceed, []);
    assert [(h, Proceed)] + [] == [(h, Proceed)];
    assert Run(s, threshold, steps + [(h, Proceed)]).fired == s.fired + 1;
  }

  // With every slot taken, one of the threads that hold a slot can fail instead.
  lemma SomebodyFails(s: State, threshold: nat, t: nat)
    requires Inv(s) && s.ready && t in s.threads && !Rebuilding(s.threads[t])
    ensures CanCall(s, threshold, 1)
  {
    if s.slots < SLOTS {
      OneMoreCall(s, threshold, t);
    } else {
      assert Holders(s) != {};
      var h :| h in Holders(s);
      OneMoreCall(s, threshold, h);
    }
  }

  lemma CallFirst(s: State, threshold: nat, t: nat, n: nat)
    requires t in Pending(s) && CanCall(Step(s, threshold, t, Proceed), threshold, n)
    ensures CanCall(s, threshold, n + 1)
  {
    var s1 := Step(s, threshold, t, Proceed);
    var rest :| Run(s1, threshold, rest).rebuilds == s1.rebuilds && Run(s1, threshold, rest).fired == s1.fired + n;
    RunCons(s, threshold, t, Proceed, rest);
    assert Run(s, threshold, [(t, Proceed)] + rest).fired == s.fired + n + 1;
  }

  lemma {:induction false} CallsReached(s: State, threshold: nat, n: nat)
    requires Inv(s) && n <= MaxCalls(s)
    ensures CanCall(s, threshold, n)
    decreases n
  {
    if n == 0 {
      assert Run(s, threshold, []).fired == s.fired;
    } else if Pending(s) != {} {
      var t :| t in Pending(s);
      var s1 := Step(s, threshold, t, Proceed);
      StepKeepsInv(s, threshold, t, Proceed);
      CountsMove(s, t, s1.threads[t]);
      SameThreadsSameCounts(Move(s, t, s1.threads[t]), s1);
      assert t in s1.threads && !Rebuilding(s1.threads[t]);
      CallsReached(s1, threshold, n - 1);
      CallFirst(s, threshold, t, n - 1);
    } else {
      var t :| t in s.threads && !Rebuilding(s.threads[t]);
      SomebodyFails(s, threshold, t);
    }
  }

  predicate AllRebuilding(s: State) {
    forall t :: t in s.threads ==> Rebuilding(s.threads[t])
  }

  // While every thread is inside a rebuild, nothing is signalled before one of them completes.
  lemma {:induction false} OnlyRebuilds(s: State, threshold: nat, steps: Schedule)
    requires Inv(s) && AllRebuilding(s) && Run(s, threshold, steps).rebuilds == s.rebuilds
    ensures Run(s, threshold, steps).fired == s.fired
    decreases |steps|
  {
    if steps != [] {
      var s1 := Step(s, threshold, steps[0].0, steps[0].1);
      StepKeepsInv(s, threshold, steps[0].0, steps[0].1);
      RunKeepsInv(s1, threshold, steps[1..]);
      OnlyRebuilds(s1, threshold, steps[1..]);
    }
  }

  // Before the next rebuild, exactly the numbers up to MaxCalls are possible:
  // the swap of ready is exclusive, the call that follows it is not.
  lemma CallsExactly(s: State, threshold: nat, n: nat)
    requires Inv(s)
    ensures CanCall(s, threshold, n) <==> n <= MaxCalls(s)
  {
    if n <= MaxCalls(s) {
      CallsReached(s, threshold, n);
    } else if CanCall(s, threshold, n) {
      var steps :| Run(s, threshold, steps).rebuilds == s.rebuilds && Run(s, threshold, steps).fired == s.fired + n;
      EpochSignals(s, threshold, steps);
      assert AllRebuilding(s);
      OnlyRebuilds(s, threshold, steps);
      assert false;
    }
  }

  ghost predicate AtMostOneCall(s: State, threshold: nat) {
    forall steps :: Run(s, threshold, steps).rebuilds == s.rebuilds ==> Run(s, threshold, steps).fired <= s.fired + 1
  }

  // OnUnready is called at most once before the next rebuild exactly when no
  // call is pending on a ready client and at most one is pending otherwise.
  lemma AtMostOneExactly(s: State, threshold: nat)
    requires Inv(s)
    ensures AtMostOneCall(s, threshold) <==> |Pending(s)| + (if s.ready then 1 else 0) <= 1
  {
    if |Pending(s)| + (if s.ready then 1 else 0) <= 1 {
      forall steps | Run(s, threshold, steps).rebuilds == s.rebuilds
        ensures Run(s, threshold, steps).fired <= s.fired + 1
      {
        EpochSignals(s, threshold, steps);
      }
    } else {
      assert Pending(s) != {};
      var t :| t in Pending(s);
      assert t in s.threads && !Rebuilding(s.threads[t]);
      CallsReached(s, threshold, 2);
    }
  }

  // ---- Reachability of the two races ----

  ghost predicate Reaches(s: State, threshold: nat, s': State) {
    exists steps :: Run(s, threshold, steps) == s'
  }

  lemma ReachesBy(s: State, threshold: nat, steps: Schedule)
    ensures Reaches(s, threshold, Run(s, threshold, steps))
  {
  }

  lemma ReachesOn(s: State, threshold: nat, s1: State, s2: State)
    requires Reaches(s, threshold, s1) && Reaches(s1, threshold, s2)
    ensures Reaches(s, threshold, s2)
  {
    var a :| Run(s, threshold, a) == s1;
    var b :| Run(s1, threshold, b) == s2;
    RunConcat(s, threshold, a, b);
  }

  lemma ReachesStep(s: State, threshold: nat, t: nat, a: Action)
    ensures Reaches(s, threshold, Step(s, threshold, t, a))
  {
    RunCons(s, threshold, t, a, []);
    ReachesBy(s, threshold, [(t, a)] + []);
  }

  // Thread v publishes a new dialer and clears the count; ready is not yet set.
  lemma ReachesSetReady(s: State, threshold: nat, v: nat) returns (r: State)
    requires v in s.threads && s.threads[v] == Idle
    ensures Reaches(s, threshold, r) && r.threads == s.threads[v := SetReady] && r.ready == s.ready
    ensures r.dialer.Some? && r.failCount == 0 && r.slots == s.slots && r.fired == s.fired
  {
    var s1 := Step(s, threshold, v, StartApply("ss://key", NilIP));
    var s2 := Step(s1, threshold, v, Proceed);
    r := Step(s2, threshold, v, Proceed);
    ReachesStep(s, threshold, v, StartApply("ss://key", NilIP));
    ReachesStep(s1, threshold, v, Proceed);
    ReachesStep(s2, threshold, v, Proceed);
    ReachesOn(s, threshold, s1, s2);
    ReachesOn(s, threshold, s2, r);
  }

  lemma ReachesRebuilt(s: State, threshold: nat, v: nat) returns (r: State)
    requires v in s.threads && s.threads[v] == Idle
    ensures Reaches(s, threshold, r) && r.threads == s.threads && r.ready && r.dialer.Some? && r.slots == s.slots
  {
    var s1 := ReachesSetReady(s, threshold, v);
    r := Step(s1, threshold, v, Proceed);
    ReachesStep(s1, threshold, v, Proceed);
    ReachesOn(s, threshold, s1, r);
  }

  lemma ReachableInv(s: State, threshold: nat, r: State)
    requires Inv(s) && Reaches(s, threshold, r)
    ensures Inv(r)
  {
    var steps :| Run(s, threshold, steps) == r;
    RunKeepsInv(s, threshold, steps);
  }

  // Whatever the threshold, with two threads such a state is reachable: one is
  // about to call OnUnready while the other completes a rebuild.
  lemma TwoCallsInOneEpoch(s: State, threshold: nat, u: nat, v: nat)
    requires Initial(s) && u in s.threads && v in s.threads && u != v
    ensures exists r :: Reaches(s, threshold, r) && !AtMostOneCall(r, threshold)
  {
    InitialInv(s);
    var s1 := ReachesRebuilt(s, threshold, u);
    var steps := DriveToCall(s1, threshold, u);
    var s2 := Run(s1, threshold, steps);
    ReachesBy(s1, threshold, steps);
    ReachesOn(s, threshold, s1, s2);
    var r := ReachesRebuilt(s2, threshold, v);
    ReachesOn(s, threshold, s2, r);
    ReachableInv(s, threshold, r);
    assert u in Pending(r);
    AtMostOneExactly(r, threshold);
  }

  // ---- Ready with a count at the threshold ----

  // A ready client whose count is at the threshold is about to be marked unready.
  predicate Guarded(s: State, threshold: nat) {
    s.ready && s.failCount >= threshold ==> exists t :: t in s.threads && s.threads[t].SwapIt?
  }

  // ready is set although failures were counted since the count was cleared,
  // and nobody is about to act on them.
  predicate Race(s: State, threshold: nat, t: nat, a: Action) {
    t in s.threads && s.threads[t] == SetReady && a == Proceed && s.failCount >= threshold &&
    forall u :: u in s.threads ==> !s.threads[u].SwapIt?
  }

  // What the step of one thread means for the guard.
  predicate GuardStep(s: State, s': State, threshold: nat, t: nat) {
    t in s.threads && t in s'.threads && s'.threads == s.threads[t := s'.threads[t]] &&
    (s.threads[t].SwapIt? ==> !s'.ready) &&
    (s'.ready && s'.failCount >= threshold ==>
      s'.threads[t].SwapIt? || (s.ready && s.failCount >= threshold) ||
      (s.threads[t] == SetReady && s.failCount >= threshold)) &&
    (s.threads[t] == SetReady && s' != s ==> s'.ready && s'.failCount == s.failCount && s'.threads[t] == Idle)
  }

  lemma AdvanceGuard(s: State, threshold: nat, t: nat)
    requires threshold > 0 && t in s.threads && Advance(s, threshold, t).Some?
    ensures GuardStep(s, Advance(s, threshold, t).value, threshold, t)
  {
  }

  lemma ChooseGuard(s: State, threshold: nat, t: nat, a: Action)
    requires threshold > 0 && t in s.threads && Choose(s, t, a).Some?
    ensures GuardStep(s, Choose(s, t, a).value, threshold, t) && s.threads[t] != SetReady
  {
  }

  // Every step keeps the guard, but for exactly one kind.
  lemma GuardExact(s: State, threshold: nat, t: nat, a: Action)
    requires threshold > 0 && Guarded(s, threshold)
    ensures Guarded(Step(s, threshold, t, a), threshold) <==> !Race(s, threshold, t, a)
  {
    if Next(s, threshold, t, a).Some? {
      if a == Proceed {
        AdvanceGuard(s, threshold, t);
      } else {
        ChooseGuard(s, threshold, t, a);
      }
      GuardTransfer(s, Next(s, threshold, t, a).value, threshold, t);
    }
  }

  lemma GuardTransfer(s: State, s': State, threshold: nat, t: nat)
    requires threshold > 0 && Guarded(s, threshold) && GuardStep(s, s', threshold, t)
    ensures Guarded(s', threshold) <==>
      !(s.threads[t] == SetReady && s' != s && s.failCount >= threshold &&
        forall u :: u in s.threads ==> !s.threads[u].SwapIt?)
  {
    forall u | u in s.threads && u != t
      ensures u in s'.threads && s'.threads[u] == s.threads[u]
    {
    }
    assert t in s'.threads;
  }

  ghost predicate GuardedThroughout(s: State, threshold: nat, steps: Schedule) {
    forall k :: 0 <= k <= |steps| ==> Guarded(Run(s, threshold, steps[..k]), threshold)
  }

  ghost predicate RaceFree(s: State, threshold: nat, steps: Schedule) {
    forall k :: 0 <= k < |steps| ==> !Race(Run(s, threshold, steps[..k]), threshold, steps[k].0, steps[k].1)
  }

  lemma RunSnoc(s: State, threshold: nat, steps: Schedule, k: nat)
    requires k < |steps|
    ensures Run(s, threshold, steps[..k + 1]) ==
      Step(Run(s, threshold, steps[..k]), threshold, steps[k].0, steps[k].1)
  {
    var r := Run(s, threshold, steps[..k]);
    assert steps[..k + 1] == steps[..k] + ([(steps[k].0, steps[k].1)] + []);
    RunConcat(s, threshold, steps[..k], [(steps[k].0, steps[k].1)] + []);
    RunCons(r, threshold, steps[k].0, steps[k].1, []);
  }

  lemma {:induction false} RaceFreePrefix(s: State, threshold: nat, steps: Schedule, k: nat)
    requires threshold > 0 && Guarded(s, threshold) && RaceFree(s, threshold, steps) && k <= |steps|
    ensures Guarded(Run(s, threshold, steps[..k]), threshold)
  {
    if k > 0 {
      RaceFreePrefix(s, threshold, steps, k - 1);
      RunSnoc(s, threshold, steps, k - 1);
      GuardExact(Run(s, threshold, steps[..k - 1]), threshold, steps[k - 1].0, steps[k - 1].1);
    }
  }

  // Over every run from the initial state, a ready client with a count at the
  // threshold is always about to be marked unready if and only if no rebuild
  // sets ready over a count that has reached the threshold again.
  lemma GuardedExactly(s: State, threshold: nat, steps: Schedule)
    requires threshold > 0 && Initial(s)
    ensures GuardedThroughout(s, threshold, steps) <==> RaceFree(s, threshold, steps)
  {
    if RaceFree(s, threshold, steps) {
      forall k | 0 <= k <= |steps|
        ensures Guarded(Run(s, threshold, steps[..k]), threshold)
      {
        RaceFreePrefix(s, threshold, steps, k);
      }
    } else {
      var k :| 0 <= k < |steps| && Race(Run(s, threshold, steps[..k]), threshold, steps[k].0, steps[k].1);
      RunSnoc(s, threshold, steps, k);
      if Guarded(Run(s, threshold, steps[..k]), threshold) {
        GuardExact(Run(s, threshold, steps[..k]), threshold, steps[k].0, steps[k].1);
        assert !Guarded(Run(s, threshold, steps[..k + 1]), threshold);
      }
    }
  }

  // A failed probe of a client that is not ready: refused by the ready check, noted, not swapped.
  lemma ReachesCounted(s: State, threshold: nat, u: nat) returns (r: State)
    requires u in s.threads && s.threads[u] == Idle && !s.ready
    ensures Reaches(s, threshold, r) && r == s.(failCount := s.failCount + 1)
  {
    var s1 := Step(s, threshold, u, StartDial(true));
    var s2 := Step(s1, threshold, u, CheckReady);
    var s3 := Step(s2, threshold, u, Proceed);
    ReachesStep(s, threshold, u, StartDial(true));
    ReachesStep(s1, threshold, u, CheckReady);
    ReachesStep(s2, threshold, u, Proceed);
    ReachesOn(s, threshold, s1, s2);
    ReachesOn(s, threshold, s2, s3);
    if s3.threads[u] == Idle {
      r := s3;
    } else {
      r := Step(s3, threshold, u, Proceed);
      ReachesStep(s3, threshold, u, Proceed);
      ReachesOn(s, threshold, s3, r);
    }
    assert r.threads == s.threads;
  }

  lemma {:induction false} ReachesCount(s: State, threshold: nat, u: nat, n: nat)
    requires u in s.threads && s.threads[u] == Idle && !s.ready
    ensures Reaches(s, threshold, s.(failCount := s.failCount + n))
    decreases n
  {
    if n == 0 {
      ReachesBy(s, threshold, []);
    } else {
      var s1 := ReachesCounted(s, threshold, u);
      ReachesCount(s1, threshold, u, n - 1);
      ReachesOn(s, threshold, s1, s.(failCount := s.failCount + n));
    }
  }

  // Such a race is reachable whatever the threshold: the probes of one thread
  // fail between the two stores of another thread's rebuild.
  lemma ThresholdRace(s: State, threshold: nat, u: nat, v: nat)
    requires Initial(s) && u in s.threads && v in s.threads && u != v
    ensures exists r :: Reaches(s, threshold, r) && r.ready && !Guarded(r, threshold)
  {
    var s1 := ReachesSetReady(s, threshold, v);
    ReachesCount(s1, threshold, u, threshold);
    var s2 := s1.(failCount := s1.failCount + threshold);
    ReachesOn(s, threshold, s1, s2);
    var r := Step(s2, threshold, v, Proceed);
    ReachesStep(s2, threshold, v, Proceed);
    ReachesOn(s, threshold, s2, r);
    assert forall t :: t in r.threads ==> r.threads[t] == Idle;
  }

  // ---- One thread alone ----

  // The schedule in which only thread t takes steps.
  ghost function By(t: nat, acts: seq<Action>): Schedule {
    if acts == [] then [] else [(t, acts[0])] + By(t, acts[1..])
  }

  ghost function Then(s: State, threshold: nat, t: nat, acts: seq<Action>): State {
    Run(s, threshold, By(t, acts))
  }

  lemma ThenNext(s: State, threshold: nat, t: nat, a: Action, acts: seq<Action>)
    ensures Then(s, threshold, t, [a] + acts) == Then(Step(s, threshold, t, a), threshold, t, acts)
  {
    assert ([a] + acts)[1..] == acts;
    RunCons(s, threshold, t, a, By(t, acts));
  }

  lemma {:induction false} ThenConcat(s: State, threshold: nat, t: nat, a: seq<Action>, b: seq<Action>)
    ensures Then(s, threshold, t, a + b) == Then(Then(s, threshold, t, a), threshold, t, b)
    decreases |a|
  {
    if a == [] {
      assert a + b == b;
    } else {
      assert a + b == [a[0]] + (a[1..] + b) && a == [a[0]] + a[1..];
      ThenNext(s, threshold, t, a[0], a[1..] + b);
      ThenNext(s, threshold, t, a[0], a[1..]);
      ThenConcat(Step(s, threshold, t, a[0]), threshold, t, a[1..], b);
    }
  }

  lemma ThenTwo(s: State, threshold: nat, t: nat, a: Action, b: Action)
    ensures Then(s, threshold, t, [a, b]) == Step(Step(s, threshold, t, a), threshold, t, b)
  {
    assert [a, b] == [a] + ([b] + []);
    ThenNext(s, threshold, t, a, [b] + []);
    ThenNext(Step(s, threshold, t, a), threshold, t, b, []);
  }

  lemma ThenOne(s: State, threshold: nat, t: nat, a: Action)
    ensures Then(s, threshold, t, [a]) == Step(s, threshold, t, a)
  {
    assert [a] == [a] + [];
    ThenNext(s, threshold, t, a, []);
  }

  const ENTER: seq<Action> := [TakeSlot, LoadDialer] + [CheckDialer]
  const LEAVE: seq<Action> := [Proceed, Proceed] + [Proceed, Proceed]

  // A dial that finds the client ready, a slot and a dialer ...
  lemma EnterAlone(s: State, threshold: nat, t: nat, probe: bool)
    requires t in s.threads && s.threads[t] == Acquire(probe) && s.ready && s.slots < SLOTS && s.dialer.Some?
    ensures Then(s, threshold, t, ENTER) == Move(s, t, InDial(probe)).(slots := s.slots + 1)
  {
    var s1 := Step(s, threshold, t, TakeSlot);
    var s2 := Step(s1, threshold, t, LoadDialer);
    ThenConcat(s, threshold, t, [TakeSlot, LoadDialer], [CheckDialer]);
    ThenTwo(s, threshold, t, TakeSlot, LoadDialer);
    ThenOne(s2, threshold, t, CheckDialer);
    assert s2 == Move(s, t, Check(probe, s.dialer)).(slots := s.slots + 1);
  }

  // The state in which the count of a failure ends, for a thread that then does k.
  ghost function Noted(s: State, threshold: nat, t: nat, k: After): State {
    var down := s.failCount + 1 >= threshold && s.ready;
    Move(s, t, Continue(k)).(failCount := s.failCount + 1, ready := s.ready && !down,
                             marks := s.marks + One(down), fired := s.fired + One(down))
  }

  // Counting takes one to three steps; the last ones do nothing once the thread is idle.
  lemma FinishAlone(s: State, threshold: nat, t: nat)
    requires t in s.threads && s.threads[t] == CountIt(Finish)
    ensures Then(s, threshold, t, LEAVE) == Noted(s, threshold, t, Finish)
  {
    FourSteps(s, threshold, t);
  }

  lemma FourSteps(s: State, threshold: nat, t: nat)
    ensures Then(s, threshold, t, LEAVE) ==
      Step(Step(Step(Step(s, threshold, t, Proceed), threshold, t, Proceed), threshold, t, Proceed),
           threshold, t, Proceed)
  {
    var s2 := Step(Step(s, threshold, t, Proceed), threshold, t, Proceed);
    ThenConcat(s, threshold, t, [Proceed, Proceed], [Proceed, Proceed]);
    ThenTwo(s, threshold, t, Proceed, Proceed);
    ThenTwo(s2, threshold, t, Proceed, Proceed);
  }

  // ... gives its slot back, after counting a transport failure ...
  lemma CountedAlone(s: State, threshold: nat, t: nat)
    requires t in s.threads && s.threads[t] == CountIt(ReleaseThen(false)) && s.slots > 0
    ensures Then(s, threshold, t, LEAVE) ==
      Move(Noted(s, threshold, t, ReleaseThen(false)), t, Idle).(slots := s.slots - 1)
  {
    FourSteps(s, threshold, t);
  }

  // ... or before counting the failure of a probe's destination.
  lemma ReleasedAlone(s: State, threshold: nat, t: nat, note: bool)
    requires t in s.threads && s.threads[t] == Release(note) && s.slots > 0
    ensures var s' := s.(slots := s.slots - 1);
      Then(s, threshold, t, LEAVE) == if note then Noted(s', threshold, t, Finish) else Move(s', t, Idle)
  {
    FourSteps(s, threshold, t);
  }

  // The shared fields are those of the atomic client; marks and calls come together.
  ghost predicate Same(s: State, c: C.State) {
    s.ready == c.ready && s.failCount == c.failCount && s.dialer == c.dialer && s.expandedKey == c.expandedKey &&
    s.serverIP == c.serverIP && s.builds == c.builds && s.fired == c.unready
  }

  // What the outside world does to a dial with this outcome.
  ghost function Met(server: IP, o: DialOutcome): Action {
    match o
    case NoSlot(e) => GiveUp(!IsTransportFailure(server, e))
    case Dialed(None) => DialSucceeds
    case Dialed(Some(e)) => if IsTransportFailure(server, e) then TransportError(false) else DestinationError
  }

  ghost function DialActs(c: C.State, probe: bool, o: DialOutcome): seq<Action> {
    [StartDial(probe), CheckReady] +
    ((if c.ready && o.Dialed? then ENTER else []) + ((if c.ready then [Met(c.serverIP, o)] else []) + LEAVE))
  }

  // With no other thread in between, a dial and a probe do exactly what the
  // atomic operations do, and give their slot back.
  lemma DialAlone(s: State, c: C.State, cfg: Settings, t: nat, probe: bool, o: DialOutcome)
    requires t in s.threads && s.threads[t] == Idle && s.slots < SLOTS
    requires Same(s, c) && C.Inv(c, cfg) && (probe ==> cfg.probeAddr != "")
    ensures var r := Then(s, Threshold(cfg), t, DialActs(c, probe, o));
      r.threads == s.threads && r.slots == s.slots && r.rebuilds == s.rebuilds &&
      Same(r, if probe then ProbeStep(c, cfg, o).state else DialStep(c, cfg, o).state)
  {
    var k := Threshold(cfg);
    var s1 := Then(s, k, t, [StartDial(probe), CheckReady]);
    ThenConcat(s, k, t, [StartDial(probe), CheckReady],
      (if c.ready && o.Dialed? then ENTER else []) + ((if c.ready then [Met(c.serverIP, o)] else []) + LEAVE));
    ThenTwo(s, k, t, StartDial(probe), CheckReady);
    if c.ready && o.Dialed? {
      assert s1 == Move(s, t, Acquire(probe));
      DialedAlone(s, s1, c, cfg, t, probe, o);
    } else if c.ready {
      assert s1 == Move(s, t, Acquire(probe));
      GivenUpAlone(s, s1, c, cfg, t, probe, o);
    } else {
      assert [] + ([] + LEAVE) == LEAVE;
      assert s1 == Move(s, t, if probe then CountIt(Finish) else Idle);
      UnreadyAlone(s, s1, c, cfg, t, probe, o);
    }
  }

  lemma UnreadyAlone(s: State, s1: State, c: C.State, cfg: Settings, t: nat, probe: bool, o: DialOutcome)
    requires t in s.threads && s.threads[t] == Idle && !c.ready
    requires Same(s, c) && C.Inv(c, cfg) && (probe ==> cfg.probeAddr != "")
    requires s1 == Move(s, t, if probe then CountIt(Finish) else Idle)
    ensures var r := Then(s1, Threshold(cfg), t, LEAVE);
      r.threads == s.threads && r.slots == s.slots && r.rebuilds == s.rebuilds &&
      Same(r, if probe then ProbeStep(c, cfg, o).state else DialStep(c, cfg, o).state)
  {
    NotReadyIsNoTransportFailure(c.serverIP);
    if probe {
      FinishAlone(s1, Threshold(cfg), t);
    } else {
      FourSteps(s1, Threshold(cfg), t);
      assert s1 == s;
    }
    assert s.threads[t := Idle] == s.threads;
  }

  lemma GivenUpAlone(s: State, s1: State, c: C.State, cfg: Settings, t: nat, probe: bool, o: DialOutcome)
    requires t in s.threads && s.threads[t] == Idle && c.ready && o.NoSlot?
    requires Same(s, c) && C.Inv(c, cfg) && (probe ==> cfg.probeAddr != "")
    requires s1 == Move(s, t, Acquire(probe))
    ensures var r := Then(s1, Threshold(cfg), t, [] + ([Met(c.serverIP, o)] + LEAVE));
      r.threads == s.threads && r.slots == s.slots && r.rebuilds == s.rebuilds &&
      Same(r, if probe then ProbeStep(c, cfg, o).state else DialStep(c, cfg, o).state)
  {
    var k := Threshold(cfg);
    assert [] + ([Met(c.serverIP, o)] + LEAVE) == [Met(c.serverIP, o)] + LEAVE;
    var s2 := Step(s1, k, t, Met(c.serverIP, o));
    ThenNext(s1, k, t, Met(c.serverIP, o), LEAVE);
    if s2.threads[t] == Idle {
      FourSteps(s2, k, t);
    } else {
      FinishAlone(s2, k, t);
    }
    assert s.threads[t := Idle] == s.threads;
  }

  lemma DialedAlone(s: State, s1: State, c: C.State, cfg: Settings, t: nat, probe: bool, o: DialOutcome)
    requires t in s.threads && s.threads[t] == Idle && c.ready && o.Dialed? && s.slots < SLOTS
    requires Same(s, c) && C.Inv(c, cfg) && (probe ==> cfg.probeAddr != "")
    requires s1 == Move(s, t, Acquire(probe))
    ensures var r := Then(s1, Threshold(cfg), t, ENTER + ([Met(c.serverIP, o)] + LEAVE));
      r.threads == s.threads && r.slots == s.slots && r.rebuilds == s.rebuilds &&
      Same(r, if probe then ProbeStep(c, cfg, o).state else DialStep(c, cfg, o).state)
  {
    var k := Threshold(cfg);
    var act := Met(c.serverIP, o);
    ThenConcat(s1, k, t, ENTER, [act] + LEAVE);
    EnterAlone(s1, k, t, probe);
    var s2 := Move(s, t, InDial(probe)).(slots := s.slots + 1);
    assert Then(s1, k, t, ENTER) == s2;
    ThenNext(s2, k, t, act, LEAVE);
    assert s.threads[t := Idle] == s.threads;
    if act.TransportError? {
      TransportAlone(s, s2, c, cfg, t, probe);
    } else {
      NoTransportAlone(s, s2, c, cfg, t, probe, o);
    }
  }

  lemma TransportAlone(s: State, s2: State, c: C.State, cfg: Settings, t: nat, probe: bool)
    requires t in s.threads && Same(s, c) && C.Inv(c, cfg) && c.ready && s.threads[t := Idle] == s.threads
    requires s2 == Move(s, t, InDial(probe)).(slots := s.slots + 1)
    ensures var r := Then(Step(s2, Threshold(cfg), t, TransportError(false)), Threshold(cfg), t, LEAVE);
      r.threads == s.threads && r.slots == s.slots && r.rebuilds == s.rebuilds && Same(r, NoteTunnelFailure(c, cfg))
  {
    var s3 := Move(s, t, CountIt(ReleaseThen(false))).(slots := s.slots + 1);
    assert Step(s2, Threshold(cfg), t, TransportError(false)) == s3;
    CountedAlone(s3, Threshold(cfg), t);
  }

  lemma NoTransportAlone(s: State, s2: State, c: C.State, cfg: Settings, t: nat, probe: bool, o: DialOutcome)
    requires t in s.threads && Same(s, c) && C.Inv(c, cfg) && c.ready && s.threads[t := Idle] == s.threads
    requires s2 == Move(s, t, InDial(probe)).(slots := s.slots + 1) && (probe ==> cfg.probeAddr != "")
    requires o.Dialed? && !Met(c.serverIP, o).TransportError?
    ensures var r := Then(Step(s2, Threshold(cfg), t, Met(c.serverIP, o)), Threshold(cfg), t, LEAVE);
      r.threads == s.threads && r.slots == s.slots && r.rebuilds == s.rebuilds &&
      Same(r, if probe then ProbeStep(c, cfg, o).state else DialStep(c, cfg, o).state)
  {
    var s3 := Step(s2, Threshold(cfg), t, Met(c.serverIP, o));
    ReleasedAlone(s3, Threshold(cfg), t, o.error_.Some? && probe);
  }

  // A dial that got its slot while the client was ready checks again: when
  // another thread clears ready in between, it gives the slot back undialed.
  lemma UnreadyMeanwhile(s: State, threshold: nat, t: nat, u: nat, probe: bool)
    requires t in s.threads && s.threads[t] == Load(probe) && u in s.threads && s.threads[u] == Idle && u != t
    ensures var r := Run(s, threshold, [(u, StoreUnready)] + By(t, [LoadDialer, CheckDialer]));
      r.threads == s.threads[t := Release(probe)] && !r.ready && r.slots == s.slots && r.failCount == s.failCount
  {
    var s1 := s.(ready := false);
    assert Move(s, u, Idle).threads == s.threads;
    RunCons(s, threshold, u, StoreUnready, By(t, [LoadDialer, CheckDialer]));
    ThenTwo(s1, threshold, t, LoadDialer, CheckDialer);
  }

  // A rebuild alone is the atomic one ...
  lemma RebuildAlone(s: State, c: C.State, threshold: nat, t: nat, key: string, o: Rebuild)
    requires t in s.threads && s.threads[t] == Idle && Same(s, c) && o.dialerOk
    ensures var r := Then(s, threshold, t, [StartApply(key, o.server), Proceed] + [Proceed, Proceed]);
      r.threads == s.threads && r.slots == s.slots && r.rebuilds == s.rebuilds + 1 &&
      Same(r, ApplyExpanded(c, key, o).state)
  {
    var built := s.(dialer := Some(|s.builds|), expandedKey := key, serverIP := o.server,
                    builds := s.builds + [Build(key, o.server)]);
    ThenConcat(s, threshold, t, [StartApply(key, o.server), Proceed], [Proceed, Proceed]);
    ThenTwo(s, threshold, t, StartApply(key, o.server), Proceed);
    var s2 := Move(built, t, ZeroCount);
    assert Step(Move(s, t, Publish(key, o.server)), threshold, t, Proceed) == s2;
    PublishedAlone(built, s2, threshold, t);
    assert s.threads[t := Idle] == s.threads;
  }

  lemma PublishedAlone(s: State, s2: State, threshold: nat, t: nat)
    requires t in s.threads && s2 == Move(s, t, ZeroCount)
    ensures Then(s2, threshold, t, [Proceed, Proceed]) ==
      Move(s, t, Idle).(failCount := 0, ready := true, rebuilds := s.rebuilds + 1)
  {
    ThenTwo(s2, threshold, t, Proceed, Proceed);
    assert Step(s2, threshold, t, Proceed) == Move(s, t, SetReady).(failCount := 0);
  }

  // ... and so are the two stores outside a rebuild.
  lemma StoresAlone(s: State, c: C.State, threshold: nat, t: nat)
    requires t in s.threads && s.threads[t] == Idle && Same(s, c)
    ensures Same(Step(s, threshold, t, StoreUnready), ClearReady(c))
    ensures Same(Step(s, threshold, t, ResetCount), c.(failCount := 0))
  {
  }
}
