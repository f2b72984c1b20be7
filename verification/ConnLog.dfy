// internal/connlog/store.go: the capacity and TTL bounded event buffer,
// refined to the full event history, and the fan-out to subscribers.
module ConnLog {

  datatype Via = ViaTunnel | ViaDirect | ViaDrop

  // Times are instants in one unit; ZERO_TIME is the unset time.
  const ZERO_TIME: int := 0

  // The fields the log stores but never looks at.
  datatype Detail = Detail(
    proto: string, clientIP: string, target: string, host: string, port: int, rule: string, error: string,
    durationMs: int)

  datatype Event = Event(id: nat, time: int, via: Via, ok: bool, detail: Detail)

  // ---- The log as a function of its history ----

  // history holds every event ever recorded; the buffer is its last "kept" events.
  datatype Log = Log(cap: nat, ttl: int, history: seq<Event>, kept: nat)

  predicate Inv(l: Log) {
    l.cap > 0 && l.kept <= l.cap && l.kept <= |l.history| &&
    forall i :: 0 <= i < |l.history| ==> l.history[i].id == i + 1
  }

  function Contents(l: Log): seq<Event>
    requires Inv(l)
  {
    l.history[|l.history| - l.kept..]
  }

  // The number of leading events older than the cutoff.
  function Expired(s: seq<Event>, cutoff: int): (n: nat)
    ensures n <= |s|
    ensures forall i :: 0 <= i < n ==> s[i].time < cutoff
    ensures n < |s| ==> s[n].time >= cutoff
  {
    if s == [] || s[0].time >= cutoff then 0 else 1 + Expired(s[1..], cutoff)
  }

  function PruneStep(l: Log, now: int): (r: Log)
    requires Inv(l)
    ensures Inv(r)
  {
    if l.ttl <= 0 then l else l.(kept := l.kept - Expired(Contents(l), now - l.ttl))
  }

  function Stamp(l: Log, e: Event, clock: int): Event {
    e.(id := |l.history| + 1, time := if e.time == ZERO_TIME then clock else e.time)
  }

  // Appends an event, dropping the oldest buffered one at capacity.
  function AppendStep(l: Log, e: Event): Log {
    Log(l.cap, l.ttl, l.history + [e], if l.kept < l.cap then l.kept + 1 else l.cap)
  }

  function RecordStep(l: Log, e: Event, clock: int): (r: Log)
    requires Inv(l)
    ensures Inv(r)
  {
    var stamped := Stamp(l, e, clock);
    AppendStep(PruneStep(l, stamped.time), stamped)
  }

  datatype Op = RecordOp(e: Event, clock: int) | PruneOp(now: int)

  function OpTime(op: Op): int {
    match op
    case RecordOp(e, clock) => if e.time == ZERO_TIME then clock else e.time
    case PruneOp(now) => now
  }

  function Step(l: Log, op: Op): (r: Log)
    requires Inv(l)
    ensures Inv(r)
  {
    match op
    case RecordOp(e, clock) => RecordStep(l, e, clock)
    case PruneOp(now) => PruneStep(l, now)
  }

  function Run(l: Log, ops: seq<Op>): (r: Log)
    requires Inv(l)
    ensures Inv(r)
    decreases |ops|
  {
    if ops == [] then l else Run(Step(l, ops[0]), ops[1..])
  }

  // IDs are consecutive up to the last one in every buffer.
  lemma BufferIds(l: Log)
    requires Inv(l)
    ensures forall i :: 0 <= i < l.kept ==> Contents(l)[i].id == |l.history| - l.kept + i + 1
  {
  }

  // ---- Exact contents under non-decreasing times ----

  function CountWithin(s: seq<Event>, cutoff: int): (n: nat)
    ensures n <= |s|
  {
    if s == [] then 0
    else CountWithin(s[..|s| - 1], cutoff) + if s[|s| - 1].time >= cutoff then 1 else 0
  }

  ghost predicate Sorted(s: seq<Event>) {
    forall i, j :: 0 <= i < j < |s| ==> s[i].time <= s[j].time
  }

  function Min(a: int, b: int): int {
    if a <= b then a else b
  }

  lemma {:induction false} AllWithin(s: seq<Event>, cutoff: int)
    requires forall i :: 0 <= i < |s| ==> s[i].time >= cutoff
    ensures CountWithin(s, cutoff) == |s|
  {
    if s != [] {
      AllWithin(s[..|s| - 1], cutoff);
    }
  }

  // Counting splits over concatenation.
  lemma {:induction false} CountConcat(a: seq<Event>, b: seq<Event>, cutoff: int)
    ensures CountWithin(a + b, cutoff) == CountWithin(a, cutoff) + CountWithin(b, cutoff)
  {
    if b == [] {
      assert a + b == a;
    } else {
      assert (a + b)[..|a + b| - 1] == a + b[..|b| - 1];
      CountConcat(a, b[..|b| - 1], cutoff);
    }
  }

  lemma {:induction false} NoneWithin(s: seq<Event>, cutoff: int)
    requires forall i :: 0 <= i < |s| ==> s[i].time < cutoff
    ensures CountWithin(s, cutoff) == 0
  {
    if s != [] {
      NoneWithin(s[..|s| - 1], cutoff);
    }
  }

  lemma SortedAfter(s: seq<Event>, cutoff: int)
    requires Sorted(s)
    ensures forall i :: Expired(s, cutoff) <= i < |s| ==> s[i].time >= cutoff
  {
    var n := Expired(s, cutoff);
    if n < |s| {
      assert forall i :: n < i < |s| ==> s[n].time <= s[i].time;
    }
  }

  lemma LateTail(h: seq<Event>, m: nat, cutoff: int)
    requires m <= |h| && forall i :: m <= i < |h| ==> h[i].time >= cutoff
    ensures CountWithin(h[m..], cutoff) == |h| - m
  {
    AllWithin(h[m..], cutoff);
  }

  lemma EarlyFront(h: seq<Event>, m: nat, cutoff: int)
    requires m <= |h| && forall i :: 0 <= i < m ==> h[i].time < cutoff
    ensures CountWithin(h[m..], cutoff) == CountWithin(h, cutoff)
  {
    assert h == h[..m] + h[m..];
    CountConcat(h[..m], h[m..], cutoff);
    NoneWithin(h[..m], cutoff);
  }

  // In a sorted list the expired events are exactly the leading ones.
  lemma SortedExpired(s: seq<Event>, cutoff: int)
    requires Sorted(s)
    ensures Expired(s, cutoff) == |s| - CountWithin(s, cutoff)
  {
    SortedAfter(s, cutoff);
    LateTail(s, Expired(s, cutoff), cutoff);
    EarlyFront(s, Expired(s, cutoff), cutoff);
  }

  lemma CountOfSuffix(h: seq<Event>, k: nat, cutoff: int)
    requires Sorted(h) && k <= |h|
    ensures CountWithin(h[|h| - k..], cutoff) == Min(k, CountWithin(h, cutoff))
  {
    var m := |h| - k;
    SortedExpired(h, cutoff);
    if Expired(h, cutoff) <= m {
      SortedAfter(h, cutoff);
      LateTail(h, m, cutoff);
    } else {
      EarlyFront(h, m, cutoff);
    }
  }

  lemma SuffixSorted(h: seq<Event>, m: nat)
    requires Sorted(h) && m <= |h|
    ensures Sorted(h[m..])
  {
  }

  lemma {:induction false} CountMonotone(h: seq<Event>, c: int, c': int)
    requires c <= c'
    ensures CountWithin(h, c') <= CountWithin(h, c)
  {
    if h != [] {
      CountMonotone(h[..|h| - 1], c, c');
    }
  }

  // The buffer holds exactly the events within TTL at the last prune, up to capacity.
  ghost predicate Exact(l: Log, last: int) {
    Inv(l) && Sorted(l.history) &&
    (forall i :: 0 <= i < |l.history| ==> l.history[i].time <= last) &&
    l.kept == Min(l.cap, CountWithin(l.history, last - l.ttl))
  }

  lemma PruneExact(l: Log, last: int, now: int)
    requires Exact(l, last) && l.ttl > 0 && last <= now
    ensures Exact(PruneStep(l, now), now)
  {
    PruneKept(l, now);
    CountMonotone(l.history, last - l.ttl, now - l.ttl);
  }

  lemma PruneKept(l: Log, now: int)
    requires Inv(l) && Sorted(l.history) && l.ttl > 0
    ensures PruneStep(l, now).kept == Min(l.kept, CountWithin(l.history, now - l.ttl))
  {
    SuffixKept(l.history, l.kept, now - l.ttl);
  }

  lemma SuffixKept(h: seq<Event>, k: nat, cutoff: int)
    requires Sorted(h) && k <= |h|
    ensures k - Expired(h[|h| - k..], cutoff) == Min(k, CountWithin(h, cutoff))
  {
    SuffixSorted(h, |h| - k);
    SortedExpired(h[|h| - k..], cutoff);
    CountOfSuffix(h, k, cutoff);
  }

  lemma StepExact(l: Log, last: int, op: Op)
    requires Exact(l, last) && l.ttl > 0 && last <= OpTime(op)
    ensures Exact(Step(l, op), OpTime(op))
  {
    PruneExact(l, last, OpTime(op));
    if op.RecordOp? {
      AppendExact(PruneStep(l, OpTime(op)), Stamp(l, op.e, op.clock));
    }
  }

  lemma AppendExact(p: Log, e: Event)
    requires Exact(p, e.time) && p.ttl > 0 && e.id == |p.history| + 1
    ensures Exact(AppendStep(p, e), e.time)
  {
    var h := p.history + [e];
    assert h[..|h| - 1] == p.history;
    SortedAppend(p.history, e);
  }

  lemma SortedAppend(h: seq<Event>, e: Event)
    requires Sorted(h) && forall i :: 0 <= i < |h| ==> h[i].time <= e.time
    ensures Sorted(h + [e])
  {
  }

  predicate NonDecreasing(last: int, ops: seq<Op>)
    decreases |ops|
  {
    ops == [] || (last <= OpTime(ops[0]) && NonDecreasing(OpTime(ops[0]), ops[1..]))
  }

  function LastTime(last: int, ops: seq<Op>): int {
    if ops == [] then last else OpTime(ops[|ops| - 1])
  }

  // Over every run with TTL on and non-decreasing times, the buffer's length
  // is min(cap, number of events within TTL at the last prune).
  lemma {:induction false} RunExact(l: Log, last: int, ops: seq<Op>)
    requires Exact(l, last) && l.ttl > 0 && NonDecreasing(last, ops)
    ensures Exact(Run(l, ops), LastTime(last, ops))
    decreases |ops|
  {
    if ops != [] {
      StepExact(l, last, ops[0]);
      RunExact(Step(l, ops[0]), OpTime(ops[0]), ops[1..]);
      assert |ops| > 1 ==> ops[1..][|ops| - 2] == ops[|ops| - 1];
    }
  }

  // ---- Statistics ----

  datatype Counts = Counts(total: nat, vpn: nat, direct: nat, ok: nat, fail: nat)

  predicate InRange(e: Event, since: int) {
    since == ZERO_TIME || e.time >= since
  }

  function CountEvent(c: Counts, e: Event, since: int): Counts {
    if !InRange(e, since) then c
    else Counts(c.total + 1,
                c.vpn + if e.via == ViaTunnel then 1 else 0,
                c.direct + if e.via == ViaDirect then 1 else 0,
                c.ok + if e.ok then 1 else 0,
                c.fail + if e.ok then 0 else 1)
  }

  function CountAll(s: seq<Event>, since: int): Counts {
    if s == [] then Counts(0, 0, 0, 0, 0) else CountEvent(CountAll(s[..|s| - 1], since), s[|s| - 1], since)
  }

  // Every counted event is in exactly one outcome class, and in exactly one
  // path class unless it was dropped.
  lemma {:induction false} CountsBalance(s: seq<Event>, since: int)
    ensures var c := CountAll(s, since);
      c.ok + c.fail == c.total && c.vpn + c.direct <= c.total &&
      (c.vpn + c.direct == c.total <==> forall i :: 0 <= i < |s| && InRange(s[i], since) ==> s[i].via != ViaDrop) &&
      (since != ZERO_TIME ==> c.total == CountWithin(s, since)) && (since == ZERO_TIME ==> c.total == |s|)
  {
    if s != [] {
      CountsBalance(s[..|s| - 1], since);
      assert s == s[..|s| - 1] + [s[|s| - 1]];
    }
  }

  // What each number is named for.
  datatype Column = Total | Vpn | DirectPath | Succeeded | Failed

  ghost predicate In(e: Event, since: int, column: Column) {
    (since == 0 || e.time >= since) &&
    match column
    case Total => true
    case Vpn => e.via == ViaTunnel
    case DirectPath => e.via == ViaDirect
    case Succeeded => e.ok
    case Failed => !e.ok
  }

  ghost function HowMany(s: seq<Event>, since: int, column: Column): nat {
    if s == [] then 0 else HowMany(s[..|s| - 1], since, column) + if In(s[|s| - 1], since, column) then 1 else 0
  }

  // Each number counts its events; an unset start counts from the beginning.
  lemma {:induction false} CountsExact(s: seq<Event>, since: int)
    ensures CountAll(s, since) == Counts(
      HowMany(s, since, Total), HowMany(s, since, Vpn), HowMany(s, since, DirectPath),
      HowMany(s, since, Succeeded), HowMany(s, since, Failed))
  {
    if s != [] {
      CountsExact(s[..|s| - 1], since);
    }
  }

  // A recorded event is stored as given, under the next ID and with the clock's
  // time if it had none, and is the newest of the buffer.
  lemma RecordExact(l: Log, e: Event, clock: int)
    requires Inv(l)
    ensures var r := RecordStep(l, e, clock);
      |r.history| == |l.history| + 1 && r.history[..|l.history|] == l.history && r.cap == l.cap && r.ttl == l.ttl &&
      var last := r.history[|l.history|];
      last.id == |l.history| + 1 && last.time == (if e.time == 0 then clock else e.time) &&
      last.via == e.via && last.ok == e.ok && last.detail == e.detail &&
      Contents(r) != [] && Contents(r)[|Contents(r)| - 1] == last
  {
  }

  // Whatever the order of the times, a prune drops only expired events and
  // leaves an unexpired one in front; without TTL it drops nothing.
  lemma PruneDrops(l: Log, now: int)
    requires Inv(l)
    ensures var r := PruneStep(l, now);
      r.history == l.history && r.kept <= l.kept && (l.ttl <= 0 ==> r == l) &&
      (l.ttl > 0 ==>
        (forall i :: 0 <= i < l.kept - r.kept ==> Contents(l)[i].time < now - l.ttl) &&
        (r.kept > 0 ==> Contents(r)[0].time >= now - l.ttl))
  {
    var n := Expired(Contents(l), now - l.ttl);
    if l.ttl > 0 && n < l.kept {
      assert Contents(PruneStep(l, now))[0] == Contents(l)[n];
    }
  }

  // Over every run without TTL the buffer holds the last events up to capacity.
  lemma {:induction false} RunWithoutTTL(l: Log, ops: seq<Op>)
    requires Inv(l) && l.ttl <= 0 && l.kept == Min(l.cap, |l.history|)
    ensures var r := Run(l, ops); r.kept == Min(l.cap, |r.history|)
    decreases |ops|
  {
    if ops != [] {
      RunWithoutTTL(Step(l, ops[0]), ops[1..]);
    }
  }

  // ---- Subscribers ----

  const QUEUE: nat := 32

  // A subscriber's channel: what is queued, what was taken out, whether it is
  // open, and the part of the history recorded while it was subscribed.
  datatype Chan = Chan(queue: seq<Event>, received: seq<Event>, open: bool, joined: nat, left: nat)

  datatype Fan = Fan(history: seq<Event>, chans: map<nat, Chan>, subs: set<nat>)

  function Delivered(c: Chan): seq<Event> {
    c.received + c.queue
  }

  // A non-blocking send.
  function Offer(c: Chan, e: Event): Chan
    requires c.open
  {
    if |c.queue| < QUEUE then c.(queue := c.queue + [e]) else c
  }

  datatype FanOp = PublishOp(e: Event) | SubscribeOp(id: nat) | ReceiveOp(id: nat) | UnsubscribeOp(id: nat)

  // Every subscribed channel is open.
  predicate SubsOpen(f: Fan) {
    forall id :: id in f.subs ==> id in f.chans && f.chans[id].open
  }

  predicate FanInv(f: Fan) {
    SubsOpen(f) && forall id :: id in f.chans ==> ChanInv(f, id)
  }

  predicate ChanInv(f: Fan, id: nat)
    requires id in f.chans
  {
    var c := f.chans[id];
    |c.queue| <= QUEUE && c.joined <= End(f, id) <= |f.history| && (c.open <==> id in f.subs) &&
    Subsequence(Delivered(c), Window(f, id))
  }

  function End(f: Fan, id: nat): nat
    requires id in f.chans
  {
    if id in f.subs then |f.history| else f.chans[id].left
  }

  // The events recorded while the channel was subscribed.
  function Window(f: Fan, id: nat): seq<Event>
    requires id in f.chans
  {
    if f.chans[id].joined <= End(f, id) <= |f.history| then f.history[f.chans[id].joined..End(f, id)] else []
  }

  predicate Subsequence(a: seq<Event>, b: seq<Event>) {
    a == [] ||
    (b != [] && (Subsequence(a, b[..|b| - 1]) ||
                 (a[|a| - 1] == b[|b| - 1] && Subsequence(a[..|a| - 1], b[..|b| - 1]))))
  }

  predicate Enabled(f: Fan, op: FanOp) {
    match op
    case PublishOp(e) => true
    case SubscribeOp(id) => id !in f.chans
    case ReceiveOp(id) => id in f.chans
    case UnsubscribeOp(id) => id in f.chans
  }

  function FanStep(f: Fan, op: FanOp): Fan
    requires SubsOpen(f) && Enabled(f, op)
  {
    match op
    case PublishOp(e) =>
      Fan(f.history + [e],
          map id | id in f.chans :: if id in f.subs then Offer(f.chans[id], e) else f.chans[id],
          f.subs)
    case SubscribeOp(id) => f.(chans := f.chans[id := Chan([], [], true, |f.history|, 0)], subs := f.subs + {id})
    case ReceiveOp(id) =>
      var c := f.chans[id];
      if c.queue == [] then f
      else f.(chans := f.chans[id := c.(queue := c.queue[1..], received := c.received + [c.queue[0]])])
    case UnsubscribeOp(id) =>
      if id !in f.subs then f
      else f.(chans := f.chans[id := f.chans[id].(open := false, left := |f.history|)], subs := f.subs - {id})
  }

  lemma SubsequenceExtends(a: seq<Event>, b: seq<Event>, e: Event)
    requires Subsequence(a, b)
    ensures Subsequence(a, b + [e]) && Subsequence(a + [e], b + [e])
  {
    assert (b + [e])[..|b|] == b;
    assert (a + [e])[..|a|] == a;
  }

  lemma PublishIs(f: Fan, e: Event, f': Fan)
    requires SubsOpen(f)
    requires f'.history == f.history + [e] && f'.subs == f.subs
    requires f'.chans == map id | id in f.chans :: if id in f.subs then Offer(f.chans[id], e) else f.chans[id]
    ensures f' == FanStep(f, PublishOp(e))
  {
  }

  lemma PublishKeepsChan(f: Fan, e: Event, id: nat)
    requires SubsOpen(f) && id in f.chans && ChanInv(f, id)
    ensures var f' := FanStep(f, PublishOp(e)); id in f'.chans && ChanInv(f', id)
    ensures Delivered(FanStep(f, PublishOp(e)).chans[id]) ==
      Delivered(f.chans[id]) + (if id in f.subs && |f.chans[id].queue| < QUEUE then [e] else [])
    ensures Window(FanStep(f, PublishOp(e)), id) == Window(f, id) + (if id in f.subs then [e] else [])
  {
    var f' := FanStep(f, PublishOp(e));
    var c := f.chans[id];
    if id in f.subs {
      assert Window(f', id) == Window(f, id) + [e];
      SubsequenceExtends(Delivered(c), Window(f, id), e);
      assert |c.queue| < QUEUE ==> Delivered(f'.chans[id]) == Delivered(c) + [e];
    } else {
      assert Window(f', id) == Window(f, id);
      assert Delivered(f'.chans[id]) == Delivered(c) + [];
    }
  }

  // Every step keeps: queues of at most 32, only open channels subscribed (so
  // no send reaches a closed one), and received plus queued a subsequence of
  // the events recorded while subscribed.
  lemma FanStepKeepsInv(f: Fan, op: FanOp)
    requires FanInv(f) && Enabled(f, op)
    ensures FanInv(FanStep(f, op))
  {
    var f' := FanStep(f, op);
    forall id | id in f'.chans
      ensures ChanInv(f', id)
    {
      if op.PublishOp? {
        PublishKeepsChan(f, op.e, id);
      } else {
        OtherOpKeepsChan(f, op, id);
      }
    }
    if op.PublishOp? {
      PublishKeepsSubs(f, op.e);
    }
  }

  lemma PublishKeepsSubs(f: Fan, e: Event)
    requires SubsOpen(f)
    ensures var f' := FanStep(f, PublishOp(e)); f'.chans.Keys == f.chans.Keys && SubsOpen(f')
  {
  }

  lemma OtherOpKeepsChan(f: Fan, op: FanOp, id: nat)
    requires SubsOpen(f) && Enabled(f, op) && !op.PublishOp? && id in FanStep(f, op).chans
    requires id in f.chans ==> ChanInv(f, id)
    ensures ChanInv(FanStep(f, op), id)
    ensures id in f.chans ==>
      Delivered(FanStep(f, op).chans[id]) == Delivered(f.chans[id]) && Window(FanStep(f, op), id) == Window(f, id)
  {
    var f' := FanStep(f, op);
    if id in f.chans {
      assert Window(f', id) == Window(f, id);
      assert Delivered(f'.chans[id]) == Delivered(f.chans[id]);
    }
  }

  // A record is skipped for a subscriber only when its queue is full.
  predicate Skips(f: Fan, op: FanOp, id: nat) {
    op.PublishOp? && id in f.subs && id in f.chans && |f.chans[id].queue| >= 32
  }

  // A new subscriber starts empty and open; receiving takes the oldest queued
  // event; after leaving, the channel is closed and no record reaches it.
  lemma SubscriptionExact(f: Fan, id: nat, e: Event)
    requires FanInv(f)
    ensures id !in f.chans ==>
      var f' := FanStep(f, SubscribeOp(id));
      id in f'.subs && f'.chans[id].open && Delivered(f'.chans[id]) == [] && f'.chans[id].joined == |f.history|
    ensures id in f.chans && f.chans[id].queue != [] ==>
      var c, c' := f.chans[id], FanStep(f, ReceiveOp(id)).chans[id];
      c'.received == c.received + [c.queue[0]] && c'.queue == c.queue[1..]
    ensures id in f.chans ==>
      var f' := FanStep(f, UnsubscribeOp(id));
      id !in f'.subs && id in f'.chans && !f'.chans[id].open && Delivered(f'.chans[id]) == Delivered(f.chans[id]) &&
      SubsOpen(f') && FanStep(f', PublishOp(e)).chans[id] == f'.chans[id]
  {
    if id in f.chans {
      assert ChanInv(f, id);
      FanStepKeepsInv(f, UnsubscribeOp(id));
    }
  }

  ghost predicate EnabledRun(f: Fan, ops: seq<FanOp>)
    requires FanInv(f)
    decreases |ops|
  {
    ops == [] || (Enabled(f, ops[0]) && (FanStepKeepsInv(f, ops[0]); EnabledRun(FanStep(f, ops[0]), ops[1..])))
  }

  ghost function FanRun(f: Fan, ops: seq<FanOp>): (r: Fan)
    requires FanInv(f) && EnabledRun(f, ops)
    ensures FanInv(r)
    decreases |ops|
  {
    if ops == [] then f else
      FanStepKeepsInv(f, ops[0]);
      FanRun(FanStep(f, ops[0]), ops[1..])
  }

  ghost function SkipCount(f: Fan, ops: seq<FanOp>, id: nat): nat
    requires FanInv(f) && EnabledRun(f, ops)
    decreases |ops|
  {
    if ops == [] then 0 else
      FanStepKeepsInv(f, ops[0]);
      (if Skips(f, ops[0], id) then 1 else 0) + SkipCount(FanStep(f, ops[0]), ops[1..], id)
  }

  lemma StepConserves(f: Fan, op: FanOp, id: nat)
    requires FanInv(f) && Enabled(f, op) && id in f.chans
    ensures var f' := FanStep(f, op);
      id in f'.chans &&
      |Window(f', id)| - |Window(f, id)| ==
        |Delivered(f'.chans[id])| - |Delivered(f.chans[id])| + if Skips(f, op, id) then 1 else 0
  {
    var f' := FanStep(f, op);
    assert ChanInv(f, id);
    if op.PublishOp? {
      PublishKeepsChan(f, op.e, id);
    } else {
      OtherOpKeepsChan(f, op, id);
    }
  }

  // Conservation in numbers over every run: events recorded while subscribed
  // are those delivered plus those skipped; DeliveryExact says which.
  lemma {:induction false} RunConserves(f: Fan, ops: seq<FanOp>, id: nat)
    requires FanInv(f) && EnabledRun(f, ops) && id in f.chans
    ensures var f' := FanRun(f, ops);
      id in f'.chans &&
      |Window(f', id)| - |Window(f, id)| ==
        |Delivered(f'.chans[id])| - |Delivered(f.chans[id])| + SkipCount(f, ops, id)
    decreases |ops|
  {
    if ops != [] {
      StepConserves(f, ops[0], id);
      FanStepKeepsInv(f, ops[0]);
      RunConserves(FanStep(f, ops[0]), ops[1..], id);
    }
  }

  // What one step offers to the subscriber, with whether its queue was full.
  function StepOffer(f: Fan, op: FanOp, id: nat): seq<(Event, bool)> {
    if op.PublishOp? && id in f.subs then [(op.e, Skips(f, op, id))] else []
  }

  ghost function Offers(f: Fan, ops: seq<FanOp>, id: nat): seq<(Event, bool)>
    requires FanInv(f) && EnabledRun(f, ops)
    decreases |ops|
  {
    if ops == [] then [] else
      FanStepKeepsInv(f, ops[0]);
      StepOffer(f, ops[0], id) + Offers(FanStep(f, ops[0]), ops[1..], id)
  }

  function Events(offers: seq<(Event, bool)>): seq<Event> {
    if offers == [] then [] else [offers[0].0] + Events(offers[1..])
  }

  // The offers that found room, in order.
  function Taken(offers: seq<(Event, bool)>): seq<Event> {
    if offers == [] then [] else (if offers[0].1 then [] else [offers[0].0]) + Taken(offers[1..])
  }

  lemma OffersConcat(a: seq<(Event, bool)>, b: seq<(Event, bool)>)
    requires |a| <= 1
    ensures Taken(a + b) == Taken(a) + Taken(b) && Events(a + b) == Events(a) + Events(b)
  {
    if a == [] {
      assert a + b == b;
    } else {
      OneOffer(a[0].0, a[0].1);
      assert a == [(a[0].0, a[0].1)];
      assert (a + b)[1..] == b;
    }
  }

  lemma Regroup(a: seq<Event>, b: seq<Event>, c: seq<Event>)
    ensures a + b + c == a + (b + c)
  {
  }

  lemma StepDelivers(f: Fan, op: FanOp, id: nat)
    requires FanInv(f) && Enabled(f, op) && id in f.chans
    ensures var f' := FanStep(f, op);
      id in f'.chans &&
      Delivered(f'.chans[id]) == Delivered(f.chans[id]) + Taken(StepOffer(f, op, id)) &&
      Window(f', id) == Window(f, id) + Events(StepOffer(f, op, id))
  {
    assert ChanInv(f, id);
    if op.PublishOp? {
      PublishKeepsChan(f, op.e, id);
      OneOffer(op.e, Skips(f, op, id));
    } else {
      OtherOpKeepsChan(f, op, id);
    }
  }

  lemma OneOffer(e: Event, full: bool)
    ensures Taken([(e, full)]) == (if full then [] else [e]) && Events([(e, full)]) == [e]
  {
    assert [(e, full)][1..] == [];
  }

  // Event by event over every run: what the subscriber is given is exactly what
  // it was offered while its queue had room, in order; everything else that was
  // recorded while it was subscribed was offered at a full queue.
  lemma {:induction false} DeliveryExact(f: Fan, ops: seq<FanOp>, id: nat)
    requires FanInv(f) && EnabledRun(f, ops) && id in f.chans
    ensures var f' := FanRun(f, ops);
      id in f'.chans &&
      Delivered(f'.chans[id]) == Delivered(f.chans[id]) + Taken(Offers(f, ops, id)) &&
      Window(f', id) == Window(f, id) + Events(Offers(f, ops, id))
    decreases |ops|
  {
    if ops != [] {
      FanStepKeepsInv(f, ops[0]);
      StepDelivers(f, ops[0], id);
      DeliveryExact(FanStep(f, ops[0]), ops[1..], id);
      var now, later := StepOffer(f, ops[0], id), Offers(FanStep(f, ops[0]), ops[1..], id);
      OffersConcat(now, later);
      Regroup(Delivered(f.chans[id]), Taken(now), Taken(later));
      Regroup(Window(f, id), Events(now), Events(later));
    }
  }

  lemma {:induction false} SubsequenceShorter(a: seq<Event>, b: seq<Event>)
    requires Subsequence(a, b)
    ensures |a| <= |b| && (|a| == |b| ==> a == b)
  {
    if a != [] {
      var b0 := b[..|b| - 1];
      if Subsequence(a, b0) {
        SubsequenceShorter(a, b0);
      } else {
        SubsequenceShorter(a[..|a| - 1], b0);
        assert a == a[..|a| - 1] + [a[|a| - 1]];
      }
    }
  }

  // A subscriber whose queue never fills gets every event recorded since it joined.
  lemma NoSkipNoLoss(f: Fan, ops: seq<FanOp>, id: nat)
    requires FanInv(f) && EnabledRun(f, ops) && id in f.chans && SkipCount(f, ops, id) == 0
    requires Delivered(f.chans[id]) == Window(f, id)
    ensures var f' := FanRun(f, ops); id in f'.chans && Delivered(f'.chans[id]) == Window(f', id)
  {
    RunConserves(f, ops, id);
    var f' := FanRun(f, ops);
    assert ChanInv(f', id);
    SubsequenceShorter(Delivered(f'.chans[id]), Window(f', id));
  }

  ghost predicate IdsIncrease(s: seq<Event>) {
    forall i, j :: 0 <= i < j < |s| ==> s[i].id < s[j].id
  }

  lemma {:induction false} SubsequenceIds(a: seq<Event>, b: seq<Event>)
    requires Subsequence(a, b) && IdsIncrease(b)
    ensures IdsIncrease(a)
    ensures a != [] ==> b != [] && a[|a| - 1].id <= b[|b| - 1].id
  {
    if a != [] {
      var b0 := b[..|b| - 1];
      if Subsequence(a, b0) {
        SubsequenceIds(a, b0);
      } else {
        var a0 := a[..|a| - 1];
        SubsequenceIds(a0, b0);
        if a0 != [] {
          IdsBelowLast(a0);
        }
      }
    }
  }

  lemma IdsBelowLast(s: seq<Event>)
    requires IdsIncrease(s) && s != []
    ensures forall i :: 0 <= i < |s| ==> s[i].id <= s[|s| - 1].id
  {
  }

  // What a subscriber has received plus its queue is strictly increasing in ID.
  lemma DeliveredIdsIncrease(f: Fan, id: nat)
    requires FanInv(f) && id in f.chans
    requires forall i :: 0 <= i < |f.history| ==> f.history[i].id == i + 1
    ensures IdsIncrease(Delivered(f.chans[id]))
  {
    assert ChanInv(f, id);
    SliceIds(f.history, f.chans[id].joined, End(f, id));
    SubsequenceIds(Delivered(f.chans[id]), Window(f, id));
  }

  lemma SliceIds(h: seq<Event>, a: nat, b: nat)
    requires a <= b <= |h| && forall i :: 0 <= i < |h| ==> h[i].id == i + 1
    ensures IdsIncrease(h[a..b])
  {
  }

  // ---- The Store object ----

  class Store {
    const cap: nat
    const ttl: int
    const buf: array<Event>
    var len: nat
    var lastId: nat
    var chans: map<nat, Chan>
    var subs: set<nat>
    ghost var history: seq<Event>

    // The buffer is the kept suffix of the history.
    ghost predicate LogValid()
      reads this, buf
    {
      buf.Length == cap && Inv(View()) && lastId == |history| && buf[..len] == Contents(View())
    }

    ghost predicate Valid()
      reads this, buf
    {
      LogValid() && FanInv(FanView())
    }

    ghost function View(): Log
      reads this
    {
      Log(cap, ttl, history, len)
    }

    ghost function FanView(): Fan
      reads this
    {
      Fan(history, chans, subs)
    }

    // NewWithTTL: a capacity that is not positive becomes 500.
    constructor (capacity: int, ttl: int, blank: Event)
      ensures Valid() && fresh(buf)
      ensures View() == Log(if capacity <= 0 then 500 else capacity, ttl, [], 0)
      ensures FanView() == Fan([], map[], {})
    {
      var c := if capacity <= 0 then 500 else capacity;
      this.cap := c;
      this.ttl := ttl;
      this.buf := new Event[c](_ => blank);
      this.len := 0;
      this.lastId := 0;
      this.chans := map[];
      this.subs := {};
      this.history := [];
      new;
      assert buf[..len] == [];
    }

    // copy(s.buf, s.buf[i:]) followed by reslicing to the shorter length.
    method ShiftLeft(i: nat)
      requires i <= len <= buf.Length
      modifies this`len, buf
      ensures len == old(len) - i
      ensures buf[..len] == old(buf[i..len])
    {
      ghost var was := buf[..];
      var n := len - i;
      for k := 0 to n
        invariant buf[..k] == was[i..i + k]
        invariant buf[k..] == was[k..]
      {
        buf[k] := buf[k + i];
      }
      len := n;
    }

    // The loop of pruneLocked over the leading expired events.
    method CountExpired(cutoff: int) returns (i: nat)
      requires len <= buf.Length
      ensures i == Expired(buf[..len], cutoff)
    {
      i := 0;
      while i < len && buf[i].time < cutoff
        invariant 0 <= i <= len
        invariant forall k :: 0 <= k < i ==> buf[k].time < cutoff
      {
        i := i + 1;
      }
      ExpiredIs(buf[..len], cutoff, i);
    }

    // pruneLocked
    method Prune(now: int)
      requires LogValid()
      modifies this`len, buf
      ensures LogValid() && View() == PruneStep(old(View()), now)
    {
      if ttl <= 0 || len == 0 {
        return;
      }
      var i := CountExpired(now - ttl);
      if i == 0 {
        return;
      }
      ghost var contents := buf[..len];
      ShiftLeft(i);
      assert buf[..len] == contents[i..];
      TailOfSuffix(history, |contents|, i);
    }

    // The part of Record that puts the event into the buffer.
    method PushBuffer(stored: Event)
      requires len <= cap == buf.Length && cap > 0
      modifies this`len, buf
      ensures len == if old(len) < cap then old(len) + 1 else cap
      ensures len <= buf.Length
      ensures buf[..len] == (if old(len) < cap then old(buf[..len]) else old(buf[..len])[1..]) + [stored]
    {
      if len < cap {
        buf[len] := stored;
        len := len + 1;
      } else {
        // drop oldest
        assert buf[1..len] == buf[..len][1..];
        ShiftLeft(1);
        buf[len] := stored;
        len := len + 1;
      }
    }

    method Append(stored: Event)
      requires LogValid() && stored.id == lastId + 1
      modifies this`len, this`lastId, this`history, buf
      ensures LogValid() && View() == AppendStep(old(View()), stored)
    {
      AppendContents(View(), stored);
      PushBuffer(stored);
      history := history + [stored];
      lastId := stored.id;
    }

    method StoreEvent(e: Event, clock: int) returns (stored: Event)
      requires LogValid()
      modifies this`len, this`lastId, this`history, buf
      ensures LogValid()
      ensures View() == RecordStep(old(View()), e, clock) && stored == Stamp(old(View()), e, clock)
    {
      var id := lastId + 1;
      stored := e.(id := id, time := if e.time == ZERO_TIME then clock else e.time);
      ghost var before := View();
      Prune(stored.time);
      ghost var pruned := View();
      Append(stored);
      RecordParts(before, e, clock, pruned, View());
    }

    method Record(e: Event, clock: int) returns (stored: Event)
      requires Valid()
      modifies this`len, this`lastId, this`chans, this`history, buf
      ensures Valid()
      ensures View() == RecordStep(old(View()), e, clock) && stored == Stamp(old(View()), e, clock)
      ensures FanView() == FanStep(old(FanView()), PublishOp(stored))
    {
      ghost var fan := FanView();
      stored := StoreEvent(e, clock);
      FanStepKeepsInv(fan, PublishOp(stored));
      chans := FanOut(stored);
      PublishIs(fan, stored, FanView());
    }

    // The send loop over the subscribed channels.
    method FanOut(e: Event) returns (out: map<nat, Chan>)
      requires forall id :: id in subs ==> id in chans && chans[id].open
      ensures out == map id | id in chans :: if id in subs then Offer(chans[id], e) else chans[id]
    {
      out := chans;
      var todo := subs;
      while todo != {}
        invariant todo <= subs
        invariant out == map id | id in chans :: if id in subs - todo then Offer(chans[id], e) else chans[id]
      {
        var id :| id in todo;
        out := out[id := Offer(chans[id], e)];
        todo := todo - {id};
      }
    }

    // Snapshot: the last events of the pruned buffer, oldest first.
    method Snapshot(limit: int, now: int) returns (out: seq<Event>)
      requires Valid()
      modifies this`len, buf
      ensures Valid() && View() == PruneStep(old(View()), now) && FanView() == old(FanView())
      ensures |out| == if limit <= 0 || limit > View().kept then View().kept else limit
      ensures out == View().history[|View().history| - |out|..]
    {
      Prune(now);
      var n := len;
      var count := if limit <= 0 || limit > n then n else limit;
      out := buf[n - count..n];
      assert out == buf[..len][n - count..];
    }

    method Stats(since: int, now: int) returns (c: Counts)
      requires Valid()
      modifies this`len, buf
      ensures Valid() && View() == PruneStep(old(View()), now) && FanView() == old(FanView())
      ensures c == CountAll(Contents(View()), since)
    {
      Prune(now);
      c := Counts(0, 0, 0, 0, 0);
      for i := 0 to len
        invariant c == CountAll(buf[..i], since)
      {
        assert buf[..i + 1][..i] == buf[..i];
        c := CountEvent(c, buf[i], since);
      }
    }

    method Subscribe(id: nat)
      requires Valid() && id !in chans
      modifies this`chans, this`subs
      ensures Valid() && View() == old(View())
      ensures FanView() == FanStep(old(FanView()), SubscribeOp(id))
    {
      FanStepKeepsInv(FanView(), SubscribeOp(id));
      chans := chans[id := Chan([], [], true, lastId, 0)];
      subs := subs + {id};
    }

    method Unsubscribe(id: nat)
      requires Valid() && id in chans
      modifies this`chans, this`subs
      ensures Valid() && View() == old(View())
      ensures FanView() == FanStep(old(FanView()), UnsubscribeOp(id))
    {
      FanStepKeepsInv(FanView(), UnsubscribeOp(id));
      if id in subs {
        chans := chans[id := chans[id].(open := false, left := lastId)];
        subs := subs - {id};
      }
    }
  }

  lemma RecordParts(before: Log, e: Event, clock: int, pruned: Log, after: Log)
    requires Inv(before) && pruned == PruneStep(before, Stamp(before, e, clock).time)
    requires after == AppendStep(pruned, Stamp(before, e, clock))
    ensures after == RecordStep(before, e, clock)
  {
  }

  lemma TailOfSuffix(h: seq<Event>, k: nat, i: nat)
    requires i <= k <= |h|
    ensures h[|h| - k..][i..] == h[|h| - (k - i)..]
  {
  }

  lemma AppendContents(l: Log, e: Event)
    requires Inv(l) && e.id == |l.history| + 1
    ensures var r := AppendStep(l, e);
      Inv(r) && Contents(r) == (if l.kept < l.cap then Contents(l) else Contents(l)[1..]) + [e]
  {
  }

  lemma ExpiredIs(s: seq<Event>, cutoff: int, n: nat)
    requires n <= |s| && forall i :: 0 <= i < n ==> s[i].time < cutoff
    requires n < |s| ==> s[n].time >= cutoff
    ensures Expired(s, cutoff) == n
  {
  }
}
