// internal/proxy/transparent.go: one connection redirected by the kernel.
module Transparent {
  import opened Text
  import opened NetAddr
  import opened Routing
  import PathDecider
  import opened Proxy

  // The destination recovered from SO_ORIGINAL_DST, restricted to IPv4.
  datatype Origin = Origin(ip: Addr, port: nat)

  datatype Env = Env(
    orig: Option<Origin>,
    clientIP: string,
    decide: Option<Option<Addr> -> PathDecider.Verdict>,
    outcome: DialOutcome)

  function EventFor(env: Env, o: Origin, v: PathDecider.Verdict, ok: bool, error: string): ConnEvent {
    ConnEvent("l3", env.clientIP, JoinHostPort(Dotted(o.ip), o.port), Dotted(o.ip), o.port, v.via, v.rule, ok, error)
  }

  // Without a decider everything goes to the tunnel.
  function VerdictFor(env: Env, o: Origin): PathDecider.Verdict {
    if env.decide.None? then PathDecider.Verdict(Tunnel, "") else env.decide.value(Some(o.ip))
  }

  function Trace(env: Env): seq<Action> {
    if env.orig.None? then []
    else
      var o := env.orig.value;
      var v := VerdictFor(env, o);
      var target := JoinHostPort(Dotted(o.ip), o.port);
      if v.via == Drop then [Record(EventFor(env, o, v, false, "dropped by routing policy"))]
      else match env.outcome(v.via, target)
        case Some(err) => [Dial(v.via, target), Record(EventFor(env, o, v, false, err))]
        case None => [Dial(v.via, target), Record(EventFor(env, o, v, true, "")), Relay(0)]
  }

  // One redirected connection, for every destination, verdict and outcome:
  // exactly one event, exactly one dial unless the verdict is to drop, by the
  // dialer of the verdict to the original destination; the event names that
  // dialer and tells whether the dial succeeded; relaying starts exactly after
  // the event of a successful dial, with nothing consumed. Without a
  // destination nothing happens.
  lemma OneEventOneDial(env: Env)
    ensures var t := Trace(env);
      CountActions(t, IsRecord) == (if env.orig.Some? then 1 else 0) &&
      CountActions(t, IsDial) == (if env.orig.Some? && VerdictFor(env, env.orig.value).via != Drop then 1 else 0) &&
      forall i :: 0 <= i < |t| ==>
        match t[i]
        case Dial(via, target) =>
          via == VerdictFor(env, env.orig.value).via &&
          target == JoinHostPort(Dotted(env.orig.value.ip), env.orig.value.port) &&
          i + 1 < |t| && t[i + 1].Record?
        case Record(e) =>
          e.via == VerdictFor(env, env.orig.value).via && e.rule == VerdictFor(env, env.orig.value).rule &&
          (e.ok <==> i > 0 && t[i - 1].Dial? && env.outcome(t[i - 1].via, t[i - 1].target).None?) &&
          (e.ok <==> i + 1 < |t| && t[i + 1].Relay?)
        case Relay(_) => i > 0 && t[i - 1].Record? && t[i - 1].event.ok
        case _ => false
  {
    var t := Trace(env);
    if |t| >= 1 {
      CountOne(t[0]);
      if |t| == 1 {
        assert t == [t[0]];
      } else {
        CountOne(t[1]);
        if |t| == 2 {
          assert t == [t[0], t[1]];
          CountTwo(t[0], t[1], IsRecord);
          CountTwo(t[0], t[1], IsDial);
        } else {
          CountOne(t[2]);
          CountThree(t, IsRecord);
          CountThree(t, IsDial);
        }
      }
    }
  }

  // The verdict asked for: the decider's for the original address, or the tunnel without one.
  ghost predicate Asked(env: Env, v: PathDecider.Verdict) {
    env.orig.Some? &&
    if env.decide.None? then v.via == Tunnel && v.rule == "" else v == env.decide.value(Some(env.orig.value.ip))
  }

  // What each event says, and that a dialed connection is relayed from its first byte.
  lemma EventExact(env: Env, v: PathDecider.Verdict, e: ConnEvent)
    requires Asked(env, v)
    ensures var o := env.orig.value;
      Record(e) in Trace(env) <==>
        e.proto == "l3" && e.clientIP == env.clientIP && e.host == Dotted(o.ip) && e.port == o.port &&
        e.target == Dotted(o.ip) + ":" + Dec(o.port) && e.via == v.via && e.rule == v.rule &&
        if v.via == Drop then !e.ok && e.error == "dropped by routing policy"
        else match env.outcome(v.via, e.target)
          case Some(err) => !e.ok && e.error == err
          case None => e.ok && e.error == ""
    ensures forall n :: Relay(n) in Trace(env) <==>
      n == 0 && v.via != Drop && env.outcome(v.via, Dotted(env.orig.value.ip) + ":" + Dec(env.orig.value.port)).None?
  {
    var o := env.orig.value;
    DottedChars(o.ip);
    assert JoinHostPort(Dotted(o.ip), o.port) == Dotted(o.ip) + ":" + Dec(o.port);
    var t := Trace(env);
    var ok := v.via != Drop && env.outcome(v.via, Dotted(o.ip) + ":" + Dec(o.port)).None?;
    assert ok ==> t[2] == Relay(0);
    assert v.via == Drop ==> t[0].Record?;
    assert v.via != Drop ==> t[1].Record?;
  }

  class Handler {
    var trace: seq<Action>

    constructor ()
      ensures trace == []
    {
      trace := [];
    }

    method Emit(a: Action)
      modifies this
      ensures trace == old(trace) + [a]
    {
      trace := trace + [a];
    }

    // Transparent.handle
    method Handle(env: Env)
      requires trace == []
      modifies this
      ensures trace == Trace(env)
    {
      if env.orig.None? {
        return;
      }
      var o := env.orig.value;
      var orig := JoinHostPort(Dotted(o.ip), o.port);
      var via := Tunnel;
      var rule := "";
      if env.decide.Some? {
        var ip := ParseIPv4(Dotted(o.ip));
        ParseDotted(o.ip);
        var v := env.decide.value(ip);
        via := v.via;
        rule := v.rule;
      }
      var verdict := PathDecider.Verdict(via, rule);
      if via == Drop {
        Emit(Record(EventFor(env, o, verdict, false, "dropped by routing policy")));
        return;
      }
      Emit(Dial(via, orig));
      var err := env.outcome(via, orig);
      if err.Some? {
        Emit(Record(EventFor(env, o, verdict, false, err.value)));
        return;
      }
      Emit(Record(EventFor(env, o, verdict, true, "")));
      Emit(Relay(0));
    }
  }
}
