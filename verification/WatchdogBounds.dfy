/** When the watchdog fires: two-sided bounds for ticks exactly one period apart. */
module WatchdogBounds {
  import opened Wrappers
  import opened Traces
  import opened Watchdog

  /** After time now only packets arrive, and the ticks are at next, next + period, and so on. */
  ghost predicate Ideal(period: int, now: int, next: int, trace: seq<Event>)
    decreases |trace|
  {
    trace == [] ||
    match trace[0]
    case Packet(at) => now <= at <= next && Ideal(period, at, next, trace[1..])
    case Tick(at) => at == next && Ideal(period, next, next + period, trace[1..])
    case _ => false
  }

  ghost predicate OnlyTicks(trace: seq<Event>) {
    forall i :: 0 <= i < |trace| ==> trace[i].Tick?
  }

  /** Enabled, running, and the remembered counters are not ahead of the packet counter. */
  ghost predicate Armed(s: State) {
    && s.lp.outcome == Running && s.lp.look == Idle
    && s.sh.start.Some?
    && s.lp.startPackets <= s.sh.packetCount
    && s.lp.lastPackets <= s.sh.packetCount
  }

  /** In every run a loop that still runs is armed exactly while the timeout is enabled and it waits in
      its select, and its counters
      start afresh exactly until the first packet after a processed reset. */
  lemma ArmedIffEnabled(initial: int, general: int, trace: seq<Event>)
    requires Ordered(trace) && InTurn(initial, general, trace)
    requires Run(Step, Initially(initial, general), trace).lp.outcome == Running
    ensures var s := Run(Step, Initially(initial, general), trace);
            && (Armed(s) <==> s.lp.look == Idle && EnabledSince(trace).Some?)
            && (s.lp.startPackets == s.sh.packetCount <==> Packets(trace) == PacketsAtReset(trace))
  {
    LoopInvRuns(initial, general, trace);
  }

  /** enableTimeout offers the token before it stores the start, so either may come first. */
  lemma ArmedByReset(initial: int, general: int, trace: seq<Event>, at: int)
    requires Ordered(trace) && InTurn(initial, general, trace)
    requires var s := Run(Step, Initially(initial, general), trace);
             && s.lp.outcome == Running && s.lp.look == Idle
             && s.sh.token.Some? && s.sh.token.value > 0 && s.sh.start.Some?
    ensures var s := Step(Run(Step, Initially(initial, general), trace), Reset(at));
            && Armed(s) && s.lp.startPackets == s.sh.packetCount
            && Some(s.lp.period) == Pending(trace)
  {
    LoopInvRuns(initial, general, trace);
  }

  lemma ArmedByStart(initial: int, general: int, trace: seq<Event>, at: int, later: int, start: int)
    requires Ordered(trace) && InTurn(initial, general, trace)
    requires var s := Run(Step, Initially(initial, general), trace);
             s.lp.outcome == Running && s.lp.look == Idle && s.sh.token.Some? && s.sh.token.value > 0
    ensures var s := Run(Step, Run(Step, Initially(initial, general), trace), [Reset(at), StoreStart(later, start)]);
            && Armed(s) && s.lp.startPackets == s.sh.packetCount && s.sh.start == Some(start)
            && s.lp.lastTime == Some(at) && Some(s.lp.period) == Pending(trace)
  {
    LoopInvRuns(initial, general, trace);
    RunTwo(Step, Run(Step, Initially(initial, general), trace), Reset(at), StoreStart(later, start));
  }

  /** The last packet comes at time t (trace[k]) and at least two ticks follow: the loop fires
      between one and two thresholds later. */
  lemma {:induction false} FiresAfterLastPacket(s: State, now: int, next: int, trace: seq<Event>, k: nat)
    requires Armed(s) && s.sh.general > 0 && next - now <= s.sh.general
    requires Ideal(s.sh.general, now, next, trace)
    requires k + 2 < |trace| && trace[k].Packet? && OnlyTicks(trace[k + 1..])
    requires Run(Step, s, trace[..k]).lp.outcome == Running
    ensures exists f :: trace[k].at + s.sh.general <= f <= trace[k].at + 2 * s.sh.general
                        && Run(Step, s, trace).lp.outcome == Fired(f)
    decreases |trace|
  {
    var t := Step(s, trace[0]);
    if k == 0 {
      var u := Step(t, trace[1]);
      assert trace[1] == trace[1..][0] && trace[2] == trace[1..][1];
      assert trace[1..][1..] == trace[2..] && trace[2] == trace[2..][0];
      var f := next + s.sh.general;
      assert Ideal(s.sh.general, trace[0].at, next, trace[1..]);
      assert Ideal(s.sh.general, next, f, trace[2..]);
      assert trace[1] == Tick(next) && trace[2] == Tick(f);
      assert Step(u, trace[2]).lp.outcome == Fired(f);
      assert trace[2..][1..] == trace[3..];
      EndedStays(Step(u, trace[2]), trace[3..]);
      assert Run(Step, t, trace[1..]) == Run(Step, u, trace[2..]);
    } else {
      assert trace[..k][1..] == trace[1..][..k - 1] && trace[..k][0] == trace[0];
      if t.lp.outcome != Running {
        EndedStays(t, trace[1..][..k - 1]);
      }
      assert trace[1..][k - 1] == trace[k] && trace[1..][k..] == trace[k + 1..];
      match trace[0]
      case Packet(at) => FiresAfterLastPacket(t, at, next, trace[1..], k - 1);
      case Tick(at) => FiresAfterLastPacket(t, next, next + s.sh.general, trace[1..], k - 1);
    }
  }

  /** No packet and no stale counter: the first tick that is `initial` after the start fires. */
  lemma {:induction false} FiresWhenQuiet(s: State, now: int, next: int, trace: seq<Event>)
    requires Armed(s) && s.lp.lastPackets == s.lp.startPackets == s.sh.packetCount && s.sh.general > 0
    requires Ideal(s.sh.general, now, next, trace) && OnlyTicks(trace)
    requires trace != [] && trace[|trace| - 1].at >= s.sh.start.value + s.sh.initial
    ensures exists f :: Run(Step, s, trace).lp.outcome == Fired(f)
                        && s.sh.start.value + s.sh.initial <= f
                        && (f == next || f < s.sh.start.value + s.sh.initial + s.sh.general)
    decreases |trace|
  {
    var t := Step(s, trace[0]);
    if next - s.sh.start.value >= s.sh.initial {
      assert t.lp.outcome == Fired(next);
      EndedStays(t, trace[1..]);
    } else {
      assert t == s;
      FiresWhenQuiet(s, next, next + s.sh.general, trace[1..]);
    }
  }

  /** No packet after a reset processed at time `at`, with the start stored at time b: the loop
      fires no earlier than b + I and no later than max(b + I + G, at + 2G). The second bound is
      reached when the counter the loop remembers is stale and uses up the first tick. */
  lemma FiresAfterReset(s: State, at: int, trace: seq<Event>)
    requires Armed(s) && s.lp.startPackets == s.sh.packetCount && s.sh.general > 0
    requires Ideal(s.sh.general, at, at + s.sh.general, trace) && OnlyTicks(trace)
    requires |trace| >= 2 && trace[|trace| - 1].at >= s.sh.start.value + s.sh.initial
    ensures var b, I, G := s.sh.start.value, s.sh.initial, s.sh.general;
            exists f :: Run(Step, s, trace).lp.outcome == Fired(f)
                        && b + I <= f && (f <= b + I + G || f <= at + 2 * G)
  {
    if s.lp.lastPackets == s.sh.packetCount {
      FiresWhenQuiet(s, at, at + s.sh.general, trace);
    } else {
      assert trace[0] == Tick(at + s.sh.general);
      FiresWhenQuiet(Step(s, trace[0]), at + s.sh.general, at + 2 * s.sh.general, trace[1..]);
    }
  }

  /** The 2G term cannot be dropped: with thresholds 1 and 10, one packet before the reset that
      no tick has seen, and a start at the time of the reset, the loop fires only at 2G. */
  lemma StaleCounterUsesUpATick(at: int)
    ensures var s := State(Shared(1, Some(at), None, 1, 10), Loop(0, 1, Some(at), 10, Idle, Running));
            && Run(Step, Initially(1, 10), [Packet(at), OfferReset(at, 10), StoreStart(at, at), Reset(at)]) == s
            && Run(Step, s, [Tick(at + 10), Tick(at + 20)]).lp.outcome == Fired(at + 20)
            && at + 20 > at + s.sh.initial + s.sh.general
  {
    var init := Initially(1, 10);
    var es := [Packet(at), OfferReset(at, 10), StoreStart(at, at), Reset(at)];
    RunFour(Step, init, es[0], es[1], es[2], es[3]);
    RunTwo(Step, Run(Step, init, es), Tick(at + 10), Tick(at + 20));
  }
}
