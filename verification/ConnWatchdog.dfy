/** The older watchdog of rtpconn.Conn, and exactly when MediaPort's loop agrees with it. */
module ConnWatchdog {
  import opened Wrappers
  import opened Traces
  import opened Watchdog

  datatype ConnState = ConnState(packetCount: nat, start: Option<int>, initial: int, lastPackets: nat, outcome: Outcome)

  function ConnStep(s: ConnState, e: Event): ConnState {
    if s.outcome != Running then
      s
    else
      match e
      case Packet(_) => s.(packetCount := s.packetCount + 1)
      case StoreStart(_, start) => s.(start := Some(start))
      case Disable(_) => s.(start := None)
      case Close(_) => s.(outcome := Stopped)
      case Tick(at) =>
        if s.packetCount != s.lastPackets then s.(lastPackets := s.packetCount)
        else if s.start.None? then s
        else if s.lastPackets == 0 && at - s.start.value < s.initial then s
        else s.(outcome := Fired(at))
      case _ => s
  }

  class Conn {
    const timeoutInitial: int
    var packetCount: nat
    var timeoutStart: Option<int>

    constructor (mediaTimeoutInitial: int, now: int)
      ensures timeoutInitial == (if mediaTimeoutInitial <= 0 then DEFAULT_TIMEOUT_INITIAL else mediaTimeoutInitial)
      ensures packetCount == 0 && timeoutStart == Some(now)
    {
      timeoutInitial := if mediaTimeoutInitial <= 0 then DEFAULT_TIMEOUT_INITIAL else mediaTimeoutInitial;
      packetCount, timeoutStart := 0, Some(now);
    }

    method OnTimeout(trace: seq<Event>) returns (outcome: Outcome)
      modifies this
      ensures var init := ConnState(old(packetCount), old(timeoutStart), timeoutInitial, 0, Running);
              outcome == Run(ConnStep, init, trace).outcome
    {
      var lastPackets: nat := 0;
      ghost var init := ConnState(packetCount, timeoutStart, timeoutInitial, 0, Running);
      var i := 0;
      while i < |trace|
        invariant 0 <= i <= |trace|
        invariant Run(ConnStep, init, trace[..i])
               == ConnState(packetCount, timeoutStart, timeoutInitial, lastPackets, Running)
      {
        RunNext(ConnStep, init, trace, i);
        assert trace == trace[..i + 1] + trace[i + 1..];
        RunConcat(ConnStep, init, trace[..i + 1], trace[i + 1..]);
        ConnEndedStays(Run(ConnStep, init, trace[..i + 1]), trace[i + 1..]);
        match trace[i] {
          case Close(_) =>
            return Stopped;
          case Packet(_) =>
            packetCount := packetCount + 1;
          case StoreStart(_, start) =>
            timeoutStart := Some(start);
          case Disable(_) =>
            timeoutStart := None;
          case Tick(at) =>
            var curPackets := packetCount;
            if curPackets != lastPackets {
              lastPackets := curPackets;
            } else if timeoutStart.Some? {
              if lastPackets != 0 || at - timeoutStart.value >= timeoutInitial {
                return Fired(at);
              }
            }
          case _ =>
        }
        i := i + 1;
      }
      assert trace[..i] == trace;
      return Running;
    }
  }

  lemma {:induction false} ConnEndedStays(s: ConnState, trace: seq<Event>)
    ensures s.outcome != Running ==> Run(ConnStep, s, trace) == s
    decreases |trace|
  {
    if trace != [] {
      ConnEndedStays(ConnStep(s, trace[0]), trace[1..]);
    }
  }

  // ----- When the older watchdog fires and stops, read off its trace -----

  /** The packets that had arrived at the last tick. */
  function PacketsAtTick(trace: seq<Event>): nat {
    if trace == [] then 0
    else if trace[|trace| - 1].Tick? then Packets(Front(trace))
    else PacketsAtTick(Front(trace))
  }

  /** The start in force: stored at creation, or since. */
  function StartOf(created: int, trace: seq<Event>): Option<int> {
    if trace == [] then Some(created)
    else match trace[|trace| - 1]
         case StoreStart(_, start) => Some(start)
         case Disable(_) => None
         case _ => StartOf(created, Front(trace))
  }

  function NewConn(created: int, initial: int): ConnState {
    ConnState(0, Some(created), initial, 0, Running)
  }

  lemma {:induction false} ConnFollowsTrace(created: int, initial: int, trace: seq<Event>)
    ensures var o := Run(ConnStep, NewConn(created, initial), trace);
            && o.initial == initial
            && (o.outcome == Running ==>
                  o.packetCount == Packets(trace) && o.start == StartOf(created, trace)
                  && o.lastPackets == PacketsAtTick(trace))
    decreases |trace|
  {
    if trace != [] {
      var past, e := Front(trace), trace[|trace| - 1];
      assert trace == past + [e];
      ConnFollowsTrace(created, initial, past);
      RunSnoc(ConnStep, NewConn(created, initial), past, e);
    }
  }

  /** A running loop fires at a tick if and only if it is enabled, no packet came since the tick before,
      and if none ever came the start is `initial` old; it stops if and only if its connection is closed. */
  lemma ConnEndsIff(created: int, initial: int, trace: seq<Event>, e: Event)
    requires Run(ConnStep, NewConn(created, initial), trace).outcome == Running
    ensures var out := Run(ConnStep, NewConn(created, initial), trace + [e]).outcome;
            && (out.Fired? <==> && e.Tick? && StartOf(created, trace).Some?
                                && Packets(trace) == PacketsAtTick(trace)
                                && (Packets(trace) == 0 ==> e.at - StartOf(created, trace).value >= initial))
            && (out.Fired? ==> out == Fired(e.at))
            && (out == Stopped <==> e.Close?)
  {
    ConnFollowsTrace(created, initial, trace);
    RunSnoc(ConnStep, NewConn(created, initial), trace, e);
  }

  // ----- Both watchdogs, enabled at b before the first packet and never again -----

  function Old(b: int, initial: int): ConnState {
    ConnState(0, Some(b), initial, 0, Running)
  }

  function New(b: int, r: int, initial: int, general: int): State {
    State(Shared(0, Some(b), None, initial, general), Loop(0, 0, Some(r), general, Idle, Running))
  }

  /** MediaPort is in that state once its loop has processed the token of enableTimeout. */
  lemma EnabledOnce(b: int, r: int, initial: int, general: int)
    requires general > 0
    ensures Run(Step, Initially(initial, general), EnableSteps(initial, general, b) + [Reset(r)])
         == New(b, r, initial, general)
  {
    var s, es := Initially(initial, general), EnableSteps(initial, general, b);
    RunFour(Step, s, es[0], es[1], es[2], es[3]);
    RunSnoc(Step, s, es, Reset(r));
  }

  ghost predicate Media(trace: seq<Event>) {
    forall i :: 0 <= i < |trace| ==> trace[i].Packet? || trace[i].Tick?
  }

  function TickTimes(trace: seq<Event>): seq<int> {
    if trace == [] then []
    else (if trace[0].Tick? then [trace[0].at] else []) + TickTimes(trace[1..])
  }

  ghost predicate Spaced(gap: int, ts: seq<int>) {
    forall i :: 0 <= i < |ts| - 1 ==> ts[i + 1] - ts[i] >= gap
  }

  ghost predicate Agree(b: int, r: int, initial: int, general: int, trace: seq<Event>) {
    Run(Step, New(b, r, initial, general), trace).lp.outcome == Run(ConnStep, Old(b, initial), trace).outcome
  }

  /** Two loops that remember the same counters, with a next tick late enough for the newer one. */
  ghost predicate Related(n: State, o: ConnState, ts: seq<int>) {
    && n.sh.start.Some?
    && o == ConnState(n.sh.packetCount, n.sh.start, n.sh.initial, n.lp.lastPackets, n.lp.outcome)
    && n.lp.outcome == Running && n.lp.look == Idle
    && n.lp.startPackets == 0
    && n.lp.lastPackets <= n.sh.packetCount
    && (n.lp.lastPackets > 0 ==>
          n.lp.lastTime.Some? && (ts != [] ==> ts[0] - n.lp.lastTime.value >= n.sh.general))
  }

  lemma SpacedTail(gap: int, first: int, rest: seq<int>)
    requires Spaced(gap, [first] + rest)
    ensures Spaced(gap, rest) && (rest != [] ==> rest[0] - first >= gap)
  {
    var ts := [first] + rest;
    forall i | 0 <= i < |rest| - 1 ensures rest[i + 1] - rest[i] >= gap {
      var j := i + 1;
      assert ts[j + 1] - ts[j] >= gap;
    }
    if rest != [] {
      assert ts[0 + 1] - ts[0] >= gap;
    }
  }

  /** A packet or a tick leaves both loops related, or ends them alike. */
  lemma RelatedStep(n: State, o: ConnState, e: Event, rest: seq<int>)
    requires e.Packet? || e.Tick?
    requires Related(n, o, (if e.Tick? then [e.at] else []) + rest)
    requires e.Tick? && rest != [] ==> rest[0] - e.at >= n.sh.general
    ensures var n', o' := Step(n, e), ConnStep(o, e);
            && n'.sh.general == n.sh.general
            && n'.lp.outcome == o'.outcome
            && (n'.lp.outcome == Running ==> Related(n', o', rest))
  {}

  lemma {:induction false} SpacedAgree(n: State, o: ConnState, trace: seq<Event>)
    requires Media(trace) && Spaced(n.sh.general, TickTimes(trace)) && Related(n, o, TickTimes(trace))
    ensures Run(Step, n, trace).lp.outcome == Run(ConnStep, o, trace).outcome
    decreases |trace|
  {
    hide Step, ConnStep, Related;
    if trace == [] {
      EndsAlike(n, o, TickTimes(trace));
    } else {
      var n', o' := Step(n, trace[0]), ConnStep(o, trace[0]);
      var rest := TickTimes(trace[1..]);
      assert TickTimes(trace) == (if trace[0].Tick? then [trace[0].at] else []) + rest;
      if trace[0].Tick? {
        SpacedTail(n.sh.general, trace[0].at, rest);
      } else {
        assert TickTimes(trace) == rest;
      }
      RelatedStep(n, o, trace[0], rest);
      if n'.lp.outcome == Running {
        SpacedAgree(n', o', trace[1..]);
      } else {
        EndedStays(n', trace[1..]);
        ConnEndedStays(o', trace[1..]);
      }
    }
  }

  lemma EndsAlike(n: State, o: ConnState, ts: seq<int>)
    requires Related(n, o, ts)
    ensures n.lp.outcome == o.outcome
  {}

  /** A packet just before each of the first k + 1 ticks, and none after. */
  function PacketsUntil(ts: seq<int>, k: int): (trace: seq<Event>)
    ensures ts != [] ==> trace != [] && trace[0].at == ts[0]
    ensures Media(trace)
    ensures k < 0 ==> forall i :: 0 <= i < |trace| ==> trace[i].Tick?
    decreases |ts|
  {
    if ts == [] then []
    else (if k >= 0 then [Packet(ts[0]), Tick(ts[0])] else [Tick(ts[0])]) + PacketsUntil(ts[1..], k - 1)
  }

  ghost predicate Nondecreasing(ts: seq<int>) {
    forall i, j :: 0 <= i <= j < |ts| ==> ts[i] <= ts[j]
  }

  lemma OrderedCons(e: Event, trace: seq<Event>)
    requires Ordered(trace) && (trace != [] ==> e.at <= trace[0].at) && !e.Decide?
    ensures Ordered([e] + trace)
  {
    assert forall i :: 0 <= i < |trace| ==> trace[0].at <= trace[i].at;
  }

  lemma {:induction false} PacketsUntilIsOrdered(ts: seq<int>, k: int)
    requires Nondecreasing(ts)
    ensures Ordered(PacketsUntil(ts, k))
    decreases |ts|
  {
    if ts != [] {
      var rest := PacketsUntil(ts[1..], k - 1);
      PacketsUntilIsOrdered(ts[1..], k - 1);
      assert ts[1..] == [] ==> rest == [];
      OrderedCons(Tick(ts[0]), rest);
      OrderedCons(Packet(ts[0]), [Tick(ts[0])] + rest);
      assert [Packet(ts[0]), Tick(ts[0])] + rest == [Packet(ts[0])] + ([Tick(ts[0])] + rest);
    }
  }

  lemma {:induction false} PacketsUntilTickTimes(ts: seq<int>, k: int)
    ensures TickTimes(PacketsUntil(ts, k)) == ts
    decreases |ts|
  {
    if ts != [] {
      var trace, rest := PacketsUntil(ts, k), PacketsUntil(ts[1..], k - 1);
      PacketsUntilTickTimes(ts[1..], k - 1);
      if k >= 0 {
        assert trace[1..] == [Tick(ts[0])] + rest && trace[1..][1..] == rest;
      } else {
        assert trace[1..] == rest;
      }
    }
  }

  /** After the last packet the newer loop can only fire a general threshold after its last look. */
  lemma {:induction false} QuietFiresLate(n: State, trace: seq<Event>)
    requires n.lp.outcome == Running && n.lp.look == Idle
    requires n.lp.startPackets < n.lp.lastPackets == n.sh.packetCount && n.lp.lastTime.Some?
    requires forall i :: 0 <= i < |trace| ==> trace[i].Tick?
    ensures var out := Run(Step, n, trace).lp.outcome;
            out == Running || (out.Fired? && out.at - n.lp.lastTime.value >= n.sh.general)
    decreases |trace|
  {
    if trace != [] {
      var n' := Step(n, trace[0]);
      if n'.lp.outcome == Running {
        QuietFiresLate(n', trace[1..]);
      } else {
        EndedStays(n', trace[1..]);
      }
    }
  }

  lemma {:induction false} ShortGapDisagrees(n: State, o: ConnState, ts: seq<int>, k: nat)
    requires n.lp.outcome == Running && n.lp.look == Idle && n.sh.start.Some? && n.lp.startPackets == 0
    requires o == ConnState(n.sh.packetCount, n.sh.start, n.sh.initial, n.lp.lastPackets, Running)
    requires n.lp.lastPackets == n.sh.packetCount
    requires k + 1 < |ts| && ts[k + 1] - ts[k] < n.sh.general
    ensures Run(Step, n, PacketsUntil(ts, k)).lp.outcome != Run(ConnStep, o, PacketsUntil(ts, k)).outcome
    decreases k
  {
    var trace, rest := PacketsUntil(ts, k), PacketsUntil(ts[1..], k - 1);
    var n1 := Step(n, trace[0]);
    var n2 := Step(n1, trace[1]);
    var o1 := ConnStep(o, trace[0]);
    var o2 := ConnStep(o1, trace[1]);
    assert trace[1..][1..] == rest && trace[1..][0] == trace[1];
    assert Run(Step, n, trace) == Run(Step, n1, trace[1..]) == Run(Step, n2, rest);
    assert Run(ConnStep, o, trace) == Run(ConnStep, o1, trace[1..]) == Run(ConnStep, o2, rest);
    if k == 0 {
      QuietFiresLate(n2, rest);
      assert ConnStep(o2, rest[0]).outcome == Fired(ts[1]);
      ConnEndedStays(ConnStep(o2, rest[0]), rest[1..]);
    } else {
      ShortGapDisagrees(n2, o2, ts[1..], k - 1);
    }
  }

  /** The two loops agree on every arrangement of packets around the tick times ts exactly when
      consecutive ticks are at least one general threshold apart, as ideal ticks are. */
  lemma AgreeIffSpaced(b: int, r: int, initial: int, general: int, ts: seq<int>)
    requires Nondecreasing(ts)
    ensures Spaced(general, ts)
       <==> forall trace :: Media(trace) && Ordered(trace) && TickTimes(trace) == ts ==>
              Agree(b, r, initial, general, trace)
  {
    if Spaced(general, ts) {
      forall trace | Media(trace) && TickTimes(trace) == ts ensures Agree(b, r, initial, general, trace) {
        SpacedAgree(New(b, r, initial, general), Old(b, initial), trace);
      }
    } else {
      var k :| 0 <= k < |ts| - 1 && ts[k + 1] - ts[k] < general;
      ShortGapDisagrees(New(b, r, initial, general), Old(b, initial), ts, k);
      PacketsUntilIsOrdered(ts, k);
      PacketsUntilTickTimes(ts, k);
      assert !Agree(b, r, initial, general, PacketsUntil(ts, k));
    }
  }
}
