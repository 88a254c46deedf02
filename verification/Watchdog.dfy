/** The media-timeout watchdog of MediaPort: an event loop over ticks and reset tokens that
    reads the packet counter and the two thresholds, while other goroutines change them. */
module Watchdog {
  import opened Wrappers
  import opened Traces

  // time.Since of the zero time.Time saturates at the largest time.Duration.
  const MAX_DURATION: int := 0x7fff_ffff_ffff_ffff

  // Durations are in nanoseconds.
  const DEFAULT_TIMEOUT_INITIAL: int := 30_000_000_000
  const DEFAULT_TIMEOUT: int := 15_000_000_000

  /** One atomic step of the goroutines that share a MediaPort, with the time it happens.
      The first six belong to other goroutines; the start that is stored was read from the clock some
      time before. The others belong to the loop. Its select takes a token, a tick or the end; handling a
      token or a tick takes several steps: it loads the packet counter, and then either stamps the time or
      loads the start and decides by a clock read some time before. Reset and Tick are a token and a tick
      handled without interruption. */
  datatype Event =
    | Packet(at: int)
    | StoreInitial(at: int, initial: int)
    | StoreGeneral(at: int, general: int)
    | OfferReset(at: int, period: int)
    | StoreStart(at: int, start: int)
    | Disable(at: int)
    | TakeToken(at: int)
    | LoadPackets(at: int)
    | Stamp(at: int)
    | LoadStart(at: int)
    | Decide(at: int, now: int)
    | Reset(at: int)
    | Tick(at: int)
    | Close(at: int)

  datatype Outcome = Running | Fired(at: int) | Stopped | Panicked

  /** What the goroutines share: the atomics of MediaPort and its one-slot reset channel. */
  datatype Shared = Shared(packetCount: nat, start: Option<int>, token: Option<int>, initial: int, general: int)

  /** Where the loop is: in its select, or in the middle of a token or of a tick. */
  datatype Look = Idle | Rearming | Changed | Quiet | Enabled(start: int)

  /** The locals of the loop, its ticker period, where it is and how it ended. */
  datatype Loop = Loop(lastPackets: nat, startPackets: nat, lastTime: Option<int>, period: int,
                       look: Look, outcome: Outcome)

  datatype State = State(sh: Shared, lp: Loop)

  function Initially(initial: int, general: int): State {
    State(Shared(0, None, None, initial, general), Loop(0, 0, None, general, Idle, Running))
  }

  /** A step of another goroutine. */
  function Interference(sh: Shared, e: Event): Shared {
    match e
    case Packet(_) => sh.(packetCount := sh.packetCount + 1)
    case StoreInitial(_, initial) => sh.(initial := initial)
    case StoreGeneral(_, general) => sh.(general := general)
    case OfferReset(_, period) => if sh.token.None? then sh.(token := Some(period)) else sh
    case StoreStart(_, start) => sh.(start := Some(start))
    case Disable(_) => sh.(start := None)
    case _ => sh
  }

  function Loaded(sh: Shared, lp: Loop): Loop {
    if lp.look == Rearming then lp.(startPackets := sh.packetCount, look := Changed)
    else if sh.packetCount != lp.lastPackets then lp.(lastPackets := sh.packetCount, look := Changed)
    else lp.(look := Quiet)
  }

  /** The last step of a tick: `now` was read before the threshold is loaded. */
  function Decided(sh: Shared, lp: Loop, start: int, at: int, now: int): Loop {
    var isInitial := lp.lastPackets == lp.startPackets;
    var since := if isInitial then now - start
                 else if lp.lastTime.None? then MAX_DURATION
                 else now - lp.lastTime.value;
    var timeout := if isInitial then sh.initial else sh.general;
    if since < timeout then lp.(look := Idle) else lp.(look := Idle, outcome := Fired(at))
  }

  /** What the tick case of the select does, without interruption. */
  function OnTick(sh: Shared, lp: Loop, at: int): Loop {
    if sh.packetCount != lp.lastPackets then lp.(lastPackets := sh.packetCount, lastTime := Some(at))
    else if sh.start.None? then lp
    else Decided(sh, lp, sh.start.value, at, at)
  }

  /** A token is received; a non-positive one makes Ticker.Reset panic. */
  function Received(s: State, token: int): State {
    if token <= 0 then State(s.sh.(token := None), s.lp.(outcome := Panicked))
    else State(s.sh.(token := None), s.lp.(period := token, look := Rearming))
  }

  predicate OfLoop(e: Event) {
    e.TakeToken? || e.LoadPackets? || e.Stamp? || e.LoadStart? || e.Decide? || e.Reset? || e.Tick? || e.Close?
  }

  /** The loop's next step may be this one. */
  predicate Ready(s: State, e: Event) {
    match e
    case TakeToken(_) => s.lp.look == Idle && s.sh.token.Some?
    case Reset(_) => s.lp.look == Idle && s.sh.token.Some?
    case Tick(_) => s.lp.look == Idle
    case Close(_) => s.lp.look == Idle
    case LoadPackets(_) => s.lp.look == Idle || s.lp.look == Rearming
    case Stamp(_) => s.lp.look == Changed
    case LoadStart(_) => s.lp.look == Quiet
    case Decide(_, _) => s.lp.look.Enabled?
    case _ => true
  }

  /** One step of the whole system; nothing is observed once the loop has ended, and a step that is not
      the loop's next does nothing. */
  function Step(s: State, e: Event): State {
    if s.lp.outcome != Running || !Ready(s, e) then
      s
    else
      match e
      case TakeToken(_) => Received(s, s.sh.token.value)
      case LoadPackets(_) => s.(lp := Loaded(s.sh, s.lp))
      case Stamp(at) => s.(lp := s.lp.(lastTime := Some(at), look := Idle))
      case LoadStart(_) => s.(lp := s.lp.(look := if s.sh.start.Some? then Enabled(s.sh.start.value) else Idle))
      case Decide(at, now) => s.(lp := Decided(s.sh, s.lp, s.lp.look.start, at, now))
      case Reset(at) =>
        var t := Received(s, s.sh.token.value);
        if t.lp.outcome == Panicked then t
        else t.(lp := t.lp.(startPackets := s.sh.packetCount, lastTime := Some(at), look := Idle))
      case Tick(at) => State(s.sh, OnTick(s.sh, s.lp, at))
      case Close(_) => s.(lp := s.lp.(outcome := Stopped))
      case _ => s.(sh := Interference(s.sh, e))
  }

  /** Reset and Tick are the steps of a token and of a tick taken in a row. */
  lemma ResetIsUninterrupted(s: State, at: int)
    requires Ready(s, Reset(at))
    ensures Step(s, Reset(at)) == Run(Step, s, [TakeToken(at), LoadPackets(at), Stamp(at)])
  {
    RunThree(Step, s, TakeToken(at), LoadPackets(at), Stamp(at));
  }

  lemma TickIsUninterrupted(s: State, at: int)
    requires Ready(s, Tick(at))
    ensures Step(s, Tick(at)) == Run(Step, s, [LoadPackets(at), Stamp(at), LoadStart(at), Decide(at, at)])
  {
    RunFour(Step, s, LoadPackets(at), Stamp(at), LoadStart(at), Decide(at, at));
  }

  /** The four steps of enableTimeout, which other goroutines may interleave. */
  function EnableSteps(initial: int, general: int, now: int): seq<Event> {
    [StoreInitial(now, initial), StoreGeneral(now, general), OfferReset(now, general), StoreStart(now, now)]
  }

  class MediaPort {
    const optInitial: int
    const optGeneral: int
    var packetCount: nat
    var timeoutStart: Option<int>
    var timeoutResetTick: Option<int>
    var timeoutInitial: int
    var timeoutGeneral: int

    ghost function Abs(): Shared
      reads this
    {
      Shared(packetCount, timeoutStart, timeoutResetTick, timeoutInitial, timeoutGeneral)
    }

    constructor (mediaTimeoutInitial: int, mediaTimeout: int)
      ensures optInitial == (if mediaTimeoutInitial <= 0 then DEFAULT_TIMEOUT_INITIAL else mediaTimeoutInitial)
      ensures optGeneral == (if mediaTimeout <= 0 then DEFAULT_TIMEOUT else mediaTimeout)
      ensures optInitial > 0 && optGeneral > 0
      ensures Abs() == Initially(optInitial, optGeneral).sh
    {
      var initial, general := mediaTimeoutInitial, mediaTimeout;
      if initial <= 0 {
        initial := DEFAULT_TIMEOUT_INITIAL;
      }
      if general <= 0 {
        general := DEFAULT_TIMEOUT;
      }
      optInitial, optGeneral := initial, general;
      timeoutInitial, timeoutGeneral := initial, general;
      packetCount, timeoutStart, timeoutResetTick := 0, None, None;
    }

    /** The step that another goroutine takes on the shared fields. */
    method Interfere(e: Event)
      modifies this
      ensures Abs() == Interference(old(Abs()), e)
    {
      match e
      case Packet(_) => packetCount := packetCount + 1;
      case StoreInitial(_, initial) => timeoutInitial := initial;
      case StoreGeneral(_, general) => timeoutGeneral := general;
      case OfferReset(_, period) =>
        if timeoutResetTick.None? {
          timeoutResetTick := Some(period);
        }
      case StoreStart(_, start) => timeoutStart := Some(start);
      case Disable(_) => timeoutStart := None;
      case _ =>
    }

    /** SetTimeout, run without interference. */
    method SetTimeout(initial: int, general: int, now: int)
      modifies this
      ensures initial <= 0 ==> Abs() == old(Abs()).(start := None)
      ensures initial > 0 ==> Abs() == Run(Interference, old(Abs()), EnableSteps(initial, general, now))
    {
      if initial <= 0 {
        timeoutStart := None;
        return;
      }
      ghost var before := Abs();
      timeoutInitial := initial;
      timeoutGeneral := general;
      if timeoutResetTick.None? {
        timeoutResetTick := Some(general);
      }
      timeoutStart := Some(now);
      EnableUnfolds(before, initial, general, now);
    }

    method EnableTimeout(enabled: bool, now: int)
      requires optInitial > 0
      modifies this
      ensures !enabled ==> Abs() == old(Abs()).(start := None)
      ensures enabled ==> Abs() == Run(Interference, old(Abs()), EnableSteps(optInitial, optGeneral, now))
    {
      if !enabled {
        timeoutStart := None;
        return;
      }
      SetTimeout(optInitial, optGeneral, now);
    }

    // What the loop does with a token and with a tick, step by step, on its locals.

    method ReceiveToken(lp: Loop) returns (next: Loop)
      requires timeoutResetTick.Some?
      modifies this`timeoutResetTick
      ensures State(Abs(), next) == Received(State(old(Abs()), lp), old(timeoutResetTick).value)
    {
      var tick := timeoutResetTick.value;
      timeoutResetTick := None;
      if tick <= 0 {
        return lp.(outcome := Panicked);
      }
      return lp.(period := tick, look := Rearming);
    }

    method LoadPacketCount(lp: Loop) returns (next: Loop)
      ensures next == Loaded(Abs(), lp)
    {
      if lp.look == Rearming {
        return lp.(startPackets := packetCount, look := Changed);
      }
      var curPackets := packetCount;
      if curPackets != lp.lastPackets {
        return lp.(lastPackets := curPackets, look := Changed);
      }
      return lp.(look := Quiet);
    }

    method DecideTimeout(lp: Loop, start: int, at: int, now: int) returns (next: Loop)
      ensures next == Decided(Abs(), lp, start, at, now)
    {
      var since, timeout;
      if lp.lastPackets == lp.startPackets {
        since, timeout := now - start, timeoutInitial;
      } else {
        since := if lp.lastTime.None? then MAX_DURATION else now - lp.lastTime.value;
        timeout := timeoutGeneral;
      }
      if since < timeout {
        return lp.(look := Idle);
      }
      return lp.(look := Idle, outcome := Fired(at));
    }

    method HandleToken(lp: Loop, at: int) returns (next: Loop)
      requires timeoutResetTick.Some? && lp.look == Idle && lp.outcome == Running
      modifies this`timeoutResetTick
      ensures State(Abs(), next) == Step(State(old(Abs()), lp), Reset(at))
    {
      next := ReceiveToken(lp);
      if next.outcome == Running {
        next := LoadPacketCount(next);
        next := next.(lastTime := Some(at), look := Idle);
      }
    }

    method HandleTick(lp: Loop, at: int) returns (next: Loop)
      requires lp.look == Idle && lp.outcome == Running
      ensures State(Abs(), next) == Step(State(Abs(), lp), Tick(at))
    {
      next := LoadPacketCount(lp);
      if next.look == Changed {
        return next.(lastTime := Some(at), look := Idle);
      }
      if timeoutStart.None? {
        return next.(look := Idle);
      }
      next := DecideTimeout(next, timeoutStart.value, at, at);
    }

    /** The next step of the trace, if it is the loop's turn. */
    method TakeStep(lp: Loop, e: Event) returns (next: Loop)
      requires lp.outcome == Running
      modifies this
      ensures State(Abs(), next) == Step(State(old(Abs()), lp), e)
    {
      next := lp;
      match e {
        case Close(_) =>
          if lp.look == Idle {
            next := lp.(outcome := Stopped);
          }
        case Reset(at) =>
          if lp.look == Idle && timeoutResetTick.Some? {
            next := HandleToken(lp, at);
          }
        case Tick(at) =>
          if lp.look == Idle {
            next := HandleTick(lp, at);
          }
        case TakeToken(_) =>
          if lp.look == Idle && timeoutResetTick.Some? {
            next := ReceiveToken(lp);
          }
        case LoadPackets(_) =>
          if lp.look == Idle || lp.look == Rearming {
            next := LoadPacketCount(lp);
          }
        case Stamp(at) =>
          if lp.look == Changed {
            next := lp.(lastTime := Some(at), look := Idle);
          }
        case LoadStart(_) =>
          if lp.look == Quiet {
            next := lp.(look := if timeoutStart.Some? then Enabled(timeoutStart.value) else Idle);
          }
        case Decide(at, now) =>
          if lp.look.Enabled? {
            next := DecideTimeout(lp, lp.look.start, at, now);
          }
        case _ =>
          Interfere(e);
      }
    }

    /** The loop, driven by the order in which the goroutines take their steps. */
    method TimeoutLoop(trace: seq<Event>) returns (outcome: Outcome)
      modifies this
      ensures var end := Run(Step, State(old(Abs()), Loop(0, 0, None, optGeneral, Idle, Running)), trace);
              outcome == end.lp.outcome && Abs() == end.sh
    {
      hide Step;
      var lp := Loop(0, 0, None, optGeneral, Idle, Running);
      ghost var init := State(Abs(), lp);
      var i := 0;
      while i < |trace|
        invariant 0 <= i <= |trace|
        invariant lp.outcome == Running && State(Abs(), lp) == Run(Step, init, trace[..i])
      {
        RunNext(Step, init, trace, i);
        lp := TakeStep(lp, trace[i]);
        if lp.outcome != Running {
          assert trace == trace[..i + 1] + trace[i + 1..];
          RunConcat(Step, init, trace[..i + 1], trace[i + 1..]);
          EndedStays(State(Abs(), lp), trace[i + 1..]);
          return lp.outcome;
        }
        i := i + 1;
      }
      assert trace[..i] == trace;
      return Running;
    }
  }

  lemma EnableUnfolds(sh: Shared, initial: int, general: int, now: int)
    ensures Run(Interference, sh, EnableSteps(initial, general, now))
         == Shared(sh.packetCount, Some(now), if sh.token.None? then Some(general) else sh.token, initial, general)
  {
    var es := EnableSteps(initial, general, now);
    RunFour(Interference, sh, es[0], es[1], es[2], es[3]);
  }

  lemma {:induction false} EndedStays(s: State, trace: seq<Event>)
    ensures s.lp.outcome != Running ==> Run(Step, s, trace) == s
    decreases |trace|
  {
    if trace != [] {
      EndedStays(Step(s, trace[0]), trace[1..]);
    }
  }

  // ----- What a trace says, read off the trace alone -----

  function Front(trace: seq<Event>): seq<Event>
    requires trace != []
  {
    trace[..|trace| - 1]
  }

  function Packets(trace: seq<Event>): nat {
    if trace == [] then 0
    else Packets(Front(trace)) + if trace[|trace| - 1].Packet? then 1 else 0
  }

  /** The last start time stored, unless the timeout was disabled after it. */
  function EnabledSince(trace: seq<Event>): Option<int> {
    if trace == [] then None
    else match trace[|trace| - 1]
         case StoreStart(_, start) => Some(start)
         case Disable(_) => None
         case _ => EnabledSince(Front(trace))
  }

  function LastInitial(trace: seq<Event>, initial: int): int {
    if trace == [] then initial
    else match trace[|trace| - 1]
         case StoreInitial(_, v) => v
         case _ => LastInitial(Front(trace), initial)
  }

  function LastGeneral(trace: seq<Event>, general: int): int {
    if trace == [] then general
    else match trace[|trace| - 1]
         case StoreGeneral(_, v) => v
         case _ => LastGeneral(Front(trace), general)
  }

  /** The token waiting in the one-slot channel: an offer to a full slot is dropped. */
  function Pending(trace: seq<Event>): Option<int> {
    if trace == [] then None
    else match trace[|trace| - 1]
         case OfferReset(_, period) => if Pending(Front(trace)).None? then Some(period) else Pending(Front(trace))
         case Reset(_) => None
         case TakeToken(_) => None
         case _ => Pending(Front(trace))
  }

  /** The loop has taken a token and not yet loaded the packet counter. */
  predicate TokenTaken(trace: seq<Event>) {
    trace != [] && var e := trace[|trace| - 1]; e.TakeToken? || (!OfLoop(e) && TokenTaken(Front(trace)))
  }

  /** The packets that had arrived when the loop last processed a token. */
  function PacketsAtReset(trace: seq<Event>): nat {
    if trace == [] then 0
    else
      var e := trace[|trace| - 1];
      if e.Reset? || (e.LoadPackets? && TokenTaken(Front(trace))) then Packets(Front(trace))
      else PacketsAtReset(Front(trace))
  }

  ghost predicate Ordered(trace: seq<Event>) {
    && (forall i, j :: 0 <= i <= j < |trace| ==> trace[i].at <= trace[j].at)
    && (forall i :: 0 <= i < |trace| && trace[i].Decide? ==> trace[i].now <= trace[i].at)
  }

  /** The loop takes its steps in the order of its code. */
  ghost predicate InTurn(initial: int, general: int, trace: seq<Event>) {
    forall i :: 0 <= i < |trace| && OfLoop(trace[i]) ==>
      Ready(Run(Step, Initially(initial, general), trace[..i]), trace[i])
  }

  /** The loop saw the counter, and stamped time t. */
  ghost predicate SeenAt(trace: seq<Event>, t: int) {
    exists j :: 0 <= j < |trace| && trace[j].at == t && (trace[j].Tick? || trace[j].Reset? || trace[j].Stamp?)
  }

  ghost predicate PacketsBy(trace: seq<Event>, t: int) {
    forall i :: 0 <= i < |trace| && trace[i].Packet? ==> trace[i].at <= t
  }

  /** What lastTime and lastPackets say about the packets of the trace. */
  ghost predicate TimeInv(trace: seq<Event>, lp: Loop) {
    && (lp.lastTime.None? ==> lp.lastPackets == 0 && lp.startPackets == 0)
    && (lp.lastTime.Some? ==> SeenAt(trace, lp.lastTime.value))
    && (lp.lastTime.Some? && lp.lastPackets == Packets(trace) ==> PacketsBy(trace, lp.lastTime.value))
  }

  ghost predicate NoLoopStep(trace: seq<Event>, from: nat) {
    forall i :: from <= i < |trace| ==> !OfLoop(trace[i])
  }

  /** The k-th event is the load of the counter in the tick that the loop is in. */
  ghost predicate CountLoadedAt(trace: seq<Event>, k: nat) {
    k < |trace| && trace[k].LoadPackets? && NoLoopStep(trace, k + 1)
  }

  /** The k-th and the m-th event are the loads of the counter and of the start in that tick. */
  ghost predicate LoadedAt(trace: seq<Event>, k: nat, m: nat) {
    k < m < |trace| && CountLoadedAt(trace[..m], k) && trace[m].LoadStart? && NoLoopStep(trace, m + 1)
  }

  /** What the loop found when it loaded the counter after those events. */
  ghost predicate Found(seen: seq<Event>, lp: Loop) {
    && lp.lastPackets == Packets(seen) && lp.startPackets == PacketsAtReset(seen) <= lp.lastPackets
    && TimeInv(seen, lp)
  }

  ghost predicate LookedAt(trace: seq<Event>, lp: Loop, k: nat) {
    CountLoadedAt(trace, k) && Found(trace[..k], lp)
  }

  ghost predicate EnabledAt(trace: seq<Event>, lp: Loop, k: nat, m: nat, start: int) {
    LoadedAt(trace, k, m) && Found(trace[..k], lp) && EnabledSince(trace[..m]) == Some(start)
  }

  /** How the loop's variables relate to the trace. */
  ghost predicate LoopInv(initial: int, general: int, trace: seq<Event>, s: State) {
    && s.sh == Shared(Packets(trace), EnabledSince(trace), Pending(trace),
                      LastInitial(trace, initial), LastGeneral(trace, general))
    && s.lp.startPackets == PacketsAtReset(trace)
    && s.lp.startPackets <= s.sh.packetCount
    && s.lp.lastPackets <= s.sh.packetCount
    && (s.lp.look == Rearming <==> TokenTaken(trace))
    && (s.lp.look != Changed ==> TimeInv(trace, s.lp))
    && (s.lp.look == Quiet ==> exists k: nat :: LookedAt(trace, s.lp, k))
    && (s.lp.look.Enabled? ==> exists k: nat, m: nat :: EnabledAt(trace, s.lp, k, m, s.lp.look.start))
  }

  lemma SeenGrows(past: seq<Event>, e: Event, t: int)
    requires SeenAt(past, t)
    ensures SeenAt(past + [e], t)
  {
    var j :| 0 <= j < |past| && past[j].at == t && (past[j].Tick? || past[j].Reset? || past[j].Stamp?);
    assert (past + [e])[j] == past[j];
  }

  lemma OrderedPrefix(past: seq<Event>, e: Event)
    requires Ordered(past + [e])
    ensures Ordered(past) && PacketsBy(past + [e], e.at)
  {
    var trace := past + [e];
    assert forall i :: 0 <= i < |past| ==> trace[i] == past[i];
    assert trace[|past|] == e;
  }

  lemma PacketsByGrows(past: seq<Event>, e: Event, t: int)
    requires PacketsBy(past, t) && !e.Packet?
    ensures PacketsBy(past + [e], t)
  {
    assert forall i :: 0 <= i < |past| ==> (past + [e])[i] == past[i];
  }

  lemma InTurnPrefix(initial: int, general: int, past: seq<Event>, e: Event)
    requires InTurn(initial, general, past + [e])
    ensures InTurn(initial, general, past)
    ensures OfLoop(e) ==> Ready(Run(Step, Initially(initial, general), past), e)
  {
    var trace := past + [e];
    assert trace[|past|] == e && trace[..|past|] == past;
    forall i | 0 <= i < |past| && OfLoop(past[i])
      ensures Ready(Run(Step, Initially(initial, general), past[..i]), past[i])
    {
      assert trace[i] == past[i] && trace[..i] == past[..i];
    }
  }

  /** What the trace says after one more event. */
  lemma TraceGrows(initial: int, general: int, past: seq<Event>, e: Event)
    ensures var trace := past + [e];
            && Packets(trace) == Packets(past) + (if e.Packet? then 1 else 0)
            && EnabledSince(trace) == (match e case StoreStart(_, start) => Some(start) case Disable(_) => None
                                               case _ => EnabledSince(past))
            && LastInitial(trace, initial) == (if e.StoreInitial? then e.initial else LastInitial(past, initial))
            && LastGeneral(trace, general) == (if e.StoreGeneral? then e.general else LastGeneral(past, general))
            && Pending(trace) == (if e.OfferReset? && Pending(past).None? then Some(e.period)
                                  else if e.Reset? || e.TakeToken? then None else Pending(past))
            && PacketsAtReset(trace) == (if e.Reset? || (e.LoadPackets? && TokenTaken(past)) then Packets(past)
                                         else PacketsAtReset(past))
            && (TokenTaken(trace) <==> e.TakeToken? || (!OfLoop(e) && TokenTaken(past)))
  {
    var trace := past + [e];
    assert Front(trace) == past && trace[|past|] == e;
  }

  lemma TimeInvGrows(past: seq<Event>, lp: Loop, e: Event)
    requires TimeInv(past, lp) && lp.lastPackets <= Packets(past)
    ensures TimeInv(past + [e], lp)
  {
    assert Front(past + [e]) == past;
    if lp.lastTime.Some? {
      SeenGrows(past, e, lp.lastTime.value);
      if !e.Packet? && lp.lastPackets == Packets(past) {
        PacketsByGrows(past, e, lp.lastTime.value);
      }
    }
  }

  lemma StampedNow(past: seq<Event>, e: Event, lp: Loop)
    requires Ordered(past + [e]) && (e.Tick? || e.Reset? || e.Stamp?) && lp.lastTime == Some(e.at)
    ensures TimeInv(past + [e], lp)
  {
    OrderedPrefix(past, e);
    assert (past + [e])[|past|] == e;
  }

  lemma LooksGrow(past: seq<Event>, e: Event, lp: Loop, k: nat, m: nat, start: int)
    requires !OfLoop(e)
    ensures LookedAt(past, lp, k) ==> LookedAt(past + [e], lp, k)
    ensures EnabledAt(past, lp, k, m, start) ==> EnabledAt(past + [e], lp, k, m, start)
  {
    var trace := past + [e];
    assert forall i :: 0 <= i < |past| ==> trace[i] == past[i];
    if k < |past| {
      assert trace[..k] == past[..k];
    }
    if m < |past| {
      assert trace[..m] == past[..m];
    }
  }

  /** The steps of other goroutines. */
  lemma OthersKeepLoopInv(initial: int, general: int, past: seq<Event>, s: State, e: Event)
    requires LoopInv(initial, general, past, s) && s.lp.outcome == Running && !OfLoop(e)
    ensures LoopInv(initial, general, past + [e], Step(s, e))
  {
    var trace := past + [e];
    TraceGrows(initial, general, past, e);
    if s.lp.look != Changed {
      TimeInvGrows(past, s.lp, e);
    }
    if s.lp.look == Quiet {
      var k: nat :| LookedAt(past, s.lp, k);
      LooksGrow(past, e, s.lp, k, 0, 0);
      assert LookedAt(trace, s.lp, k);
    }
    if s.lp.look.Enabled? {
      var k: nat, m: nat :| EnabledAt(past, s.lp, k, m, s.lp.look.start);
      LooksGrow(past, e, s.lp, k, m, s.lp.look.start);
      assert EnabledAt(trace, s.lp, k, m, s.lp.look.start);
    }
  }

  // The loop's own steps.

  lemma LoadPacketsKeeps(initial: int, general: int, past: seq<Event>, s: State, e: Event)
    requires LoopInv(initial, general, past, s) && s.lp.outcome == Running && Ready(s, e)
    requires e.LoadPackets?
    ensures LoopInv(initial, general, past + [e], Step(s, e))
  {
    var trace, t := past + [e], Step(s, e);
    TraceGrows(initial, general, past, e);
    TimeInvGrows(past, s.lp, e);
    hide Packets, EnabledSince, LastInitial, LastGeneral, Pending, PacketsAtReset, TokenTaken;
    if t.lp.look == Quiet {
      assert trace[..|past|] == past;
      assert LookedAt(trace, t.lp, |past|);
    }
  }

  lemma LoadStartKeeps(initial: int, general: int, past: seq<Event>, s: State, e: Event)
    requires LoopInv(initial, general, past, s) && s.lp.outcome == Running && Ready(s, e)
    requires e.LoadStart?
    ensures LoopInv(initial, general, past + [e], Step(s, e))
  {
    var trace, t := past + [e], Step(s, e);
    TraceGrows(initial, general, past, e);
    TimeInvGrows(past, s.lp, e);
    hide Packets, EnabledSince, LastInitial, LastGeneral, Pending, PacketsAtReset, TokenTaken;
    if t.lp.look.Enabled? {
      var k: nat :| LookedAt(past, s.lp, k);
      assert trace[..|past|] == past && trace[..k] == past[..k];
      assert EnabledAt(trace, t.lp, k, |past|, t.lp.look.start);
    }
  }

  /** A stamp, and a token and a tick without interruption. */
  lemma StampKeeps(initial: int, general: int, past: seq<Event>, s: State, e: Event)
    requires LoopInv(initial, general, past, s) && s.lp.outcome == Running && Ready(s, e)
    requires (e.Stamp? || e.Reset? || e.Tick?) && Ordered(past + [e]) && Step(s, e).lp.outcome == Running
    ensures LoopInv(initial, general, past + [e], Step(s, e))
  {
    hide Packets, EnabledSince, LastInitial, LastGeneral, Pending, PacketsAtReset, TokenTaken, TimeInv;
    var t := Step(s, e);
    TraceGrows(initial, general, past, e);
    if t.lp.lastTime == Some(e.at) {
      StampedNow(past, e, t.lp);
    } else {
      TimeInvGrows(past, s.lp, e);
    }
  }

  lemma LoopKeepsLoopInv(initial: int, general: int, past: seq<Event>, s: State, e: Event)
    requires LoopInv(initial, general, past, s) && s.lp.outcome == Running && OfLoop(e) && Ready(s, e)
    requires Ordered(past + [e]) && Step(s, e).lp.outcome == Running
    ensures LoopInv(initial, general, past + [e], Step(s, e))
  {
      hide Packets, EnabledSince, LastInitial, LastGeneral, Pending, PacketsAtReset, TokenTaken;
    if e.LoadPackets? {
      LoadPacketsKeeps(initial, general, past, s, e);
    } else if e.LoadStart? {
      LoadStartKeeps(initial, general, past, s, e);
    } else if e.Stamp? || e.Reset? || e.Tick? {
      StampKeeps(initial, general, past, s, e);
    } else {
      TraceGrows(initial, general, past, e);
      TimeInvGrows(past, s.lp, e);
    }
  }

  lemma LoopInvStep(initial: int, general: int, past: seq<Event>, s: State, e: Event)
    requires LoopInv(initial, general, past, s) && s.lp.outcome == Running
    requires Ordered(past + [e]) && (OfLoop(e) ==> Ready(s, e))
    ensures Step(s, e).lp.outcome == Running ==> LoopInv(initial, general, past + [e], Step(s, e))
  {
    if OfLoop(e) {
      if Step(s, e).lp.outcome == Running {
        LoopKeepsLoopInv(initial, general, past, s, e);
      }
    } else {
      OthersKeepLoopInv(initial, general, past, s, e);
    }
  }

  lemma {:induction false} LoopInvRuns(initial: int, general: int, trace: seq<Event>)
    requires Ordered(trace) && InTurn(initial, general, trace)
    ensures var s := Run(Step, Initially(initial, general), trace);
            s.lp.outcome == Running ==> LoopInv(initial, general, trace, s)
    decreases |trace|
  {
    if trace != [] {
      var past, e := Front(trace), trace[|trace| - 1];
      assert trace == past + [e];
      OrderedPrefix(past, e);
      InTurnPrefix(initial, general, past, e);
      LoopInvRuns(initial, general, past);
      RunSnoc(Step, Initially(initial, general), past, e);
      var s := Run(Step, Initially(initial, general), past);
      if s.lp.outcome == Running {
        LoopInvStep(initial, general, past, s, e);
      }
    }
  }

  /** The counter was loaded after the first k events and the start after the first m. The timeout was
      enabled then, and either no packet had come since the last processed reset and the start is at
      least the initial threshold old, or a packet had come and every one is at least the general
      threshold old, counted from a time that the loop stamped. */
  ghost predicate SoundAt(initial: int, general: int, trace: seq<Event>, k: nat, m: nat, now: int) {
    && k <= m <= |trace|
    && EnabledSince(trace[..m]).Some?
    && (|| (&& Packets(trace[..k]) == PacketsAtReset(trace[..k])
            && now - EnabledSince(trace[..m]).value >= LastInitial(trace, initial))
        || (&& Packets(trace[..k]) > PacketsAtReset(trace[..k])
            && exists t :: SeenAt(trace[..k], t) && PacketsBy(trace[..k], t) && now - t >= LastGeneral(trace, general)))
  }

  /** Sound at the loads of the very tick that fires, which are its last two steps before the decision; a
      tick without interruption loads at the moment of firing. */
  ghost predicate SoundlyFired(initial: int, general: int, trace: seq<Event>, e: Event) {
    match e
    case Tick(at) => SoundAt(initial, general, trace, |trace|, |trace|, at)
    case Decide(_, now) =>
      exists k: nat, m: nat :: LoadedAt(trace, k, m) && SoundAt(initial, general, trace, k, m, now)
    case _ => false
  }

  /** The event fires the loop, after a trace that could have happened. */
  ghost predicate Fires(initial: int, general: int, trace: seq<Event>, e: Event) {
    && Ordered(trace + [e]) && InTurn(initial, general, trace + [e])
    && Run(Step, Initially(initial, general), trace).lp.outcome == Running
    && Run(Step, Initially(initial, general), trace + [e]).lp.outcome.Fired?
  }

  /** Soundness over every interleaving and every spacing of the ticks, for a tick that other goroutines
      interrupt between its loads. */
  lemma FiringIsSound(initial: int, general: int, trace: seq<Event>, e: Event)
    requires Fires(initial, general, trace, e)
    ensures SoundlyFired(initial, general, trace, e)
  {
    var s := Run(Step, Initially(initial, general), trace);
    RunSnoc(Step, Initially(initial, general), trace, e);
    OrderedPrefix(trace, e);
    InTurnPrefix(initial, general, trace, e);
    LoopInvRuns(initial, general, trace);
    assert trace[..|trace|] == trace;
    if e.Tick? {
      if s.lp.lastPackets != s.lp.startPackets {
        assert SeenAt(trace, s.lp.lastTime.value) && PacketsBy(trace, s.lp.lastTime.value);
      }
    } else {
      var k: nat, m: nat :| EnabledAt(trace, s.lp, k, m, s.lp.look.start);
      if s.lp.lastPackets != s.lp.startPackets {
        assert SeenAt(trace[..k], s.lp.lastTime.value) && PacketsBy(trace[..k], s.lp.lastTime.value);
      }
      assert LoadedAt(trace, k, m) && SoundAt(initial, general, trace, k, m, e.now);
    }
  }

  /** Without interruption all this holds at the moment of firing. */
  lemma TickFiringIsSound(initial: int, general: int, trace: seq<Event>, now: int)
    requires Fires(initial, general, trace, Tick(now))
    ensures EnabledSince(trace).Some?
    ensures
      || (&& Packets(trace) == PacketsAtReset(trace)
          && now - EnabledSince(trace).value >= LastInitial(trace, initial))
      || (&& Packets(trace) > PacketsAtReset(trace)
          && exists t :: SeenAt(trace, t) && PacketsBy(trace, t) && now - t >= LastGeneral(trace, general))
  {
    FiringIsSound(initial, general, trace, Tick(now));
    assert trace[..|trace|] == trace;
  }

  /** With interruption it need not: a timeout disabled, and a packet received, after the loads still fires. */
  lemma DisableMayComeTooLate(at: int)
    ensures var looks := [StoreStart(at, at), LoadPackets(at + 5), LoadStart(at + 5)];
            var late := [Disable(at + 5), Packet(at + 5), Decide(at + 5, at + 5)];
            var t := Run(Step, Run(Step, Initially(5, 5), looks), late);
            t.lp.outcome == Fired(at + 5) && t.sh.start.None? && t.sh.packetCount == 1
  {
    RunThree(Step, Initially(5, 5), StoreStart(at, at), LoadPackets(at + 5), LoadStart(at + 5));
    var s := Run(Step, Initially(5, 5), [StoreStart(at, at), LoadPackets(at + 5), LoadStart(at + 5)]);
    assert s.lp == Loop(0, 0, None, 5, Enabled(at), Running);
    RunThree(Step, s, Disable(at + 5), Packet(at + 5), Decide(at + 5, at + 5));
  }

  /** A tick has one load of each kind. */
  lemma LoadsAreUnique(trace: seq<Event>, k: nat, m: nat, k': nat, m': nat)
    requires LoadedAt(trace, k, m) && LoadedAt(trace, k', m')
    ensures k == k' && m == m'
  {
    assert OfLoop(trace[m]) && OfLoop(trace[m']);
    assert trace[..m][k] == trace[k] && trace[..m'][k'] == trace[k'];
  }

  ghost predicate StoredAfter(trace: seq<Event>, j: nat) {
    exists i :: j < i < |trace| && trace[i].StoreStart?
  }

  /** Every disabling from the m-th event on is followed by another start. */
  ghost predicate Reenabled(trace: seq<Event>, m: nat) {
    forall j :: m <= j < |trace| && trace[j].Disable? ==> StoredAfter(trace, j)
  }

  ghost predicate NoPacketFrom(trace: seq<Event>, k: nat) {
    forall j :: k <= j < |trace| ==> !trace[j].Packet?
  }

  lemma {:induction false} EnabledIffReenabled(trace: seq<Event>, m: nat)
    requires m <= |trace| && EnabledSince(trace[..m]).Some?
    ensures EnabledSince(trace).Some? <==> Reenabled(trace, m)
    decreases |trace|
  {
    if m == |trace| {
      assert trace[..m] == trace;
    } else {
      var past, e := Front(trace), trace[|trace| - 1];
      assert past[..m] == trace[..m] && past + [e] == trace;
      EnabledIffReenabled(past, m);
      if e.StoreStart? {
        forall j | m <= j < |trace| && trace[j].Disable? ensures StoredAfter(trace, j) {
          assert trace[|trace| - 1].StoreStart?;
        }
      } else if e.Disable? {
        assert trace[|trace| - 1].Disable? && !StoredAfter(trace, |trace| - 1);
      } else {
        SameStores(past, e, m);
      }
    }
  }

  lemma SameStores(past: seq<Event>, e: Event, m: nat)
    requires !e.StoreStart? && !e.Disable?
    ensures Reenabled(past + [e], m) <==> Reenabled(past, m)
  {
    var trace := past + [e];
    assert forall i :: 0 <= i < |past| ==> trace[i] == past[i];
    forall j: nat | j < |past| ensures StoredAfter(trace, j) <==> StoredAfter(past, j) {
      if i :| j < i < |past| && past[i].StoreStart? {
        assert trace[i].StoreStart?;
      }
    }
    if Reenabled(trace, m) {
      forall j | m <= j < |past| && past[j].Disable? ensures StoredAfter(past, j) {
        assert trace[j].Disable?;
      }
    }
  }

  lemma {:induction false} SamePacketsIff(trace: seq<Event>, k: nat)
    requires k <= |trace|
    ensures Packets(trace) >= Packets(trace[..k])
    ensures Packets(trace) == Packets(trace[..k]) <==> NoPacketFrom(trace, k)
    decreases |trace|
  {
    if k == |trace| {
      assert trace[..k] == trace;
    } else {
      assert Front(trace)[..k] == trace[..k];
      SamePacketsIff(Front(trace), k);
      if NoPacketFrom(Front(trace), k) && !trace[|trace| - 1].Packet? {
        assert NoPacketFrom(trace, k);
      }
      if NoPacketFrom(trace, k) {
        assert forall j :: k <= j < |trace| - 1 ==> Front(trace)[j] == trace[j];
      }
    }
  }

  /** When an interrupted tick fires, the timeout is still enabled if and only if every disabling since it
      loaded the start was followed by another start, and the packets are still those it counted if and
      only if none came since it loaded the counter. */
  lemma StillHoldsIff(initial: int, general: int, trace: seq<Event>, e: Event, k: nat, m: nat)
    requires Fires(initial, general, trace, e) && e.Decide? && LoadedAt(trace, k, m)
    ensures SoundAt(initial, general, trace, k, m, e.now)
    ensures EnabledSince(trace).Some? <==> Reenabled(trace, m)
    ensures Packets(trace) == Packets(trace[..k]) <==> NoPacketFrom(trace, k)
  {
    FiringIsSound(initial, general, trace, e);
    var k': nat, m': nat :| LoadedAt(trace, k', m') && SoundAt(initial, general, trace, k', m', e.now);
    LoadsAreUnique(trace, k, m, k', m');
    EnabledIffReenabled(trace, m);
    SamePacketsIff(trace, k);
  }

  /** The counters the loop remembers never run ahead of the packet counter, and a loop that
      would decide on lastTime has set it: the zero time is never used. */
  lemma CountersNeverRunAhead(initial: int, general: int, trace: seq<Event>)
    requires Ordered(trace) && InTurn(initial, general, trace)
    requires Run(Step, Initially(initial, general), trace).lp.outcome == Running
    ensures var s := Run(Step, Initially(initial, general), trace);
            && s.lp.startPackets == PacketsAtReset(trace) <= s.sh.packetCount == Packets(trace)
            && s.lp.lastPackets <= s.sh.packetCount
            && (s.lp.look != Changed && s.lp.lastPackets != s.lp.startPackets ==> s.lp.lastTime.Some?)
  {
    LoopInvRuns(initial, general, trace);
  }

  // ----- How the loop ends -----

  /** The first n events leave the loop running. */
  ghost predicate RunsFor(initial: int, general: int, trace: seq<Event>, n: nat)
    requires n <= |trace|
  {
    Run(Step, Initially(initial, general), trace[..n]).lp.outcome == Running
  }

  /** The event takes a token from the channel. */
  predicate Takes(e: Event) {
    e.TakeToken? || e.Reset?
  }

  /** The port is closed when the loop looks. */
  ghost predicate ClosedAt(initial: int, general: int, trace: seq<Event>, n: nat) {
    n < |trace| && trace[n].Close? && RunsFor(initial, general, trace, n)
  }

  /** A token that is not positive is taken. */
  ghost predicate BadTokenAt(initial: int, general: int, trace: seq<Event>, n: nat) {
    && n < |trace| && Takes(trace[n]) && RunsFor(initial, general, trace, n)
    && Pending(trace[..n]).Some? && Pending(trace[..n]).value <= 0
  }

  /** What one event does to a loop that runs. */
  lemma EndingStep(initial: int, general: int, past: seq<Event>, s: State, e: Event)
    requires LoopInv(initial, general, past, s) && s.lp.outcome == Running
    requires OfLoop(e) ==> Ready(s, e)
    ensures var out := Step(s, e).lp.outcome;
            && (out == Stopped <==> e.Close?)
            && (out == Panicked <==> Takes(e) && Pending(past).Some? && Pending(past).value <= 0)
            && (out.Fired? ==> e.Tick? || e.Decide?)
  {}

  /** Over every trace in turn: the loop stops if and only if its port is closed when it looks while it
      runs, and panics if and only if it takes a token that is not positive, both read off the trace. */
  lemma {:induction false} EndsIff(initial: int, general: int, trace: seq<Event>)
    requires Ordered(trace) && InTurn(initial, general, trace)
    ensures var out := Run(Step, Initially(initial, general), trace).lp.outcome;
            && (out == Stopped <==> exists n: nat :: ClosedAt(initial, general, trace, n))
            && (out == Panicked <==> exists n: nat :: BadTokenAt(initial, general, trace, n))
            && (out.Fired? ==> forall n: nat :: !ClosedAt(initial, general, trace, n))
    decreases |trace|
  {
    if trace != [] {
      var past, e := Front(trace), trace[|trace| - 1];
      assert trace == past + [e];
      OrderedPrefix(past, e);
      InTurnPrefix(initial, general, past, e);
      EndsIff(initial, general, past);
      LoopInvRuns(initial, general, past);
      RunSnoc(Step, Initially(initial, general), past, e);
      SameBefore(initial, general, past, e);
      var s := Run(Step, Initially(initial, general), past);
      hide Step, LoopInv;
      if s.lp.outcome == Running {
        EndingStep(initial, general, past, s, e);
        assert ClosedAt(initial, general, trace, |past|) <==> e.Close?;
        assert BadTokenAt(initial, general, trace, |past|)
          <==> Takes(e) && Pending(past).Some? && Pending(past).value <= 0;
      } else {
        EndedStays(s, [e]);
        assert Run(Step, s, [e]) == Step(s, e);
      }
    }
  }

  lemma SameBefore(initial: int, general: int, past: seq<Event>, e: Event)
    ensures var trace := past + [e];
            && trace[..|past|] == past
            && forall n: nat :: n < |past| ==>
                 && (ClosedAt(initial, general, trace, n) <==> ClosedAt(initial, general, past, n))
                 && (BadTokenAt(initial, general, trace, n) <==> BadTokenAt(initial, general, past, n))
  {
    var trace := past + [e];
    assert trace[..|past|] == past;
    forall n: nat | n < |past|
      ensures ClosedAt(initial, general, trace, n) <==> ClosedAt(initial, general, past, n)
      ensures BadTokenAt(initial, general, trace, n) <==> BadTokenAt(initial, general, past, n)
    {
      assert trace[..n] == past[..n] && trace[n] == past[n];
    }
  }

  /** So a loop whose port is closed does not fire any more. */
  lemma ClosingStopsTheWatchdog(at: int)
    ensures Run(Step, Initially(5, 5), [StoreStart(at, at), Close(at + 1), Tick(at + 5)]).lp.outcome == Stopped
    ensures Run(Step, Initially(5, 5), [StoreStart(at, at), Tick(at + 5)]).lp.outcome == Fired(at + 5)
  {
    RunThree(Step, Initially(5, 5), StoreStart(at, at), Close(at + 1), Tick(at + 5));
    RunTwo(Step, Initially(5, 5), StoreStart(at, at), Tick(at + 5));
  }
}
