/** Collecting a pin from DTMF events that pass through a bounded queue. */
module PinPrompt {
  const QUEUE_SIZE: nat := 10
  const PIN_LIMIT: nat := 16

  /** A digit is one byte; 0 stands for a tone that was not recognised. */
  type Digit = c: char | c as int < 128

  /** Steps of the media goroutine (Tone) and of the prompt's select (the others). */
  datatype Event =
    | Tone(digit: Digit)
    | Receive
    | Cancelled
    | CtxDone
    | MediaTimeout

  datatype Dispatch = Dispatch(accepted: bool, roomName: string)

  datatype Call = Call(pin: string, noPin: bool)

  datatype Outcome = Waiting | Joined | WrongPin | Interrupted

  const UNRECOGNISED: Digit := 0 as char

  function Recognised(digits: seq<Digit>): string {
    if digits == [] then ""
    else Recognised(digits[..|digits| - 1])
         + if digits[|digits| - 1] == UNRECOGNISED then "" else [digits[|digits| - 1]]
  }

  /** The queue after some events, and what was taken from it, up to the first event that is neither. */
  function Queue(events: seq<Event>): (q: (seq<Digit>, seq<Digit>))
    ensures |q.0| <= QUEUE_SIZE
  {
    if events == [] then ([], [])
    else
      var (queue, taken) := Queue(events[..|events| - 1]);
      match events[|events| - 1]
      case Tone(d) => if |queue| < QUEUE_SIZE then (queue + [d], taken) else (queue, taken)
      case Receive => if queue == [] then (queue, taken) else (queue[1..], taken + [queue[0]])
      case _ => (queue, taken)
  }

  function Taken(events: seq<Event>): seq<Digit> {
    Queue(events).1
  }

  /** The events that interrupt the prompt. */
  predicate Interrupts(e: Event) {
    e.Cancelled? || e.CtxDone? || e.MediaTimeout?
  }

  /** The digits taken decide the prompt: a '#', or more digits than a pin may have. */
  predicate Decided(events: seq<Event>) {
    '#' in Taken(events) || |Recognised(Taken(events))| > PIN_LIMIT
  }

  /** The queue after one event more, and the pin after one digit more. */
  lemma NextEvent(events: seq<Event>, n: nat)
    requires n < |events|
    ensures var (queue, taken) := Queue(events[..n]);
            Queue(events[..n + 1])
              == match events[n]
                 case Tone(d) => (if |queue| < QUEUE_SIZE then queue + [d] else queue, taken)
                 case Receive => if queue == [] then (queue, taken) else (queue[1..], taken + [queue[0]])
                 case _ => (queue, taken)
  {
    assert events[..n + 1][..n] == events[..n];
  }

  lemma NextDigit(taken: seq<Digit>, d: Digit)
    ensures Recognised(taken + [d]) == Recognised(taken) + if d == UNRECOGNISED then "" else [d]
    ensures (taken + [d])[..|taken|] == taken
  {
    assert (taken + [d])[..|taken|] == taken;
  }

  class PinCall {
    var dtmf: seq<Digit>

    constructor ()
      ensures dtmf == []
    {
      dtmf := [];
    }

    /** handleDTMF before the room is joined: a full queue drops the tone. */
    method HandleDTMF(tone: Digit)
      modifies this
      ensures dtmf == if |old(dtmf)| < QUEUE_SIZE then old(dtmf) + [tone] else old(dtmf)
    {
      if |dtmf| < QUEUE_SIZE {
        dtmf := dtmf + [tone];
      }
    }

    /** The prompt over one interleaving of events; `used` is how many it saw. Tones that arrive before
        the prompt starts are the first events. */
    method PinPrompt(events: seq<Event>, dispatch: (string, bool) -> Dispatch)
      returns (outcome: Outcome, calls: seq<Call>, used: nat)
      requires dtmf == []
      modifies this
      ensures used <= |events|
      // when it ends: at the first event that interrupts it, or with the first digits that decide it
      ensures forall i :: 0 <= i < used - 1 ==> !Interrupts(events[i])
      ensures forall n :: 0 <= n < used ==> !Decided(events[..n])
      ensures outcome == Interrupted <==> used > 0 && Interrupts(events[used - 1])
      ensures outcome == Joined || outcome == WrongPin <==> Decided(events[..used])
      ensures outcome == Waiting <==>
                used == |events| && (forall i :: 0 <= i < used ==> !Interrupts(events[i])) && !Decided(events)
      ensures |calls| <= 1
      // dispatch is called exactly when '#' is taken, and never after 17 digits
      ensures calls != [] <==> '#' in Taken(events[..used])
      ensures calls != [] ==>
                && Taken(events[..used])[|Taken(events[..used])| - 1] == '#'
                && '#' !in Taken(events[..used])[..|Taken(events[..used])| - 1]
                && calls[0].pin == Recognised(Taken(events[..used])[..|Taken(events[..used])| - 1])
                && |calls[0].pin| <= PIN_LIMIT
                && (calls[0].noPin <==> calls[0].pin == "")
      ensures calls == [] ==> |Recognised(Taken(events[..used]))| <= PIN_LIMIT + 1
      // what each outcome means
      ensures outcome == Joined <==> calls != [] && dispatch(calls[0].pin, calls[0].noPin).accepted
                                     && dispatch(calls[0].pin, calls[0].noPin).roomName != ""
      ensures outcome == WrongPin <==> (calls != [] && outcome != Joined)
                                       || (calls == [] && |Recognised(Taken(events[..used]))| == PIN_LIMIT + 1)
    {
      hide Queue, Recognised;
      EmptyQueue();
      assert events[..0] == [] && events[..|events|] == events;
      var pin := "";
      var noPin := false;
      calls := [];
      used := 0;
      while used < |events|
        invariant 0 <= used <= |events|
        invariant dtmf == Queue(events[..used]).0
        invariant pin == Recognised(Taken(events[..used])) && calls == []
        invariant forall i :: 0 <= i < used ==> !Interrupts(events[i])
        invariant forall n :: 0 <= n <= used ==> !Decided(events[..n])
      {
        NextEvent(events, used);
        used := used + 1;
        match events[used - 1] {
          case Tone(d) =>
            HandleDTMF(d);
          case Receive =>
            if dtmf != [] {
              var b := dtmf[0];
              dtmf := dtmf[1..];
              NextDigit(Taken(events[..used - 1]), b);
              if b == UNRECOGNISED {
                continue;
              }
              if b == '#' {
                noPin := pin == "";
                calls := [Call(pin, noPin)];
                var disp := dispatch(pin, noPin);
                if !disp.accepted || disp.roomName == "" {
                  return WrongPin, calls, used;
                }
                return Joined, calls, used;
              }
              pin := pin + [b];
              if |pin| > PIN_LIMIT {
                return WrongPin, calls, used;
              }
            }
          case _ =>
            return Interrupted, calls, used;
        }
      }
      return Waiting, calls, used;
    }
  }

  lemma EmptyQueue()
    ensures Queue([]) == ([], []) && Recognised([]) == ""
  {}

  // ----- What the queue does -----

  /** How many tones wait. */
  function WaitingTones(events: seq<Event>): nat {
    if events == [] then 0
    else
      var n := WaitingTones(events[..|events| - 1]);
      match events[|events| - 1]
      case Tone(_) => if n < QUEUE_SIZE then n + 1 else n
      case Receive => if n > 0 then n - 1 else 0
      case _ => n
  }

  /** The tones that found room. */
  function Kept(events: seq<Event>): seq<Digit> {
    if events == [] then []
    else
      var kept := Kept(events[..|events| - 1]);
      match events[|events| - 1]
      case Tone(d) => if WaitingTones(events[..|events| - 1]) < QUEUE_SIZE then kept + [d] else kept
      case _ => kept
  }

  /** First in, first out: what was taken, followed by what waits, is what found room, in order. */
  lemma {:induction false} QueueIsFifo(events: seq<Event>)
    ensures Taken(events) + Queue(events).0 == Kept(events)
    ensures |Queue(events).0| == WaitingTones(events)
    decreases |events|
  {
    if events != [] {
      QueueIsFifo(events[..|events| - 1]);
    }
  }

  /** Unrecognised tones leave no trace in the pin, and all others are kept in order. */
  lemma {:induction false} RecognisedMeaning(a: seq<Digit>, b: seq<Digit>)
    ensures Recognised(a + [UNRECOGNISED]) == Recognised(a)
    ensures (forall i :: 0 <= i < |b| ==> b[i] != UNRECOGNISED) ==> Recognised(a + b) == Recognised(a) + b
    decreases |b|
  {
    assert (a + [UNRECOGNISED])[..|a|] == a;
    if b == [] {
      assert a + b == a;
    } else {
      var n := |b| - 1;
      RecognisedMeaning(a, b[..n]);
      assert (a + b)[..|a + b| - 1] == a + b[..n];
    }
  }

  /** Digits that are received as they come. */
  function Typed(digits: seq<Digit>): seq<Event> {
    if digits == [] then [] else Typed(digits[..|digits| - 1]) + [Tone(digits[|digits| - 1]), Receive]
  }

  lemma {:induction false} TypedIsTaken(digits: seq<Digit>)
    ensures Queue(Typed(digits)) == ([], digits)
    decreases |digits|
  {
    if digits != [] {
      var front, d := digits[..|digits| - 1], digits[|digits| - 1];
      TypedIsTaken(front);
      var before, events := Typed(front), Typed(digits);
      assert events == before + [Tone(d)] + [Receive];
      var n := |before|;
      NextEvent(events, n);
      NextEvent(events, n + 1);
      assert events[..n] == before && events[..n + 1] == before + [Tone(d)] && events[..n + 2] == events;
      assert events[n] == Tone(d) && events[n + 1] == Receive;
      assert front + [d] == digits && [] + [d] == [d];
      assert Queue(before + [Tone(d)]) == ([d], front);
    }
  }

  /** A pin of up to 16 digits decides nothing until its '#', and then it is dispatched as it was typed. */
  lemma TypedPin(pin: seq<Digit>)
    requires |pin| <= 16 && '#' !in pin && UNRECOGNISED !in pin
    ensures !Decided(Typed(pin)) && Decided(Typed(pin + ['#']))
    ensures Taken(Typed(pin + ['#'])) == pin + ['#'] && Recognised(pin) == pin
  {
    hide Queue, Typed, Recognised;
    TypedIsTaken(pin);
    TypedIsTaken(pin + ['#']);
    EmptyQueue();
    RecognisedMeaning([], pin);
    assert [] + pin == pin;
  }
}
