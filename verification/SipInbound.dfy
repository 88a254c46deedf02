/** The signalling side of an inbound call. Nil-able fields encode whether the dialog is pending,
    established or dead. A method that takes the lock is one step, except that Accept holds it over
    all its retransmissions, while steps that take no lock may come in between. A log records what
    is handed to the SIP transactions. */
module SipInbound {
  import opened Wrappers
  import opened Traces
  import opened CSeqs
  import opened InviteRetry

  const REQUEST_TERMINATED: int := 487

  /** A final response that rejects the INVITE. */
  type FailureCode = c: int | c >= 300 witness 486

  datatype Kind = Refer | Bye

  /** Entries of the log. AcceptDone and RemoteBye are marks, not messages: Accept recorded the
      dialog as established, and AcceptBye dropped it. */
  datatype Entry =
    | Response(code: int)
    | CancelOk
    | ByeOk
    | Request(kind: Kind, cseq: nat)
    | AcceptDone
    | RemoteBye

  /** The goroutine started by StartRinging, which crashes if there is no transaction any more. A CANCEL
      takes it through three steps: it closes the cancelled channel, answers, and ends the INVITE. */
  datatype Ringer = NotStarted | Ringing | Answering | Terminating | Stopped | Crashed

  /** accepting: Accept holds the lock and has sent that many copies of the 200 OK. */
  datatype Dialog = Dialog(
    inviteTx: bool, invite: bool, inviteOk: bool, ringing: bool,
    nextRequestCSeq: CSeq, referCseq: nat,
    accepting: Option<nat>,
    ringer: Ringer, ringingCloses: nat, cancelledCloses: nat,
    log: seq<Entry>)

  datatype Event =
    | Processing
    | StartRinging
    | RingTick
    | RingStop
    | RingCancel
    | CancelReply
    | RingTerminate
    | Drop
    | RespondAndDrop(code: FailureCode)
    | AcceptBegin
    | SendOk(delivered: bool)
    | AcceptEnd
    | ByeReply
    | ByeDrop
    | NewRefer
    | CloseWithStatus(code: FailureCode)

  function NewDialog(inviteCSeq: CSeq): Dialog {
    Dialog(true, true, false, false, (inviteCSeq + 1) % CSEQ_MODULUS, 0, None, NotStarted, 0, 0, [])
  }

  // ----- The unlocked helpers -----

  function Stopping(d: Dialog): Dialog {
    if d.ringing then d.(ringing := false, ringingCloses := d.ringingCloses + 1) else d
  }

  function Dropped(d: Dialog): Dialog {
    Stopping(d).(inviteTx := false, invite := false, inviteOk := false, nextRequestCSeq := 0)
  }

  function Responses(d: Dialog, code: int): seq<Entry> {
    if d.inviteTx then [Response(code)] else []
  }

  // ----- One step: how the fields move, and what the log gains -----

  /** The steps of Accept once it holds the lock, and those that take no lock. */
  predicate NeedsNoLock(e: Event) {
    e.SendOk? || e.AcceptEnd? || e.RingStop? || e.RingCancel? || e.CancelReply? || e.ByeReply?
  }

  /** The event waits for the lock. */
  predicate Waits(d: Dialog, e: Event) {
    d.accepting.Some? && !NeedsNoLock(e)
  }

  /** Events that wait for the lock, or whose goroutine is not there or not ready, change nothing. */
  function Moved(d: Dialog, e: Event): Dialog {
    if Waits(d, e) then d
    else match e
         case StartRinging =>
           if !d.ringer.NotStarted? then d else d.(ringing := true, ringer := if d.inviteTx then Ringing else Crashed)
         case RingStop => if d.ringer.Ringing? && d.ringingCloses > 0 then d.(ringer := Stopped) else d
         case RingCancel =>
           if d.ringer.Ringing? then d.(ringer := Answering, cancelledCloses := d.cancelledCloses + 1) else d
         case CancelReply => if d.ringer.Answering? then d.(ringer := Terminating) else d
         case RingTerminate => if d.ringer.Terminating? then Dropped(d).(ringer := Stopped) else d
         case Drop => Dropped(d)
         case RespondAndDrop(_) => Dropped(d)
         case AcceptBegin => if d.inviteTx then Stopping(d).(accepting := Some(0)) else d
         case SendOk(delivered) =>
           if d.accepting.None? then d
           else d.(accepting := if delivered then Some(d.accepting.value + 1) else None)
         case AcceptEnd =>
           if CopiesSent(d) then d.(inviteOk := true, inviteTx := false, accepting := None) else d
         case ByeDrop => Dropped(d)
         case NewRefer =>
           if d.invite && d.inviteOk
           then d.(referCseq := d.nextRequestCSeq, nextRequestCSeq := (d.nextRequestCSeq + 1) % CSEQ_MODULUS)
           else d
         case CloseWithStatus(_) => if d.inviteOk && !d.invite then d else Dropped(d)
         case _ => d
  }

  predicate CopiesSent(d: Dialog) {
    d.accepting.Some? && d.accepting.value > 0
  }

  function Added(d: Dialog, e: Event): seq<Entry> {
    if Waits(d, e) then []
    else match e
         case Processing => Responses(d, 100)
         case StartRinging => if d.ringer.NotStarted? then Responses(d, 180) else []
         case RingTick => if d.ringer.Ringing? then Responses(d, 180) else []
         case CancelReply => if d.ringer.Answering? then [CancelOk] else []
         case RingTerminate => if d.ringer.Terminating? then Responses(d, REQUEST_TERMINATED) else []
         case RespondAndDrop(code) => Responses(d, code)
         case SendOk(delivered) => if d.accepting.Some? && delivered then [Response(200)] else []
         case AcceptEnd => if CopiesSent(d) then [AcceptDone] else []
         case ByeReply => [ByeOk]
         case ByeDrop => [RemoteBye]
         case NewRefer => if d.invite && d.inviteOk then [Request(Refer, d.nextRequestCSeq)] else []
         case CloseWithStatus(code) =>
           if !d.inviteOk then Responses(d, code)
           else if d.invite then [Request(Bye, d.nextRequestCSeq)] else []
         case _ => []
  }

  function Step(d: Dialog, e: Event): Dialog {
    Moved(d, e).(log := d.log + Added(d, e))
  }

  // ----- Whose steps they are -----

  /** What the ringing goroutine, BYE and REFER handlers do. */
  predicate OfOthers(e: Event) {
    || e.RingTick? || e.RingStop? || e.RingCancel? || e.CancelReply? || e.RingTerminate?
    || e.ByeReply? || e.ByeDrop? || e.NewRefer?
  }

  predicate OfAccept(e: Event) {
    e.AcceptBegin? || e.SendOk? || e.AcceptEnd?
  }

  function Only(p: Event -> bool, events: seq<Event>): seq<Event> {
    if events == [] then []
    else Only(p, events[..|events| - 1]) + if p(events[|events| - 1]) then [events[|events| - 1]] else []
  }

  function Others(events: seq<Event>): seq<Event> {
    Only(OfOthers, events)
  }

  lemma OnlySnoc(p: Event -> bool, events: seq<Event>, e: Event)
    ensures Only(p, events + [e]) == Only(p, events) + if p(e) then [e] else []
  {
    assert (events + [e])[..|events|] == events;
  }

  lemma {:induction false} OnlyConcat(p: Event -> bool, events: seq<Event>, more: seq<Event>)
    ensures Only(p, events + more) == Only(p, events) + Only(p, more)
    decreases |more|
  {
    if more == [] {
      assert events + more == events;
    } else {
      var n := |more| - 1;
      assert events + more == events + more[..n] + [more[n]];
      OnlySnoc(p, events + more[..n], more[n]);
      OnlyConcat(p, events, more[..n]);
    }
  }

  lemma {:induction false} OnlyNone(p: Event -> bool, events: seq<Event>)
    requires forall e :: e in events ==> !p(e)
    ensures Only(p, events) == []
    decreases |events|
  {
    if events != [] {
      assert forall e :: e in events[..|events| - 1] ==> e in events;
      OnlyNone(p, events[..|events| - 1]);
    }
  }

  lemma {:induction false} OnlyThose(p: Event -> bool, events: seq<Event>)
    ensures forall e :: e in Only(p, events) <==> e in events && p(e)
    decreases |events|
  {
    if events != [] {
      var n := |events| - 1;
      OnlyThose(p, events[..n]);
      assert events == events[..n] + [events[n]];
    }
  }

  /** The steps of an Accept that sends n copies of the 200 OK and then goes on, */
  function Sent(n: nat): seq<Event> {
    if n == 0 then [AcceptBegin] else Sent(n - 1) + [SendOk(true)]
  }

  /** fails to send another, or ends. */
  function Script(n: nat, failed: bool): seq<Event> {
    Sent(n) + [if failed then SendOk(false) else AcceptEnd]
  }

  function MaxRetries(udp: bool, waitAck: bool): nat {
    if !udp then 1 else if waitAck then RETRY_ATTEMPTS else RETRY_ATTEMPTS_NO_ACK
  }

  function FirstWait(udp: bool): nat {
    if udp then RETRY_INTERVAL else RETRY_INTERVAL_MAX
  }

  function AtOnce(udp: bool, waitAck: bool): bool {
    !udp && !waitAck
  }

  /** How many copies the configuration allows, in numbers. */
  function Tries(udp: bool, waitAck: bool): nat {
    if udp then (if waitAck then 6 else 3) else if waitAck then 2 else 1
  }

  /** How long those tries wait for an ACK, in milliseconds. */
  function Patience(udp: bool, waitAck: bool): nat {
    if udp then (if waitAck then 9750 else 1750) else if waitAck then 6000 else 0
  }

  /** What Accept does in each configuration: without an ACK and a failing Respond it sends that many copies
      and waits that long, and it is an error if the ACK is required; an ACK in the k-th wait means k
      copies; if the k-th Respond fails before an ACK, k - 1 copies were sent. */
  predicate Endures(udp: bool, waitAck: bool, env: Env, sends: nat, waited: nat, outcome: Outcome) {
    && (env == Env(None, None) ==>
          && sends == Tries(udp, waitAck) && waited == Patience(udp, waitAck)
          && outcome == (if waitAck then NoAck else Accepted))
    && (env.failAt.None? && env.ackIn.Some? && 1 <= env.ackIn.value <= Tries(udp, waitAck) ==>
          sends == env.ackIn.value && outcome == Accepted)
    && (env.ackIn.None? && env.failAt.Some? && 1 <= env.failAt.value <= Tries(udp, waitAck) ==>
          sends == env.failAt.value - 1 && outcome == SendFailed)
    && (env.ackIn.Some? && env.failAt.Some? && 1 <= env.ackIn.value <= Tries(udp, waitAck) && env.failAt.value >= 1 ==>
          if env.failAt.value <= env.ackIn.value then sends == env.failAt.value - 1 && outcome == SendFailed
          else sends == env.ackIn.value && outcome == Accepted)
  }

  lemma TriesInNumbers(udp: bool, waitAck: bool, env: Env)
    ensures Tries(udp, waitAck) == if AtOnce(udp, waitAck) then 1 else MaxRetries(udp, waitAck) + 1
    ensures AtOnce(udp, waitAck) || TotalWait(FirstWait(udp), MaxRetries(udp, waitAck) + 1) == Patience(udp, waitAck)
    ensures TotalWait(FirstWait(udp), 0) == 0
  {
    WaitsWithoutAck();
  }

  predicate IsOk(m: Entry) {
    m == Response(200)
  }

  function Count(p: Entry -> bool, log: seq<Entry>): nat {
    if log == [] then 0 else Count(p, log[..|log| - 1]) + if p(log[|log| - 1]) then 1 else 0
  }

  lemma CountSnoc(p: Entry -> bool, log: seq<Entry>, m: Entry)
    ensures Count(p, log + [m]) == Count(p, log) + if p(m) then 1 else 0
  {
    assert (log + [m])[..|log|] == log;
  }

  /** Whether the step adds an entry of that kind. */
  predicate Adds(p: Entry -> bool, d: Dialog, e: Event) {
    Added(d, e) != [] && p(Added(d, e)[0])
  }

  /** A step adds at most one entry. */
  lemma OneEntry(d: Dialog, e: Event)
    ensures Step(d, e).log == d.log + if Added(d, e) == [] then [] else [Added(d, e)[0]]
    ensures Added(d, e) == [] ==> Step(d, e).log == d.log
  {}

  lemma CountStep(p: Entry -> bool, d: Dialog, e: Event)
    ensures Count(p, Step(d, e).log) == Count(p, d.log) + if Adds(p, d, e) then 1 else 0
  {
    OneEntry(d, e);
    if Added(d, e) != [] {
      CountSnoc(p, d.log, Added(d, e)[0]);
    }
  }

  /** The part of the dialog that only the holder of the lock may change, and the copies it has sent. */
  predicate SameUnderLock(d: Dialog, t: Dialog) {
    && t.accepting == d.accepting
    && t.inviteTx == d.inviteTx && t.invite == d.invite && t.inviteOk == d.inviteOk
    && Count(IsOk, t.log) == Count(IsOk, d.log)
  }

  lemma LockedStep(d: Dialog, e: Event)
    requires d.accepting.Some? && OfOthers(e)
    ensures SameUnderLock(d, Step(d, e))
  {
    CountStep(IsOk, d, e);
  }

  /** While Accept holds the lock, the others leave that part alone. */
  lemma {:induction false} LockIsHeld(d: Dialog, events: seq<Event>)
    requires d.accepting.Some? && forall e :: e in events ==> OfOthers(e)
    ensures SameUnderLock(d, Run(Step, d, events))
    decreases |events|
  {
    if events != [] {
      assert events[0] in events;
      LockedStep(d, events[0]);
      LockIsHeld(Step(d, events[0]), events[1..]);
    }
  }

  // ----- Accept over its steps and those that come in between -----

  /** After those steps of Accept and of the others, n copies are sent and Accept still holds the lock. */
  ghost predicate Sending(start: Dialog, d: Dialog, steps: seq<Event>, n: nat) {
    && d == Run(Step, start, steps) && Shared(steps)
    && Only(OfAccept, steps) == Sent(n)
    && d.accepting == Some(n)
    && d.inviteTx && d.invite == start.invite && d.inviteOk == start.inviteOk
    && Count(IsOk, d.log) == Count(IsOk, start.log) + n
  }

  /** Accept has released the lock, after a copy that failed or for good. */
  ghost predicate Finished(start: Dialog, d: Dialog, steps: seq<Event>, n: nat, failed: bool) {
    && d == Run(Step, start, steps) && Shared(steps)
    && Only(OfAccept, steps) == Script(n, failed)
    && d.accepting.None?
    && d.inviteTx == failed && d.invite == start.invite && d.inviteOk == (!failed || start.inviteOk)
    && Count(IsOk, d.log) == Count(IsOk, start.log) + n
  }

  ghost predicate Shared(steps: seq<Event>) {
    forall e :: e in steps ==> OfAccept(e) || OfOthers(e)
  }

  lemma StepsSnoc(start: Dialog, d: Dialog, steps: seq<Event>, e: Event)
    requires d == Run(Step, start, steps) && Shared(steps) && OfAccept(e)
    ensures Step(d, e) == Run(Step, start, steps + [e]) && Shared(steps + [e])
    ensures Only(OfAccept, steps + [e]) == Only(OfAccept, steps) + [e]
  {
    OnlySnoc(OfAccept, steps, e);
    RunSnoc(Step, start, steps, e);
  }

  lemma BeginsSending(start: Dialog)
    requires start.inviteTx && start.accepting.None?
    ensures Step(start, AcceptBegin) == Stopping(start).(accepting := Some(0))
    ensures Sending(start, Step(start, AcceptBegin), [AcceptBegin], 0)
  {
    assert start.log + [] == start.log;
    StepsSnoc(start, start, [], AcceptBegin);
    assert [] + [AcceptBegin] == [AcceptBegin];
  }

  lemma CopyStep(d: Dialog)
    requires d.accepting.Some?
    ensures Step(d, SendOk(true)) == d.(accepting := Some(d.accepting.value + 1), log := d.log + [Response(200)])
    ensures Count(IsOk, d.log + [Response(200)]) == Count(IsOk, d.log) + 1
  {
    CountSnoc(IsOk, d.log, Response(200));
  }

  lemma SendsMore(start: Dialog, d: Dialog, steps: seq<Event>, n: nat)
    requires Sending(start, d, steps, n)
    ensures Sending(start, d.(accepting := Some(n + 1), log := d.log + [Response(200)]), steps + [SendOk(true)], n + 1)
  {
    hide Step, Run, Only, Count, Shared;
    CopyStep(d);
    StepsSnoc(start, d, steps, SendOk(true));
  }

  lemma LossStep(d: Dialog)
    requires d.accepting.Some?
    ensures Step(d, SendOk(false)) == d.(accepting := None)
  {
    assert d.log + [] == d.log;
  }

  lemma FailsToSend(start: Dialog, d: Dialog, steps: seq<Event>, n: nat)
    requires Sending(start, d, steps, n)
    ensures Finished(start, d.(accepting := None), steps + [SendOk(false)], n, true)
  {
    hide Step, Run, Only, Count, Shared;
    LossStep(d);
    StepsSnoc(start, d, steps, SendOk(false));
  }

  lemma EndStep(d: Dialog)
    requires CopiesSent(d)
    ensures Step(d, AcceptEnd)
         == d.(inviteOk := true, inviteTx := false, accepting := None, log := d.log + [AcceptDone])
    ensures Count(IsOk, d.log + [AcceptDone]) == Count(IsOk, d.log)
  {
    CountSnoc(IsOk, d.log, AcceptDone);
  }

  lemma EndsAccept(start: Dialog, d: Dialog, steps: seq<Event>, n: nat)
    requires Sending(start, d, steps, n) && n > 0
    ensures Finished(start, d.(inviteOk := true, inviteTx := false, accepting := None, log := d.log + [AcceptDone]),
                     steps + [AcceptEnd], n, false)
  {
    hide Step, Run, Only, Count, Shared;
    EndStep(d);
    StepsSnoc(start, d, steps, AcceptEnd);
  }

  lemma OthersMeanwhile(start: Dialog, d: Dialog, steps: seq<Event>, n: nat, others: seq<Event>)
    requires Sending(start, d, steps, n) && forall e :: e in others ==> OfOthers(e)
    ensures Sending(start, Run(Step, d, others), steps + others, n)
  {
    LockIsHeld(d, others);
    RunConcat(Step, start, steps, others);
    OnlyConcat(OfAccept, steps, others);
    OnlyNone(OfAccept, others);
  }

  /** A method that takes the lock says what it does once the lock is free. */
  class SipInbound {
    const udp: bool
    const waitAck: bool
    var inviteTx: bool
    var invite: bool
    var inviteOk: bool
    var ringing: bool
    var nextRequestCSeq: CSeq
    var referCseq: nat
    var accepting: Option<nat>
    var ringer: Ringer
    var ringingCloses: nat
    ghost var cancelledCloses: nat
    ghost var log: seq<Entry>

    ghost function Abs(): Dialog
      reads this
    {
      Dialog(inviteTx, invite, inviteOk, ringing, nextRequestCSeq, referCseq, accepting,
             ringer, ringingCloses, cancelledCloses, log)
    }

    constructor (inviteCSeq: CSeq, udp: bool, waitAck: bool)
      ensures this.udp == udp && this.waitAck == waitAck
      ensures Abs() == NewDialog(inviteCSeq)
    {
      this.udp, this.waitAck := udp, waitAck;
      inviteTx, invite, inviteOk, ringing := true, true, false, false;
      nextRequestCSeq, referCseq := (inviteCSeq + 1) % CSEQ_MODULUS, 0;
      accepting, ringer := None, NotStarted;
      ringingCloses, cancelledCloses, log := 0, 0, [];
    }

    method StopRinging()
      modifies this
      ensures Abs() == Stopping(old(Abs()))
    {
      if ringing {
        ringingCloses := ringingCloses + 1;
        ringing := false;
      }
    }

    method DropLocked()
      modifies this
      ensures Abs() == Dropped(old(Abs()))
    {
      StopRinging();
      inviteTx := false;
      invite := false;
      inviteOk := false;
      nextRequestCSeq := 0;
    }

    method RespondLocked(code: int)
      modifies this
      ensures Abs() == old(Abs()).(log := old(log) + Responses(old(Abs()), code))
    {
      if !inviteTx {
        return;
      }
      log := log + [Response(code)];
    }

    method SetCSeq(kind: Kind) returns (cseq: CSeq)
      modifies this
      ensures cseq == old(nextRequestCSeq)
      ensures Abs() == old(Abs()).(log := old(log) + [Request(kind, old(nextRequestCSeq))],
                                   nextRequestCSeq := (old(nextRequestCSeq) + 1) % CSEQ_MODULUS)
    {
      cseq := nextRequestCSeq;
      log := log + [Request(kind, cseq)];
      nextRequestCSeq := (nextRequestCSeq + 1) % CSEQ_MODULUS;
    }

    method Drop()
      requires accepting.None?
      modifies this
      ensures Abs() == Step(old(Abs()), Event.Drop)
    {
      DropLocked();
    }

    method Processing()
      requires accepting.None?
      modifies this
      ensures Abs() == Step(old(Abs()), Event.Processing)
    {
      RespondLocked(100);
    }

    method RespondAndDrop(code: FailureCode)
      requires accepting.None?
      modifies this
      ensures Abs() == Step(old(Abs()), Event.RespondAndDrop(code))
    {
      StopRinging();
      RespondLocked(code);
      DropLocked();
    }

    /** Called once. Crashes, reading the cancel channel of no transaction, exactly if there is none. */
    method StartRinging() returns (crashed: bool)
      requires accepting.None? && ringer.NotStarted?
      modifies this
      ensures Abs() == Step(old(Abs()), Event.StartRinging)
      ensures crashed <==> !old(inviteTx)
    {
      RespondLocked(180);
      ringing := true;
      if !inviteTx {
        ringer := Crashed;
        return true;
      }
      ringer := Ringing;
      return false;
    }

    // The cases of the ringing goroutine's select. A CANCEL is answered before the lock is taken.

    method RingTick()
      requires accepting.None?
      modifies this
      ensures Abs() == Step(old(Abs()), Event.RingTick)
    {
      if ringer.Ringing? {
        RespondLocked(180);
      }
    }

    method RingStop()
      modifies this
      ensures Abs() == Step(old(Abs()), Event.RingStop)
    {
      if ringer.Ringing? && ringingCloses > 0 {
        ringer := Stopped;
      }
    }

    method RingCancel()
      modifies this
      ensures Abs() == Step(old(Abs()), Event.RingCancel)
    {
      if ringer.Ringing? {
        cancelledCloses := cancelledCloses + 1;
        ringer := Answering;
      }
    }

    method CancelReply()
      modifies this
      ensures Abs() == Step(old(Abs()), Event.CancelReply)
    {
      if ringer.Answering? {
        log := log + [CancelOk];
        ringer := Terminating;
      }
    }

    method RingTerminate()
      requires accepting.None?
      modifies this
      ensures Abs() == Step(old(Abs()), Event.RingTerminate)
    {
      if ringer.Terminating? {
        RespondAndDrop(REQUEST_TERMINATED);
        ringer := Stopped;
      }
    }

    /** A Respond of the retry loop that succeeds. */
    method SendCopy(ghost start: Dialog, ghost steps: seq<Event>, ghost n: nat) returns (ghost more: seq<Event>)
      requires Sending(start, Abs(), steps, n)
      modifies this
      ensures Sending(start, Abs(), more, n + 1)
    {
      hide Step, Run, Only, Count, Shared;
      more := Meanwhile(start, steps, n);
      ghost var d := Abs();
      SendsMore(start, d, more, n);
      log := log + [Response(200)];
      accepting := Some(accepting.value + 1);
      assert Abs() == d.(accepting := Some(n + 1), log := d.log + [Response(200)]);
      more := more + [SendOk(true)];
    }

    /** One that fails makes Accept return and release the lock. */
    method LoseCopy(ghost start: Dialog, ghost steps: seq<Event>, ghost n: nat) returns (ghost more: seq<Event>)
      requires Sending(start, Abs(), steps, n)
      modifies this
      ensures Finished(start, Abs(), more, n, true)
    {
      hide Step, Run, Only, Count, Shared;
      more := Meanwhile(start, steps, n);
      ghost var d := Abs();
      FailsToSend(start, d, more, n);
      accepting := None;
      assert Abs() == d.(accepting := None);
      more := more + [SendOk(false)];
    }

    /** The retry loop of Accept, for any limit and first interval, with any steps of the others in
        between; `waited` adds up the waits that ran out. */
    method SendInviteOk(reliable: bool, maxRetries: nat, first: nat, env: Env, ghost start: Dialog)
      returns (sends: nat, waited: nat, outcome: Outcome, ghost steps: seq<Event>)
      requires Sending(start, Abs(), [AcceptBegin], 0) && first <= RETRY_INTERVAL_MAX
      modifies this
      ensures var atOnce := reliable && !waitAck;
              && (outcome == SendFailed <==> Fails(atOnce, maxRetries, env))
              && (outcome == NoAck <==> !Fails(atOnce, maxRetries, env) && waitAck && !Acked(atOnce, maxRetries, env))
              && sends == Sends(atOnce, maxRetries, env)
              && waited == TotalWait(first, FullWaits(atOnce, maxRetries, env))
      ensures if outcome == SendFailed then Finished(start, Abs(), steps, sends, true)
              else sends > 0 && Sending(start, Abs(), steps, sends)
    {
      hide Sending, Finished;
      var retryAfter := first;
      sends, waited, outcome, steps := 0, 0, Accepted, [AcceptBegin];
      var try := 1;
      while true
        invariant 1 <= try <= maxRetries + 1
        invariant sends == try - 1 && outcome == Accepted
        invariant retryAfter == Wait(first, try) && waited == TotalWait(first, try - 1)
        invariant env.failAt.Some? ==> !(1 <= env.failAt.value < try)
        invariant env.ackIn.Some? ==> !(1 <= env.ackIn.value < try)
        invariant reliable && !waitAck ==> try == 1
        invariant Sending(start, Abs(), steps, sends)
        decreases maxRetries + 1 - try
      {
        if env.failAt == Some(try) {
          steps := LoseCopy(start, steps, sends);
          return sends, waited, SendFailed, steps;
        }
        steps := SendCopy(start, steps, sends);
        sends := sends + 1;
        if reliable && !waitAck {
          return sends, waited, Accepted, steps;
        }
        if env.ackIn == Some(try) {
          return sends, waited, Accepted, steps;
        }
        waited := waited + retryAfter;
        if try > maxRetries {
          return sends, waited, if waitAck then NoAck else Accepted, steps;
        }
        retryAfter := retryAfter * 2;
        if retryAfter > RETRY_INTERVAL_MAX {
          retryAfter := RETRY_INTERVAL_MAX;
        }
        DoublingStaysCapped(first, try);
        try := try + 1;
      }
    }

    /** The others take any steps, after the steps so far. */
    method Meanwhile(ghost start: Dialog, ghost steps: seq<Event>, ghost n: nat) returns (ghost more: seq<Event>)
      requires Sending(start, Abs(), steps, n)
      modifies this
      ensures Sending(start, Abs(), more, n)
    {
      var events: seq<Event> := *;
      ghost var others := Others(events);
      OnlyThose(OfOthers, events);
      OthersMeanwhile(start, Abs(), steps, n, others);
      Interleave(events);
      more := steps + others;
    }

    /** Records the dialog as established and releases the lock. */
    method RecordOk(ghost start: Dialog, ghost steps: seq<Event>, ghost n: nat) returns (ghost more: seq<Event>)
      requires Sending(start, Abs(), steps, n) && n > 0
      modifies this
      ensures Finished(start, Abs(), more, n, false)
    {
      hide Step, Run, Only, Count, Shared;
      more := Meanwhile(start, steps, n);
      ghost var d := Abs();
      EndsAccept(start, d, more, n);
      more := more + [AcceptEnd];
      inviteOk := true;
      inviteTx := false;
      log := log + [AcceptDone];
      accepting := None;
      assert Abs() == d.(inviteOk := true, inviteTx := false, accepting := None, log := d.log + [AcceptDone]);
    }

    /** Holds the lock over all retransmissions. A failing Respond leaves the dialog pending. */
    method Accept(env: Env)
      returns (accepted: bool, sends: nat, waited: nat, outcome: Outcome, ghost steps: seq<Event>)
      requires accepting.None?
      modifies this
      ensures !old(inviteTx) ==> !accepted && Abs() == old(Abs()) && steps == []
      ensures old(inviteTx) ==>
                && Finished(old(Abs()), Abs(), steps, sends, outcome == SendFailed)
                && (accepted <==> outcome != SendFailed)
                && (outcome == SendFailed <==> Fails(AtOnce(udp, waitAck), MaxRetries(udp, waitAck), env))
                && (outcome == NoAck <==> accepted && waitAck && !Acked(false, MaxRetries(udp, waitAck), env))
                && sends == Sends(AtOnce(udp, waitAck), MaxRetries(udp, waitAck), env)
                && waited == TotalWait(FirstWait(udp), FullWaits(AtOnce(udp, waitAck), MaxRetries(udp, waitAck), env))
                && Endures(udp, waitAck, env, sends, waited, outcome)
    {
      hide Step, Sending, Finished, TotalWait;
      sends, waited, outcome, steps := 0, 0, SendFailed, [];
      if !inviteTx {
        return false, sends, waited, outcome, steps;
      }
      ghost var start := Abs();
      BeginsSending(start);
      TriesInNumbers(udp, waitAck, env);
      StopRinging();
      accepting := Some(0);
      var first, maxRetries := RETRY_INTERVAL, RETRY_ATTEMPTS;
      if !waitAck {
        maxRetries := RETRY_ATTEMPTS_NO_ACK;
      }
      if !udp {
        maxRetries := 1;
        first := RETRY_INTERVAL_MAX;
      }
      sends, waited, outcome, steps := SendInviteOk(!udp, maxRetries, first, env, start);
      if outcome == SendFailed {
        return false, sends, waited, outcome, steps;
      }
      steps := RecordOk(start, steps, sends);
      return true, sends, waited, outcome, steps;
    }

    /** Two steps, between which others may come: the 200 OK goes out before the lock is taken. */
    method AcceptBye()
      requires accepting.None?
      modifies this
      ensures Abs() == Step(Step(old(Abs()), ByeReply), ByeDrop)
    {
      OtherStep(ByeReply);
      OtherStep(ByeDrop);
    }

    /** A step of a goroutine other than the one that runs the call. */
    method OtherStep(e: Event)
      modifies this
      ensures Abs() == if OfOthers(e) then Step(old(Abs()), e) else old(Abs())
    {
      if accepting.Some? && !NeedsNoLock(e) {
        return;
      }
      match e
      case ByeReply => log := log + [ByeOk];
      case ByeDrop =>
        DropLocked();
        log := log + [RemoteBye];
      case NewRefer =>
        var cseq := NewReferReq();
      case RingTick => RingTick();
      case RingStop => RingStop();
      case RingCancel => RingCancel();
      case CancelReply => CancelReply();
      case RingTerminate => RingTerminate();
      case _ =>
    }

    method Interleave(events: seq<Event>)
      modifies this
      ensures Abs() == Run(Step, old(Abs()), Others(events))
    {
      var i := 0;
      while i < |events|
        invariant 0 <= i <= |events|
        invariant Abs() == Run(Step, old(Abs()), Others(events[..i]))
      {
        ghost var before := Others(events[..i]);
        assert events[..i + 1] == events[..i] + [events[i]];
        OnlySnoc(OfOthers, events[..i], events[i]);
        RunSnoc(Step, old(Abs()), before, events[i]);
        assert Others(events[..i + 1]) == if OfOthers(events[i]) then before + [events[i]] else before;
        OtherStep(events[i]);
        i := i + 1;
      }
      assert events[..i] == events;
    }

    method SendBye()
      modifies this
      ensures Abs() == if old(inviteOk && invite)
                       then Dropped(old(Abs())).(log := old(log) + [Request(Bye, old(nextRequestCSeq))])
                       else old(Abs())
    {
      if !inviteOk {
        return;
      }
      if !invite {
        return;
      }
      var cseq := SetCSeq(Bye);
      DropLocked();
    }

    method SendStatus(code: FailureCode)
      modifies this
      ensures Abs() == if old(!inviteOk && inviteTx)
                       then Dropped(old(Abs())).(log := old(log) + [Response(code)])
                       else old(Abs())
    {
      if inviteOk {
        return;
      }
      if !inviteTx {
        return;
      }
      RespondLocked(code);
      DropLocked();
    }

    method NewReferReq() returns (cseq: Option<nat>)
      requires accepting.None?
      modifies this
      ensures Abs() == Step(old(Abs()), NewRefer)
      ensures cseq == if old(invite && inviteOk) then Some(old(nextRequestCSeq) as nat) else None
    {
      if !invite || !inviteOk {
        return None;
      }
      var n := SetCSeq(Refer);
      referCseq := n;
      return Some(n);
    }

    method CloseWithStatus(code: FailureCode)
      requires accepting.None?
      modifies this
      ensures Abs() == Step(old(Abs()), Event.CloseWithStatus(code))
    {
      if inviteOk {
        SendBye();
      } else if inviteTx {
        SendStatus(code);
      } else {
        DropLocked();
      }
    }
  }

  // ----- Phases -----

  predicate Pending(d: Dialog) {
    d.inviteTx && d.invite && !d.inviteOk
  }

  predicate Established(d: Dialog) {
    !d.inviteTx && d.invite && d.inviteOk
  }

  predicate Dead(d: Dialog) {
    !d.inviteTx && !d.invite && !d.inviteOk
  }

  function Rank(d: Dialog): nat {
    if Pending(d) then 0 else if Established(d) then 1 else 2
  }

  /** Every dialog is in one phase, rings only while pending unless StartRinging crashed, is accepted only
      while pending, and closes its two channels once. */
  ghost predicate PhaseInv(d: Dialog) {
    && (Pending(d) || Established(d) || Dead(d))
    && (d.ringing ==> Pending(d) || d.ringer.Crashed?)
    && (d.accepting.Some? ==> Pending(d) && !d.ringing)
    && (Dead(d) ==> d.nextRequestCSeq == 0)
    && d.ringingCloses == (if d.ringer.NotStarted? || d.ringing then 0 else 1)
    && (d.ringer.NotStarted? ==> !d.ringing)
    && (d.ringer.Crashed? ==> !Pending(d))
    && d.cancelledCloses <= (if d.ringer.NotStarted? || d.ringer.Ringing? || d.ringer.Crashed? then 0 else 1)
  }

  lemma PhaseInvStep(d: Dialog, e: Event)
    requires PhaseInv(d)
    ensures PhaseInv(Step(d, e))
    ensures Rank(d) <= Rank(Step(d, e))
  {}

  lemma PhasesOverRuns(inviteCSeq: CSeq, events: seq<Event>)
    ensures PhaseInv(Run(Step, NewDialog(inviteCSeq), events))
  {
    forall d, e | PhaseInv(d) ensures PhaseInv(Step(d, e)) {
      PhaseInvStep(d, e);
    }
    RunInvariant(Step, PhaseInv, NewDialog(inviteCSeq), events);
  }

  /** The dialog only moves forward, so a dead one stays dead. */
  lemma {:induction false} OnlyForward(d: Dialog, events: seq<Event>)
    requires PhaseInv(d)
    ensures Rank(d) <= Rank(Run(Step, d, events))
    decreases |events|
  {
    if events != [] {
      PhaseInvStep(d, events[0]);
      OnlyForward(Step(d, events[0]), events[1..]);
    }
  }

  // ----- When StartRinging crashes -----

  /** What may happen between the registration of a call and its StartRinging. */
  predicate IsEarly(e: Event) {
    OfOthers(e) || e.Processing?
  }

  lemma {:induction false} EarlyDropIff(d: Dialog, early: seq<Event>)
    requires PhaseInv(d) && d.ringer.NotStarted? && d.accepting.None?
    requires forall e :: e in early ==> IsEarly(e)
    ensures var t := Run(Step, d, early);
            && PhaseInv(t) && t.ringer.NotStarted? && t.accepting.None?
            && (t.inviteTx <==> d.inviteTx && ByeDrop !in early)
            && (!Established(d) ==> !Established(t))
    decreases |early|
  {
    if early != [] {
      assert early[0] in early;
      PhaseInvStep(d, early[0]);
      EarlyDropIff(Step(d, early[0]), early[1..]);
      assert early == [early[0]] + early[1..];
    }
  }

  /** StartRinging crashes, leaving a dead dialog that rings, if and only if a remote BYE was accepted
      between the registration of the call and StartRinging. */
  lemma CrashesIffEarlyBye(inviteCSeq: CSeq, early: seq<Event>)
    requires forall e :: e in early ==> IsEarly(e)
    ensures var t := Run(Step, NewDialog(inviteCSeq), early + [StartRinging]);
            && (t.ringer.Crashed? <==> ByeDrop in early)
            && (t.ringing && Dead(t) <==> ByeDrop in early)
  {
    EarlyDropIff(NewDialog(inviteCSeq), early);
    RunSnoc(Step, NewDialog(inviteCSeq), early, StartRinging);
  }

  /** The shortest such run. */
  lemma EarlyByeCrashes(inviteCSeq: CSeq)
    ensures var t := Run(Step, NewDialog(inviteCSeq), [ByeReply, ByeDrop, StartRinging]);
            t.ringer.Crashed? && t.log == [ByeOk, RemoteBye]
  {
    RunThree(Step, NewDialog(inviteCSeq), ByeReply, ByeDrop, StartRinging);
  }

  // ----- What may be on the wire -----

  predicate Rejects(m: Entry) {
    m.Response? && m.code >= 300
  }

  predicate IsBye(m: Entry) {
    m.Request? && m.kind == Bye
  }

  /** After such an entry the dialog is over. */
  predicate Ends(m: Entry) {
    Rejects(m) || IsBye(m) || m.RemoteBye?
  }

  /** What may still follow the end: answers to requests of the other side. */
  predicate Quiet(m: Entry) {
    m.CancelOk? || m.ByeOk? || m.RemoteBye?
  }

  /** There is a 200 OK with nothing after it but answers to a CANCEL or a BYE. */
  ghost predicate OkIsLast(log: seq<Entry>) {
    exists i :: 0 <= i < |log| && IsOk(log[i]) && forall k :: i < k < |log| ==> log[k].CancelOk? || log[k].ByeOk?
  }

  /** At most one rejection or BYE in all, and none after a remote BYE was recorded; nothing in
      answer to the INVITE after Accept completed, and no 200 OK after a rejection; a BYE or REFER
      only after Accept completed, which follows a 200 OK. */
  ghost predicate WireSafe(log: seq<Entry>) {
    && (forall i, j :: 0 <= i < j < |log| && Ends(log[i]) ==> Quiet(log[j]))
    && (forall i, j :: 0 <= i < j < |log| && log[i] == AcceptDone ==> !log[j].Response? && log[j] != AcceptDone)
    && (forall j :: 0 <= j < |log| && log[j].Request? ==> exists i :: 0 <= i < j && log[i] == AcceptDone)
    && (forall j :: 0 <= j < |log| && log[j] == AcceptDone ==> OkIsLast(log[..j]))
  }

  ghost predicate StillOpen(log: seq<Entry>) {
    forall i :: 0 <= i < |log| ==> !Ends(log[i])
  }

  ghost predicate WireInv(d: Dialog) {
    && PhaseInv(d)
    && WireSafe(d.log)
    && (!Dead(d) ==> StillOpen(d.log))
    && (Pending(d) ==> AcceptDone !in d.log)
    && (Established(d) ==> AcceptDone in d.log)
    && (CopiesSent(d) ==> OkIsLast(d.log))
    && (d.ringer.Terminating? ==> CancelOk in d.log)
  }

  /** What an entry may find: an answer to the INVITE a pending dialog, the end of Accept a copy of the
      200 OK, a request an established dialog whose number it takes. */
  predicate Fits(d: Dialog, m: Entry) {
    && (m.Response? ==> Pending(d))
    && (m == AcceptDone ==> CopiesSent(d))
    && (m.Request? ==> Established(d) && m.cseq == d.nextRequestCSeq)
  }

  /** A step adds at most one entry, which fits the phase and may end it. */
  lemma AddedFits(d: Dialog, e: Event)
    requires PhaseInv(d)
    ensures |Added(d, e)| <= 1
    ensures Added(d, e) != [] ==> var m := Added(d, e)[0]; Fits(d, m) && (Ends(m) ==> Dead(Moved(d, e)))
  {}

  lemma EntryIsSafe(log: seq<Entry>, m: Entry)
    requires WireSafe(log) && (StillOpen(log) || Quiet(m))
    requires m.Response? || m == AcceptDone ==> AcceptDone !in log
    requires m == AcceptDone ==> OkIsLast(log)
    requires m.Request? ==> AcceptDone in log
    ensures WireSafe(log + [m])
  {
    var more := log + [m];
    forall j | 0 <= j < |more| && more[j].Request? ensures exists i :: 0 <= i < j && more[i] == AcceptDone {
      var i :| 0 <= i < j && log[i] == AcceptDone;
      assert more[i] == AcceptDone;
    }
    forall j | 0 <= j < |more| && more[j] == AcceptDone ensures OkIsLast(more[..j]) {
      assert more[..j] == log[..j];
      assert log[..|log|] == log;
    }
  }

  lemma EntryKeepsOkLast(log: seq<Entry>, m: Entry)
    requires IsOk(m) || (OkIsLast(log) && (m.CancelOk? || m.ByeOk?))
    ensures OkIsLast(log + [m])
  {
    var more := log + [m];
    if IsOk(m) {
      assert IsOk(more[|log|]);
    } else {
      var i :| 0 <= i < |log| && IsOk(log[i]) && forall k :: i < k < |log| ==> log[k].CancelOk? || log[k].ByeOk?;
      assert IsOk(more[i]) && forall k :: i < k < |more| ==> more[k].CancelOk? || more[k].ByeOk?;
    }
  }

  /** While copies are out, only copies and answers to a CANCEL or a BYE are added. */
  lemma CopiesStay(d: Dialog, e: Event)
    requires PhaseInv(d) && CopiesSent(Step(d, e))
    ensures if Added(d, e) == [] then CopiesSent(d)
            else var m := Added(d, e)[0]; IsOk(m) || (CopiesSent(d) && (m.CancelOk? || m.ByeOk?))
  {}

  lemma CancelOkStays(d: Dialog, e: Event)
    requires d.ringer.Terminating? ==> CancelOk in d.log
    ensures Step(d, e).ringer.Terminating? ==> CancelOk in Step(d, e).log
  {
    OneEntry(d, e);
  }

  /** How a step moves through the phases, and what it may add. */
  lemma PhaseMove(d: Dialog, e: Event)
    requires PhaseInv(d)
    ensures var t := Step(d, e);
            && PhaseInv(t)
            && (!Dead(t) ==> !Dead(d) && (Added(d, e) == [] || !Ends(Added(d, e)[0])))
            && (Pending(t) ==> Pending(d) && Added(d, e) != [AcceptDone])
            && (Established(t) ==> Established(d) || Added(d, e) == [AcceptDone])
  {
    PhaseInvStep(d, e);
    AddedFits(d, e);
  }

  lemma WireInvStep(d: Dialog, e: Event)
    requires WireInv(d)
    ensures WireInv(Step(d, e))
  {
    var t := Step(d, e);
    PhaseMove(d, e);
    AddedFits(d, e);
    OneEntry(d, e);
    CancelOkStays(d, e);
    if CopiesSent(t) {
      CopiesStay(d, e);
    }
    hide Step, Moved, Added, PhaseInv;
    if Added(d, e) != [] {
      var m := Added(d, e)[0];
      EntryIsSafe(d.log, m);
      if CopiesSent(t) {
        EntryKeepsOkLast(d.log, m);
      }
    }
  }

  /** Safety of the log over all runs, CANCEL and BYE racing with Accept and close included. */
  lemma WireSafeOverRuns(inviteCSeq: CSeq, events: seq<Event>)
    ensures WireSafe(Run(Step, NewDialog(inviteCSeq), events).log)
  {
    WireInvOverRuns(inviteCSeq, events);
  }

  lemma WireInvOverRuns(inviteCSeq: CSeq, events: seq<Event>)
    ensures WireInv(Run(Step, NewDialog(inviteCSeq), events))
  {
    forall d, e | WireInv(d) ensures WireInv(Step(d, e)) {
      WireInvStep(d, e);
    }
    RunInvariant(Step, WireInv, NewDialog(inviteCSeq), events);
  }

  /** The answer to a BYE does come between the copies of the 200 OK and the end of Accept, */
  lemma ByeOkInterruptsAccept(inviteCSeq: CSeq)
    ensures Run(Step, NewDialog(inviteCSeq), [AcceptBegin, SendOk(true), ByeReply, AcceptEnd]).log
         == [Response(200), ByeOk, AcceptDone]
  {
    var d := NewDialog(inviteCSeq);
    var d1 := d.(accepting := Some(0));
    var d2 := d1.(accepting := Some(1), log := [Response(200)]);
    var d3 := d2.(log := [Response(200), ByeOk]);
    assert Step(d, AcceptBegin) == d1;
    assert Step(d1, SendOk(true)) == d2;
    assert Step(d2, ByeReply) == d3;
    assert Step(d3, AcceptEnd).log == [Response(200), ByeOk, AcceptDone];
    hide Step, NewDialog;
    RunFour(Step, d, AcceptBegin, SendOk(true), ByeReply, AcceptEnd);
  }

  /** and so does the answer to a CANCEL. */
  lemma CancelOkInterruptsAccept(inviteCSeq: CSeq)
    ensures var d := Step(Step(NewDialog(inviteCSeq), StartRinging), RingCancel);
            Run(Step, d, [AcceptBegin, SendOk(true), CancelReply, AcceptEnd]).log
              == [Response(180), Response(200), CancelOk, AcceptDone]
  {
    var d := Step(Step(NewDialog(inviteCSeq), StartRinging), RingCancel);
    var d1 := d.(accepting := Some(0), ringing := false, ringingCloses := 1);
    var d2 := d1.(accepting := Some(1), log := [Response(180), Response(200)]);
    var d3 := d2.(ringer := Terminating, log := [Response(180), Response(200), CancelOk]);
    assert d.log == [Response(180)] && d.ringer.Answering? && d.inviteTx && d.accepting.None?;
    assert Step(d, AcceptBegin) == d1;
    assert Step(d1, SendOk(true)) == d2;
    assert Step(d2, CancelReply) == d3;
    assert Step(d3, AcceptEnd).log == [Response(180), Response(200), CancelOk, AcceptDone];
    hide Step, NewDialog;
    RunFour(Step, d, AcceptBegin, SendOk(true), CancelReply, AcceptEnd);
  }

  // ----- What each step puts on the wire -----

  predicate IsProvisional(m: Entry) {
    m.Response? && m.code < 200
  }

  predicate IsRefer(m: Entry) {
    m.Request? && m.kind == Refer
  }

  /** Provisional responses go out while the dialog is pending, a REFER while it is established, and the
      answers to the other side whatever the phase. */
  lemma AddsIff(d: Dialog, e: Event)
    requires PhaseInv(d)
    ensures Adds(IsProvisional, d, e)
       <==> Pending(d) && d.accepting.None?
            && (e.Processing? || (e.StartRinging? && d.ringer.NotStarted?) || (e.RingTick? && d.ringer.Ringing?))
    ensures Adds(IsProvisional, d, e) ==> Added(d, e) == [Response(if e.Processing? then 100 else 180)]
    ensures Adds(IsRefer, d, e) <==> Established(d) && e.NewRefer?
    ensures Added(d, e) == [AcceptDone] <==> e.AcceptEnd? && CopiesSent(d)
    ensures Added(d, e) == [CancelOk] <==> e.CancelReply? && d.ringer.Answering?
    ensures Added(d, e) == [ByeOk] <==> e.ByeReply?
    ensures Added(d, e) == [RemoteBye] <==> e.ByeDrop? && d.accepting.None?
  {}

  /** A CANCEL taken while the call rings is answered, and then the INVITE is ended with 487. */
  lemma CancelEndsRinging(d: Dialog)
    requires PhaseInv(d) && Pending(d) && d.accepting.None? && d.ringer.Ringing?
    ensures var t := Run(Step, d, [RingCancel, CancelReply, RingTerminate]);
            && Dead(t) && t.ringer.Stopped? && t.cancelledCloses == 1
            && t.log == d.log + [CancelOk, Response(487)]
  {
    var d1 := d.(ringer := Answering, cancelledCloses := d.cancelledCloses + 1);
    var d2 := d1.(ringer := Terminating, log := d.log + [CancelOk]);
    assert Step(d, RingCancel) == d1;
    assert Step(d1, CancelReply) == d2;
    assert Step(d2, RingTerminate).log == d2.log + [Response(487)] && Dead(Step(d2, RingTerminate));
    RunThree(Step, d, RingCancel, CancelReply, RingTerminate);
  }

  /** The goroutine that rings ends by itself exactly when the ringing was stopped. */
  lemma RingerStopsIff(d: Dialog)
    requires PhaseInv(d) && d.ringer.Ringing?
    ensures Step(d, RingStop).ringer.Stopped? <==> !d.ringing
  {}

  // ----- When an established dialog gets a BYE -----

  /** The events that end an established dialog without a BYE. */
  predicate DropsSilently(d: Dialog, e: Event) {
    e.Drop? || e.RespondAndDrop? || e.ByeDrop? || (e.RingTerminate? && d.ringer.Terminating?)
  }

  /** The first event to end the dialog is CloseWithStatus. */
  predicate ClosesFirst(d: Dialog, events: seq<Event>)
    decreases |events|
  {
    && events != []
    && var e := events[0];
    && (e.CloseWithStatus? || (!DropsSilently(d, e) && ClosesFirst(Step(d, e), events[1..])))
  }

  function Byes(log: seq<Entry>): nat {
    Count(IsBye, log)
  }

  function Rejections(log: seq<Entry>): nat {
    Count(Rejects, log)
  }

  /** Only closing an established dialog adds a BYE. */
  lemma AddsByeIff(d: Dialog, e: Event)
    requires PhaseInv(d)
    ensures Adds(IsBye, d, e) <==> Established(d) && e.CloseWithStatus?
  {}

  lemma ByesStep(d: Dialog, e: Event)
    requires PhaseInv(d)
    ensures Byes(Step(d, e).log) == Byes(d.log) + if Established(d) && e.CloseWithStatus? then 1 else 0
  {
    hide Step;
    AddsByeIff(d, e);
    CountStep(IsBye, d, e);
  }

  lemma {:induction false} DeadSendsNoBye(d: Dialog, events: seq<Event>)
    requires PhaseInv(d) && Dead(d)
    ensures Byes(Run(Step, d, events).log) == Byes(d.log)
    decreases |events|
  {
    if events != [] {
      PhaseInvStep(d, events[0]);
      ByesStep(d, events[0]);
      var t := Step(d, events[0]);
      DeadSendsNoBye(t, events[1..]);
    }
  }

  lemma StaysEstablishedIff(d: Dialog, e: Event)
    requires PhaseInv(d) && Established(d)
    ensures var t := Step(d, e);
            if e.CloseWithStatus? || DropsSilently(d, e) then Dead(t) else Established(t)
  {}

  /** An accepted call is ended with exactly one BYE if close takes the lock before everything that
      drops the dialog silently (the drop of AcceptBye, or that of a CANCEL picked up late), and with
      none otherwise. The 200 OK already sent for a remote BYE makes no difference. */
  lemma {:induction false} ByeIffClosesFirst(d: Dialog, events: seq<Event>)
    requires PhaseInv(d) && Established(d)
    ensures Byes(Run(Step, d, events).log) == Byes(d.log) + if ClosesFirst(d, events) then 1 else 0
    decreases |events|
  {
    if events != [] {
      var e, t := events[0], Step(d, events[0]);
      PhaseInvStep(d, e);
      ByesStep(d, e);
      StaysEstablishedIff(d, e);
      if Dead(t) {
        DeadSendsNoBye(t, events[1..]);
      } else {
        ByeIffClosesFirst(t, events[1..]);
      }
    }
  }

  lemma ByeReplyStep(d: Dialog)
    ensures Step(d, ByeReply) == d.(log := d.log + [ByeOk])
  {}

  lemma CloseStep(d: Dialog, code: FailureCode)
    requires PhaseInv(d) && Established(d)
    ensures Step(d, CloseWithStatus(code)).log == d.log + [Request(Bye, d.nextRequestCSeq)]
  {}

  /** So a BYE may cross the 200 OK that AcceptBye has already sent, */
  lemma ByeMayFollowByeOk(d: Dialog, code: FailureCode)
    requires PhaseInv(d) && Established(d)
    ensures Run(Step, d, [ByeReply, CloseWithStatus(code)]).log == d.log + [ByeOk, Request(Bye, d.nextRequestCSeq)]
  {
    hide Step, Run;
    var t := d.(log := d.log + [ByeOk]);
    ByeReplyStep(d);
    CloseStep(t, code);
    RunTwo(Step, d, ByeReply, CloseWithStatus(code));
  }

  /** and a CANCEL that the ringing goroutine picks after Accept finished ends the call without one. */
  lemma LateCancelEndsWithoutBye(d: Dialog, code: FailureCode)
    requires PhaseInv(d) && Established(d) && d.ringer.Ringing?
    ensures var t := Run(Step, d, [RingCancel, CancelReply, RingTerminate, CloseWithStatus(code)]);
            Dead(t) && t.log == d.log + [CancelOk]
  {
    var d1 := Step(d, RingCancel);
    assert d1 == d.(ringer := Answering, cancelledCloses := d.cancelledCloses + 1);
    var d2 := Step(d1, CancelReply);
    assert d2 == d1.(ringer := Terminating, log := d.log + [CancelOk]);
    var d3 := Step(d2, RingTerminate);
    assert d3.log == d2.log && Dead(d3);
    RunFour(Step, d, RingCancel, CancelReply, RingTerminate, CloseWithStatus(code));
  }

  lemma RingsThenBegins(inviteCSeq: CSeq)
    ensures var d := NewDialog(inviteCSeq);
            var t := d.(ringing := true, ringer := Ringing, log := [Response(180)]);
            && Step(d, StartRinging) == t
            && Step(t, AcceptBegin) == t.(accepting := Some(0), ringing := false, ringingCloses := 1)
  {}

  lemma SendsThenEnds(d: Dialog)
    requires d.accepting == Some(0)
    ensures var t := d.(accepting := Some(1), log := d.log + [Response(200)]);
            && Step(d, SendOk(true)) == t
            && Step(t, AcceptEnd)
                 == t.(inviteOk := true, inviteTx := false, accepting := None, log := t.log + [AcceptDone])
  {
    CopyStep(d);
    var t := d.(accepting := Some(1), log := d.log + [Response(200)]);
    EndStep(t);
  }

  /** Such a dialog is reached by accepting a call that rings. */
  lemma RingingCallIsAccepted(inviteCSeq: CSeq)
    ensures var d := Run(Step, NewDialog(inviteCSeq), [StartRinging, AcceptBegin, SendOk(true), AcceptEnd]);
            && PhaseInv(d) && Established(d) && d.ringer.Ringing?
            && d.log == [Response(180), Response(200), AcceptDone]
  {
    hide Step, Run;
    var d := NewDialog(inviteCSeq);
    RingsThenBegins(inviteCSeq);
    SendsThenEnds(Step(Step(d, StartRinging), AcceptBegin));
    RunFour(Step, d, StartRinging, AcceptBegin, SendOk(true), AcceptEnd);
  }

  lemma LateCancelHappens(inviteCSeq: CSeq, code: FailureCode)
    ensures var events := [StartRinging, AcceptBegin, SendOk(true), AcceptEnd]
                          + [RingCancel, CancelReply, RingTerminate, CloseWithStatus(code)];
            var t := Run(Step, NewDialog(inviteCSeq), events);
            Dead(t) && t.log == [Response(180), Response(200), AcceptDone, CancelOk]
  {
    hide Step, Run, NewDialog;
    var accepted := [StartRinging, AcceptBegin, SendOk(true), AcceptEnd];
    RunConcat(Step, NewDialog(inviteCSeq), accepted, [RingCancel, CancelReply, RingTerminate, CloseWithStatus(code)]);
    RingingCallIsAccepted(inviteCSeq);
    LateCancelEndsWithoutBye(Run(Step, NewDialog(inviteCSeq), accepted), code);
  }

  // ----- When a pending dialog gets a rejection -----

  /** The events that end a pending dialog with a final response: close, a failure of the call, and a
      CANCEL taken from the transaction. */
  predicate EndsPending(d: Dialog, e: Event) {
    d.accepting.None? && (e.CloseWithStatus? || e.RespondAndDrop? || (e.RingTerminate? && d.ringer.Terminating?))
  }

  /** The events that take a pending dialog on without one. */
  predicate LeavesPending(d: Dialog, e: Event) {
    (d.accepting.None? && (e.Drop? || e.ByeDrop?)) || (e.AcceptEnd? && CopiesSent(d))
  }

  /** One of them comes before a completed Accept and before everything that drops the dialog silently. */
  predicate RejectedFirst(d: Dialog, events: seq<Event>)
    decreases |events|
  {
    && events != []
    && var e := events[0];
    && (EndsPending(d, e) || (!LeavesPending(d, e) && RejectedFirst(Step(d, e), events[1..])))
  }

  lemma StaysPendingIff(d: Dialog, e: Event)
    requires PhaseInv(d) && Pending(d)
    ensures Pending(Step(d, e)) <==> !EndsPending(d, e) && !LeavesPending(d, e)
  {}

  lemma AddsRejectionIff(d: Dialog, e: Event)
    requires PhaseInv(d)
    ensures Adds(Rejects, d, e) <==> Pending(d) && EndsPending(d, e)
    ensures Adds(Rejects, d, e) ==>
              Added(d, e) == [Response(if e.RespondAndDrop? || e.CloseWithStatus? then e.code else 487)]
  {}

  lemma RejectionsStep(d: Dialog, e: Event)
    requires PhaseInv(d)
    ensures Rejections(Step(d, e).log) == Rejections(d.log) + if Pending(d) && EndsPending(d, e) then 1 else 0
  {
    hide Step;
    AddsRejectionIff(d, e);
    CountStep(Rejects, d, e);
  }

  lemma {:induction false} NoRejectionAfterPending(d: Dialog, events: seq<Event>)
    requires PhaseInv(d) && !Pending(d)
    ensures Rejections(Run(Step, d, events).log) == Rejections(d.log)
    decreases |events|
  {
    if events != [] {
      PhaseInvStep(d, events[0]);
      RejectionsStep(d, events[0]);
      NoRejectionAfterPending(Step(d, events[0]), events[1..]);
    }
  }

  /** A pending call is rejected exactly once if one of EndsPending comes first, and otherwise never:
      an Accept that fails leaves it pending, so a rejection may still follow. */
  lemma {:induction false} RejectionIffRejectedFirst(d: Dialog, events: seq<Event>)
    requires PhaseInv(d) && Pending(d)
    ensures Rejections(Run(Step, d, events).log) == Rejections(d.log) + if RejectedFirst(d, events) then 1 else 0
    decreases |events|
  {
    if events != [] {
      var e, t := events[0], Step(d, events[0]);
      PhaseInvStep(d, e);
      RejectionsStep(d, e);
      StaysPendingIff(d, e);
      if EndsPending(d, e) || LeavesPending(d, e) {
        NoRejectionAfterPending(t, events[1..]);
      } else {
        RejectionIffRejectedFirst(t, events[1..]);
      }
    }
  }

  // ----- When a rejection follows a 200 OK -----

  /** A rejection after a copy of the 200 OK. */
  ghost predicate RejectsAfterOk(log: seq<Entry>) {
    exists i, j :: 0 <= i < j < |log| && IsOk(log[i]) && Rejects(log[j])
  }

  lemma RejectsAfterOkSnoc(log: seq<Entry>, m: Entry)
    ensures RejectsAfterOk(log + [m]) <==> RejectsAfterOk(log) || (Rejects(m) && Response(200) in log)
  {
    var more := log + [m];
    if RejectsAfterOk(log) {
      var i, j :| 0 <= i < j < |log| && IsOk(log[i]) && Rejects(log[j]);
      assert IsOk(more[i]) && Rejects(more[j]);
    }
    if Rejects(m) && Response(200) in log {
      var i :| 0 <= i < |log| && log[i] == Response(200);
      assert IsOk(more[i]) && Rejects(more[|log|]);
    }
  }

  lemma AddsOkIff(d: Dialog, e: Event)
    requires PhaseInv(d)
    ensures Adds(IsOk, d, e) <==> e == SendOk(true) && d.accepting.Some?
  {}

  lemma RejectsAfterOkStep(d: Dialog, e: Event)
    requires PhaseInv(d)
    ensures RejectsAfterOk(Step(d, e).log)
       <==> RejectsAfterOk(d.log) || (Pending(d) && EndsPending(d, e) && Response(200) in d.log)
    ensures Response(200) in Step(d, e).log <==> Response(200) in d.log || (e == SendOk(true) && d.accepting.Some?)
  {
    AddsRejectionIff(d, e);
    AddsOkIff(d, e);
    OneEntry(d, e);
    hide *;
    if Added(d, e) == [] {
      assert Step(d, e).log == d.log;
    } else {
      RejectsAfterOkSnoc(d.log, Added(d, e)[0]);
    }
  }

  /** The k-th event is a failing Respond of an Accept that has sent a copy, and after it the call is
      rejected first. */
  ghost predicate FailsThenRejected(d: Dialog, events: seq<Event>, k: nat)
    requires k < |events|
  {
    var s := Run(Step, d, events[..k]);
    CopiesSent(s) && events[k] == SendOk(false) && RejectedFirst(Step(s, events[k]), events[k + 1..])
  }

  ghost predicate EverFailsThenRejected(d: Dialog, events: seq<Event>) {
    exists k: nat :: k < |events| && FailsThenRejected(d, events, k)
  }

  lemma EverFailsUnfolds(d: Dialog, events: seq<Event>)
    requires events != []
    ensures EverFailsThenRejected(d, events)
       <==> || (CopiesSent(d) && events[0] == SendOk(false) && RejectedFirst(Step(d, events[0]), events[1..]))
            || EverFailsThenRejected(Step(d, events[0]), events[1..])
  {
    var t, rest := Step(d, events[0]), events[1..];
    assert events[..0] == [];
    assert FailsThenRejected(d, events, 0)
      <==> CopiesSent(d) && events[0] == SendOk(false) && RejectedFirst(t, rest);
    forall k: nat | k < |rest| ensures FailsThenRejected(t, rest, k) <==> FailsThenRejected(d, events, k + 1) {
      assert events[..k + 1][1..] == rest[..k] && events[..k + 1][0] == events[0];
      assert events[k + 1 + 1..] == rest[k + 1..];
    }
    if k: nat :| k < |events| && FailsThenRejected(d, events, k) {
      if k > 0 {
        assert FailsThenRejected(t, rest, k - 1);
      }
    }
    if k: nat :| k < |rest| && FailsThenRejected(t, rest, k) {
      assert FailsThenRejected(d, events, k + 1);
    }
  }

  lemma {:induction false} NothingAfterPending(d: Dialog, events: seq<Event>)
    requires PhaseInv(d) && !Pending(d)
    ensures RejectsAfterOk(Run(Step, d, events).log) <==> RejectsAfterOk(d.log)
    ensures !EverFailsThenRejected(d, events)
    decreases |events|
  {
    if events != [] {
      PhaseInvStep(d, events[0]);
      RejectsAfterOkStep(d, events[0]);
      EverFailsUnfolds(d, events);
      NothingAfterPending(Step(d, events[0]), events[1..]);
    }
  }

  /** From a pending dialog, `earlier` telling whether an Accept has failed after sending a copy. */
  lemma {:induction false} RejectsAfterOkFrom(d: Dialog, earlier: bool, events: seq<Event>)
    requires PhaseInv(d) && Pending(d) && !RejectsAfterOk(d.log)
    requires Response(200) in d.log <==> earlier || CopiesSent(d)
    ensures RejectsAfterOk(Run(Step, d, events).log)
       <==> (earlier && RejectedFirst(d, events)) || EverFailsThenRejected(d, events)
    decreases |events|
  {
    if events != [] {
      var e, t, rest := events[0], Step(d, events[0]), events[1..];
      PhaseInvStep(d, e);
      RejectsAfterOkStep(d, e);
      EverFailsUnfolds(d, events);
      StaysPendingIff(d, e);
      if EndsPending(d, e) || LeavesPending(d, e) {
        NothingAfterPending(t, rest);
      } else {
        RejectsAfterOkFrom(t, earlier || (CopiesSent(d) && e == SendOk(false)), rest);
      }
    }
  }

  /** Over all runs a rejection follows a 200 OK if and only if some Accept sends a copy, fails to send
      another, and the call is then rejected before it is accepted or dropped silently. */
  lemma RejectAfterOkIff(inviteCSeq: CSeq, events: seq<Event>)
    ensures RejectsAfterOk(Run(Step, NewDialog(inviteCSeq), events).log)
       <==> EverFailsThenRejected(NewDialog(inviteCSeq), events)
  {
    RejectsAfterOkFrom(NewDialog(inviteCSeq), false, events);
  }

  /** And it happens, when the second copy fails. */
  lemma RejectAfterOkHappens(inviteCSeq: CSeq)
    ensures Run(Step, NewDialog(inviteCSeq), [AcceptBegin, SendOk(true), SendOk(false), CloseWithStatus(486)]).log
         == [Response(200), Response(486)]
  {
    var d := NewDialog(inviteCSeq);
    var d1 := d.(accepting := Some(0));
    var d2 := d1.(accepting := Some(1), log := [Response(200)]);
    var d3 := d2.(accepting := None);
    assert Step(d, AcceptBegin) == d1;
    assert Step(d1, SendOk(true)) == d2;
    assert Step(d2, SendOk(false)) == d3;
    assert Step(d3, CloseWithStatus(486)).log == [Response(200), Response(486)];
    hide Step, NewDialog;
    RunFour(Step, d, AcceptBegin, SendOk(true), SendOk(false), CloseWithStatus(486));
  }

  // ----- Request numbers -----

  /** The numbers of the in-dialog requests, in the order they were assigned. */
  function Numbers(log: seq<Entry>): seq<nat> {
    if log == [] then []
    else Numbers(log[..|log| - 1]) + if log[|log| - 1].Request? then [log[|log| - 1].cseq] else []
  }

  function LastRefer(log: seq<Entry>): nat {
    if log == [] then 0
    else if log[|log| - 1].Request? && log[|log| - 1].kind == Refer then log[|log| - 1].cseq
    else LastRefer(log[..|log| - 1])
  }

  lemma NumbersSnoc(log: seq<Entry>, m: Entry)
    ensures Numbers(log + [m]) == Numbers(log) + if m.Request? then [m.cseq] else []
    ensures LastRefer(log + [m]) == if m.Request? && m.kind == Refer then m.cseq else LastRefer(log)
  {
    assert (log + [m])[..|log|] == log;
  }

  /** The k-th request carries the INVITE's number plus k, modulo 2^32. */
  ghost predicate NumberInv(inviteCSeq: CSeq, d: Dialog) {
    && PhaseInv(d)
    && (forall k :: 0 <= k < |Numbers(d.log)| ==> Numbers(d.log)[k] == (inviteCSeq + 1 + k) % CSEQ_MODULUS)
    && (!Dead(d) ==> d.nextRequestCSeq == (inviteCSeq + 1 + |Numbers(d.log)|) % CSEQ_MODULUS)
    && d.referCseq == LastRefer(d.log)
  }

  /** A step that logs no request leaves the numbers alone; a REFER or a BYE takes the next one. */
  lemma NumberStep(d: Dialog, e: Event)
    requires PhaseInv(d)
    ensures var t := Step(d, e);
            if Added(d, e) != [] && Added(d, e)[0].Request? then
              && Established(d) && t.log == d.log + [Request(Added(d, e)[0].kind, d.nextRequestCSeq)]
              && t.referCseq == (if Added(d, e)[0].kind == Refer then d.nextRequestCSeq else d.referCseq)
              && (t.nextRequestCSeq == (d.nextRequestCSeq + 1) % CSEQ_MODULUS || Dead(t))
            else
              && t.referCseq == d.referCseq && (t.nextRequestCSeq == d.nextRequestCSeq || Dead(t))
  {}

  lemma NextNumber(n: nat)
    ensures (n % CSEQ_MODULUS + 1) % CSEQ_MODULUS == (n + 1) % CSEQ_MODULUS
  {}

  /** Whether the step takes a number, and the one it takes. */
  lemma NumbersStep(d: Dialog, e: Event)
    requires PhaseInv(d)
    ensures var t := Step(d, e);
            if Adds(IsRequest, d, e) then
              && !Dead(d)
              && Numbers(t.log) == Numbers(d.log) + [d.nextRequestCSeq]
              && (t.nextRequestCSeq == (d.nextRequestCSeq + 1) % CSEQ_MODULUS || Dead(t))
              && (d.referCseq == LastRefer(d.log) ==> t.referCseq == LastRefer(t.log))
            else
              && Numbers(t.log) == Numbers(d.log) && LastRefer(t.log) == LastRefer(d.log)
              && t.referCseq == d.referCseq && (t.nextRequestCSeq == d.nextRequestCSeq || Dead(t))
  {
    NumberStep(d, e);
    OneEntry(d, e);
    hide Step, Added, PhaseInv, Numbers, LastRefer;
    if Added(d, e) != [] {
      NumbersSnoc(d.log, Added(d, e)[0]);
    }
  }

  predicate IsRequest(m: Entry) {
    m.Request?
  }

  lemma NumberInvStep(inviteCSeq: CSeq, d: Dialog, e: Event)
    requires NumberInv(inviteCSeq, d)
    ensures NumberInv(inviteCSeq, Step(d, e))
  {
    var t, n := Step(d, e), |Numbers(d.log)|;
    PhaseInvStep(d, e);
    NumbersStep(d, e);
    NextNumber(inviteCSeq + 1 + n);
    assert Dead(d) ==> Dead(t);
    hide Step, Adds, PhaseInv, Dead, Numbers, LastRefer;
    if Numbers(t.log) != Numbers(d.log) {
      assert forall k :: 0 <= k < n ==> Numbers(t.log)[k] == Numbers(d.log)[k];
      assert Numbers(t.log)[n] == d.nextRequestCSeq;
    }
  }

  lemma NumbersOverRuns(inviteCSeq: CSeq, events: seq<Event>)
    ensures NumberInv(inviteCSeq, Run(Step, NewDialog(inviteCSeq), events))
  {
    var inv := d => NumberInv(inviteCSeq, d);
    forall d, e | inv(d) ensures inv(Step(d, e)) {
      NumberInvStep(inviteCSeq, d, e);
    }
    RunInvariant(Step, inv, NewDialog(inviteCSeq), events);
  }

  ghost predicate Increasing(ns: seq<nat>) {
    forall j, k :: 0 <= j < k < |ns| ==> ns[j] < ns[k]
  }

  lemma IncreasingIffNoWrap(inviteCSeq: CSeq, ns: seq<nat>)
    requires forall k :: 0 <= k < |ns| ==> ns[k] == (inviteCSeq + 1 + k) % CSEQ_MODULUS
    ensures Increasing(ns) <==>
              || |ns| <= 1
              || inviteCSeq + |ns| < CSEQ_MODULUS
              || (inviteCSeq == CSEQ_MODULUS - 1 && |ns| <= CSEQ_MODULUS)
  {
    if |ns| <= 1 {
    } else if inviteCSeq + |ns| < CSEQ_MODULUS {
      assert forall k :: 0 <= k < |ns| ==> ns[k] == inviteCSeq + 1 + k;
    } else if inviteCSeq < CSEQ_MODULUS - 1 {
      var k := CSEQ_MODULUS - 1 - inviteCSeq;
      assert ns[k - 1] == CSEQ_MODULUS - 1;
      assert ns[k] == 0;
    } else if |ns| <= CSEQ_MODULUS {
      assert forall k :: 0 <= k < |ns| ==> ns[k] == k;
    } else {
      assert ns[0] == 0;
      assert ns[CSEQ_MODULUS] == 0;
    }
  }

  /** The numbers are contiguous modulo 2^32, so they strictly increase exactly as long as the last
      one does not wrap around, or only the first one has. */
  lemma NumbersIncreaseIffNoWrap(inviteCSeq: CSeq, events: seq<Event>)
    ensures var ns := Numbers(Run(Step, NewDialog(inviteCSeq), events).log);
            && (forall k :: 0 <= k < |ns| ==> ns[k] == (inviteCSeq + 1 + k) % CSEQ_MODULUS)
            && (Increasing(ns) <==>
                  || |ns| <= 1
                  || inviteCSeq + |ns| < CSEQ_MODULUS
                  || (inviteCSeq == CSEQ_MODULUS - 1 && |ns| <= CSEQ_MODULUS))
  {
    NumbersOverRuns(inviteCSeq, events);
    IncreasingIffNoWrap(inviteCSeq, Numbers(Run(Step, NewDialog(inviteCSeq), events).log));
  }

  /** The BYE, if any, is the last in-dialog request. */
  lemma ByeIsLast(log: seq<Entry>, i: nat, j: nat)
    requires WireSafe(log) && i < j < |log| && IsBye(log[i])
    ensures !log[j].Request?
  {
    assert Quiet(log[j]);
  }
}
