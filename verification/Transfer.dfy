/** How the result of a REFER reaches its transfer: an unbuffered channel, sent on by NOTIFY handlers
    that hold the dialog's read lock, while numbering a new REFER takes the write lock. */
module Transfer {
  import opened Wrappers
  import opened Traces
  import opened Notify
  import opened CSeqs

  datatype Phase = AwaitingResponse | AwaitingResult

  /** The transfer in progress: the how-manyeth REFER it is, and that REFER's number. */
  datatype Attempt = Attempt(ordinal: nat, cseq: nat, phase: Phase)

  /** A NOTIFY handler blocked in its send. `during` is how many REFERs had been numbered when the
      handler looked at the notification. */
  datatype Sender = Sender(cseq: nat, status: int, success: bool, during: nat)

  /** A result that reached a transfer. */
  datatype Delivery = Delivery(ordinal: nat, referCseq: nat, sender: Sender)

  /** blocked: the handlers that hold the read lock, by handler. */
  datatype State = State(nextCSeq: nat, referCseq: nat, refers: nat, current: Option<Attempt>,
                         blocked: map<nat, Sender>, deliveries: seq<Delivery>)

  datatype Event =
    | NewRefer
    | ReferAnswered(accepted: bool)
    | CancelTransfer
    | NotifyArrives(handler: nat, cseq: nat, status: int)
    | Rendezvous(handler: nat)
    | SendTimesOut(handler: nat)

  function Initially(nextCSeq: nat): State {
    State(nextCSeq, 0, 0, None, map[], [])
  }

  /** Numbering a REFER needs the write lock, so no handler may hold the read lock; one transfer at
      a time per call. */
  predicate CanRefer(s: State) {
    s.current.None? && s.blocked == map[]
  }

  predicate CanReceive(s: State, handler: nat) {
    s.current.Some? && s.current.value.phase == AwaitingResult && handler in s.blocked
  }

  function Step(s: State, e: Event): State {
    match e
    case NewRefer =>
      if !CanRefer(s) then s
      else s.(referCseq := s.nextCSeq,
              nextCSeq := (s.nextCSeq + 1) % CSEQ_MODULUS,
              refers := s.refers + 1,
              current := Some(Attempt(s.refers + 1, s.nextCSeq, AwaitingResponse)))
    case ReferAnswered(accepted) =>
      if s.current.None? || s.current.value.phase != AwaitingResponse then s
      else if accepted then s.(current := Some(s.current.value.(phase := AwaitingResult)))
      else s.(current := None)
    case CancelTransfer =>
      if s.current.Some? && s.current.value.phase == AwaitingResult then s.(current := None) else s
    case NotifyArrives(handler, cseq, status) =>
      if handler in s.blocked then s
      else (match ReferVerdict(cseq, status, s.referCseq)
            case Skip => s
            case Report(success) => s.(blocked := s.blocked[handler := Sender(cseq, status, success, s.refers)]))
    case Rendezvous(handler) =>
      if !CanReceive(s, handler) then s
      else s.(current := None,
              blocked := s.blocked - {handler},
              deliveries := s.deliveries
                            + [Delivery(s.current.value.ordinal, s.current.value.cseq, s.blocked[handler])])
    case SendTimesOut(handler) => s.(blocked := s.blocked - {handler})
  }

  class ReferChannel {
    var nextCSeq: nat
    var referCseq: nat
    var current: Option<Attempt>
    var blocked: map<nat, Sender>
    var refers: nat
    var deliveries: seq<Delivery>

    ghost function Abs(): State
      reads this
    {
      State(nextCSeq, referCseq, refers, current, blocked, deliveries)
    }

    constructor (nextCSeq: nat)
      ensures Abs() == Initially(nextCSeq)
    {
      this.nextCSeq, referCseq, current, blocked := nextCSeq, 0, None, map[];
      refers, deliveries := 0, [];
    }

    /** The locked part of TransferCall. */
    method BeginTransfer() returns (cseq: nat)
      requires CanRefer(Abs())
      modifies this
      ensures Abs() == Step(old(Abs()), NewRefer)
      ensures cseq == referCseq == old(nextCSeq)
    {
      cseq := nextCSeq;
      nextCSeq := (nextCSeq + 1) % CSEQ_MODULUS;
      referCseq := cseq;
      refers := refers + 1;
      current := Some(Attempt(refers, cseq, AwaitingResponse));
    }

    method ReferResponse(accepted: bool)
      requires current.Some? && current.value.phase == AwaitingResponse
      modifies this
      ensures Abs() == Step(old(Abs()), ReferAnswered(accepted))
    {
      if accepted {
        current := Some(current.value.(phase := AwaitingResult));
      } else {
        current := None;
      }
    }

    /** handleReferNotify up to its send; true if the handler now blocks with the read lock held. */
    method ReferNotify(handler: nat, cseq: nat, status: int) returns (sending: bool)
      requires handler !in blocked
      modifies this
      ensures Abs() == Step(old(Abs()), NotifyArrives(handler, cseq, status))
      ensures sending <==> handler in blocked
    {
      if cseq != 0 && cseq != referCseq {
        return false;
      }
      var success := false;
      if 100 <= status < 200 {
        return false;
      } else if status == 200 {
        success := true;
      }
      blocked := blocked[handler := Sender(cseq, status, success, refers)];
      return true;
    }

    /** The send of a handler meets the receive of the waiting transfer, which returns its result. */
    method Receive(handler: nat) returns (success: bool)
      requires CanReceive(Abs(), handler)
      modifies this
      ensures Abs() == Step(old(Abs()), Rendezvous(handler))
      ensures success == old(blocked[handler].success)
    {
      var sender := blocked[handler];
      deliveries := deliveries + [Delivery(current.value.ordinal, current.value.cseq, sender)];
      blocked := blocked - {handler};
      current := None;
      return sender.success;
    }

    method GiveUp(handler: nat)
      modifies this
      ensures Abs() == Step(old(Abs()), SendTimesOut(handler))
    {
      blocked := blocked - {handler};
    }

    method Cancel()
      requires current.Some? && current.value.phase == AwaitingResult
      modifies this
      ensures Abs() == Step(old(Abs()), CancelTransfer)
    {
      current := None;
    }
  }

  /** A report for a transfer: final, without an id or with the id of the transfer's own REFER, and a
      success exactly when its status is 200. */
  predicate Concerns(sender: Sender, referCseq: nat) {
    && (sender.cseq == 0 || sender.cseq == referCseq)
    && !(100 <= sender.status < 200)
    && (sender.success <==> sender.status == 200)
  }

  /** Every delivered result concerns its transfer, and its handler looked at the notification after
      that transfer's REFER was numbered and before any later one. */
  ghost predicate Integrity(deliveries: seq<Delivery>) {
    && (forall d :: d in deliveries ==> Concerns(d.sender, d.referCseq) && d.sender.during == d.ordinal)
    && (forall i, j :: 0 <= i < j < |deliveries| ==> deliveries[i].ordinal < deliveries[j].ordinal)
  }

  ghost predicate Inv(s: State) {
    && Integrity(s.deliveries)
    && (forall h :: h in s.blocked ==> Concerns(s.blocked[h], s.referCseq) && s.blocked[h].during == s.refers)
    && (s.current.Some? ==> s.current.value.ordinal == s.refers && s.current.value.cseq == s.referCseq)
    && (forall d :: d in s.deliveries ==> d.ordinal <= if s.current.Some? then s.refers - 1 else s.refers)
  }

  lemma InvStep(s: State, e: Event)
    requires Inv(s)
    ensures Inv(Step(s, e))
  {
    match e
    case Rendezvous(handler) =>
      if CanReceive(s, handler) {
        var t := Step(s, e);
        assert forall d :: d in t.deliveries ==> d in s.deliveries || d == t.deliveries[|s.deliveries|];
      }
    case _ =>
  }

  /** In every run: whatever the order of notifications, lock grabs, cancelled transfers and send
      timeouts, a transfer gets at most one result and never one meant for another REFER. */
  lemma IntegrityOverRuns(nextCSeq: nat, events: seq<Event>)
    ensures Integrity(Run(Step, Initially(nextCSeq), events).deliveries)
  {
    forall s, e | Inv(s) ensures Inv(Step(s, e)) {
      InvStep(s, e);
    }
    RunInvariant(Step, Inv, Initially(nextCSeq), events);
  }

  /** The lock is what keeps a late result away: while a handler of a cancelled transfer still blocks
      in its send, no event sequence without that handler's timeout starts another transfer. */
  lemma {:induction false} LateSenderHoldsOffNextTransfer(s: State, handler: nat, events: seq<Event>)
    requires s.current.None? && handler in s.blocked
    requires SendTimesOut(handler) !in events
    ensures var t := Run(Step, s, events);
            t.current.None? && t.refers == s.refers && t.deliveries == s.deliveries && handler in t.blocked
    decreases |events|
  {
    if events != [] {
      LateSenderHoldsOffNextTransfer(Step(s, events[0]), handler, events[1..]);
    }
  }

  /** A final notification that carries the transfer's own id, or none, does reach it, as a success
      exactly when its status is 200. So one without an id completes the transfer in progress when it
      is handled, whichever transfer it was sent for. */
  lemma FinalNotificationIsDelivered(s: State, handler: nat, cseq: nat, status: int)
    requires CanRefer(s)
    requires (cseq == 0 || cseq == s.nextCSeq) && !(100 <= status < 200)
    ensures var events := [NewRefer, ReferAnswered(true), NotifyArrives(handler, cseq, status), Rendezvous(handler)];
            Run(Step, s, events).deliveries
              == s.deliveries + [Delivery(s.refers + 1, s.nextCSeq, Sender(cseq, status, status == 200, s.refers + 1))]
  {
    var s1 := Step(s, NewRefer);
    var s2 := Step(s1, ReferAnswered(true));
    var s3 := Step(s2, NotifyArrives(handler, cseq, status));
    assert CanReceive(s3, handler) && s3.current == Some(Attempt(s.refers + 1, s.nextCSeq, AwaitingResult));
    RunFour(Step, s, NewRefer, ReferAnswered(true), NotifyArrives(handler, cseq, status), Rendezvous(handler));
  }


  // ----- How a transfer ends without a result -----

  /** The REFER is refused, or the transfer cancelled while it waits. */
  predicate EndsEmpty(s: State, e: Event) {
    && s.current.Some?
    && if s.current.value.phase == AwaitingResponse then e == ReferAnswered(false) else e == CancelTransfer
  }

  /** No result ever reaches a REFER that is not the current one any more. */
  lemma {:induction false} PastIsPast(s: State, ordinal: nat, events: seq<Event>)
    requires Inv(s) && ordinal <= s.refers
    requires s.current.Some? ==> s.current.value.ordinal != ordinal
    requires forall d :: d in s.deliveries ==> d.ordinal != ordinal
    ensures forall d :: d in Run(Step, s, events).deliveries ==> d.ordinal != ordinal
    decreases |events|
  {
    if events != [] {
      InvStep(s, events[0]);
      PastIsPast(Step(s, events[0]), ordinal, events[1..]);
    }
  }

  /** After either one no result reaches that transfer, whatever follows, and the next REFER can be
      numbered once no handler blocks. */
  lemma EndedTransferGetsNothing(s: State, e: Event, events: seq<Event>)
    requires Inv(s) && EndsEmpty(s, e)
    ensures forall d :: d in Run(Step, s, [e] + events).deliveries ==> d.ordinal != s.current.value.ordinal
    ensures CanRefer(Step(s, e)) <==> s.blocked == map[]
  {
    InvStep(s, e);
    assert ([e] + events)[1..] == events;
    PastIsPast(Step(s, e), s.current.value.ordinal, events);
  }

  /** A handler stops blocking when its send times out, and no other handler does. */
  lemma TimeoutUnblocks(s: State, handler: nat)
    ensures var t := Step(s, SendTimesOut(handler));
            && handler !in t.blocked
            && (forall h :: h != handler ==> (h in t.blocked <==> h in s.blocked))
            && t == s.(blocked := t.blocked)
  {}

  /** REFER numbers are consecutive: the k-th REFER takes the k-th number from the first. */
  ghost predicate NumbersInv(first: CSeq, s: State) {
    && s.nextCSeq == (first + s.refers) % CSEQ_MODULUS
    && (s.refers > 0 ==> s.referCseq == (first + s.refers - 1) % CSEQ_MODULUS)
  }

  lemma NumbersOverRuns(first: CSeq, events: seq<Event>)
    ensures NumbersInv(first, Run(Step, Initially(first), events))
  {
    var inv := (s: State) => NumbersInv(first, s);
    forall s, e | inv(s) ensures inv(Step(s, e)) {
      NextNumber(first + s.refers);
    }
    RunInvariant(Step, inv, Initially(first), events);
  }

  lemma NextNumber(n: nat)
    ensures (n % CSEQ_MODULUS + 1) % CSEQ_MODULUS == (n + 1) % CSEQ_MODULUS
  {}
}
