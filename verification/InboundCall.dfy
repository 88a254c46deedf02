/** The life of an inbound call: handleInvite with its many exits, each of which closes the call, and
    what close does to the monitor, the tables and the dialog. */
module InboundCall {
  import opened Wrappers
  import opened Traces
  import CallTables
  import InviteRetry
  import opened CSeqs
  import S = SipInbound

  datatype CallStatus = Dropped | FloodStatus | HangupStatus | MediaFailedStatus | AcceptFailedStatus | NoAckStatus

  datatype Reason =
    | Other | UnexpectedResult | Flood | NoDispatch
    | MediaFailed | NoCommonCodec | NoCommonCrypto
    | AcceptFailed | NoAck | MediaTimeout | CannotSubscribe
    | Cancelled | Hangup | ByeCause(text: string)
    | WrongPin | ParticipantFailed | PublishFailed | Removed

  const NOT_FOUND: S.FailureCode := 404
  const BUSY_HERE: S.FailureCode := 486
  const NOT_ACCEPTABLE_HERE: S.FailureCode := 488
  const INTERNAL_SERVER_ERROR: S.FailureCode := 500
  const NOT_IMPLEMENTED: S.FailureCode := 501

  function SIPStatus(status: CallStatus): S.FailureCode {
    if status == MediaFailedStatus then NOT_ACCEPTABLE_HERE else BUSY_HERE
  }

  // ----- What the environment decides -----

  datatype Dispatch = Accept | RequestPin | NoRuleReject | NoRuleDrop | Unexpected
  datatype Media = MediaOk | MediaError | NoCodec | NoCrypto
  datatype Wait = Ready | WaitCancelled | WaitHangup | RoomClosed | WaitTimeout
  datatype Subscribe = Subscribed | NeverSubscribed | Interrupted(wait: Wait)
  datatype Pin = PinAccepted | PinRejected | PinCancelled | PinHangup | PinTimeout | DtmfClosed
  datatype LoopEvent = KeepAlive | AckReceived | AckTimeout | CtxDone | LoopRoomClosed | LoopMediaTimeout

  /** byeCause is set when the remote BYE carried an abnormal reason. */
  datatype Env = Env(dispatch: Dispatch, media: Media, retry: InviteRetry.Env, wait: Wait, pin: Pin,
                     joined: bool, published: bool, subscribe: Subscribe, loop: seq<LoopEvent>,
                     byeCause: Option<string>)

  /** How Accept went; it also depends on what other goroutines did to the dialog. */
  datatype AcceptResult = Answered | Unacknowledged | Refused

  // ----- The exits: status and reason, and whether handleInvite returns an error -----

  datatype Asked = Asked(status: CallStatus, reason: Reason)

  datatype Exit = Exit(asked: Asked, failed: bool)

  function HangupExit(env: Env, reason: Reason, failed: bool): Exit {
    Exit(Asked(HangupStatus, if env.byeCause.Some? then ByeCause(env.byeCause.value) else reason), failed)
  }

  function DispatchExit(dispatch: Dispatch): Option<Exit> {
    match dispatch
    case Unexpected => Some(Exit(Asked(Dropped, UnexpectedResult), true))
    case NoRuleDrop => Some(Exit(Asked(FloodStatus, Flood), true))
    case NoRuleReject => Some(Exit(Asked(Dropped, NoDispatch), true))
    case _ => None
  }

  function MediaExit(media: Media): Option<Exit> {
    match media
    case MediaOk => None
    case NoCodec => Some(Exit(Asked(MediaFailedStatus, NoCommonCodec), true))
    case NoCrypto => Some(Exit(Asked(MediaFailedStatus, NoCommonCrypto), true))
    case MediaError => Some(Exit(Asked(Dropped, MediaFailed), true))
  }

  function WaitExit(env: Env, wait: Wait): Option<Exit> {
    match wait
    case Ready => None
    case WaitCancelled => Some(HangupExit(env, Cancelled, false))
    case WaitHangup => Some(HangupExit(env, Hangup, false))
    case RoomClosed => Some(HangupExit(env, Hangup, true))
    case WaitTimeout => Some(Exit(Asked(Dropped, MediaTimeout), true))
  }

  function AcceptExit(env: Env, result: AcceptResult): Option<Exit> {
    match result
    case Unacknowledged => Some(Exit(Asked(NoAckStatus, NoAck), true))
    case Refused => Some(Exit(Asked(AcceptFailedStatus, AcceptFailed), true))
    case Answered => WaitExit(env, env.wait)
  }

  /** Without an explicit close, the deferred one applies. */
  const DEFERRED := Exit(Asked(Dropped, Other), true)

  function PinExit(env: Env): Option<Exit> {
    match env.pin
    case PinAccepted => None
    case PinRejected => Some(Exit(Asked(Dropped, WrongPin), true))
    case PinCancelled => Some(HangupExit(env, Cancelled, false))
    case PinHangup => Some(HangupExit(env, Hangup, false))
    case PinTimeout => Some(Exit(Asked(Dropped, MediaTimeout), true))
    case DtmfClosed => Some(DEFERRED)
  }

  function JoinExit(env: Env): Option<Exit> {
    if !env.joined then Some(Exit(Asked(Dropped, ParticipantFailed), true))
    else if !env.published then Some(Exit(Asked(Dropped, PublishFailed), true))
    else if env.dispatch == RequestPin || env.subscribe == Subscribed then None
    else if env.subscribe == NeverSubscribed then Some(Exit(Asked(Dropped, CannotSubscribe), true))
    else WaitExit(env, env.subscribe.wait)
  }

  /** The select loop: it ends when the context does, if not before. */
  function LoopExit(env: Env, events: seq<LoopEvent>, ackPending: bool, noAck: bool): Exit
    decreases |events|
  {
    if events == [] then HangupExit(env, Hangup, false)
    else match events[0]
         case KeepAlive => LoopExit(env, events[1..], ackPending, noAck)
         case AckReceived => LoopExit(env, events[1..], false, noAck)
         case AckTimeout => LoopExit(env, events[1..], false, noAck || ackPending)
         case CtxDone => HangupExit(env, Hangup, false)
         case LoopRoomClosed => Exit(Asked(Dropped, Removed), false)
         case LoopMediaTimeout =>
           if noAck then Exit(Asked(NoAckStatus, NoAck), true) else Exit(Asked(Dropped, MediaTimeout), true)
  }

  function First(e: Option<Exit>, otherwise: Exit): Exit {
    if e.Some? then e.value else otherwise
  }

  /** The exit that handleInvite takes: the first of its stages that ends the call, if StartRinging does not.
      A call with a pin is accepted before the pin prompt, any other after it was joined. */
  function ExitOf(env: Env, waitAck: bool, crashed: bool, accept: AcceptResult): Exit {
    var active := LoopExit(env, env.loop, !waitAck, false);
    var accepting := AcceptExit(env, accept);
    if crashed then DEFERRED
    else First(DispatchExit(env.dispatch),
               First(MediaExit(env.media),
                     if env.dispatch == RequestPin
                     then First(accepting, First(PinExit(env), First(JoinExit(env), active)))
                     else First(JoinExit(env), First(accepting, active))))
  }

  /** The code with which a call that never gets established is rejected, when nobody cancels it. */
  function RejectionCode(env: Env): S.FailureCode {
    match env.dispatch
    case Unexpected => NOT_IMPLEMENTED
    case NoRuleReject => NOT_FOUND
    case NoRuleDrop => S.REQUEST_TERMINATED
    case _ => if env.media == MediaOk then BUSY_HERE else INTERNAL_SERVER_ERROR
  }

  ghost predicate OnlyRejects(log: seq<S.Entry>, code: S.FailureCode) {
    forall i :: 0 <= i < |log| && S.Rejects(log[i]) ==> log[i].code == code || log[i].code == S.REQUEST_TERMINATED
  }

  ghost predicate Sane(d: S.Dialog, code: S.FailureCode) {
    S.WireInv(d) && OnlyRejects(d.log, code)
  }

  /** The caller has been rejected, accepted or hung up on himself. */
  ghost predicate Final(log: seq<S.Entry>) {
    (exists i :: 0 <= i < |log| && S.Rejects(log[i])) || S.AcceptDone in log || S.RemoteBye in log
  }

  /** An accepted call that is over has seen a BYE of either side, or a CANCEL that came late. */
  ghost predicate HungUp(log: seq<S.Entry>) {
    S.AcceptDone in log ==>
      (exists i :: 0 <= i < |log| && S.IsBye(log[i])) || S.RemoteBye in log || S.CancelOk in log
  }

  ghost predicate Settled(d: S.Dialog) {
    S.Dead(d) ==> Final(d.log) && HungUp(d.log)
  }

  ghost predicate EndedByCaller(log: seq<S.Entry>) {
    S.Response(S.REQUEST_TERMINATED) in log || S.RemoteBye in log
  }

  /** A dialog that was never accepted and is over was ended by a CANCEL or a BYE of the caller. */
  ghost predicate OthersFirst(d: S.Dialog) {
    S.Dead(d) && S.AcceptDone !in d.log ==> EndedByCaller(d.log)
  }

  /** The log grows, but not by the end of an Accept. */
  ghost predicate Grew(was: seq<S.Entry>, log: seq<S.Entry>) {
    was <= log && (S.AcceptDone in log <==> S.AcceptDone in was)
  }

  /** handleInvite gets as far as accepting the call. */
  predicate ReachesAccept(env: Env) {
    && DispatchExit(env.dispatch).None? && env.media == MediaOk
    && (env.dispatch == RequestPin || JoinExit(env).None?)
  }

  /** What the result of an Accept means: it is refused exactly if it never completes, which happens if a
      Respond fails, and otherwise only if the caller ended the call first; it is unacknowledged exactly
      if it completes, the ACK is required, and none comes. */
  ghost predicate AcceptMeaning(env: Env, udp: bool, waitAck: bool, result: AcceptResult, log: seq<S.Entry>) {
    var atOnce, retries := S.AtOnce(udp, waitAck), S.MaxRetries(udp, waitAck);
    && (result == Refused <==> S.AcceptDone !in log)
    && (InviteRetry.Fails(atOnce, retries, env.retry) ==> result == Refused)
    && (result == Refused && !InviteRetry.Fails(atOnce, retries, env.retry) ==> EndedByCaller(log))
    && (result == Unacknowledged <==>
          S.AcceptDone in log && waitAck && !InviteRetry.Acked(atOnce, retries, env.retry))
  }

  lemma MeaningStays(
      env: Env, udp: bool, waitAck: bool, result: AcceptResult, was: seq<S.Entry>, log: seq<S.Entry>)
    requires AcceptMeaning(env, udp, waitAck, result, was) && Grew(was, log)
    ensures AcceptMeaning(env, udp, waitAck, result, log)
  {
    assert forall m :: m in was ==> m in log;
  }

  /** The counters of CallMonitor; callsActive is a gauge shared by all calls. */
  class CallMonitor {
    var started: bool
    var terminated: bool
    var callsActive: int
    var callsTerminated: seq<Reason>

    method CallStart()
      modifies this`started, this`callsActive
      ensures started && callsActive == old(callsActive) + if old(started) then 0 else 1
    {
      if started {
        return;
      }
      started := true;
      callsActive := callsActive + 1;
    }

    method CallEnd()
      modifies this`started, this`callsActive
      ensures !started && callsActive == old(callsActive) - if old(started) then 1 else 0
    {
      if !started {
        return;
      }
      started := false;
      callsActive := callsActive - 1;
    }

    method CallTerminate(reason: Reason)
      modifies this`terminated, this`callsTerminated
      ensures terminated
      ensures callsTerminated == old(callsTerminated) + if old(terminated) then [] else [reason]
    {
      if terminated {
        return;
      }
      terminated := true;
      callsTerminated := callsTerminated + [reason];
    }
  }

  /** The tables and the terminations before the call was handled, and whether its dialog was pending. */
  datatype Before = Before(tables: CallTables.Tables, terminations: seq<Reason>, pending: bool)

  class InboundCall {
    const call: CallTables.Call
    const server: CallTables.Server
    const mon: CallMonitor
    const cc: S.SipInbound
    var done: bool
    var sessionEnds: seq<Reason>
    ghost var asked: seq<Asked>

    constructor (call: CallTables.Call, server: CallTables.Server, mon: CallMonitor, cc: S.SipInbound)
      ensures this.call == call && this.server == server && this.mon == mon && this.cc == cc
      ensures !done && sessionEnds == [] && asked == []
    {
      this.call, this.server, this.mon, this.cc := call, server, mon, cc;
      done, sessionEnds, asked := false, [], [];
    }

    /** Nothing has been closed yet, or everything has, once, for the first reason asked. */
    ghost predicate Ledger(env: Env, b: Before)
      reads this, server, mon, cc
    {
      && Sane(cc.Abs(), RejectionCode(env)) && cc.accepting.None?
      && (b.pending && env.dispatch != NoRuleDrop ==> Settled(cc.Abs()))
      && if !done then
           && asked == [] && sessionEnds == []
           && call in b.tables.live && server.Abs() == b.tables
           && !mon.terminated && mon.callsTerminated == b.terminations
         else
           && asked != [] && sessionEnds == [asked[0].reason]
           && server.Abs() == CallTables.Step(b.tables, CallTables.Close(call))
           && mon.terminated && mon.callsTerminated == b.terminations + [asked[0].reason]
           && S.Dead(cc.Abs())
    }

    /** The call was closed for this exit, or is still open if there is none. */
    ghost predicate ClosedFor(e: Option<Exit>)
      reads this
    {
      if e.Some? then done && asked == [e.value.asked] else !done
    }

    method Close(status: CallStatus, reason: Reason, env: Env, ghost b: Before)
      requires Ledger(env, b)
      requires SIPStatus(status) == RejectionCode(env) || !S.Pending(cc.Abs())
      modifies this, server, cc, mon`terminated, mon`callsTerminated
      ensures Grew(old(cc.log), cc.log)
      ensures Ledger(env, b) && done && asked == old(asked) + [Asked(status, reason)]
    {
      hide Settled, S.Step, OnlyRejects;
      asked := asked + [Asked(status, reason)];
      if done {
        return;
      }
      done := true;
      mon.CallTerminate(reason);
      ClosingIsSane(cc.Abs(), SIPStatus(status), RejectionCode(env));
      ClosingSettles(cc.Abs(), SIPStatus(status));
      cc.CloseWithStatus(SIPStatus(status));
      server.Remove(call);
      sessionEnds := sessionEnds + [reason];
    }

    /** The other goroutines of the call take any steps they like. */
    method Interference(env: Env, ghost b: Before)
      requires Ledger(env, b)
      modifies cc
      ensures Grew(old(cc.log), cc.log)
      ensures Ledger(env, b)
      ensures OthersFirst(old(cc.Abs())) ==> OthersFirst(cc.Abs())
      ensures S.Rank(old(cc.Abs())) <= S.Rank(cc.Abs())
    {
      var events: seq<S.Event> := *;
      S.OnlyThose(S.OfOthers, events);
      StepsAreSane(cc.Abs(), S.Others(events), RejectionCode(env));
      StepsSettle(cc.Abs(), S.Others(events));
      cc.Interleave(events);
    }

    method CloseWithReason(reason: Reason, env: Env, ghost b: Before)
      requires Ledger(env, b) && RejectionCode(env) == BUSY_HERE
      modifies this, server, cc, mon`terminated, mon`callsTerminated
      ensures Grew(old(cc.log), cc.log)
      ensures Ledger(env, b) && done
      ensures asked == old(asked) + [HangupExit(env, reason, false).asked]
    {
      var named := reason;
      if env.byeCause.Some? {
        named := ByeCause(env.byeCause.value);
      }
      Close(HangupStatus, named, env, b);
    }

    method Reject(status: CallStatus, reason: Reason, env: Env, ghost b: Before)
      requires Ledger(env, b)
      requires S.AcceptDone !in cc.log
      modifies this, server, cc, mon`terminated, mon`callsTerminated
      ensures Grew(old(cc.log), cc.log)
      ensures Ledger(env, b) && done && asked == old(asked) + [Asked(status, reason)]
    {
      RejectingIsSane(cc.Abs(), RejectionCode(env));
      RejectingSettles(cc.Abs(), RejectionCode(env));
      cc.RespondAndDrop(RejectionCode(env));
      Close(status, reason, env, b);
    }

    /** StartRinging, after what happened since the call was registered. It crashes exactly if the dialog
        has lost its transaction: a BYE that finds the call registered drops the dialog. */
    method Ring(early: seq<S.Event>, env: Env, ghost b: Before) returns (crashed: bool)
      requires Ledger(env, b) && !done
      requires cc.ringer.NotStarted?
      requires b.pending ==> OthersFirst(cc.Abs())
      modifies cc
      ensures Grew(old(cc.log), cc.log)
      ensures Ledger(env, b) && !done
      ensures crashed <==> !old(cc.inviteTx) || S.ByeDrop in early
      ensures b.pending ==> OthersFirst(cc.Abs())
      ensures !crashed ==> S.Response(180) in cc.log
      ensures crashed ==> !S.Pending(cc.Abs())
    {
      S.OnlyThose(S.OfOthers, early);
      StepsAreSane(cc.Abs(), S.Others(early), RejectionCode(env));
      S.EarlyDropIff(cc.Abs(), S.Others(early));
      StepsSettle(cc.Abs(), S.Others(early));
      cc.Interleave(early);
      RingingIsSane(cc.Abs(), RejectionCode(env));
      RingingSettles(cc.Abs());
      crashed := cc.StartRinging();
    }

    /** The dispatch part of handleInvite. */
    method Admit(env: Env, ghost b: Before) returns (pinPrompt: bool)
      requires Ledger(env, b) && !done
      requires OthersFirst(cc.Abs()) && S.AcceptDone !in cc.log
      modifies this, server, cc, mon`terminated, mon`callsTerminated
      ensures Grew(old(cc.log), cc.log)
      ensures Ledger(env, b) && ClosedFor(DispatchExit(env.dispatch))
      ensures !done ==> OthersFirst(cc.Abs())
      ensures pinPrompt <==> env.dispatch == RequestPin
    {
      hide Sane, Settled, CallTables.Step;
      Interference(env, b);
      match env.dispatch {
        case Unexpected =>
          Reject(Dropped, UnexpectedResult, env, b);
        case NoRuleDrop =>
          DroppingIsSane(cc.Abs(), RejectionCode(env));
          DroppingGrows(cc.Abs());
          cc.Drop();
          Close(FloodStatus, Flood, env, b);
        case NoRuleReject =>
          Reject(Dropped, NoDispatch, env, b);
        case Accept =>
        case RequestPin =>
          return true;
      }
      return false;
    }

    method RunMedia(env: Env, ghost b: Before)
      requires Ledger(env, b) && !done && DispatchExit(env.dispatch).None?
      requires OthersFirst(cc.Abs()) && S.AcceptDone !in cc.log
      modifies this, server, cc, mon`terminated, mon`callsTerminated
      ensures Grew(old(cc.log), cc.log)
      ensures Ledger(env, b) && ClosedFor(MediaExit(env.media))
      ensures !done ==> OthersFirst(cc.Abs())
    {
      hide Sane, Settled, CallTables.Step;
      Interference(env, b);
      match env.media {
        case MediaOk =>
        case NoCodec =>
          Reject(MediaFailedStatus, NoCommonCodec, env, b);
        case NoCrypto =>
          Reject(MediaFailedStatus, NoCommonCrypto, env, b);
        case MediaError =>
          Reject(Dropped, MediaFailed, env, b);
      }
    }

    /** waitMedia, and the cases it shares with waitSubscribe. */
    method WaitFor(wait: Wait, env: Env, ghost b: Before) returns (failed: bool)
      requires Ledger(env, b) && !done && RejectionCode(env) == BUSY_HERE
      modifies this, server, cc, mon`terminated, mon`callsTerminated
      ensures Grew(old(cc.log), cc.log)
      ensures Ledger(env, b) && ClosedFor(WaitExit(env, wait))
      ensures wait != Ready ==> failed == WaitExit(env, wait).value.failed
      ensures OthersFirst(old(cc.Abs())) && !done ==> OthersFirst(cc.Abs())
    {
      hide Sane, Settled, CallTables.Step;
      Interference(env, b);
      match wait {
        case Ready =>
          return false;
        case WaitCancelled =>
          CloseWithReason(Cancelled, env, b);
          return false;
        case WaitHangup =>
          CloseWithReason(Hangup, env, b);
          return false;
        case RoomClosed =>
          CloseWithReason(Hangup, env, b);
          return true;
        case WaitTimeout =>
          Close(Dropped, MediaTimeout, env, b);
          return true;
      }
    }

    /** The part of acceptCall that answers the INVITE. */
    method TryAccept(env: Env, ghost b: Before) returns (failed: bool, result: AcceptResult)
      requires Ledger(env, b) && !done
      requires OthersFirst(cc.Abs()) && S.AcceptDone !in cc.log
      modifies cc
      ensures Ledger(env, b) && old(cc.log) <= cc.log
      ensures AcceptMeaning(env, cc.udp, cc.waitAck, result, cc.log)
      ensures failed <==> result != Answered
    {
      Interference(env, b);
      ghost var before := cc.Abs();
      hide S.Step, Run, Settled, OnlyRejects, CallTables.Step, AcceptMeaning, OthersFirst, S.WireInv, S.Endures;
      var accepted, sends, waited, outcome, steps := cc.Accept(env.retry);
      StepsAreSane(before, steps, RejectionCode(env));
      StepsSettle(before, steps);
      failed := !accepted || outcome == InviteRetry.NoAck;
      result := if !accepted then Refused else if failed then Unacknowledged else Answered;
      AcceptMeans(env, cc.udp, cc.waitAck, before, cc.Abs(), result);
    }

    method AcceptCall(env: Env, ghost b: Before) returns (failed: bool, result: AcceptResult)
      requires Ledger(env, b) && !done && RejectionCode(env) == BUSY_HERE
      requires OthersFirst(cc.Abs()) && S.AcceptDone !in cc.log
      modifies this, server, cc, mon`terminated, mon`callsTerminated
      ensures Ledger(env, b) && ClosedFor(AcceptExit(env, result))
      ensures AcceptExit(env, result).Some? ==> failed == AcceptExit(env, result).value.failed
      ensures result == Unacknowledged ==> cc.waitAck
      ensures old(cc.log) <= cc.log && AcceptMeaning(env, cc.udp, cc.waitAck, result, cc.log)
    {
      hide Sane, Settled, CallTables.Step;
      failed, result := TryAccept(env, b);
      match result {
        case Unacknowledged =>
          Close(NoAckStatus, NoAck, env, b);
          failed := true;
        case Refused =>
          Close(AcceptFailedStatus, AcceptFailed, env, b);
          failed := true;
        case Answered =>
          failed := WaitFor(env.wait, env, b);
      }
    }

    /** Returns without closing when the DTMF queue is closed; nothing in the repository closes it. */
    method PinPrompt(env: Env, ghost b: Before) returns (failed: bool)
      requires Ledger(env, b) && !done && RejectionCode(env) == BUSY_HERE
      modifies this, server, cc, mon`terminated, mon`callsTerminated
      ensures Grew(old(cc.log), cc.log)
      ensures Ledger(env, b)
      ensures if env.pin == DtmfClosed then !done else ClosedFor(PinExit(env))
      ensures env.pin != PinAccepted ==> failed == PinExit(env).value.failed
    {
      hide Sane, Settled, CallTables.Step;
      Interference(env, b);
      match env.pin {
        case PinAccepted =>
          return false;
        case PinRejected =>
          Close(Dropped, WrongPin, env, b);
          return true;
        case PinCancelled =>
          CloseWithReason(Cancelled, env, b);
          return false;
        case PinHangup =>
          CloseWithReason(Hangup, env, b);
          return false;
        case PinTimeout =>
          Close(Dropped, MediaTimeout, env, b);
          return true;
        case DtmfClosed =>
          return true;
      }
    }

    /** Joining the room, and for a call without pin waiting for a subscriber. */
    method Join(env: Env, pinPrompt: bool, ghost b: Before) returns (failed: bool)
      requires Ledger(env, b) && !done && RejectionCode(env) == BUSY_HERE
      requires pinPrompt <==> env.dispatch == RequestPin
      modifies this, server, cc, mon`terminated, mon`callsTerminated
      ensures Grew(old(cc.log), cc.log)
      ensures Ledger(env, b) && ClosedFor(JoinExit(env))
      ensures JoinExit(env).Some? ==> failed == JoinExit(env).value.failed
      ensures OthersFirst(old(cc.Abs())) && !done ==> OthersFirst(cc.Abs())
    {
      hide Sane, Settled, CallTables.Step;
      Interference(env, b);
      if !env.joined {
        Close(Dropped, ParticipantFailed, env, b);
        return true;
      }
      if !env.published {
        Close(Dropped, PublishFailed, env, b);
        return true;
      }
      if pinPrompt || env.subscribe == Subscribed {
        return false;
      }
      if env.subscribe == NeverSubscribed {
        Close(Dropped, CannotSubscribe, env, b);
        return true;
      }
      failed := WaitFor(env.subscribe.wait, env, b);
    }

    method ActiveLoop(env: Env, ghost b: Before) returns (failed: bool)
      requires Ledger(env, b) && !done && RejectionCode(env) == BUSY_HERE
      modifies this, server, cc, mon`terminated, mon`callsTerminated
      ensures Grew(old(cc.log), cc.log)
      ensures Ledger(env, b) && ClosedFor(Some(LoopExit(env, env.loop, !cc.waitAck, false)))
      ensures failed == LoopExit(env, env.loop, !cc.waitAck, false).failed
    {
      hide Sane, Settled, CallTables.Step;
      var noAck, ackPending := false, !cc.waitAck;
      var i := 0;
      while i < |env.loop|
        invariant 0 <= i <= |env.loop|
        invariant Ledger(env, b) && !done && Grew(old(cc.log), cc.log)
        invariant LoopExit(env, env.loop, !cc.waitAck, false) == LoopExit(env, env.loop[i..], ackPending, noAck)
      {
        Interference(env, b);
        assert env.loop[i..][1..] == env.loop[i + 1..];
        match env.loop[i] {
          case KeepAlive =>
          case CtxDone =>
            CloseWithReason(Hangup, env, b);
            return false;
          case LoopRoomClosed =>
            Close(Dropped, Removed, env, b);
            return false;
          case LoopMediaTimeout =>
            if noAck {
              Close(NoAckStatus, NoAck, env, b);
              return true;
            }
            Close(Dropped, MediaTimeout, env, b);
            return true;
          case AckReceived =>
            ackPending := false;
          case AckTimeout =>
            if ackPending {
              noAck := true;
              ackPending := false;
            }
        }
        i := i + 1;
      }
      CloseWithReason(Hangup, env, b);
      return false;
    }

    /** Everything handleInvite does for an admitted call, without its deferred calls. */
    method Serve(env: Env, pinPrompt: bool, ghost b: Before) returns (failed: bool, result: AcceptResult)
      requires Ledger(env, b) && !done && RejectionCode(env) == BUSY_HERE && env.media == MediaOk
      requires DispatchExit(env.dispatch).None? && (pinPrompt <==> env.dispatch == RequestPin)
      requires OthersFirst(cc.Abs()) && S.AcceptDone !in cc.log
      modifies this, server, cc, mon`terminated, mon`callsTerminated
      ensures Ledger(env, b)
      ensures done ==> asked == [ExitOf(env, cc.waitAck, false, result).asked]
      ensures !done ==> ExitOf(env, cc.waitAck, false, result) == DEFERRED
      ensures failed == ExitOf(env, cc.waitAck, false, result).failed
      ensures result == Unacknowledged ==> cc.waitAck
      ensures old(cc.log) <= cc.log
      ensures if ReachesAccept(env) then AcceptMeaning(env, cc.udp, cc.waitAck, result, cc.log)
              else S.AcceptDone !in cc.log
    {
      hide AcceptMeaning, Ledger, OthersFirst, LoopExit;
      result := Answered;
      if pinPrompt {
        failed, result := AcceptCall(env, b);
        if done {
          return;
        }
        ghost var log := cc.log;
        failed := PinPrompt(env, b);
        MeaningStays(env, cc.udp, cc.waitAck, result, log, cc.log);
        if env.pin != PinAccepted {
          return;
        }
      }
      ghost var joining := cc.log;
      failed := Join(env, pinPrompt, b);
      if pinPrompt {
        MeaningStays(env, cc.udp, cc.waitAck, result, joining, cc.log);
      }
      if done {
        return;
      }
      if !pinPrompt {
        failed, result := AcceptCall(env, b);
        if done {
          return;
        }
      }
      ghost var active := cc.log;
      failed := ActiveLoop(env, b);
      MeaningStays(env, cc.udp, cc.waitAck, result, active, cc.log);
    }

    method Handle(early: seq<S.Event>, env: Env, ghost b: Before)
      returns (failed: bool, crashed: bool, result: AcceptResult)
      requires Ledger(env, b) && !done
      requires cc.ringer.NotStarted?
      requires b.pending <==> S.Pending(cc.Abs())
      modifies this, server, cc, mon`terminated, mon`callsTerminated
      ensures Ledger(env, b)
      ensures crashed <==> !old(cc.inviteTx) || S.ByeDrop in early
      ensures crashed ==> !S.Pending(cc.Abs())
      ensures done ==> asked == [ExitOf(env, cc.waitAck, crashed, result).asked]
      ensures !done ==> ExitOf(env, cc.waitAck, crashed, result) == DEFERRED
      ensures failed == ExitOf(env, cc.waitAck, crashed, result).failed
      ensures result == Unacknowledged ==> cc.waitAck
      ensures old(cc.log) <= cc.log && (!crashed ==> S.Response(180) in cc.log)
      ensures !crashed && ReachesAccept(env) ==> AcceptMeaning(env, cc.udp, cc.waitAck, result, cc.log)
      ensures b.pending && (crashed || !ReachesAccept(env)) ==> S.AcceptDone !in cc.log
    {
      PendingIsOpen(cc.Abs());
      hide Ledger, AcceptMeaning, LoopExit, OthersFirst;
      crashed := Ring(early, env, b);
      if crashed {
        return true, true, Answered;
      }
      var pinPrompt := Admit(env, b);
      if done {
        return true, false, Answered;
      }
      RunMedia(env, b);
      if done {
        return true, false, Answered;
      }
      failed, result := Serve(env, pinPrompt, b);
    }

    /** The body and the deferred close. */
    method HandleAndClose(early: seq<S.Event>, env: Env, ghost b: Before)
      returns (failed: bool, crashed: bool, result: AcceptResult)
      requires Ledger(env, b) && !done
      requires cc.ringer.NotStarted?
      requires b.pending <==> S.Pending(cc.Abs())
      modifies this, server, cc, mon`terminated, mon`callsTerminated
      ensures Ledger(env, b) && done && asked[0] == ExitOf(env, cc.waitAck, crashed, result).asked
      ensures crashed <==> !old(cc.inviteTx) || S.ByeDrop in early
      ensures failed == ExitOf(env, cc.waitAck, crashed, result).failed
      ensures result == Unacknowledged ==> cc.waitAck
      ensures old(cc.log) <= cc.log && (!crashed ==> S.Response(180) in cc.log)
      ensures !crashed && ReachesAccept(env) ==> AcceptMeaning(env, cc.udp, cc.waitAck, result, cc.log)
      ensures b.pending && (crashed || !ReachesAccept(env)) ==> S.AcceptDone !in cc.log
    {
      failed, crashed, result := Handle(early, env, b);
      if !done && !crashed {
        DeferredOnlyAfterMedia(env, cc.waitAck, result);
      }
      Close(Dropped, Other, env, b);
    }

    /** Every path through handleInvite closes the call exactly once, and for the first exit it takes:
        the session end and the termination are reported once with its reason, the active-call gauge
        is balanced, the call is in neither table and the dialog is dead. The INVITE is rejected with
        no other code than that of the exit, or that of a CANCEL. A remote BYE among the events since
        the call was registered, and nothing else, makes StartRinging crash; the deferred calls still run. */
    method HandleInvite(early: seq<S.Event>, env: Env) returns (failed: bool, crashed: bool, result: AcceptResult)
      requires !done && sessionEnds == [] && asked == []
      requires call in server.live && CallTables.Sound(server.Abs())
      requires Sane(cc.Abs(), RejectionCode(env)) && cc.ringer.NotStarted? && cc.accepting.None?
      requires !mon.started && !mon.terminated
      modifies this, server, cc, mon
      ensures crashed <==> !old(cc.inviteTx) || S.ByeDrop in early
      ensures done && failed == ExitOf(env, cc.waitAck, crashed, result).failed
      ensures asked != [] && asked[0] == ExitOf(env, cc.waitAck, crashed, result).asked
      ensures var reason := ExitOf(env, cc.waitAck, crashed, result).asked.reason;
              sessionEnds == [reason] && mon.callsTerminated == old(mon.callsTerminated) + [reason]
      ensures mon.callsActive == old(mon.callsActive) && !mon.started
      ensures server.Abs() == CallTables.Step(old(server.Abs()), CallTables.Close(call))
      ensures call !in server.activeCalls.Values && call !in server.byLocal.Values
      ensures S.Dead(cc.Abs()) && S.WireSafe(cc.log) && OnlyRejects(cc.log, RejectionCode(env))
      ensures result == Unacknowledged ==> cc.waitAck
      ensures !crashed ==> S.Response(180) in cc.log
      ensures !crashed && ReachesAccept(env) ==> AcceptMeaning(env, cc.udp, cc.waitAck, result, cc.log)
      ensures old(S.Pending(cc.Abs())) && (crashed || !ReachesAccept(env)) ==> S.AcceptDone !in cc.log
      ensures old(S.Pending(cc.Abs())) && env.dispatch != NoRuleDrop ==> Final(cc.log) && HungUp(cc.log)
    {
      ghost var b := Before(server.Abs(), mon.callsTerminated, S.Pending(cc.Abs()));
      CallTables.ClosingUnlists(b.tables, call);
      ghost var closed := CallTables.Step(b.tables, CallTables.Close(call));
      mon.CallStart();
      failed, crashed, result := HandleAndClose(early, env, b);
      mon.CallEnd();
      assert server.Abs() == closed;
    }
  }

  // ----- What the exits mean -----

  /** handleInvite returns without an error exactly when the caller hung up or cancelled, or the room
      removed an established call; a room that closes before that is a hangup with an error. */
  lemma {:induction false} LoopExitMeaning(env: Env, events: seq<LoopEvent>, ackPending: bool, noAck: bool)
    ensures var e := LoopExit(env, events, ackPending, noAck);
            && (e.failed <==> e.asked.reason == NoAck || e.asked.reason == MediaTimeout)
            && (!e.failed ==> e == HangupExit(env, Hangup, false) || e.asked.reason == Removed)
            && (e.asked.reason == NoAck ==> noAck || ackPending)
    decreases |events|
  {
    if events != [] {
      match events[0]
      case KeepAlive => LoopExitMeaning(env, events[1..], ackPending, noAck);
      case AckReceived => LoopExitMeaning(env, events[1..], false, noAck);
      case AckTimeout => LoopExitMeaning(env, events[1..], false, noAck || ackPending);
      case _ =>
    }
  }

  lemma CleanExits(env: Env, waitAck: bool, crashed: bool, accept: AcceptResult)
    ensures var e := ExitOf(env, waitAck, crashed, accept);
            && (!e.failed ==> e.asked.reason in {Hangup, Cancelled, Removed} || e.asked.reason.ByeCause?)
            && (e.failed ==> e.asked.reason != Cancelled && e.asked.reason != Removed)
            && (e.asked.reason == NoAck && waitAck ==> accept == Unacknowledged)
  {
    LoopExitMeaning(env, env.loop, !waitAck, false);
  }

  /** The loop takes the first event that ends it, and without one it ends with its context. */
  predicate EndsLoop(e: LoopEvent) {
    e == CtxDone || e == LoopRoomClosed || e == LoopMediaTimeout
  }

  lemma {:induction false} LoopExitIsFirst(env: Env, events: seq<LoopEvent>, ackPending: bool, noAck: bool, i: nat)
    requires i <= |events| && forall k :: 0 <= k < i ==> !EndsLoop(events[k])
    requires i < |events| ==> EndsLoop(events[i])
    ensures var e := LoopExit(env, events, ackPending, noAck);
            if i == |events| || events[i] == CtxDone then e == HangupExit(env, Hangup, false)
            else if events[i] == LoopRoomClosed then e == Exit(Asked(Dropped, Removed), false)
            else e.failed && (e.asked == Asked(NoAckStatus, NoAck) || e.asked == Asked(Dropped, MediaTimeout))
    decreases |events|
  {
    if i > 0 {
      var pending, missed := ackPending && events[0] == KeepAlive, noAck || (events[0] == AckTimeout && ackPending);
      LoopExitIsFirst(env, events[1..], pending, missed, i - 1);
    }
  }

  /** How far a call gets, and why it closes: every reason has its one cause. */
  predicate Admitted(env: Env, crashed: bool) {
    !crashed && (env.dispatch == Accept || env.dispatch == RequestPin)
  }

  predicate PassesPin(env: Env, accept: AcceptResult) {
    env.dispatch == Accept || (accept == Answered && env.wait == Ready && env.pin == PinAccepted)
  }

  predicate IsEarly(e: Exit) {
    e.asked.reason in {UnexpectedResult, Flood, NoDispatch, NoCommonCodec, NoCommonCrypto, MediaFailed}
  }

  predicate LateIfAny(e: Option<Exit>) {
    e.Some? ==> !IsEarly(e.value)
  }

  lemma LaterStagesAreLate(env: Env, waitAck: bool, accept: AcceptResult)
    ensures LateIfAny(AcceptExit(env, accept)) && LateIfAny(PinExit(env)) && LateIfAny(JoinExit(env))
    ensures !IsEarly(LoopExit(env, env.loop, !waitAck, false)) && !IsEarly(DEFERRED)
  {
    hide LoopExit;
    LoopStatus(env, env.loop, !waitAck, false);
  }

  lemma EarlyReasonIff(env: Env, waitAck: bool, crashed: bool, accept: AcceptResult)
    ensures var reason := ExitOf(env, waitAck, crashed, accept).asked.reason;
            && (reason == UnexpectedResult <==> !crashed && env.dispatch == Unexpected)
            && (reason == Flood <==> !crashed && env.dispatch == NoRuleDrop)
            && (reason == NoDispatch <==> !crashed && env.dispatch == NoRuleReject)
            && (reason == NoCommonCodec <==> Admitted(env, crashed) && env.media == NoCodec)
            && (reason == NoCommonCrypto <==> Admitted(env, crashed) && env.media == NoCrypto)
            && (reason == MediaFailed <==> Admitted(env, crashed) && env.media == MediaError)
  {
    hide LoopExit, AcceptExit, PinExit, JoinExit;
    LaterStagesAreLate(env, waitAck, accept);
  }

  lemma AcceptReasonIff(env: Env, waitAck: bool, crashed: bool, accept: AcceptResult)
    ensures var reason := ExitOf(env, waitAck, crashed, accept).asked.reason;
            && (reason == AcceptFailed <==> !crashed && ReachesAccept(env) && accept == Refused)
            && (reason == WrongPin <==>
                  && Admitted(env, crashed) && env.media == MediaOk && env.dispatch == RequestPin
                  && accept == Answered && env.wait == Ready && env.pin == PinRejected)
  {
    hide LoopExit;
    LoopStatus(env, env.loop, !waitAck, false);
  }

  lemma JoinReasonIff(env: Env, waitAck: bool, crashed: bool, accept: AcceptResult)
    ensures var reason := ExitOf(env, waitAck, crashed, accept).asked.reason;
            var joins := Admitted(env, crashed) && env.media == MediaOk && PassesPin(env, accept);
            && (reason == ParticipantFailed <==> joins && !env.joined)
            && (reason == PublishFailed <==> joins && env.joined && !env.published)
            && (reason == CannotSubscribe <==>
                  joins && env.joined && env.published && env.dispatch == Accept && env.subscribe == NeverSubscribed)
  {
    hide LoopExit;
    LoopStatus(env, env.loop, !waitAck, false);
  }

  /** A hangup or a cancellation is named after the cause that an abnormal BYE gave. */
  lemma HangupReason(env: Env, waitAck: bool, crashed: bool, accept: AcceptResult)
    ensures var reason := ExitOf(env, waitAck, crashed, accept).asked.reason;
            && (reason.ByeCause? ==> env.byeCause == Some(reason.text))
            && (reason == Hangup || reason == Cancelled ==> env.byeCause.None?)
  {
    hide LoopExit;
    LoopStatus(env, env.loop, !waitAck, false);
  }

  /** How a wait ends the call: cancelled and hung up by the caller without an error, by the room closing
      and by the media timeout with one. */
  lemma WaitExitIff(env: Env, wait: Wait)
    requires env.byeCause.None?
    ensures WaitExit(env, wait).None? <==> wait == Ready
    ensures wait != Ready ==>
              var e := WaitExit(env, wait).value;
              && (e.asked.reason == Cancelled <==> wait == WaitCancelled)
              && (e.asked.reason == Hangup <==> wait == WaitHangup || wait == RoomClosed)
              && (e.asked.reason == MediaTimeout <==> wait == WaitTimeout)
              && (e.failed <==> wait == RoomClosed || wait == WaitTimeout)
  {}

  /** A hangup is an error only when the room closes before the call is established. */
  lemma HangupFailsOnlyByRoom(env: Env, waitAck: bool, crashed: bool, accept: AcceptResult)
    ensures var e := ExitOf(env, waitAck, crashed, accept);
            e.failed && e.asked.status == HangupStatus ==>
              env.wait == RoomClosed || env.subscribe == Interrupted(RoomClosed)
  {
    hide LoopExit;
    LoopStatus(env, env.loop, !waitAck, false);
    LoopExitMeaning(env, env.loop, !waitAck, false);
  }

  /** The status that goes with each reason. */
  predicate Paired(asked: Asked) {
    && (asked.status == FloodStatus <==> asked.reason == Flood)
    && (asked.status == MediaFailedStatus <==> asked.reason == NoCommonCodec || asked.reason == NoCommonCrypto)
    && (asked.status == AcceptFailedStatus <==> asked.reason == AcceptFailed)
    && (asked.status == NoAckStatus <==> asked.reason == NoAck)
    && (asked.status == HangupStatus <==>
          asked.reason == Hangup || asked.reason == Cancelled || asked.reason.ByeCause?)
  }

  predicate PairedIfAny(e: Option<Exit>) {
    e.Some? ==> Paired(e.value.asked)
  }

  lemma StagesArePaired(env: Env, accept: AcceptResult)
    ensures PairedIfAny(DispatchExit(env.dispatch)) && PairedIfAny(MediaExit(env.media))
    ensures PairedIfAny(AcceptExit(env, accept)) && PairedIfAny(PinExit(env)) && Paired(DEFERRED.asked)
  {}

  lemma JoiningIsPaired(env: Env)
    ensures PairedIfAny(JoinExit(env))
  {}

  lemma LoopIsPaired(env: Env, waitAck: bool)
    ensures Paired(LoopExit(env, env.loop, !waitAck, false).asked)
  {
    LoopStatus(env, env.loop, !waitAck, false);
  }

  lemma StatusIff(env: Env, waitAck: bool, crashed: bool, accept: AcceptResult)
    ensures Paired(ExitOf(env, waitAck, crashed, accept).asked)
  {
    hide LoopExit, DispatchExit, MediaExit, AcceptExit, PinExit, JoinExit, Paired;
    StagesArePaired(env, accept);
    JoiningIsPaired(env);
    LoopIsPaired(env, waitAck);
  }

  lemma {:induction false} LoopStatus(env: Env, events: seq<LoopEvent>, ackPending: bool, noAck: bool)
    ensures var asked := LoopExit(env, events, ackPending, noAck).asked;
            || asked == Asked(NoAckStatus, NoAck)
            || asked == Asked(Dropped, MediaTimeout)
            || asked == Asked(Dropped, Removed)
            || asked == HangupExit(env, Hangup, false).asked
    decreases |events|
  {
    if events != [] {
      match events[0]
      case KeepAlive => LoopStatus(env, events[1..], ackPending, noAck);
      case AckReceived => LoopStatus(env, events[1..], false, noAck);
      case AckTimeout => LoopStatus(env, events[1..], false, noAck || ackPending);
      case _ =>
    }
  }

  /** A caller who is rejected, and did not cancel, gets the code of what went wrong. */
  lemma RejectedWith(env: Env, log: seq<S.Entry>, i: nat)
    requires OnlyRejects(log, RejectionCode(env))
    requires i < |log| && S.Rejects(log[i]) && log[i].code != 487
    ensures env.dispatch == Unexpected ==> log[i].code == 501
    ensures env.dispatch == NoRuleReject ==> log[i].code == 404
    ensures Admitted(env, false) ==> log[i].code == if env.media == MediaOk then 486 else 500
    ensures env.dispatch != NoRuleDrop
  {}

  /** The deferred close decides exactly when StartRinging crashes, or an answered call's pin prompt finds
      its queue closed. */
  lemma DeferredIff(env: Env, waitAck: bool, crashed: bool, accept: AcceptResult)
    ensures ExitOf(env, waitAck, crashed, accept).asked.reason == Other
       <==> || crashed
            || (&& env.dispatch == RequestPin && env.media == MediaOk
                && AcceptExit(env, accept).None? && env.pin == DtmfClosed)
  {
    LoopExitMeaning(env, env.loop, !waitAck, false);
  }

  lemma DeferredOnlyAfterMedia(env: Env, waitAck: bool, accept: AcceptResult)
    requires ExitOf(env, waitAck, false, accept) == DEFERRED
    ensures RejectionCode(env) == BUSY_HERE
  {
    DeferredIff(env, waitAck, false, accept);
  }

  /** The status of a call without common media maps to 488, but the INVITE has been answered by then:
      no run of handleInvite puts a 488 on the wire. */
  lemma NotAcceptableIsNeverSent(env: Env, log: seq<S.Entry>)
    requires OnlyRejects(log, RejectionCode(env))
    ensures S.Response(NOT_ACCEPTABLE_HERE) !in log
  {
    forall i | 0 <= i < |log| ensures log[i] != S.Response(NOT_ACCEPTABLE_HERE) {
      assert S.Rejects(log[i]) ==> log[i].code == RejectionCode(env) || log[i].code == S.REQUEST_TERMINATED;
    }
  }

  /** The media timeout is the j-th event, and nothing before it ends the loop. */
  ghost predicate TimesOutAt(events: seq<LoopEvent>, j: int) {
    && 0 <= j < |events| && events[j] == LoopMediaTimeout
    && (forall k :: 0 <= k < j ==> events[k] in {KeepAlive, AckReceived, AckTimeout})
  }

  /** The i-th event is the ACK timeout, and no ACK came before it. */
  ghost predicate MissesAckAt(events: seq<LoopEvent>, i: int) {
    && 0 <= i < |events| && events[i] == AckTimeout
    && (forall k :: 0 <= k < i ==> events[k] == KeepAlive)
  }

  lemma {:induction false} NoAckOnceMissed(env: Env, events: seq<LoopEvent>, j: int)
    requires TimesOutAt(events, j)
    ensures LoopExit(env, events, false, true).asked.reason == NoAck
    decreases |events|
  {
    if j > 0 {
      assert events[0] in {KeepAlive, AckReceived, AckTimeout};
      assert TimesOutAt(events[1..], j - 1);
      NoAckOnceMissed(env, events[1..], j - 1);
    }
  }

  lemma {:induction false} NoAckNeedsTimeout(env: Env, events: seq<LoopEvent>, ackPending: bool, noAck: bool)
    returns (j: int)
    requires LoopExit(env, events, ackPending, noAck).asked.reason == NoAck
    ensures TimesOutAt(events, j)
    decreases |events|
  {
    if events[0] == LoopMediaTimeout {
      j := 0;
    } else {
      var n := events[0] == AckTimeout && ackPending;
      j := NoAckNeedsTimeout(env, events[1..], ackPending && events[0] == KeepAlive, noAck || n);
      j := j + 1;
    }
  }

  /** In the loop, a missing ACK is reported exactly if the media timeout ends it and an ACK timeout,
      with no ACK before it, came first. */
  lemma {:induction false} NoAckIff(env: Env, events: seq<LoopEvent>)
    ensures LoopExit(env, events, true, false).asked.reason == NoAck
       <==> exists i, j :: MissesAckAt(events, i) && TimesOutAt(events, j) && i < j
    decreases |events|
  {
    if events == [] {
    } else if events[0] == KeepAlive {
      var rest := events[1..];
      NoAckIff(env, rest);
      if i, j :| MissesAckAt(rest, i) && TimesOutAt(rest, j) && i < j {
        assert MissesAckAt(events, i + 1) && TimesOutAt(events, j + 1);
      }
      if i, j :| MissesAckAt(events, i) && TimesOutAt(events, j) && i < j {
        assert MissesAckAt(rest, i - 1) && TimesOutAt(rest, j - 1);
      }
    } else if events[0] == AckTimeout {
      assert MissesAckAt(events, 0);
      if LoopExit(env, events, true, false).asked.reason == NoAck {
        var j := NoAckNeedsTimeout(env, events, true, false);
        assert TimesOutAt(events, j) && 0 < j;
      }
      if i, j :| MissesAckAt(events, i) && TimesOutAt(events, j) && i < j {
        assert TimesOutAt(events[1..], j - 1);
        NoAckOnceMissed(env, events[1..], j - 1);
      }
    } else {
      LoopExitMeaning(env, events[1..], false, false);
      assert forall i :: !MissesAckAt(events, i);
    }
  }

  // ----- What the steps of the dialog keep -----

  lemma OneMoreIsSane(log: seq<S.Entry>, more: seq<S.Entry>, code: S.FailureCode)
    requires OnlyRejects(log, code) && OnlyRejects(more, code)
    ensures OnlyRejects(log + more, code)
  {
    forall i | 0 <= i < |log + more| && S.Rejects((log + more)[i])
      ensures (log + more)[i].code == code || (log + more)[i].code == S.REQUEST_TERMINATED
    {
      if i >= |log| {
        assert (log + more)[i] == more[i - |log|];
      }
    }
  }

  lemma StepIsSane(d: S.Dialog, e: S.Event, code: S.FailureCode)
    requires Sane(d, code) && OnlyRejects(S.Added(d, e), code)
    ensures Sane(S.Step(d, e), code)
  {
    S.WireInvStep(d, e);
    OneMoreIsSane(d.log, S.Added(d, e), code);
  }

  lemma ClosingIsSane(d: S.Dialog, with: S.FailureCode, code: S.FailureCode)
    requires Sane(d, code) && d.accepting.None? && (with == code || !S.Pending(d))
    ensures var t := S.Step(d, S.CloseWithStatus(with)); Sane(t, code) && S.Dead(t)
  {
    StepIsSane(d, S.CloseWithStatus(with), code);
  }

  lemma RejectingIsSane(d: S.Dialog, code: S.FailureCode)
    requires Sane(d, code) && d.accepting.None?
    ensures var t := S.Step(d, S.RespondAndDrop(code)); Sane(t, code) && S.Dead(t)
  {
    StepIsSane(d, S.RespondAndDrop(code), code);
  }

  lemma DroppingIsSane(d: S.Dialog, code: S.FailureCode)
    requires Sane(d, code) && d.accepting.None?
    ensures Sane(S.Step(d, S.Drop), code) && S.Dead(S.Step(d, S.Drop))
  {
    StepIsSane(d, S.Drop, code);
  }

  lemma RingingIsSane(d: S.Dialog, code: S.FailureCode)
    requires Sane(d, code)
    ensures Sane(S.Step(d, S.StartRinging), code)
  {
    StepIsSane(d, S.StartRinging, code);
  }

  /** Steps that reject nothing by themselves: those of the others, of Accept and of processInvite. */
  predicate Harmless(e: S.Event) {
    S.OfOthers(e) || S.OfAccept(e) || e.Processing?
  }

  lemma HarmlessStep(d: S.Dialog, e: S.Event, code: S.FailureCode)
    requires Sane(d, code) && Harmless(e)
    ensures var t := S.Step(d, e);
            Sane(t, code) && S.Rank(d) <= S.Rank(t) && (d.accepting.None? && !S.OfAccept(e) ==> t.accepting.None?)
  {
    S.PhaseInvStep(d, e);
    StepIsSane(d, e, code);
  }

  // ----- What the steps of the dialog settle -----

  lemma GrewMore(was: seq<S.Entry>, log: seq<S.Entry>, more: seq<S.Entry>)
    requires was <= log <= more
    ensures was <= more
    ensures Final(log) ==> Final(more)
    ensures EndedByCaller(log) ==> EndedByCaller(more)
    ensures HungUp(log) && (S.AcceptDone in more ==> S.AcceptDone in log) ==> HungUp(more)
  {
    assert forall i :: 0 <= i < |log| ==> more[i] == log[i];
  }

  /** A dialog that Accept found pending and leaves established has the end of Accept in its log, and no
      other dialog has. */
  lemma AcceptMeans(env: Env, udp: bool, waitAck: bool, before: S.Dialog, after: S.Dialog, result: AcceptResult)
    requires S.WireInv(before) && S.WireInv(after) && S.AcceptDone !in before.log && OthersFirst(before)
    requires !before.inviteTx ==> after == before && result == Refused
    requires var atOnce, retries := S.AtOnce(udp, waitAck), S.MaxRetries(udp, waitAck);
             before.inviteTx ==>
               && after.inviteTx == (result == Refused) && (after.inviteOk || result == Refused)
               && (result == Refused <==> InviteRetry.Fails(atOnce, retries, env.retry))
               && (result == Unacknowledged <==>
                     result != Refused && waitAck && !InviteRetry.Acked(false, retries, env.retry))
    ensures AcceptMeaning(env, udp, waitAck, result, after.log)
  {}

  /** One step of the others, of Accept or of processInvite. */
  lemma StepSettles(d: S.Dialog, e: S.Event)
    requires S.WireInv(d) && Harmless(e)
    ensures var t := S.Step(d, e);
            && d.log <= t.log
            && (e != S.AcceptEnd ==> Grew(d.log, t.log))
            && (Settled(d) ==> Settled(t))
            && (OthersFirst(d) ==> OthersFirst(t))
  {
    var t := S.Step(d, e);
    S.OneEntry(d, e);
    S.PhaseMove(d, e);
    GrewMore(d.log, d.log, t.log);
    if S.Dead(t) && !S.Dead(d) {
      DiesBy(d, e);
      if d.log + [S.RemoteBye] == t.log {
        assert t.log[|d.log|] == S.RemoteBye;
      } else if d.log + [S.Response(S.REQUEST_TERMINATED)] == t.log {
        assert t.log[|d.log|] == S.Response(S.REQUEST_TERMINATED);
        assert S.Rejects(t.log[|d.log|]);
      }
    }
  }

  /** How a dialog dies that nobody closes. */
  lemma DiesBy(d: S.Dialog, e: S.Event)
    requires S.WireInv(d) && Harmless(e) && !S.Dead(d) && S.Dead(S.Step(d, e))
    ensures var t := S.Step(d, e);
            || (S.Established(d) && S.AcceptDone in t.log && S.CancelOk in t.log)
            || t.log == d.log + [S.RemoteBye]
            || t.log == d.log + [S.Response(S.REQUEST_TERMINATED)]
  {
    assert e.ByeDrop? || (e.RingTerminate? && d.ringer.Terminating?);
  }

  lemma {:induction false} StepsSettle(d: S.Dialog, events: seq<S.Event>)
    requires S.WireInv(d) && forall e :: e in events ==> Harmless(e)
    ensures var t := Run(S.Step, d, events);
            && d.log <= t.log
            && ((forall e :: e in events ==> e != S.AcceptEnd) ==> Grew(d.log, t.log))
            && (Settled(d) ==> Settled(t))
            && (OthersFirst(d) ==> OthersFirst(t))
    decreases |events|
  {
    if events != [] {
      assert events[0] in events && forall e :: e in events[1..] ==> e in events;
      StepSettles(d, events[0]);
      S.WireInvStep(d, events[0]);
      StepsSettle(S.Step(d, events[0]), events[1..]);
    }
  }

  lemma ClosingSettles(d: S.Dialog, code: S.FailureCode)
    requires S.WireInv(d) && d.accepting.None?
    ensures var t := S.Step(d, S.CloseWithStatus(code));
            Grew(d.log, t.log) && (Settled(d) ==> Settled(t))
  {
    var e := S.CloseWithStatus(code);
    var t := S.Step(d, e);
    S.OneEntry(d, e);
    GrewMore(d.log, d.log, t.log);
    if !S.Dead(d) {
      assert t.log[|d.log|] == S.Added(d, e)[0];
      assert S.Rejects(t.log[|d.log|]) || S.IsBye(t.log[|d.log|]);
    }
  }

  lemma RejectingSettles(d: S.Dialog, code: S.FailureCode)
    requires S.WireInv(d) && d.accepting.None? && S.AcceptDone !in d.log
    ensures var t := S.Step(d, S.RespondAndDrop(code));
            Grew(d.log, t.log) && (Settled(d) ==> Settled(t))
  {
    var e := S.RespondAndDrop(code);
    var t := S.Step(d, e);
    S.OneEntry(d, e);
    GrewMore(d.log, d.log, t.log);
    if !S.Dead(d) {
      assert S.Rejects(t.log[|d.log|]);
    }
  }

  lemma PendingIsOpen(d: S.Dialog)
    requires S.WireInv(d)
    ensures S.Pending(d) ==> S.AcceptDone !in d.log && OthersFirst(d)
    ensures d.inviteTx ==> S.Pending(d)
  {}

  lemma RingingSettles(d: S.Dialog)
    requires S.WireInv(d) && d.accepting.None? && d.ringer.NotStarted?
    ensures var t := S.Step(d, S.StartRinging);
            && Grew(d.log, t.log) && (Settled(d) ==> Settled(t)) && (OthersFirst(d) ==> OthersFirst(t))
            && (d.inviteTx ==> S.Response(180) in t.log)
  {
    var t := S.Step(d, S.StartRinging);
    S.OneEntry(d, S.StartRinging);
    GrewMore(d.log, d.log, t.log);
    if d.inviteTx {
      assert t.log[|d.log|] == S.Response(180);
    }
  }

  lemma DroppingGrows(d: S.Dialog)
    requires d.accepting.None?
    ensures S.Step(d, S.Drop).log == d.log
  {}

  lemma {:induction false} StepsAreSane(d: S.Dialog, events: seq<S.Event>, code: S.FailureCode)
    requires Sane(d, code) && forall e :: e in events ==> Harmless(e)
    ensures var t := Run(S.Step, d, events);
            && Sane(t, code) && S.Rank(d) <= S.Rank(t)
            && (d.accepting.None? && (forall e :: e in events ==> !S.OfAccept(e)) ==> t.accepting.None?)
    decreases |events|
  {
    if events != [] {
      assert events[0] in events;
      HarmlessStep(d, events[0], code);
      StepsAreSane(S.Step(d, events[0]), events[1..], code);
    }
  }

  /** What processInvite hands to handleInvite, with or without a 100, meets its requirements. */
  lemma ProcessedCallIsAdmissible(inviteCSeq: CSeq, processing: seq<S.Event>, code: S.FailureCode)
    requires forall e :: e in processing ==> e.Processing?
    ensures var d := Run(S.Step, S.NewDialog(inviteCSeq), processing);
            Sane(d, code) && d.inviteTx && d.ringer.NotStarted? && d.accepting.None?
  {
    StepsAreSane(S.NewDialog(inviteCSeq), processing, code);
    S.EarlyDropIff(S.NewDialog(inviteCSeq), processing);
  }
}
