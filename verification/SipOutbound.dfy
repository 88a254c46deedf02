/** The signalling side of an outbound call: INVITE with digest retries, REFER, BYE, and how their
    sequence numbers are assigned. */
module SipOutbound {
  import opened Traces
  import opened Wrappers
  import opened CSeqs

  const MAX_ATTEMPTS: nat := 5

  /** The header that answers a 401 or a 407 challenge. */
  datatype AuthHeader = Authorization | ProxyAuthorization

  /** How one INVITE attempt ends. A challenge is usable when credentials are configured and the
      response carries a challenge that the digest library can answer; an OK may lack its To tag. */
  datatype Attempt =
    | TransactionError
    | Rejected
    | Challenged(header: AuthHeader, usable: bool)
    | Answered(hasTag: bool)

  datatype Kind = Invite(auth: Option<AuthHeader>) | Refer | Bye

  datatype Numbered = Numbered(kind: Kind, cseq: CSeq)

  /** shutdownByes counts the BYEs sent while the client shuts down: they are built from the INVITE
      by the SIP library and bypass the counter. */
  datatype Dialog = Dialog(invite: bool, inviteOk: bool, nextCSeq: CSeq, referCseq: nat, closing: bool,
                           log: seq<Numbered>, shutdownByes: nat)

  datatype Event =
    | Dial(attempts: seq<Attempt>)
    | NewRefer
    | ByeDrop
    | Drop
    | Close
    | Shutdown

  function NewDialog(): Dialog {
    Dialog(false, false, 1, 0, false, [], 0)
  }

  function Outcome(attempts: seq<Attempt>, i: nat): Attempt {
    if i < |attempts| then attempts[i] else TransactionError
  }

  /** Only a challenge that can be answered leads to another attempt. */
  function AttemptsFrom(attempts: seq<Attempt>, i: nat): (n: nat)
    requires i <= MAX_ATTEMPTS
    ensures i <= n <= MAX_ATTEMPTS
    decreases MAX_ATTEMPTS - i
  {
    if i == MAX_ATTEMPTS then i
    else
      var a := Outcome(attempts, i);
      if a.Challenged? && a.usable then AttemptsFrom(attempts, i + 1) else i + 1
  }

  function Attempts(attempts: seq<Attempt>): nat {
    AttemptsFrom(attempts, 0)
  }

  function AuthFor(attempts: seq<Attempt>, i: nat): Option<AuthHeader> {
    if i > 0 && Outcome(attempts, i - 1).Challenged? then Some(Outcome(attempts, i - 1).header) else None
  }

  function Plus(n: CSeq, k: nat): CSeq {
    (n + k) % CSEQ_MODULUS
  }

  /** The first n INVITEs of a dial, numbered from `first`. */
  function Invites(attempts: seq<Attempt>, first: CSeq, n: nat): seq<Numbered> {
    seq(n, i requires 0 <= i => Numbered(Invite(AuthFor(attempts, i)), Plus(first, i)))
  }

  predicate AnsweredAt(attempts: seq<Attempt>, n: nat) {
    n > 0 && Outcome(attempts, n - 1).Answered?
  }

  function Dropped(d: Dialog): Dialog {
    d.(invite := false, inviteOk := false, nextCSeq := 0)
  }

  predicate Established(d: Dialog) {
    d.invite && d.inviteOk
  }

  function Moved(d: Dialog, e: Event): Dialog {
    match e
    case Dial(attempts) =>
      var n := Attempts(attempts);
      var t := d.(nextCSeq := Plus(d.nextCSeq, n));
      if AnsweredAt(attempts, n) then t.(invite := true, inviteOk := true) else t
    case NewRefer =>
      if Established(d) && !d.closing then d.(referCseq := d.nextCSeq, nextCSeq := Plus(d.nextCSeq, 1)) else d
    case ByeDrop => Dropped(d)
    case Drop => Dropped(d)
    case Close =>
      if !d.inviteOk then Dropped(d)
      else if !d.invite then d
      else if d.closing then d.(shutdownByes := d.shutdownByes + 1)
      else Dropped(d)
    case Shutdown => d.(closing := true)
  }

  function Added(d: Dialog, e: Event): seq<Numbered> {
    match e
    case Dial(attempts) => Invites(attempts, d.nextCSeq, Attempts(attempts))
    case NewRefer => if Established(d) && !d.closing then [Numbered(Refer, d.nextCSeq)] else []
    case Close => if Established(d) && !d.closing then [Numbered(Bye, d.nextCSeq)] else []
    case _ => []
  }

  function Step(d: Dialog, e: Event): Dialog {
    Moved(d, e).(log := d.log + Added(d, e))
  }

  lemma InvitesSnoc(attempts: seq<Attempt>, first: CSeq, n: nat)
    ensures Invites(attempts, first, n + 1)
         == Invites(attempts, first, n) + [Numbered(Invite(AuthFor(attempts, n)), Plus(first, n))]
    ensures Plus(Plus(first, n), 1) == Plus(first, n + 1)
  {}

  class SipOutbound {
    var invite: bool
    var inviteOk: bool
    var nextCSeq: CSeq
    var referCseq: nat
    var closing: bool
    ghost var log: seq<Numbered>
    ghost var shutdownByes: nat

    ghost function Abs(): Dialog
      reads this
    {
      Dialog(invite, inviteOk, nextCSeq, referCseq, closing, log, shutdownByes)
    }

    constructor ()
      ensures Abs() == NewDialog()
    {
      invite, inviteOk, nextCSeq, referCseq, closing := false, false, 1, 0, false;
      log, shutdownByes := [], 0;
    }

    method SetCSeq(kind: Kind) returns (cseq: CSeq)
      modifies this`log, this`nextCSeq
      ensures cseq == old(nextCSeq)
      ensures Abs() == old(Abs()).(log := old(log) + [Numbered(kind, old(nextCSeq))],
                                   nextCSeq := Plus(old(nextCSeq), 1))
    {
      cseq := nextCSeq;
      log := log + [Numbered(kind, cseq)];
      nextCSeq := (nextCSeq + 1) % CSEQ_MODULUS;
    }

    method DropLocked()
      modifies this
      ensures Abs() == Dropped(old(Abs()))
    {
      invite := false;
      inviteOk := false;
      nextCSeq := 0;
    }

    /** The attempts of a dial: how many were made, and the outcome of the last. */
    method AttemptInvites(attempts: seq<Attempt>) returns (n: nat, last: Attempt)
      modifies this`log, this`nextCSeq
      ensures n == Attempts(attempts) && n > 0 && last == Outcome(attempts, n - 1)
      ensures log == old(log) + Invites(attempts, old(nextCSeq), n) && nextCSeq == Plus(old(nextCSeq), n)
    {
      ghost var log0, first := log, nextCSeq;
      var auth: Option<AuthHeader> := None;
      n := 0;
      while true
        invariant 0 <= n < MAX_ATTEMPTS
        invariant AttemptsFrom(attempts, n) == Attempts(attempts)
        invariant n > 0 ==> Outcome(attempts, n - 1).Challenged?
        invariant auth == AuthFor(attempts, n)
        invariant log == log0 + Invites(attempts, first, n)
        invariant nextCSeq == Plus(first, n)
        decreases MAX_ATTEMPTS - n
      {
        var cseq := SetCSeq(Kind.Invite(auth));
        InvitesSnoc(attempts, first, n);
        last := Outcome(attempts, n);
        n := n + 1;
        if !last.Challenged? || !last.usable || n == MAX_ATTEMPTS {
          return;
        }
        auth := Some(last.header);
      }
    }

    /** Succeeds when an attempt is answered with a To tag; a missing tag is an error found only after
        the dialog was recorded. */
    method Invite(attempts: seq<Attempt>) returns (ok: bool)
      modifies this
      ensures Abs() == Step(old(Abs()), Dial(attempts))
      ensures ok <==> AnsweredAt(attempts, Attempts(attempts)) && Outcome(attempts, Attempts(attempts) - 1).hasTag
    {
      var n, last := AttemptInvites(attempts);
      if !last.Answered? {
        return false;
      }
      invite := true;
      inviteOk := true;
      return last.hasTag;
    }

    method NewReferReq() returns (cseq: Option<CSeq>)
      modifies this
      ensures Abs() == Step(old(Abs()), NewRefer)
      ensures cseq == if old(Established(Abs()) && !closing) then Some(old(nextCSeq)) else None
    {
      if !invite || !inviteOk {
        return None;
      }
      if closing {
        return None;
      }
      var n := SetCSeq(Refer);
      referCseq := n;
      return Some(n);
    }

    method SendBye()
      modifies this
      ensures Abs() == if !old(Established(Abs())) then old(Abs())
                       else if old(closing) then old(Abs()).(shutdownByes := old(shutdownByes) + 1)
                       else Dropped(old(Abs())).(log := old(log) + [Numbered(Bye, old(nextCSeq))])
    {
      if !invite || !inviteOk {
        return;
      }
      if closing {
        shutdownByes := shutdownByes + 1;
        return;
      }
      var n := SetCSeq(Bye);
      DropLocked();
    }

    method Close()
      modifies this
      ensures Abs() == Step(old(Abs()), Event.Close)
    {
      if inviteOk {
        SendBye();
      } else {
        DropLocked();
      }
    }

    method AcceptBye()
      modifies this
      ensures Abs() == Step(old(Abs()), ByeDrop)
    {
      DropLocked();
    }
  }

  // ----- Numbers -----

  /** A dial makes one to five attempts: every attempt before the last was challenged, and it stops
      early only at a response that cannot be answered with credentials. The first INVITE carries no
      credentials, and every other answers the challenge to the one before it. */
  lemma AttemptsMeaning(d: Dialog, attempts: seq<Attempt>)
    ensures var n := Attempts(attempts);
            && 1 <= n <= 5
            && (forall i :: 0 <= i < n - 1 ==> Outcome(attempts, i).Challenged? && Outcome(attempts, i).usable)
            && (n < 5 ==> !(Outcome(attempts, n - 1).Challenged? && Outcome(attempts, n - 1).usable))
            && var sent := Added(d, Dial(attempts));
            && |sent| == n
            && sent[0].kind == Invite(None)
            && (forall i :: 1 <= i < n ==>
                  && Outcome(attempts, i - 1).Challenged?
                  && sent[i].kind == Invite(Some(Outcome(attempts, i - 1).header)))
  {
    AttemptsFromMeaning(attempts, 0);
  }

  lemma {:induction false} AttemptsFromMeaning(attempts: seq<Attempt>, i: nat)
    requires i < MAX_ATTEMPTS
    ensures var n := AttemptsFrom(attempts, i);
            && i + 1 <= n
            && (forall j :: i <= j < n - 1 ==> Outcome(attempts, j).Challenged? && Outcome(attempts, j).usable)
            && (n < MAX_ATTEMPTS ==> !(Outcome(attempts, n - 1).Challenged? && Outcome(attempts, n - 1).usable))
    decreases MAX_ATTEMPTS - i
  {
    if i + 1 < MAX_ATTEMPTS {
      AttemptsFromMeaning(attempts, i + 1);
    }
  }

  /** Number k + 1 at place k: contiguous from 1. */
  ghost predicate Contiguous(log: seq<Numbered>) {
    forall k :: 0 <= k < |log| ==> log[k].cseq == k + 1
  }

  predicate DropsDialog(d: Dialog, e: Event) {
    e.ByeDrop? || e.Drop? || (e.Close? && !(Established(d) && d.closing))
  }

  /** The call is never dialled after its dialog was dropped. */
  predicate NoDialAfterDrop(d: Dialog, dropped: bool, events: seq<Event>)
    decreases |events|
  {
    events == [] ||
    (!(dropped && events[0].Dial?)
     && NoDialAfterDrop(Step(d, events[0]), dropped || DropsDialog(d, events[0]), events[1..]))
  }

  ghost predicate NumberInv(d: Dialog, dropped: bool) {
    && (d.invite <==> d.inviteOk)
    && Contiguous(d.log)
    && d.nextCSeq == (if dropped then 0 else (|d.log| + 1) % CSEQ_MODULUS)
    && (dropped ==> !d.invite)
  }

  lemma {:induction false} LogOnlyGrows(d: Dialog, events: seq<Event>)
    ensures d.log <= Run(Step, d, events).log
    decreases |events|
  {
    if events != [] {
      LogOnlyGrows(Step(d, events[0]), events[1..]);
    }
  }

  lemma DialKeepsNumbers(d: Dialog, attempts: seq<Attempt>)
    requires NumberInv(d, false) && |d.log| + Attempts(attempts) < CSEQ_MODULUS
    ensures NumberInv(Step(d, Dial(attempts)), false)
  {
    var n := Attempts(attempts);
    InvitesAreContiguous(d.log, Invites(attempts, d.nextCSeq, n));
  }

  lemma InvitesAreContiguous(log: seq<Numbered>, more: seq<Numbered>)
    requires Contiguous(log) && |log| + |more| < CSEQ_MODULUS
    requires forall i :: 0 <= i < |more| ==> more[i].cseq == (|log| + 1 + i) % CSEQ_MODULUS
    ensures Contiguous(log + more)
  {
    forall k | 0 <= k < |log + more| ensures (log + more)[k].cseq == k + 1 {
      if k >= |log| {
        assert (log + more)[k] == more[k - |log|];
      }
    }
  }

  lemma NumberInvStep(d: Dialog, dropped: bool, e: Event)
    requires NumberInv(d, dropped) && !(dropped && e.Dial?) && |Step(d, e).log| < CSEQ_MODULUS
    ensures NumberInv(Step(d, e), dropped || DropsDialog(d, e))
  {
    match e
    case Dial(attempts) => DialKeepsNumbers(d, attempts);
    case NewRefer =>
    case ByeDrop =>
    case Drop =>
    case Close =>
    case Shutdown =>
  }

  /** Below the wrap-around, all INVITE, REFER and BYE requests of a call are numbered 1, 2, 3 and so
      on exactly if it is never dialled after its dialog was dropped. */
  lemma {:induction false} ContiguousIff(d: Dialog, dropped: bool, events: seq<Event>)
    requires NumberInv(d, dropped)
    requires |Run(Step, d, events).log| < CSEQ_MODULUS
    ensures Contiguous(Run(Step, d, events).log) <==> NoDialAfterDrop(d, dropped, events)
    decreases |events|
  {
    if events != [] {
      var e, t := events[0], Step(d, events[0]);
      LogOnlyGrows(t, events[1..]);
      if dropped && e.Dial? {
        AttemptsMeaning(d, e.attempts);
        var k := |d.log|;
        assert t.log[k] == Added(d, e)[0] && t.log[k].cseq == 0;
        assert Run(Step, d, events).log[k] == t.log[k];
      } else {
        NumberInvStep(d, dropped, e);
        ContiguousIff(t, dropped || DropsDialog(d, e), events[1..]);
      }
    }
  }

  lemma NumbersOverRuns(events: seq<Event>)
    requires |Run(Step, NewDialog(), events).log| < CSEQ_MODULUS
    ensures Contiguous(Run(Step, NewDialog(), events).log) <==> NoDialAfterDrop(NewDialog(), false, events)
  {
    ContiguousIff(NewDialog(), false, events);
  }

  /** The other side does happen: a call closed before it is dialled sends its INVITE with number 0. */
  lemma DialAfterCloseStartsAtZero()
    ensures Run(Step, NewDialog(), [Close, Dial([Rejected])]).log == [Numbered(Invite(None), 0)]
  {
    var es := [Close, Dial([Rejected])];
    assert es[1..] == [Dial([Rejected])];
    var d := Step(NewDialog(), es[0]);
    assert Run(Step, d, [Dial([Rejected])]) == Step(d, Dial([Rejected]));
    assert Attempts([Rejected]) == 1;
  }

  // ----- REFER numbers, and what may follow a BYE -----

  function LastRefer(log: seq<Numbered>): nat {
    if log == [] then 0
    else if log[|log| - 1].kind == Refer then log[|log| - 1].cseq
    else LastRefer(log[..|log| - 1])
  }

  lemma {:induction false} LastReferOfOthers(log: seq<Numbered>, more: seq<Numbered>)
    requires forall i :: 0 <= i < |more| ==> more[i].kind != Refer
    ensures LastRefer(log + more) == LastRefer(log)
    decreases |more|
  {
    if more == [] {
      assert log + more == log;
    } else {
      assert (log + more)[..|log + more| - 1] == log + more[..|more| - 1];
      LastReferOfOthers(log, more[..|more| - 1]);
    }
  }

  /** A REFER or BYE needs an INVITE since the last BYE. */
  ghost predicate ByeEnds(log: seq<Numbered>) {
    forall i, j :: 0 <= i < j < |log| && log[i].kind == Bye && !log[j].kind.Invite? ==>
      exists k :: i < k < j && log[k].kind.Invite?
  }

  ghost predicate ReferInv(d: Dialog) {
    && (d.invite <==> d.inviteOk)
    && d.referCseq == LastRefer(d.log)
    && ByeEnds(d.log)
    && (d.invite ==> forall i :: 0 <= i < |d.log| && d.log[i].kind == Bye ==>
          exists k :: i < k < |d.log| && d.log[k].kind.Invite?)
  }

  lemma InvitesKeepReferInv(d: Dialog, t: Dialog, more: seq<Numbered>)
    requires ReferInv(d) && more != [] && forall i :: 0 <= i < |more| ==> more[i].kind.Invite?
    requires t.log == d.log + more && t.referCseq == d.referCseq && t.invite == t.inviteOk
    ensures ReferInv(t)
  {
    LastReferOfOthers(d.log, more);
    assert forall i :: 0 <= i < |d.log| ==> t.log[i] == d.log[i];
    assert forall i :: |d.log| <= i < |t.log| ==> t.log[i].kind.Invite?;
    forall i, j | 0 <= i < j < |t.log| && t.log[i].kind == Bye && !t.log[j].kind.Invite?
      ensures exists k :: i < k < j && t.log[k].kind.Invite?
    {
      var k :| i < k < j && d.log[k].kind.Invite?;
      assert t.log[k].kind.Invite?;
    }
    assert t.log[|d.log|].kind.Invite?;
  }

  lemma RequestKeepsReferInv(d: Dialog, t: Dialog, m: Numbered)
    requires ReferInv(d) && d.invite && t.log == d.log + [m] && !m.kind.Invite?
    requires t.referCseq == (if m.kind == Refer then m.cseq else d.referCseq)
    requires t.invite == t.inviteOk && (m.kind == Bye ==> !t.invite)
    ensures ReferInv(t)
  {
    assert t.log[..|t.log| - 1] == d.log;
    assert forall i :: 0 <= i < |d.log| ==> t.log[i] == d.log[i];
    forall i | 0 <= i < |d.log| && t.log[i].kind == Bye ensures exists k :: i < k < |d.log| && t.log[k].kind.Invite? {
      var k :| i < k < |d.log| && d.log[k].kind.Invite?;
      assert t.log[k].kind.Invite?;
    }
    forall i, j | 0 <= i < j < |d.log| && t.log[i].kind == Bye && !t.log[j].kind.Invite?
      ensures exists k :: i < k < j && t.log[k].kind.Invite?
    {
      var k :| i < k < j && d.log[k].kind.Invite?;
      assert t.log[k].kind.Invite?;
    }
  }

  lemma ReferInvStep(d: Dialog, e: Event)
    requires ReferInv(d)
    ensures ReferInv(Step(d, e))
  {
    var t := Step(d, e);
    if e.Dial? {
      AttemptsMeaning(d, e.attempts);
      InvitesKeepReferInv(d, t, Added(d, e));
    } else if Added(d, e) == [] {
      assert t.log == d.log;
    } else {
      RequestKeepsReferInv(d, t, Added(d, e)[0]);
    }
  }

  /** In every run referCseq is the number of the latest REFER, and nothing but a new INVITE follows a BYE. */
  lemma ReferOverRuns(events: seq<Event>)
    ensures ReferInv(Run(Step, NewDialog(), events))
  {
    forall d, e | ReferInv(d) ensures ReferInv(Step(d, e)) {
      ReferInvStep(d, e);
    }
    RunInvariant(Step, ReferInv, NewDialog(), events);
  }

  /** Once the client shuts down, only INVITEs still take numbers. */
  lemma {:induction false} ShutdownBypassesNumbers(d: Dialog, events: seq<Event>, i: nat)
    requires d.closing
    requires |d.log| <= i < |Run(Step, d, events).log|
    ensures Run(Step, d, events).log[i].kind.Invite?
    decreases |events|
  {
    if events != [] {
      var t := Step(d, events[0]);
      LogOnlyGrows(t, events[1..]);
      if i < |t.log| {
        assert t.log[i] == Added(d, events[0])[i - |d.log|];
      } else {
        ShutdownBypassesNumbers(t, events[1..], i);
      }
    }
  }


  // ----- When a call is dialled, and when it gets a BYE -----

  /** The i-th attempt is answered, after challenges that could all be answered. */
  predicate AnsweredFirst(attempts: seq<Attempt>, i: nat) {
    && i < MAX_ATTEMPTS && Outcome(attempts, i).Answered?
    && forall j :: 0 <= j < i ==> Outcome(attempts, j).Challenged? && Outcome(attempts, j).usable
  }

  /** A dial establishes the dialog if and only if one of its five attempts is answered first. */
  lemma DialEstablishesIff(d: Dialog, attempts: seq<Attempt>)
    requires !d.invite && !d.inviteOk
    ensures Established(Step(d, Dial(attempts))) <==> exists i: nat :: AnsweredFirst(attempts, i)
  {
    var n := Attempts(attempts);
    AttemptsFromMeaning(attempts, 0);
    if AnsweredAt(attempts, n) {
      assert AnsweredFirst(attempts, n - 1);
    }
    if i: nat :| AnsweredFirst(attempts, i) {
      assert i == n - 1;
    }
  }

  function Byes(log: seq<Numbered>): nat {
    if log == [] then 0 else Byes(log[..|log| - 1]) + if log[|log| - 1].kind == Bye then 1 else 0
  }

  lemma ByesSnoc(log: seq<Numbered>, m: Numbered)
    ensures Byes(log + [m]) == Byes(log) + if m.kind == Bye then 1 else 0
  {
    assert (log + [m])[..|log|] == log;
  }

  /** Of the events that end an established dialog, or shut the client down, Close is the first. */
  predicate ClosesFirst(events: seq<Event>) {
    && events != []
    && (events[0].Close?
        || (!events[0].ByeDrop? && !events[0].Drop? && !events[0].Shutdown? && ClosesFirst(events[1..])))
  }

  /** How often the call is closed before its dialog is dropped otherwise. */
  function ClosesBeforeDrop(events: seq<Event>): nat {
    if events == [] || events[0].ByeDrop? || events[0].Drop? then 0
    else (if events[0].Close? then 1 else 0) + ClosesBeforeDrop(events[1..])
  }

  ghost predicate NoDial(events: seq<Event>) {
    forall e :: e in events ==> !e.Dial?
  }

  lemma {:induction false} GoneSendsNoBye(d: Dialog, events: seq<Event>)
    requires !d.invite && !d.inviteOk && NoDial(events)
    ensures var t := Run(Step, d, events); Byes(t.log) == Byes(d.log) && t.shutdownByes == d.shutdownByes
    decreases |events|
  {
    if events != [] {
      assert events[0] in events;
      assert Step(d, events[0]).log == d.log;
      GoneSendsNoBye(Step(d, events[0]), events[1..]);
    }
  }

  /** While the client runs, an established dialog gets exactly one numbered BYE if it is closed before
      anything else ends it, and none otherwise. */
  lemma {:induction false} ByeIffClosesFirst(d: Dialog, events: seq<Event>)
    requires Established(d) && !d.closing && NoDial(events)
    ensures Byes(Run(Step, d, events).log) == Byes(d.log) + if ClosesFirst(events) then 1 else 0
    decreases |events|
  {
    if events != [] {
      var e, t := events[0], Step(d, events[0]);
      assert e in events;
      match e
      case Close =>
        ByesSnoc(d.log, Numbered(Bye, d.nextCSeq));
        GoneSendsNoBye(t, events[1..]);
      case NewRefer =>
        ByesSnoc(d.log, Numbered(Refer, d.nextCSeq));
        ByeIffClosesFirst(t, events[1..]);
      case Shutdown =>
        assert t.log == d.log;
        ShutdownByes(t, events[1..]);
      case ByeDrop =>
        assert t.log == d.log;
        GoneSendsNoBye(t, events[1..]);
      case Drop =>
        assert t.log == d.log;
        GoneSendsNoBye(t, events[1..]);
      case Dial(_) =>
    }
  }

  /** While it shuts down, every close of the dialog sends a BYE that takes no number. */
  lemma {:induction false} ShutdownByes(d: Dialog, events: seq<Event>)
    requires Established(d) && d.closing && NoDial(events)
    ensures var t := Run(Step, d, events);
            Byes(t.log) == Byes(d.log) && t.shutdownByes == d.shutdownByes + ClosesBeforeDrop(events)
    decreases |events|
  {
    if events != [] {
      var e, t := events[0], Step(d, events[0]);
      assert e in events && t.log == d.log;
      if e.ByeDrop? || e.Drop? {
        GoneSendsNoBye(t, events[1..]);
      } else {
        ShutdownByes(t, events[1..]);
      }
    }
  }
}
