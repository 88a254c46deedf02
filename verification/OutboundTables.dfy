/** The Client's two tables of outbound calls, and the call mutex that serialises dialling and closing.
    A step is what happens between two points where other goroutines can interfere. */
module OutboundTables {
  import opened Traces

  /** Who holds the call's mutex and how far it got. Invited: the INVITE was answered; Configured: the
      media port took the answer; Registered: the call is in byRemote; Closing: close runs; Crashed: close
      dereferenced a media port that could not be created, which happens before the call is listed. */
  datatype Stage = Unlocked | Invited | Configured | Registered | Closing | Crashed

  datatype Call = Call(id: string, tag: string, listed: bool, dialed: bool, stage: Stage,
                       stopped: bool, mediaClosed: bool, removed: bool)

  datatype State = State(active: map<string, nat>, byRemote: map<string, nat>, calls: map<nat, Call>)

  datatype Event =
    | Create(call: nat, id: string)
    | NoMedia(call: nat)
    | Abort(call: nat)
    | List(call: nat)
    | InviteAnswered(call: nat, tag: string)
    | InviteFails(call: nat)
    | Configure(call: nat, ok: bool)
    | Register(call: nat)
    | FinishDial(call: nat, ok: bool)
    | BeginClose(call: nat)
    | FinishClose(call: nat)
    | Stop

  function Initially(): State {
    State(map[], map[], map[])
  }

  /** The start of close, with the mutex held: only the first one does anything. */
  function Closed(c: Call): Call {
    if c.stopped then c.(stage := Unlocked) else c.(stage := Closing, stopped := true, mediaClosed := true)
  }

  /** A call that may be dialled: newCall returned it, and nobody holds its mutex. Dial runs once. */
  predicate CanDial(c: Call) {
    c.listed && !c.dialed && c.stage == Unlocked
  }

  function NextCall(c: Call, e: Event): Call {
    match e
    case NoMedia(_) => if c.listed || c.stopped then c else c.(stopped := true, stage := Crashed)
    case Abort(_) => if c.listed || c.stopped then c else c.(stopped := true, mediaClosed := true, removed := true)
    case List(_) => if c.listed || c.stopped then c else c.(listed := true)
    case InviteAnswered(_, tag) => if CanDial(c) then c.(dialed := true, tag := tag, stage := Invited) else c
    case InviteFails(_) => if CanDial(c) then Closed(c.(dialed := true)) else c
    case Configure(_, ok) =>
      if c.stage != Invited then c else if c.mediaClosed || !ok then Closed(c) else c.(stage := Configured)
    case Register(_) => if c.stage == Configured then c.(stage := Registered) else c
    case FinishDial(_, ok) => if c.stage != Registered then c else if ok then c.(stage := Unlocked) else Closed(c)
    case BeginClose(_) => if c.listed && c.stage == Unlocked then Closed(c) else c
    case FinishClose(_) => if c.stage == Closing then c.(stage := Unlocked, removed := true) else c
    case _ => c
  }

  predicate Lists(c: Call, e: Event) {
    e.List? && !c.listed && !c.stopped
  }

  predicate Registers(c: Call, e: Event) {
    e.Register? && c.stage == Configured
  }

  predicate Unlists(c: Call, e: Event) {
    (e.Abort? && !c.listed && !c.stopped) || (e.FinishClose? && c.stage == Closing)
  }

  function StepCall(s: State, h: nat, c: Call, e: Event): State {
    State(if Lists(c, e) then s.active[c.id := h] else if Unlists(c, e) then s.active - {c.id} else s.active,
          if Registers(c, e) then s.byRemote[c.tag := h]
          else if Unlists(c, e) && c.tag != "" then s.byRemote - {c.tag}
          else s.byRemote,
          s.calls[h := NextCall(c, e)])
  }

  function Step(s: State, e: Event): State {
    match e
    case Stop => s.(active := map[], byRemote := map[])
    case Create(h, id) =>
      if h in s.calls then s
      else s.(calls := s.calls[h := Call(id, "", false, false, Unlocked, false, false, false)])
    case _ => if e.call in s.calls then StepCall(s, e.call, s.calls[e.call], e) else s
  }

  class Client {
    var activeCalls: map<string, nat>
    var byRemote: map<string, nat>
    var calls: map<nat, Call>

    ghost function Abs(): State
      reads this
    {
      State(activeCalls, byRemote, calls)
    }

    constructor ()
      ensures Abs() == Initially()
    {
      activeCalls, byRemote, calls := map[], map[], map[];
    }

    /** newCall: whether the media port is created and the room joined. Without a port, close crashes
        before it gets to the tables. */
    method NewCall(h: nat, id: string, media: bool, joined: bool) returns (ok: bool, crashed: bool)
      requires h !in calls
      modifies this
      ensures ok == (media && joined) && crashed == !media
      ensures Abs() == Step(Step(old(Abs()), Create(h, id)),
                            if !media then NoMedia(h) else if joined then List(h) else Abort(h))
    {
      calls := calls[h := Call(id, "", false, false, Unlocked, false, false, false)];
      if !media {
        calls := calls[h := calls[h].(stopped := true, stage := Crashed)];
        return false, true;
      }
      if !joined {
        calls := calls[h := calls[h].(stopped := true, mediaClosed := true, removed := true)];
        Unlist(h);
        return false, false;
      }
      activeCalls := activeCalls[id := h];
      calls := calls[h := calls[h].(listed := true)];
      return true, false;
    }

    method Unlist(h: nat)
      requires h in calls
      modifies this`activeCalls, this`byRemote
      ensures activeCalls == old(activeCalls) - {calls[h].id}
      ensures byRemote == if calls[h].tag != "" then old(byRemote) - {calls[h].tag} else old(byRemote)
    {
      activeCalls := activeCalls - {calls[h].id};
      if calls[h].tag != "" {
        byRemote := byRemote - {calls[h].tag};
      }
    }

    /** close up to the point where it touches the tables. */
    method CloseLocked(h: nat)
      requires h in calls
      modifies this`calls
      ensures calls == old(calls)[h := Closed(old(calls[h]))]
    {
      var c := calls[h];
      if c.stopped {
        calls := calls[h := c.(stage := Unlocked)];
        return;
      }
      calls := calls[h := c.(stage := Closing, stopped := true, mediaClosed := true)];
    }

    method FinishClosing(h: nat)
      requires h in calls && calls[h].stage == Closing
      modifies this
      ensures Abs() == Step(old(Abs()), FinishClose(h))
    {
      Unlist(h);
      calls := calls[h := calls[h].(stage := Unlocked, removed := true)];
    }

    /** CloseWithReason and its kin: take the mutex, then close. */
    method Close(h: nat)
      requires h in calls && calls[h].listed && calls[h].stage == Unlocked
      modifies this
      ensures Abs() == Step(old(Abs()), BeginClose(h))
    {
      CloseLocked(h);
    }

    /** The INVITE of ConnectSIP; None when it fails or brings no tag. */
    method Invite(h: nat, answered: bool, tag: string)
      requires h in calls && CanDial(calls[h])
      modifies this
      ensures Abs() == Step(old(Abs()), if answered then InviteAnswered(h, tag) else InviteFails(h))
    {
      if !answered {
        calls := calls[h := calls[h].(dialed := true)];
        CloseLocked(h);
        return;
      }
      calls := calls[h := calls[h].(dialed := true, tag := tag, stage := Invited)];
    }

    /** SetAnswer and SetConfig: a closed media port refuses. */
    method SetConfig(h: nat, ok: bool)
      requires h in calls && calls[h].stage == Invited
      modifies this
      ensures Abs() == Step(old(Abs()), Configure(h, ok))
    {
      if calls[h].mediaClosed || !ok {
        CloseLocked(h);
        return;
      }
      calls := calls[h := calls[h].(stage := Configured)];
    }

    method RegisterRemote(h: nat)
      requires h in calls && calls[h].stage == Configured
      modifies this
      ensures Abs() == Step(old(Abs()), Register(h))
    {
      byRemote := byRemote[calls[h].tag := h];
      calls := calls[h := calls[h].(stage := Registered)];
    }

    method EndDial(h: nat, ok: bool)
      requires h in calls && calls[h].stage == Registered
      modifies this
      ensures Abs() == Step(old(Abs()), FinishDial(h, ok))
    {
      if ok {
        calls := calls[h := calls[h].(stage := Unlocked)];
      } else {
        CloseLocked(h);
      }
    }

    method StopClient()
      modifies this
      ensures Abs() == Step(old(Abs()), Stop)
    {
      activeCalls := map[];
      byRemote := map[];
    }
  }

  // ----- Closed calls and the tables -----

  /** The mutex and the closed check: a dial that got past SetConfig belongs to a call that is not closed. */
  predicate CallInv(c: Call) {
    && c.stopped == (c.mediaClosed || c.stage == Crashed)
    && (c.stage == Crashed ==> !c.listed && !c.dialed && !c.removed && !c.mediaClosed)
    && (c.dialed ==> c.listed)
    && (c.removed ==> c.stopped && c.stage != Closing)
    && (c.stage == Configured || c.stage == Registered ==> !c.stopped)
    && (c.stage == Closing ==> c.stopped)
    && (c.stopped && c.stage != Closing && c.stage != Crashed ==> c.removed)
    && (c.stage != Unlocked && c.stage != Crashed ==> c.listed)
    && (c.stage in {Invited, Configured, Registered} ==> c.dialed)
  }

  /** The tables list calls under their own keys; activeCalls no closed call, and byRemote none except
      under the empty tag. */
  ghost predicate Inv(s: State) {
    && (forall h :: h in s.calls ==> CallInv(s.calls[h]))
    && (forall k :: k in s.active ==> s.active[k] in s.calls && ListedAs(s.calls[s.active[k]], k))
    && (forall k :: k in s.byRemote ==> s.byRemote[k] in s.calls && RegisteredAs(s.calls[s.byRemote[k]], k))
  }

  predicate ListedAs(c: Call, id: string) {
    c.id == id && c.listed && !c.removed
  }

  predicate RegisteredAs(c: Call, tag: string) {
    c.tag == tag && c.dialed && c.stage != Invited && (c.removed ==> tag == "")
  }

  lemma CallInvStep(c: Call, e: Event)
    requires CallInv(c)
    ensures CallInv(NextCall(c, e))
    ensures var d := NextCall(c, e);
            && d.id == c.id
            && d.removed == (c.removed || Unlists(c, e))
            && (Lists(c, e) ==> d.listed && !d.removed)
            && (c.listed ==> d.listed)
            && (c.stage == Crashed ==> d.stage == Crashed)
            && (c.dialed && c.stage != Invited ==> d.tag == c.tag && d.dialed && d.stage != Invited)
            && (Registers(c, e) || Unlists(c, e) ==> d.tag == c.tag && d.dialed == c.dialed && d.stage != Invited)
  {
    match e
    case Create(_, _) =>
    case NoMedia(_) =>
    case Abort(_) =>
    case List(_) =>
    case InviteAnswered(_, _) =>
    case InviteFails(_) =>
    case Configure(_, _) =>
    case Register(_) =>
    case FinishDial(_, _) =>
    case BeginClose(_) =>
    case FinishClose(_) =>
    case Stop =>
  }

  lemma InvStepCall(s: State, h: nat, c: Call, e: Event)
    requires Inv(s) && h in s.calls && c == s.calls[h]
    ensures Inv(StepCall(s, h, c, e))
  {
    var t, d := StepCall(s, h, c, e), NextCall(c, e);
    CallInvStep(c, e);
    hide NextCall, CallInv;
    forall k | k in t.active
      ensures t.active[k] in t.calls && ListedAs(t.calls[t.active[k]], k)
    {
      if !(Lists(c, e) && k == c.id) {
        assert k in s.active && t.active[k] == s.active[k];
      }
    }
    forall k | k in t.byRemote
      ensures t.byRemote[k] in t.calls && RegisteredAs(t.calls[t.byRemote[k]], k)
    {
      if !(Registers(c, e) && k == c.tag) {
        assert k in s.byRemote && t.byRemote[k] == s.byRemote[k];
      }
    }
  }

  lemma InvStep(s: State, e: Event)
    requires Inv(s)
    ensures Inv(Step(s, e))
  {
    match e
    case Stop =>
    case Create(h, id) =>
    case _ =>
      if e.call in s.calls {
        InvStepCall(s, e.call, s.calls[e.call], e);
      }
  }

  lemma InvOverRuns(events: seq<Event>)
    ensures Inv(Run(Step, Initially(), events))
  {
    forall s, e | Inv(s) ensures Inv(Step(s, e)) {
      InvStep(s, e);
    }
    RunInvariant(Step, Inv, Initially(), events);
  }

  lemma RemovedStep(s: State, h: nat, e: Event)
    requires Inv(s) && h in s.calls && s.calls[h].removed
    ensures var t := Step(s, e); Inv(t) && h in t.calls && t.calls[h].removed && t.calls[h].id == s.calls[h].id
  {
    InvStep(s, e);
    CallInvStep(s.calls[h], e);
  }

  /** Closed is for ever. */
  lemma RemovedStays(s: State, h: nat, events: seq<Event>)
    requires Inv(s) && h in s.calls && s.calls[h].removed
    ensures var t := Run(Step, s, events); h in t.calls && t.calls[h].removed && t.calls[h].id == s.calls[h].id
  {
    var id := s.calls[h].id;
    var inv := (t: State) => Inv(t) && h in t.calls && t.calls[h].removed && t.calls[h].id == id;
    forall t, e | inv(t) ensures inv(Step(t, e)) {
      RemovedStep(t, h, e);
    }
    RunInvariant(Step, inv, s, events);
  }

  /** A closed outbound call is in neither table and never re-enters one, whatever dials, closes and
      stops follow, provided the tag the other side gave it is not empty. */
  lemma ClosedNeverListed(before: seq<Event>, h: nat, after: seq<Event>)
    requires var s := Run(Step, Initially(), before); h in s.calls && s.calls[h].removed
    ensures var t := Run(Step, Initially(), before + after);
            && h !in t.active.Values
            && (forall k :: k in t.byRemote && t.byRemote[k] == h ==> k == "")
  {
    InvOverRuns(before);
    RemovedStays(Run(Step, Initially(), before), h, after);
    RunConcat(Step, Initially(), before, after);
    InvOverRuns(before + after);
  }

  /** A call whose media port could not be created is in no table either, then and ever after, but close
      never completes for it. */
  lemma CrashedNeverListed(before: seq<Event>, h: nat, after: seq<Event>)
    requires var s := Run(Step, Initially(), before); h in s.calls && s.calls[h].stage == Crashed
    ensures var t := Run(Step, Initially(), before + after);
            h !in t.active.Values && h !in t.byRemote.Values && h in t.calls && !t.calls[h].removed
  {
    InvOverRuns(before);
    var inv := (t: State) => Inv(t) && h in t.calls && t.calls[h].stage == Crashed;
    forall t, e | inv(t) ensures inv(Step(t, e)) {
      InvStep(t, e);
      CallInvStep(t.calls[h], e);
    }
    RunInvariant(Step, inv, Run(Step, Initially(), before), after);
    RunConcat(Step, Initially(), before, after);
  }

  /** The proviso is exact: closing a registered call leaves it in byRemote if and only if its tag is empty. */
  lemma LeftBehindIffEmptyTag(s: State, h: nat)
    requires Inv(s) && h in s.calls && s.calls[h].stage == Closing
    requires s.calls[h].tag in s.byRemote && s.byRemote[s.calls[h].tag] == h
    ensures h in Step(s, FinishClose(h)).byRemote.Values <==> s.calls[h].tag == ""
  {
    var t := Step(s, FinishClose(h));
    if s.calls[h].tag == "" {
      assert t.byRemote[""] == h;
    } else {
      assert forall k :: k in t.byRemote ==> k != s.calls[h].tag && s.calls[s.byRemote[k]].tag == k;
    }
  }

  lemma AnsweredAndConfigured(id: string, c: Call)
    requires CanDial(c) && !c.mediaClosed
    ensures var s := State(map[id := 0], map[], map[0 := c]);
            var d := c.(dialed := true, tag := "");
            && Step(s, InviteAnswered(0, "")) == s.(calls := map[0 := d.(stage := Invited)])
            && Step(s.(calls := map[0 := d.(stage := Invited)]), Configure(0, true))
                 == s.(calls := map[0 := d.(stage := Configured)])
  {}

  lemma RegistersEmptyTag(id: string, d: Call)
    requires d.tag == "" && d.stage == Configured
    ensures Step(State(map[id := 0], map[], map[0 := d]), Register(0))
         == State(map[id := 0], map["" := 0], map[0 := d.(stage := Registered)])
  {
    assert Registers(d, Register(0)) && !Lists(d, Register(0)) && NextCall(d, Register(0)) == d.(stage := Registered);
  }

  lemma FinishesDial(active: map<string, nat>, byRemote: map<string, nat>, d: Call)
    requires d.stage == Registered
    ensures Step(State(active, byRemote, map[0 := d]), FinishDial(0, true))
         == State(active, byRemote, map[0 := d.(stage := Unlocked)])
  {}

  lemma CreatedAndListed(id: string)
    ensures Run(Step, Initially(), [Create(0, id), List(0)])
         == State(map[id := 0], map[], map[0 := Call(id, "", true, false, Unlocked, false, false, false)])
  {
    var c := Call(id, "", false, false, Unlocked, false, false, false);
    assert Step(Initially(), Create(0, id)) == State(map[], map[], map[0 := c]);
    assert Step(State(map[], map[], map[0 := c]), List(0)) == State(map[id := 0], map[], map[0 := c.(listed := true)]);
    hide Step;
    RunTwo(Step, Initially(), Create(0, id), List(0));
  }

  /** And it is reached: a call whose 200 OK has an empty tag in its To header. */
  lemma EmptyTagStaysListed(id: string)
    ensures var create, dial, close := [Create(0, id), List(0)],
                                       [InviteAnswered(0, ""), Configure(0, true), Register(0), FinishDial(0, true)],
                                       [BeginClose(0), FinishClose(0)];
            var t := Run(Step, Initially(), create + dial + close);
            t.byRemote == map["" := 0] && 0 in t.calls && t.calls[0].removed
  {
    hide Step, Run;
    var create, dial, close := [Create(0, id), List(0)],
                               [InviteAnswered(0, ""), Configure(0, true), Register(0), FinishDial(0, true)],
                               [BeginClose(0), FinishClose(0)];
    RunConcat(Step, Initially(), create + dial, close);
    RunConcat(Step, Initially(), create, dial);
    CreatedAndListed(id);
    DialledWithEmptyTag(id);
    var dialled := Call(id, "", true, true, Unlocked, false, false, false);
    ClosingAfterEmptyTag(State(map[id := 0], map["" := 0], map[0 := dialled]));
  }

  lemma DialledWithEmptyTag(id: string)
    ensures var c := Call(id, "", true, false, Unlocked, false, false, false);
            Run(Step, State(map[id := 0], map[], map[0 := c]),
                [InviteAnswered(0, ""), Configure(0, true), Register(0), FinishDial(0, true)])
              == State(map[id := 0], map["" := 0], map[0 := c.(dialed := true)])
  {
    var c := Call(id, "", true, false, Unlocked, false, false, false);
    var dialled := c.(dialed := true);
    AnsweredAndConfigured(id, c);
    RegistersEmptyTag(id, dialled.(stage := Configured));
    FinishesDial(map[id := 0], map["" := 0], dialled.(stage := Registered));
    hide Step;
    RunFour(Step, State(map[id := 0], map[], map[0 := c]),
            InviteAnswered(0, ""), Configure(0, true), Register(0), FinishDial(0, true));
  }

  lemma ClosingAfterEmptyTag(s: State)
    requires 0 in s.calls && s.calls[0].listed && s.calls[0].stage == Unlocked && !s.calls[0].stopped
    requires s.calls[0].tag == ""
    ensures var t := Run(Step, s, [BeginClose(0), FinishClose(0)]);
            t.byRemote == s.byRemote && 0 in t.calls && t.calls[0].removed
  {
    RunTwo(Step, s, BeginClose(0), FinishClose(0));
  }


  // ----- What becomes of a dial -----

  /** The INVITE, the answer or the ACK fails, or the media port was closed meanwhile. */
  predicate FailsDial(c: Call, e: Event) {
    || (e.InviteFails? && CanDial(c))
    || (e.Configure? && c.stage == Invited && (c.mediaClosed || !e.ok))
    || (e.FinishDial? && c.stage == Registered && !e.ok)
  }

  lemma FailureCloses(c: Call, e: Event)
    requires CallInv(c) && FailsDial(c, e)
    ensures var d := NextCall(c, e);
            && d.stopped && d.id == c.id && d.tag == c.tag
            && (if c.stopped then d.stage == Unlocked && d.removed else d.stage == Closing)
  {}

  /** A dial that fails ends with the call closed, and in neither table once its close finishes, save
      under an empty tag. */
  lemma FailedDialIsClosed(s: State, h: nat, e: Event)
    requires Inv(s) && h in s.calls && FailsDial(s.calls[h], e) && e.call == h
    ensures var t := Step(Step(s, e), FinishClose(h));
            && h in t.calls && t.calls[h].stopped && t.calls[h].removed && t.calls[h].stage == Unlocked
            && h !in t.active.Values
            && (forall k :: k in t.byRemote && t.byRemote[k] == h ==> k == "")
  {
    FailureCloses(s.calls[h], e);
    InvStep(s, e);
    InvStep(Step(s, e), FinishClose(h));
    hide Inv, FailsDial;
    FinishedIsRemoved(Step(s, e), h);
  }

  lemma FinishedIsRemoved(s: State, h: nat)
    requires h in s.calls && s.calls[h].stopped
    requires s.calls[h].stage == Closing || (s.calls[h].stage == Unlocked && s.calls[h].removed)
    ensures var t := Step(s, FinishClose(h));
            h in t.calls && t.calls[h].stopped && t.calls[h].removed && t.calls[h].stage == Unlocked
  {}

  /** One that succeeds leaves the call open and listed under its remote tag too. */
  lemma DialRegisters(s: State, h: nat, tag: string)
    requires Inv(s) && h in s.calls && CanDial(s.calls[h]) && !s.calls[h].stopped
    ensures var t := Run(Step, s, [InviteAnswered(h, tag), Configure(h, true), Register(h), FinishDial(h, true)]);
            && t.active == s.active && t.byRemote == s.byRemote[tag := h]
            && t.calls == s.calls[h := s.calls[h].(dialed := true, tag := tag)]
  {
    var d := s.calls[h].(dialed := true, tag := tag);
    var s1 := s.(calls := s.calls[h := d.(stage := Invited)]);
    var s2 := s.(calls := s.calls[h := d.(stage := Configured)]);
    var s3 := s.(calls := s.calls[h := d.(stage := Registered)], byRemote := s.byRemote[tag := h]);
    TakesAnswer(s, h, tag);
    TakesConfig(s1, h);
    GetsRegistered(s2, h);
    GetsReleased(s3, h);
    hide Step, Inv;
    assert s1.calls[h := d.(stage := Configured)] == s2.calls;
    assert s2.calls[h := d.(stage := Registered)] == s3.calls;
    assert s3.calls[h := d] == s.calls[h := d];
    RunFour(Step, s, InviteAnswered(h, tag), Configure(h, true), Register(h), FinishDial(h, true));
  }

  lemma TakesAnswer(s: State, h: nat, tag: string)
    requires h in s.calls && CanDial(s.calls[h])
    ensures Step(s, InviteAnswered(h, tag))
         == s.(calls := s.calls[h := s.calls[h].(dialed := true, tag := tag, stage := Invited)])
  {}

  lemma TakesConfig(s: State, h: nat)
    requires h in s.calls && s.calls[h].stage == Invited && !s.calls[h].mediaClosed
    ensures Step(s, Configure(h, true)) == s.(calls := s.calls[h := s.calls[h].(stage := Configured)])
  {}

  lemma GetsRegistered(s: State, h: nat)
    requires h in s.calls && s.calls[h].stage == Configured
    ensures Step(s, Register(h))
         == s.(calls := s.calls[h := s.calls[h].(stage := Registered)], byRemote := s.byRemote[s.calls[h].tag := h])
  {}

  lemma GetsReleased(s: State, h: nat)
    requires h in s.calls && s.calls[h].stage == Registered
    ensures Step(s, FinishDial(h, true)) == s.(calls := s.calls[h := s.calls[h].(stage := Unlocked)])
  {}

  /** From Stop until a call is listed or registered, both tables stay empty. */
  lemma {:induction false} StopUnlists(s: State, events: seq<Event>)
    requires forall e :: e in events ==> !e.List? && !e.Register?
    ensures var t := Run(Step, Step(s, Stop), events); t.active == map[] && t.byRemote == map[]
    ensures Step(s, Stop).calls == s.calls
    decreases |events|
  {
    if events != [] {
      var u := Step(Step(s, Stop), events[0]);
      assert events[0] in events;
      assert u == Step(u, Stop);
      StopUnlists(u, events[1..]);
    }
  }
}
