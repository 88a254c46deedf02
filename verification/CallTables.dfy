/** The Server's two tables of inbound calls, keyed by the remote tag and by the local one. */
module CallTables {
  import opened Traces

  /** A call is known by the tag the other side chose and by its own, freshly generated id. */
  datatype Call = Call(tag: string, id: string)

  datatype Tables = Tables(active: map<string, Call>, byLocal: map<string, Call>, live: set<Call>, used: set<string>)

  datatype Event =
    | New(call: Call)
    | Close(call: Call)
    | Stop

  function Initially(): Tables {
    Tables(map[], map[], {}, {})
  }

  function Step(t: Tables, e: Event): Tables {
    match e
    case New(c) =>
      if c.id in t.used then t
      else Tables(t.active[c.tag := c], t.byLocal[c.id := c], t.live + {c}, t.used + {c.id})
    case Close(c) =>
      if c !in t.live then t
      else t.(active := t.active - {c.tag}, byLocal := t.byLocal - {c.id}, live := t.live - {c})
    case Stop => t.(active := map[])
  }

  class Server {
    var activeCalls: map<string, Call>
    var byLocal: map<string, Call>
    ghost var live: set<Call>
    ghost var used: set<string>

    ghost function Abs(): Tables
      reads this
    {
      Tables(activeCalls, byLocal, live, used)
    }

    constructor ()
      ensures Abs() == Initially()
    {
      activeCalls, byLocal, live, used := map[], map[], {}, {};
    }

    method Register(c: Call)
      requires c.id !in used
      modifies this
      ensures Abs() == Step(old(Abs()), New(c))
    {
      activeCalls := activeCalls[c.tag := c];
      byLocal := byLocal[c.id := c];
      live, used := live + {c}, used + {c.id};
    }

    method Remove(c: Call)
      requires c in live
      modifies this
      ensures Abs() == Step(old(Abs()), Close(c))
    {
      activeCalls := activeCalls - {c.tag};
      byLocal := byLocal - {c.id};
      live := live - {c};
    }

    /** Empties one table only; the calls are cancelled and close themselves later. */
    method StopServer() returns (calls: set<Call>)
      modifies this
      ensures Abs() == Step(old(Abs()), Stop)
      ensures calls == old(activeCalls).Values
    {
      calls := activeCalls.Values;
      activeCalls := map[];
    }
  }

  /** What holds in every run, equal tags and Stop included: byLocal lists exactly the live calls,
      and activeCalls lists nothing but live calls, under their own tags. */
  ghost predicate Sound(t: Tables) {
    && (forall c, d :: c in t.live && d in t.live && c.id == d.id ==> c == d)
    && (forall c :: c in t.live ==> c.id in t.used)
    && (forall k :: k in t.byLocal ==> t.byLocal[k] in t.live && t.byLocal[k].id == k)
    && (forall c :: c in t.live ==> c.id in t.byLocal && t.byLocal[c.id] == c)
    && (forall k :: k in t.active ==> t.active[k] in t.live && t.active[k].tag == k)
  }

  lemma NewIsSound(t: Tables, c: Call)
    requires Sound(t) && c.id !in t.used
    ensures Sound(Step(t, New(c)))
  {
    var u := Step(t, New(c));
    forall k | k in u.byLocal ensures u.byLocal[k] in u.live && u.byLocal[k].id == k {
      assert k == c.id || k in t.byLocal;
    }
    forall d | d in u.live ensures d.id in u.byLocal && u.byLocal[d.id] == d {
      assert d == c || (d in t.live && d.id != c.id);
    }
  }

  lemma CloseIsSound(t: Tables, c: Call)
    requires Sound(t) && c in t.live
    ensures Sound(Step(t, Close(c)))
  {
    var u := Step(t, Close(c));
    forall k | k in u.byLocal ensures u.byLocal[k] in u.live && u.byLocal[k].id == k {
      assert k in t.byLocal && k != c.id;
    }
    forall k | k in u.active ensures u.active[k] in u.live && u.active[k].tag == k {
      assert k in t.active && k != c.tag;
    }
    forall d | d in u.live ensures d.id in u.byLocal && u.byLocal[d.id] == d {
      assert d in t.live && d != c;
    }
  }

  lemma SoundStep(t: Tables, e: Event)
    requires Sound(t)
    ensures Sound(Step(t, e))
  {
    match e
    case New(c) =>
      if c.id !in t.used {
        NewIsSound(t, c);
      }
    case Close(c) =>
      if c in t.live {
        CloseIsSound(t, c);
      }
    case Stop =>
  }

  lemma SoundOverRuns(events: seq<Event>)
    ensures Sound(Run(Step, Initially(), events))
  {
    forall t, e | Sound(t) ensures Sound(Step(t, e)) {
      SoundStep(t, e);
    }
    RunInvariant(Step, Sound, Initially(), events);
  }

  lemma ClosingUnlists(t: Tables, c: Call)
    requires Sound(t) && c in t.live
    ensures var u := Step(t, Close(c));
            Sound(u) && c !in u.live && c !in u.active.Values && c !in u.byLocal.Values
  {
    SoundStep(t, Close(c));
  }

  /** A closed call is in neither table, then and ever after. */
  lemma ClosedNeverListed(before: seq<Event>, c: Call, after: seq<Event>)
    requires c in Run(Step, Initially(), before).live
    ensures var t := Run(Step, Initially(), before + [Close(c)] + after);
            c !in t.live && c !in t.active.Values && c !in t.byLocal.Values
  {
    var t1 := Run(Step, Initially(), before);
    SoundOverRuns(before);
    RunSnoc(Step, Initially(), before, Close(c));
    RunConcat(Step, Initially(), before + [Close(c)], after);
    var inv := (t: Tables) => c !in t.live && c.id in t.used;
    RunInvariant(Step, inv, Step(t1, Close(c)), after);
    SoundOverRuns(before + [Close(c)] + after);
  }

  ghost predicate ListsAll(t: Tables) {
    forall c :: c in t.live ==> c.tag in t.active && t.active[c.tag] == c
  }

  /** The tables agree: both list exactly the live calls. */
  ghost predicate Agree(t: Tables) {
    Sound(t) && ListsAll(t)
  }

  ghost predicate DistinctTags(t: Tables) {
    forall c, d :: c in t.live && d in t.live && c.tag == d.tag ==> c == d
  }

  ghost predicate Always(p: Tables -> bool, events: seq<Event>) {
    forall n :: 0 <= n <= |events| ==> p(Run(Step, Initially(), events[..n]))
  }

  lemma ListsAllStep(t: Tables, e: Event)
    requires ListsAll(t) && DistinctTags(t) && DistinctTags(Step(t, e)) && !e.Stop?
    ensures ListsAll(Step(t, e))
  {
    var u := Step(t, e);
    forall d | d in u.live ensures d.tag in u.active && u.active[d.tag] == d {
      match e
      case New(c) =>
        if c.id !in t.used {
          assert c in u.live;
        }
      case Close(c) =>
        if c in t.live {
          assert d in t.live && d.tag != c.tag;
        }
    }
  }

  lemma {:induction false} DistinctTagsAgree(events: seq<Event>, n: nat)
    requires Stop !in events && n <= |events|
    requires Always(t => DistinctTags(t), events)
    ensures Agree(Run(Step, Initially(), events[..n]))
  {
    if n == 0 {
      assert events[..0] == [];
    } else {
      DistinctTagsAgree(events, n - 1);
      var t, e := Run(Step, Initially(), events[..n - 1]), events[n - 1];
      RunNext(Step, Initially(), events, n - 1);
      assert Run(Step, Initially(), events[..n]) == Step(t, e);
      assert e in events;
      SoundStep(t, e);
      ListsAllStep(t, e);
    }
  }

  /** Until the server stops, the tables agree at every moment of a run exactly when live calls have
      distinct remote tags at every moment. */
  lemma AgreeIffDistinctTags(events: seq<Event>)
    requires Stop !in events
    ensures Always(t => Agree(t), events) <==> Always(t => DistinctTags(t), events)
  {
    if Always(t => DistinctTags(t), events) {
      forall n | 0 <= n <= |events| ensures Agree(Run(Step, Initially(), events[..n])) {
        DistinctTagsAgree(events, n);
      }
    }
    if Always(t => Agree(t), events) {
      forall n | 0 <= n <= |events| ensures DistinctTags(Run(Step, Initially(), events[..n])) {
        assert Agree(Run(Step, Initially(), events[..n]));
      }
    }
  }

  /** Two calls with one tag: closing the later hides the earlier, which is still live. */
  lemma EqualTagsHideACall(tag: string, a: string, b: string)
    requires a != b
    ensures var c, d := Call(tag, a), Call(tag, b);
            var t := Run(Step, Initially(), [New(c), New(d), Close(d)]);
            c in t.live && tag !in t.active
  {
    var c, d := Call(tag, a), Call(tag, b);
    RunThree(Step, Initially(), New(c), New(d), Close(d));
  }


  /** From Stop until another call is registered, no call is found by its tag, while all are still live. */
  lemma {:induction false} StopUnlists(t: Tables, events: seq<Event>)
    requires forall e :: e in events ==> !e.New?
    ensures Run(Step, Step(t, Stop), events).active == map[]
    ensures Step(t, Stop).live == t.live && Step(t, Stop).byLocal == t.byLocal
    decreases |events|
  {
    if events != [] {
      var u := Step(Step(t, Stop), events[0]);
      assert events[0] in events;
      assert u == Step(u, Stop);
      StopUnlists(u, events[1..]);
    }
  }
}
