/** The Service's table of transfers in flight, one worker goroutine per call and target. */
module PendingTransfers {
  import opened Traces

  datatype Key = Key(sipCallId: string, transferTo: string)

  /** A worker runs its transfer, then closes its done channel, then deletes its table entry. */
  datatype Worker = Worker(key: Key, doneClosed: bool)

  /** pending maps a key to its done channel, named after the worker that closes it. */
  datatype State = State(pending: map<Key, nat>, workers: map<nat, Worker>, started: nat)

  datatype Event =
    | Request(key: Key)
    | CloseDone(worker: nat)
    | DeleteEntry(worker: nat)

  function Initially(): State {
    State(map[], map[], 0)
  }

  function Step(s: State, e: Event): State {
    match e
    case Request(k) =>
      if k in s.pending then s
      else State(s.pending[k := s.started], s.workers[s.started := Worker(k, false)], s.started + 1)
    case CloseDone(w) =>
      if w in s.workers && !s.workers[w].doneClosed
      then s.(workers := s.workers[w := s.workers[w].(doneClosed := true)])
      else s
    case DeleteEntry(w) =>
      if w in s.workers && s.workers[w].doneClosed
      then s.(pending := s.pending - {s.workers[w].key}, workers := s.workers - {w})
      else s
  }

  class Service {
    var pendingTransfers: map<Key, nat>
    var workers: map<nat, Worker>
    var started: nat

    ghost function Abs(): State
      reads this
    {
      State(pendingTransfers, workers, started)
    }

    constructor ()
      ensures Abs() == Initially()
    {
      pendingTransfers, workers, started := map[], map[], 0;
    }

    /** The locked part of a request: the done channel to wait on, and whether it started a worker. */
    method TransferSIPParticipant(key: Key) returns (done: nat, fresh_: bool)
      modifies this
      ensures Abs() == Step(old(Abs()), Request(key))
      ensures key in pendingTransfers && done == pendingTransfers[key]
      ensures fresh_ <==> key !in old(pendingTransfers)
    {
      if key in pendingTransfers {
        return pendingTransfers[key], false;
      }
      done := started;
      started := started + 1;
      pendingTransfers := pendingTransfers[key := done];
      workers := workers[done := Worker(key, false)];
      return done, true;
    }

    method FinishTransfer(w: nat)
      requires w in workers && !workers[w].doneClosed
      modifies this
      ensures Abs() == Step(old(Abs()), CloseDone(w))
    {
      workers := workers[w := workers[w].(doneClosed := true)];
    }

    method DeletePending(w: nat)
      requires w in workers && workers[w].doneClosed
      modifies this
      ensures Abs() == Step(old(Abs()), DeleteEntry(w))
    {
      pendingTransfers := pendingTransfers - {workers[w].key};
      workers := workers - {w};
    }
  }

  /** The table and the workers that have not deleted themselves are each other's inverse: one worker a
      key, one entry a worker. */
  ghost predicate Inverse(s: State) {
    && (forall w :: w in s.workers ==>
          w < s.started && s.workers[w].key in s.pending && s.pending[s.workers[w].key] == w)
    && (forall k :: k in s.pending ==> s.pending[k] in s.workers && s.workers[s.pending[k]].key == k)
  }

  lemma InverseStep(s: State, e: Event)
    requires Inverse(s)
    ensures Inverse(Step(s, e))
  {
    match e
    case Request(k) =>
    case CloseDone(w) =>
    case DeleteEntry(w) =>
      var t := Step(s, e);
      forall v | v in t.workers ensures t.workers[v].key in t.pending && t.pending[t.workers[v].key] == v {
        assert v in s.workers;
      }
      forall k | k in t.pending ensures t.pending[k] in t.workers && t.workers[t.pending[k]].key == k {
        assert k in s.pending;
      }
  }

  lemma InverseOverRuns(events: seq<Event>)
    ensures Inverse(Run(Step, Initially(), events))
  {
    forall s, e | Inverse(s) ensures Inverse(Step(s, e)) {
      InverseStep(s, e);
    }
    RunInvariant(Step, Inverse, Initially(), events);
  }

  /** In every interleaving at most one worker serves a key. */
  lemma OneWorkerPerKey(events: seq<Event>, v: nat, w: nat)
    requires var s := Run(Step, Initially(), events);
             v in s.workers && w in s.workers && s.workers[v].key == s.workers[w].key
    ensures v == w
  {
    InverseOverRuns(events);
  }

  /** A worker's delete removes its own entry and no other worker's. */
  lemma DeleteIsOwn(events: seq<Event>, w: nat, k: Key)
    requires var s := Run(Step, Initially(), events); w in s.workers && k in s.pending
    ensures var s := Run(Step, Initially(), events); var t := Step(s, DeleteEntry(w));
            k !in t.pending <==> s.pending[k] == w && s.workers[w].doneClosed
  {
    InverseOverRuns(events);
  }

  /** From its request on, a key stays in the table under the same worker until that worker deletes it. */
  lemma {:induction false} EntryOutlivesWorker(s: State, k: Key, events: seq<Event>)
    requires Inverse(s) && k in s.pending && DeleteEntry(s.pending[k]) !in events
    ensures var t := Run(Step, s, events); k in t.pending && t.pending[k] == s.pending[k]
    decreases |events|
  {
    if events != [] {
      InverseStep(s, events[0]);
      EntryOutlivesWorker(Step(s, events[0]), k, events[1..]);
    }
  }


  /** A worker that finishes frees its key and no other, and the next request for it starts another. */
  lemma FinishedWorkerFreesKey(s: State, w: nat)
    requires Inverse(s) && w in s.workers && !s.workers[w].doneClosed
    ensures var k, t := s.workers[w].key, Run(Step, s, [CloseDone(w), DeleteEntry(w)]);
            && k !in t.pending && w !in t.workers
            && (forall j :: j != k ==> (j in t.pending <==> j in s.pending))
            && Step(t, Request(k)).pending == t.pending[k := s.started]
            && Step(t, Request(k)).started == s.started + 1
  {
    RunTwo(Step, s, CloseDone(w), DeleteEntry(w));
  }
}
