/** The RTP read loop of MediaPort: its packet accounting and when it gives up on errors. */
module RtpReadLoop {
  const MAX_ERRORS: nat := 50

  /** What ReadRTP returns: a packet that is too large, or finds no handler, is ignored; otherwise the
      handler may fail. */
  datatype Read =
    | Eof
    | ReadError
    | Oversized
    | NoHandler
    | Handled(ok: bool)

  datatype Exit = Reading | StreamEnded | Killed

  /** The results of the handled packets, ignored ones left out. */
  function Results(input: seq<Read>): seq<bool> {
    if input == [] then []
    else Results(input[..|input| - 1]) + if input[|input| - 1].Handled? then [input[|input| - 1].ok] else []
  }

  /** How many failures the results end with. */
  function TrailingFailures(rs: seq<bool>): nat {
    if rs == [] || rs[|rs| - 1] then 0 else 1 + TrailingFailures(rs[..|rs| - 1])
  }

  predicate Hopeless(input: seq<Read>) {
    TrailingFailures(Results(input)) >= MAX_ERRORS
  }

  /** Neither the packets nor any prefix of them are hopeless. */
  predicate Survives(input: seq<Read>) {
    !Hopeless(input) && (input == [] || Survives(input[..|input| - 1]))
  }

  predicate Ends(r: Read) {
    r.Eof? || r.ReadError?
  }

  class MediaPort {
    var packetCount: nat
    var packets: nat
    var ignoredPackets: nat
    var inputPackets: nat

    /** Reads until the stream ends or the loop kills itself; `used` packets were read. Every packet is
        counted for the watchdog, and as ignored or as input. The loop kills itself after the first
        packet that makes the last 50 handled ones all failures. */
    method ReadLoop(input: seq<Read>) returns (exit: Exit, used: nat)
      modifies this
      ensures used <= |input|
      ensures forall i :: 0 <= i < used ==> !Ends(input[i])
      ensures packetCount - old(packetCount) == packets - old(packets) == used
      ensures used == (ignoredPackets - old(ignoredPackets)) + (inputPackets - old(inputPackets))
      ensures inputPackets - old(inputPackets) == |Results(input[..used])|
      ensures exit == Killed <==> !Survives(input[..used])
      ensures exit == Killed ==> used > 0 && Survives(input[..used - 1]) && Hopeless(input[..used])
      ensures exit == StreamEnded <==> used < |input| && Survives(input[..used])
      ensures exit == StreamEnded ==> Ends(input[used])
    {
      var errorCnt := 0;
      used := 0;
      while used < |input|
        invariant 0 <= used <= |input|
        invariant forall i :: 0 <= i < used ==> !Ends(input[i])
        invariant packetCount - old(packetCount) == packets - old(packets) == used
        invariant used == (ignoredPackets - old(ignoredPackets)) + (inputPackets - old(inputPackets))
        invariant inputPackets - old(inputPackets) == |Results(input[..used])|
        invariant errorCnt == TrailingFailures(Results(input[..used]))
        invariant Survives(input[..used])
        decreases |input| - used
      {
        if Ends(input[used]) {
          return StreamEnded, used;
        }
        ResultsNext(input, used);
        assert input[..used + 1][..used] == input[..used];
        packetCount := packetCount + 1;
        packets := packets + 1;
        match input[used] {
          case Oversized =>
            ignoredPackets := ignoredPackets + 1;
          case NoHandler =>
            ignoredPackets := ignoredPackets + 1;
          case Handled(ok) =>
            inputPackets := inputPackets + 1;
            if !ok {
              errorCnt := errorCnt + 1;
              if errorCnt >= MAX_ERRORS {
                return Killed, used + 1;
              }
            } else {
              errorCnt := 0;
            }
          case _ =>
        }
        used := used + 1;
      }
      return Reading, used;
    }
  }

  lemma {:induction false} SurvivesMeaning(input: seq<Read>)
    ensures Survives(input) <==> forall n :: 0 <= n <= |input| ==> !Hopeless(input[..n])
    decreases |input|
  {
    assert input[..|input|] == input;
    if input != [] {
      var front := input[..|input| - 1];
      SurvivesMeaning(front);
      assert forall n :: 0 <= n <= |front| ==> front[..n] == input[..n];
      if forall n :: 0 <= n <= |input| ==> !Hopeless(input[..n]) {
        forall n | 0 <= n <= |front| ensures !Hopeless(front[..n]) {
          assert !Hopeless(input[..n]);
        }
      }
      if Survives(input) {
        forall n | 0 <= n <= |input| ensures !Hopeless(input[..n]) {
          if n < |input| {
            assert !Hopeless(front[..n]);
          }
        }
      }
    }
  }

  lemma ResultsNext(input: seq<Read>, n: nat)
    requires n < |input|
    ensures Results(input[..n + 1]) == Results(input[..n]) + if input[n].Handled? then [input[n].ok] else []
    ensures var before := TrailingFailures(Results(input[..n]));
            TrailingFailures(Results(input[..n + 1]))
              == if !input[n].Handled? then before else if input[n].ok then 0 else before + 1
  {
    assert input[..n + 1][..n] == input[..n];
    var rs := Results(input[..n]);
    if input[n].Handled? {
      assert (rs + [input[n].ok])[..|rs|] == rs;
    } else {
      assert Results(input[..n + 1]) == rs;
    }
  }

  /** The loop gives up exactly when the 50 most recently handled packets all failed, however many
      ignored ones came in between. */
  lemma HopelessMeaning(input: seq<Read>)
    ensures var rs := Results(input);
            Hopeless(input) <==> |rs| >= 50 && forall i :: |rs| - 50 <= i < |rs| ==> !rs[i]
  {
    TrailingFailuresMeaning(Results(input), MAX_ERRORS);
  }

  lemma {:induction false} TrailingFailuresMeaning(rs: seq<bool>, n: nat)
    ensures TrailingFailures(rs) >= n <==> |rs| >= n && forall i :: |rs| - n <= i < |rs| ==> !rs[i]
    decreases |rs|
  {
    if rs != [] && n > 0 {
      var front := rs[..|rs| - 1];
      TrailingFailuresMeaning(front, n - 1);
      assert forall i :: 0 <= i < |front| ==> front[i] == rs[i];
      if |rs| >= n && !rs[|rs| - 1] {
        assert (forall i :: |rs| - n <= i < |rs| ==> !rs[i])
          <==> (forall i :: |front| - (n - 1) <= i < |front| ==> !front[i]);
      }
    }
  }
}
