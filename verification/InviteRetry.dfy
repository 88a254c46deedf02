/** Retransmission of the 200 OK to an INVITE: how often it is sent and how long it waits. Times are
    in milliseconds. */
module InviteRetry {
  import opened Wrappers

  const RETRY_INTERVAL: nat := 250
  const RETRY_INTERVAL_MAX: nat := 3000
  const RETRY_ATTEMPTS: nat := 5
  const RETRY_ATTEMPTS_NO_ACK: nat := 2

  /** What the environment decides: the try whose Respond fails, if any, and the wait in which
      the select takes an ACK, if any. Tries and waits are counted from 1. */
  datatype Env = Env(failAt: Option<nat>, ackIn: Option<nat>)

  datatype Outcome = Accepted | NoAck | SendFailed

  function Pow2(n: nat): nat {
    if n == 0 then 1 else 2 * Pow2(n - 1)
  }

  /** The k-th wait, starting from `first`. */
  function Wait(first: nat, k: nat): nat
    requires k >= 1
  {
    var w := first * Pow2(k - 1);
    if w <= RETRY_INTERVAL_MAX then w else RETRY_INTERVAL_MAX
  }

  function TotalWait(first: nat, waits: nat): nat {
    if waits == 0 then 0 else TotalWait(first, waits - 1) + Wait(first, waits)
  }

  /** The try after which the loop stops when no Respond fails. */
  function LastTry(returnsAtOnce: bool, maxRetries: nat, env: Env): nat {
    if returnsAtOnce then 1
    else if env.ackIn.Some? && 1 <= env.ackIn.value <= maxRetries then env.ackIn.value
    else maxRetries + 1
  }

  predicate Fails(returnsAtOnce: bool, maxRetries: nat, env: Env) {
    env.failAt.Some? && 1 <= env.failAt.value <= LastTry(returnsAtOnce, maxRetries, env)
  }

  predicate Acked(returnsAtOnce: bool, maxRetries: nat, env: Env) {
    !returnsAtOnce && env.ackIn.Some? && 1 <= env.ackIn.value <= maxRetries + 1
  }

  /** How many copies of the 200 OK are handed to the transaction. */
  function Sends(returnsAtOnce: bool, maxRetries: nat, env: Env): nat {
    if Fails(returnsAtOnce, maxRetries, env) then env.failAt.value - 1 else LastTry(returnsAtOnce, maxRetries, env)
  }

  /** How many waits run out. */
  function FullWaits(returnsAtOnce: bool, maxRetries: nat, env: Env): nat {
    if Fails(returnsAtOnce, maxRetries, env) then env.failAt.value - 1
    else if returnsAtOnce then 0
    else if Acked(returnsAtOnce, maxRetries, env) then env.ackIn.value - 1
    else maxRetries + 1
  }

  /** Doubling a capped wait and capping again is the cap of the doubled wait. */
  lemma DoublingStaysCapped(first: nat, k: nat)
    requires k >= 1
    ensures Wait(first, k + 1)
         == if 2 * Wait(first, k) <= RETRY_INTERVAL_MAX then 2 * Wait(first, k) else RETRY_INTERVAL_MAX
  {
    assert first * Pow2(k) == 2 * (first * Pow2(k - 1));
  }

  /** Over UDP, n waits that all run out take 250(2^n - 1) ms up to the cap and 3 s each after it. */
  lemma {:induction false} TotalWaitClosedForm(n: nat)
    ensures TotalWait(RETRY_INTERVAL, n)
         == if n <= 4 then RETRY_INTERVAL * (Pow2(n) - 1) else 3750 + RETRY_INTERVAL_MAX * (n - 4)
  {
    if n > 0 {
      TotalWaitClosedForm(n - 1);
      assert Pow2(1) == 2 && Pow2(2) == 4 && Pow2(3) == 8 && Pow2(4) == 16;
      if n > 4 {
        Pow2Grows(4, n - 1);
        assert RETRY_INTERVAL * Pow2(n - 1) >= RETRY_INTERVAL * 16;
      }
    }
  }

  /** What the three configurations that wait for an ACK cost when none comes: UDP gives up after
      three sends and 1750 ms, or after six sends and 9750 ms when the ACK is required; a reliable
      transport that requires the ACK sends twice and waits 6 s. */
  lemma WaitsWithoutAck()
    ensures TotalWait(RETRY_INTERVAL, RETRY_ATTEMPTS_NO_ACK + 1) == 1750
    ensures TotalWait(RETRY_INTERVAL, RETRY_ATTEMPTS + 1) == 9750
    ensures TotalWait(RETRY_INTERVAL_MAX, 2) == 6000
  {
    TotalWaitClosedForm(3);
    TotalWaitClosedForm(6);
    assert Pow2(1) == 2 && Pow2(2) == 4 && Pow2(3) == 8;
    assert TotalWait(RETRY_INTERVAL_MAX, 1) == Wait(RETRY_INTERVAL_MAX, 1) == RETRY_INTERVAL_MAX;
    assert Wait(RETRY_INTERVAL_MAX, 2) == RETRY_INTERVAL_MAX;
  }

  lemma {:induction false} Pow2Grows(a: nat, b: nat)
    requires a <= b
    ensures Pow2(a) <= Pow2(b)
    decreases b - a
  {
    if a < b {
      Pow2Grows(a, b - 1);
    }
  }

  /** The wait during which an ACK that arrives `at` ms after the first 200 OK is taken. */
  function WaitAt(first: nat, at: nat, limit: nat): (k: Option<nat>)
    ensures k.Some? ==> 1 <= k.value <= limit && TotalWait(first, k.value - 1) <= at < TotalWait(first, k.value)
    ensures k.None? ==> at >= TotalWait(first, limit)
  {
    if limit == 0 then None
    else if at >= TotalWait(first, limit) then None
    else if at >= TotalWait(first, limit - 1) then Some(limit)
    else WaitAt(first, at, limit - 1)
  }

  /** With Respond never failing, an ACK at that time is taken in the wait that contains it: as many copies
      are sent as that wait is late, and the earlier waits have run out. One that comes after the last
      wait is missed, after one copy more than the retry limit. */
  lemma AckAtTime(first: nat, at: nat, maxRetries: nat)
    ensures var ackIn := WaitAt(first, at, maxRetries + 1);
            var env := Env(None, ackIn);
            && !Fails(false, maxRetries, env)
            && (Acked(false, maxRetries, env) <==> at < TotalWait(first, maxRetries + 1))
            && Sends(false, maxRetries, env) == (if ackIn.Some? then ackIn.value else maxRetries + 1)
            && TotalWait(first, FullWaits(false, maxRetries, env)) <= at
  {
    var ackIn := WaitAt(first, at, maxRetries + 1);
    if ackIn.Some? {
      TotalWaitGrows(first, ackIn.value, maxRetries + 1);
    }
  }

  lemma {:induction false} TotalWaitGrows(first: nat, a: nat, b: nat)
    requires a <= b
    ensures TotalWait(first, a) <= TotalWait(first, b)
    decreases b - a
  {
    if a < b {
      TotalWaitGrows(first, a, b - 1);
    }
  }
}
