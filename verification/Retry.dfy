/** The connector's startup retry loop (internal/connector/startup/retry.go). */
module Retry {

  const INITIAL_DELAY: nat := 1
  const MAXIMUM_DELAY: nat := 60

  datatype Outcome = Succeeded | Cancelled

  /** What the k-th round meets: a cancelled context, the attempt, and the wait. */
  datatype Round = Round(cancelled: bool, succeeds: bool, waitCancelled: bool)

  function Pow2(k: nat): nat {
    if k == 0 then 1 else 2 * Pow2(k - 1)
  }

  /** The delay after failure k, counted from 0. */
  function Delay(k: nat): nat {
    if Pow2(k) < 60 then Pow2(k) else 60
  }

  /** The loop on the rounds it meets, with the delays it asked to wait; no outcome means
      that it is still at it.  It succeeds exactly when some attempt does before a
      cancellation, and after failure k it waits the k-th power of two, at most a minute. */
  method RetryWithBackoff(rounds: seq<Round>) returns (outcome: seq<Outcome>, delays: seq<nat>)
    ensures forall k | 0 <= k < |delays| :: delays[k] == Delay(k)
    ensures outcome == [] ==> |delays| == |rounds|
    ensures |outcome| <= 1 && |delays| <= |rounds|
    ensures forall k | 0 <= k < |delays| :: !rounds[k].cancelled && !rounds[k].succeeds
    ensures forall k | 0 <= k < |delays| && rounds[k].waitCancelled :: outcome == [Cancelled] && k == |delays| - 1
    ensures outcome == [Succeeded] ==> |delays| < |rounds| && !rounds[|delays|].cancelled && rounds[|delays|].succeeds
    ensures outcome == [Cancelled] ==>
              || (|delays| < |rounds| && rounds[|delays|].cancelled)
              || (|delays| > 0 && rounds[|delays| - 1].waitCancelled)
  {
    var delay := INITIAL_DELAY;
    delays := [];
    for i := 0 to |rounds|
      invariant |delays| == i && delay == Delay(i)
      invariant forall k | 0 <= k < i :: delays[k] == Delay(k)
      invariant forall k | 0 <= k < i ::
                  !rounds[k].cancelled && !rounds[k].succeeds && !rounds[k].waitCancelled
    {
      if rounds[i].cancelled {
        return [Cancelled], delays;
      }
      if rounds[i].succeeds {
        return [Succeeded], delays;
      }
      delays := delays + [delay];
      if rounds[i].waitCancelled {
        return [Cancelled], delays;
      }
      DelayDoubles(i);
      if delay < MAXIMUM_DELAY / 2 {
        delay := 2 * delay;
      } else {
        delay := MAXIMUM_DELAY;
      }
    }
    outcome := [];
  }

  lemma DelayDoubles(k: nat)
    ensures Delay(k + 1) == if Delay(k) < MAXIMUM_DELAY / 2 then 2 * Delay(k) else MAXIMUM_DELAY
  {
    if k < 6 {
      assert Pow2(2) == 4 && Pow2(4) == 16 && Pow2(6) == 64;
    } else {
      PowGrows(6, k);
      PowGrows(6, k + 1);
      assert Pow2(2) == 4 && Pow2(4) == 16 && Pow2(6) == 64;
    }
  }

  lemma {:induction false} PowGrows(j: nat, k: nat)
    requires j <= k
    ensures Pow2(j) <= Pow2(k)
    decreases k
  {
    if j < k {
      PowGrows(j, k - 1);
    }
  }
}
