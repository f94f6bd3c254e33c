/**
 The gateway's reconnect loop (Run in internal/gateway/grpc_client/stream.go): it keeps
 trying to reach the control plane and gives up when it has been offline too long.  Times
 are whole units of the clock; what an iteration meets is its input.
 */
module Offline {
  import opened Wrappers

  /** Five seconds between attempts, thirty for a certificate renewal. */
  const RETRY := 5000
  const RENEW := 30000

  /** A certificate renewal after an authentication error, and the refresh that follows a
      successful one. */
  datatype Renewal = Renewal(renewSpent: nat, renewOk: bool, refreshSpent: nat, refreshOk: bool)

  /** What an iteration meets.  The caller may cancel at its top, during the refresh, during
      the session, or `cut` into the wait; a cancelled renewal only fails. */
  datatype Input =
    | Cancelled
    | RefreshCancelled(spent: nat)
    | RefreshFails(spent: nat, cut: Option<nat>)
    | SessionCancelled(refreshSpent: nat, spent: nat)
    | Session(refreshSpent: nat, spent: nat, connected: bool, renewal: Option<Renewal>, cut: Option<nat>)

  datatype Status = Running | GaveUp | Stopped

  datatype Loop = Loop(now: nat, offlineSince: nat, status: Status)

  function Min(x: int, y: int): int {
    if x <= y then x else y
  }

  function Remaining(period: int, l: Loop): int {
    period - (l.now - l.offlineSince)
  }

  /** A wait, to its end or until the caller cancels. */
  function Wait(l: Loop, wait: nat, cut: Option<nat>): Loop {
    if cut.Some? && cut.value < wait then l.(now := l.now + cut.value, status := Stopped)
    else l.(now := l.now + wait)
  }

  /** One iteration of the loop. */
  function Step(period: int, l: Loop, input: Input): Loop
    requires l.status.Running?
  {
    var remaining := Remaining(period, l);
    if remaining <= 0 then l.(status := GaveUp)
    else match input
      case Cancelled => l.(status := Stopped)
      case RefreshCancelled(spent) => l.(now := l.now + spent, status := Stopped)
      case RefreshFails(spent, cut) => Wait(l.(now := l.now + spent), Min(RETRY, remaining), cut)
      case SessionCancelled(refreshSpent, spent) => l.(now := l.now + refreshSpent + spent, status := Stopped)
      case Session(refreshSpent, spent, connected, renewal, cut) =>
        var ended := l.now + refreshSpent + spent;
        var offline := l.(now := ended, offlineSince := if connected then ended else l.offlineSince);
        AfterSession(period, offline, renewal, cut)
  }

  /** The rest of an iteration once its session is over: a renewal, if any, and the wait. */
  function AfterSession(period: int, l: Loop, renewal: Option<Renewal>, cut: Option<nat>): Loop {
    var after := l.(now := l.now + RenewalTime(renewal));
    if Reconnects(renewal) then after
    else if Remaining(period, after) <= 0 then after.(status := GaveUp)
    else Wait(after, Min(RETRY, Remaining(period, after)), cut)
  }

  function RenewalTime(renewal: Option<Renewal>): nat {
    if renewal.None? then 0
    else renewal.value.renewSpent + if renewal.value.renewOk then renewal.value.refreshSpent else 0
  }

  /** After renewing and refreshing successfully the loop retries at once. */
  predicate Reconnects(renewal: Option<Renewal>) {
    renewal.Some? && renewal.value.renewOk && renewal.value.refreshOk
  }

  function Iterate(period: int, l: Loop, inputs: seq<Input>): Loop {
    if inputs == [] then l
    else
      var before := Iterate(period, l, inputs[..|inputs| - 1]);
      if before.status.Running? then Step(period, before, inputs[|inputs| - 1]) else before
  }

  /** The body of the loop, as the code runs it. */
  method RunOnce(period: int, l: Loop, input: Input) returns (r: Loop)
    requires l.status.Running?
    ensures r == Step(period, l, input)
  {
    var now, offlineSince := l.now, l.offlineSince;
    var remaining := period - (now - offlineSince);
    if remaining <= 0 {
      return Loop(now, offlineSince, GaveUp);
    }
    match input {
      case Cancelled =>
        return Loop(now, offlineSince, Stopped);
      case RefreshCancelled(spent) =>
        return Loop(now + spent, offlineSince, Stopped);
      case RefreshFails(spent, cut) =>
        r := WaitForStreamRetry(now + spent, offlineSince, Min(RETRY, remaining), cut);
      case SessionCancelled(refreshSpent, spent) =>
        return Loop(now + refreshSpent + spent, offlineSince, Stopped);
      case Session(refreshSpent, spent, connected, renewal, cut) =>
        now := now + refreshSpent + spent;
        if connected {
          offlineSince := now;
        }
        r := RenewAndWait(period, now, offlineSince, renewal, cut);
    }
  }

  method RenewAndWait(period: int, ended: nat, offlineSince: nat, renewal: Option<Renewal>, cut: Option<nat>)
    returns (r: Loop)
    ensures r == AfterSession(period, Loop(ended, offlineSince, Running), renewal, cut)
  {
    var now := ended;
    if renewal.Some? {
      now := now + renewal.value.renewSpent;
      if renewal.value.renewOk {
        now := now + renewal.value.refreshSpent;
        if renewal.value.refreshOk {
          return Loop(now, offlineSince, Running);
        }
      }
    }
    var remaining := period - (now - offlineSince);
    if remaining <= 0 {
      return Loop(now, offlineSince, GaveUp);
    }
    r := WaitForStreamRetry(now, offlineSince, Min(remaining, RETRY), cut);
  }

  method WaitForStreamRetry(now: nat, offlineSince: nat, delay: nat, cut: Option<nat>) returns (r: Loop)
    ensures r == Wait(Loop(now, offlineSince, Running), delay, cut)
  {
    if cut.Some? && cut.value < delay {
      return Loop(now + cut.value, offlineSince, Stopped);
    }
    return Loop(now + delay, offlineSince, Running);
  }

  /** The loop, on the inputs it meets, until it returns or there are no more. */
  method Run(period: int, start: nat, inputs: seq<Input>) returns (l: Loop)
    ensures l == Iterate(period, Loop(start, start, Running), inputs)
  {
    l := Loop(start, start, Running);
    for i := 0 to |inputs|
      invariant l.status.Running? && Iterate(period, Loop(start, start, Running), inputs[..i]) == l
    {
      assert inputs[..i + 1][..i] == inputs[..i];
      l := RunOnce(period, l, inputs[i]);
      if !l.status.Running? {
        Returns(period, Loop(start, start, Running), inputs, i);
        return;
      }
    }
    assert inputs[..|inputs|] == inputs;
  }

  /** Once the loop has returned, further inputs change nothing. */
  lemma {:induction false} Returns(period: int, l: Loop, inputs: seq<Input>, i: nat)
    requires i < |inputs|
    ensures var next := Iterate(period, l, inputs[..i + 1]);
            !next.status.Running? ==> Iterate(period, l, inputs) == next
    decreases |inputs| - i
  {
    if i + 1 < |inputs| {
      Returns(period, l, inputs, i + 1);
      assert inputs[..i + 2][..i + 1] == inputs[..i + 1];
    } else {
      assert inputs[..i + 1] == inputs;
    }
  }

  // ----- never too early -----

  /** When the last connected session of a run ended; its start if there was none. */
  function LastSessionEnd(period: int, start: nat, inputs: seq<Input>): nat {
    if inputs == [] then start
    else
      var n := |inputs| - 1;
      var before, input := Iterate(period, Loop(start, start, Running), inputs[..n]), inputs[n];
      if before.status.Running? && Remaining(period, before) > 0 && input.Session? && input.connected
      then before.now + input.refreshSpent + input.spent
      else LastSessionEnd(period, start, inputs[..n])
  }

  /** Whatever happens, the loop gives up only when the whole offline period has passed
      since the last connected session ended, and at its top it gives up as soon as it has. */
  lemma {:induction false} GivesUpExactlyWhenOffline(period: int, start: nat, inputs: seq<Input>)
    ensures var l := Iterate(period, Loop(start, start, Running), inputs);
            && l.offlineSince == LastSessionEnd(period, start, inputs) <= l.now
            && (l.status.GaveUp? ==> l.now - LastSessionEnd(period, start, inputs) >= period)
            && (l.status.Running? ==> forall input ::
                  Step(period, l, input).status.GaveUp? || l.now - LastSessionEnd(period, start, inputs) < period)
    decreases |inputs|
  {
    if inputs != [] {
      GivesUpExactlyWhenOffline(period, start, inputs[..|inputs| - 1]);
    }
  }

  // ----- never too late -----

  /** Nothing connects, every call with a deadline keeps it, and opening a stream takes at
      most `d` before it fails. */
  predicate FailsInTime(period: int, l: Loop, input: Input, d: nat) {
    var remaining := Remaining(period, l);
    match input
    case Cancelled => true
    case RefreshCancelled(spent) => spent <= Min(remaining, RETRY)
    case RefreshFails(spent, _) => spent <= Min(remaining, RETRY)
    case SessionCancelled(refreshSpent, spent) => refreshSpent <= Min(remaining, RETRY) && spent <= d
    case Session(refreshSpent, spent, connected, renewal, _) =>
      && !connected && refreshSpent <= Min(remaining, RETRY) && spent <= d
      && (renewal.Some? ==>
            var left := remaining - refreshSpent - spent;
            && renewal.value.renewSpent <= Max(0, Min(left, RENEW))
            && renewal.value.refreshSpent <= Max(0, Min(left - renewal.value.renewSpent, RETRY)))
  }

  function Max(x: int, y: int): int {
    if x >= y then x else y
  }

  ghost predicate AllFailInTime(period: int, start: nat, inputs: seq<Input>, d: nat) {
    forall i | 0 <= i < |inputs| ::
      var l := Iterate(period, Loop(start, start, Running), inputs[..i]);
      l.status.Running? && Remaining(period, l) > 0 ==> FailsInTime(period, l, inputs[i], d)
  }

  lemma StepInTime(period: int, l: Loop, input: Input, d: nat)
    requires l.status.Running? && Remaining(period, l) > 0 && FailsInTime(period, l, input, d)
    ensures var t := Step(period, l, input);
            t.offlineSince == l.offlineSince && t.now - t.offlineSince <= period + Max(RETRY, d)
  {
  }

  /** When connections only fail, the loop is never still at it later than the offline
      period plus one retry interval (or the longest failing stream opening, if longer). */
  lemma {:induction false} NeverMuchTooLate(period: nat, start: nat, inputs: seq<Input>, d: nat)
    requires AllFailInTime(period, start, inputs, d)
    ensures var l := Iterate(period, Loop(start, start, Running), inputs);
            l.offlineSince == start && l.now - start <= period + Max(RETRY, d)
    decreases |inputs|
  {
    if inputs != [] {
      var n := |inputs| - 1;
      forall i | 0 <= i < n ensures inputs[..n][..i] == inputs[..i] {
      }
      NeverMuchTooLate(period, start, inputs[..n], d);
      var l := Iterate(period, Loop(start, start, Running), inputs[..n]);
      if l.status.Running? && Remaining(period, l) > 0 {
        StepInTime(period, l, inputs[n], d);
      }
    }
  }

  // ----- how many attempts -----

  /** An attempt that does not connect and that nobody cancels. */
  predicate Fails(input: Input) {
    match input
    case RefreshFails(_, cut) => cut.None?
    case Session(_, _, connected, _, cut) => !connected && cut.None?
    case _ => false
  }

  /** An attempt that nobody cancels, whether it connects or not. */
  predicate Uncut(input: Input) {
    (input.RefreshFails? || input.Session?) && input.cut.None?
  }

  /** The attempt ends by waiting (or by giving up); the others renew and reconnect. */
  predicate Waits(input: Input) {
    || input.RefreshFails?
    || (input.Session? &&
        (input.renewal.Some? ==> !input.renewal.value.renewOk || !input.renewal.value.refreshOk))
  }

  /** The time an attempt takes before its wait. */
  function Duration(input: Input): nat {
    match input
    case RefreshFails(spent, _) => spent
    case Session(refreshSpent, spent, _, None, _) => refreshSpent + spent
    case Session(refreshSpent, spent, _, Some(r), _) =>
      refreshSpent + spent + r.renewSpent + (if r.renewOk then r.refreshSpent else 0)
    case _ => 0
  }

  /** What an attempt takes with its wait of five seconds, if it waits. */
  function Cost(input: Input): nat {
    Duration(input) + if Waits(input) then 5000 else 0
  }

  lemma StepConsumes(period: int, l: Loop, input: Input)
    requires l.status.Running? && Fails(input)
    ensures var t := Step(period, l, input);
            !t.status.Stopped? &&
            (t.status.GaveUp? || Remaining(period, t) <= Max(0, Remaining(period, l) - Cost(input)))
    ensures Remaining(period, l) > 0 && !Waits(input) ==>
              Step(period, l, input) == l.(now := l.now + Duration(input))
  {
  }

  function TotalCost(inputs: seq<Input>): nat {
    if inputs == [] then 0 else TotalCost(inputs[..|inputs| - 1]) + Cost(inputs[|inputs| - 1])
  }

  function WaitsIn(inputs: seq<Input>): nat {
    if inputs == [] then 0
    else WaitsIn(inputs[..|inputs| - 1]) + if Waits(inputs[|inputs| - 1]) then 1 else 0
  }

  lemma {:induction false} CostsAddUp(period: nat, start: nat, inputs: seq<Input>)
    requires forall i | 0 <= i < |inputs| :: Fails(inputs[i])
    ensures var l := Iterate(period, Loop(start, start, Running), inputs);
            !l.status.Stopped? && (l.status.Running? ==> Remaining(period, l) <= Max(0, period - TotalCost(inputs)))
    decreases |inputs|
  {
    if inputs != [] {
      var n := |inputs| - 1;
      CostsAddUp(period, start, inputs[..n]);
      var l := Iterate(period, Loop(start, start, Running), inputs[..n]);
      if l.status.Running? {
        StepConsumes(period, l, inputs[n]);
      }
    }
  }

  lemma {:induction false} WaitsCost(inputs: seq<Input>)
    requires forall i | 0 <= i < |inputs| :: Fails(inputs[i])
    ensures TotalCost(inputs) >= WaitsIn(inputs) * RETRY
    decreases |inputs|
  {
    if inputs != [] {
      WaitsCost(inputs[..|inputs| - 1]);
    }
  }

  /** The measure of the loop.  In every run of failing attempts, whatever renewals come in
      between, each takes its duration and its wait off the remaining time: while the loop goes
      on all attempts but the last have cost less than the period, so fewer than one in a retry
      interval (and one more) have waited; once they have cost the period it gives up. */
  lemma AttemptsAreBounded(period: nat, start: nat, inputs: seq<Input>)
    requires inputs != [] && forall i | 0 <= i < |inputs| :: Fails(inputs[i])
    ensures var l, before := Iterate(period, Loop(start, start, Running), inputs), inputs[..|inputs| - 1];
            && (l.status.Running? ==> TotalCost(before) < period && WaitsIn(before) * RETRY < period)
            && (TotalCost(before) >= period ==> l.status.GaveUp?)
  {
    var before := inputs[..|inputs| - 1];
    CostsAddUp(period, start, inputs);
    CostsAddUp(period, start, before);
    WaitsCost(before);
  }

  // ----- not too few either -----

  /** How long the gateway has been offline after these attempts. */
  function OfflineTime(inputs: seq<Input>): nat {
    if inputs == [] then 0
    else
      var n := |inputs| - 1;
      if inputs[n].Session? && inputs[n].connected
      then Cost(inputs[n]) - inputs[n].refreshSpent - inputs[n].spent
      else OfflineTime(inputs[..n]) + Cost(inputs[n])
  }

  /** The loop keeps its pace: as long as no attempt has left the gateway offline for the whole
      period, it goes on, and each attempt took exactly its own time and, unless it renewed and
      reconnected, five seconds. */
  lemma {:induction false} KeepsTrying(period: nat, start: nat, inputs: seq<Input>)
    requires forall i | 0 <= i < |inputs| :: Uncut(inputs[i])
    requires period > 0 && forall k | 0 <= k <= |inputs| :: OfflineTime(inputs[..k]) < period
    ensures OfflineTime(inputs) <= TotalCost(inputs)
    ensures Iterate(period, Loop(start, start, Running), inputs) ==
            Loop(start + TotalCost(inputs), start + TotalCost(inputs) - OfflineTime(inputs), Running)
    decreases |inputs|
  {
    if inputs != [] {
      var n := |inputs| - 1;
      var before := inputs[..n];
      forall k | 0 <= k <= n ensures OfflineTime(before[..k]) < period {
        assert before[..k] == inputs[..k];
      }
      KeepsTrying(period, start, before);
      assert inputs[..n + 1] == inputs;
    }
  }

  lemma {:induction false} OfflineAllAlong(inputs: seq<Input>, k: nat)
    requires k <= |inputs| && forall i | 0 <= i < |inputs| :: Fails(inputs[i])
    ensures OfflineTime(inputs[..k]) == TotalCost(inputs[..k]) <= TotalCost(inputs)
    decreases |inputs|
  {
    var n := |inputs| - 1;
    if k == |inputs| {
      assert inputs[..k] == inputs;
      if inputs != [] {
        OfflineAllAlong(inputs[..n], n);
        assert inputs[..n][..n] == inputs[..n];
      }
    } else {
      OfflineAllAlong(inputs[..n], k);
      assert inputs[..n][..k] == inputs[..k];
    }
  }

  /** Attempts that only fail, exactly: the loop is still at it when they have taken less than the
      period, each with its wait of five seconds, and no later than they have taken. */
  lemma FailingLoopKeepsPace(period: nat, start: nat, inputs: seq<Input>)
    requires forall i | 0 <= i < |inputs| :: Fails(inputs[i])
    requires TotalCost(inputs) < period
    ensures Iterate(period, Loop(start, start, Running), inputs) == Loop(start + TotalCost(inputs), start, Running)
  {
    forall k | 0 <= k <= |inputs| ensures OfflineTime(inputs[..k]) < period {
      OfflineAllAlong(inputs, k);
    }
    KeepsTrying(period, start, inputs);
    OfflineAllAlong(inputs, |inputs|);
    assert inputs[..|inputs|] == inputs;
  }

  // ----- cancellation -----

  /** The wait that ends an attempt, for a loop at its top. */
  function WaitAfter(period: int, l: Loop, input: Input): int
    requires input.RefreshFails? || input.Session?
  {
    var left :=
      match input
      case RefreshFails(_, _) => Remaining(period, l)
      case Session(refreshSpent, spent, connected, renewal, _) =>
        (if connected then period else Remaining(period, l) - refreshSpent - spent) - RenewalTime(renewal);
    if Waits(input) then Min(5000, left) else 0
  }

  /** The caller cancels at the top, during the refresh, during the session or in the wait. */
  predicate Cancels(period: int, l: Loop, input: Input) {
    match input
    case Cancelled => true
    case RefreshCancelled(_) => true
    case SessionCancelled(_, _) => true
    case _ => input.cut.Some? && input.cut.value < WaitAfter(period, l, input)
  }

  /** How an iteration ends.  It gives up iff the gateway has been offline for the whole period, at
      its top or before it would wait; the loop ends without an error iff the caller cancels before
      that, and then at that moment. */
  lemma IterationEnds(period: int, start: nat, inputs: seq<Input>, input: Input)
    requires Iterate(period, Loop(start, start, Running), inputs).status.Running?
    ensures var l := Iterate(period, Loop(start, start, Running), inputs);
            var t := Iterate(period, Loop(start, start, Running), inputs + [input]);
            && (t.status.GaveUp? <==>
                  || l.now - l.offlineSince >= period
                  || (input.Session? && Waits(input) && WaitAfter(period, l, input) <= 0))
            && (t.status.Stopped? <==> l.now - l.offlineSince < period && Cancels(period, l, input))
            && (t.status.Stopped? ==>
                  t.now == l.now +
                    match input
                    case Cancelled => 0
                    case RefreshCancelled(spent) => spent
                    case SessionCancelled(refreshSpent, spent) => refreshSpent + spent
                    case RefreshFails(spent, cut) => spent + cut.value
                    case Session(refreshSpent, spent, _, renewal, cut) =>
                      refreshSpent + spent + RenewalTime(renewal) + cut.value)
  {
    assert (inputs + [input])[..|inputs|] == inputs;
  }

  // ----- one attempt over and over -----

  function Repeat(input: Input, n: nat): (inputs: seq<Input>)
    ensures |inputs| == n && forall i | 0 <= i < n :: inputs[i] == input
  {
    if n == 0 then [] else Repeat(input, n - 1) + [input]
  }

  function After(period: int, start: nat, input: Input, n: nat): Loop {
    Iterate(period, Loop(start, start, Running), Repeat(input, n))
  }

  lemma AfterOneMore(period: int, start: nat, input: Input, n: nat)
    requires n > 0
    ensures var l := After(period, start, input, n - 1);
            After(period, start, input, n) == if l.status.Running? then Step(period, l, input) else l
  {
    assert Repeat(input, n)[..n - 1] == Repeat(input, n - 1);
  }

  function Times(n: nat, cost: nat): nat {
    if n == 0 then 0 else Times(n - 1, cost) + cost
  }

  lemma {:induction false} TimesIsProduct(n: nat, cost: nat)
    ensures Times(n, cost) == n * cost
  {
    if n > 0 {
      TimesIsProduct(n - 1, cost);
      assert n * cost == (n - 1) * cost + cost;
    }
  }

  lemma {:induction false} RepeatCosts(input: Input, n: nat)
    requires Fails(input)
    ensures TotalCost(Repeat(input, n)) == Times(n, Cost(input))
  {
    if n > 0 {
      RepeatCosts(input, n - 1);
      OneMoreCosts(input, n);
    } else {
      assert Repeat(input, 0) == [];
    }
  }

  lemma OneMoreCosts(input: Input, n: nat)
    requires Fails(input) && n > 0
    ensures TotalCost(Repeat(input, n)) == TotalCost(Repeat(input, n - 1)) + Cost(input)
  {
    assert Repeat(input, n)[..n - 1] == Repeat(input, n - 1);
  }

  lemma RepeatBounded(period: nat, start: nat, input: Input, n: nat)
    requires Fails(input) && n > 0 && After(period, start, input, n).status.Running?
    ensures (n - 1) * Cost(input) < period
  {
    AttemptsAreBounded(period, start, Repeat(input, n));
    assert Repeat(input, n)[..n - 1] == Repeat(input, n - 1);
    RepeatCosts(input, n - 1);
    TimesIsProduct(n - 1, Cost(input));
  }

  lemma {:induction false} NoTimeAtAll(period: nat, start: nat, input: Input, n: nat)
    requires period > 0 && Fails(input) && Cost(input) == 0
    ensures After(period, start, input, n) == Loop(start, start, Running)
  {
    if n > 0 {
      NoTimeAtAll(period, start, input, n - 1);
      AfterOneMore(period, start, input, n);
      StepConsumes(period, Loop(start, start, Running), input);
    }
  }

  lemma AtLeastOnce(n: nat, cost: nat)
    requires cost > 0
    ensures n * cost >= n
  {
  }

  ghost predicate Unbounded(period: nat, start: nat, input: Input) {
    forall n: nat :: After(period, start, input, n).status.Running?
  }

  /** One failing attempt repeated: the loop goes on for ever iff the attempt renews, refreshes
      and so skips the wait, and takes no time at all.  Any other is repeated at most once more
      than fits into the period, by its duration and its wait. */
  lemma RepeatedAttempt(period: nat, start: nat, input: Input)
    requires period > 0 && Fails(input)
    ensures Unbounded(period, start, input) <==> !Waits(input) && Duration(input) == 0
    ensures forall n: nat | n > 0 && After(period, start, input, n).status.Running? :: (n - 1) * Cost(input) < period
  {
    forall n: nat | n > 0 && After(period, start, input, n).status.Running?
      ensures (n - 1) * Cost(input) < period
    {
      RepeatBounded(period, start, input, n);
    }
    if Cost(input) == 0 {
      forall n: nat ensures After(period, start, input, n).status.Running? {
        NoTimeAtAll(period, start, input, n);
      }
    } else {
      AtLeastOnce(period, Cost(input));
      assert !After(period, start, input, period + 1).status.Running?;
    }
  }
}
