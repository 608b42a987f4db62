/**
 Retry and timeout arithmetic: adaptive_wait_send (both copies), the polling loops sleep_until_open and
 sleep_until_recv, and the whole-call deadline of bindy_open and bindy_enumerate_specify_adapter.

 The network is an oracle: `attempt(k)` says how attempt k of send_data ends, `answered(k)` whether the flag
 is up at poll k. Only requested sleep is counted, in milliseconds.
 */
module Backoff {

  // ---------------------------------------------------------------- the sequence of delays

  /** `delay` after k failed attempts: 2, then delay * 1.5 truncated to int. */
  function Delay(k: nat): (d: int)
    ensures d >= 2
  {
    if k == 0 then 2 else Delay(k - 1) * 3 / 2
  }

  /** `total_delay` after k failed attempts: each failure adds the delay that is already enlarged. */
  function TotalDelay(k: nat): (t: int)
    ensures t >= 0
  {
    if k == 0 then 0 else TotalDelay(k - 1) + Delay(k)
  }

  /** Milliseconds really slept in k failed attempts: each failure sleeps the delay before enlarging it. */
  function Slept(k: nat): (t: int)
    ensures t >= 0
  {
    if k == 0 then 0 else Slept(k - 1) + Delay(k - 1)
  }

  /** The loop guard after k failures. */
  predicate MayTry(k: nat, timeoutMs: int) { TotalDelay(k) + Delay(k) < timeoutMs }

  /** Reported delay and real sleep differ by exactly the growth of the delay. */
  lemma {:induction false} SleptIdentity(k: nat)
    ensures Slept(k) == TotalDelay(k) - Delay(k) + 2
    ensures TotalDelay(k) >= 3 * Delay(k) - 6
  {
    if k > 0 { SleptIdentity(k - 1); }
  }

  // ---------------------------------------------------------------- adaptive_wait_send

  /** How send_data ends: it returns, throws what the loop catches, or throws something else. */
  datatype Attempt = Through | Refused | Broken

  /** How the loop ends: sent, out of time, or left by an exception it does not catch. */
  datatype End = Sent | GaveUp | Threw

  /** What a call did: how it ended, after how many caught failures. */
  datatype Outcome = Outcome(end: End, failures: nat) {
    function Attempts(): nat { if end.GaveUp? then failures else failures + 1 }
  }

  /** `o` is the behaviour of the loop: it stops at the first attempt not refused or the first closed guard. */
  ghost predicate IsOutcome(attempt: nat -> Attempt, timeoutMs: int, o: Outcome) {
    && (forall k: nat :: k < o.failures ==> attempt(k).Refused? && MayTry(k, timeoutMs))
    && (o.end.GaveUp? <==> !MayTry(o.failures, timeoutMs))
    && (o.end.Sent? ==> attempt(o.failures).Through?)
    && (o.end.Threw? ==> attempt(o.failures).Broken?)
  }

  /** The client's adaptive_wait_send: unless it throws it returns total_delay, whether or not the data was sent. */
  method AdaptiveWaitSend(attempt: nat -> Attempt, timeoutMs: int)
    returns (totalDelay: int, slept: int, o: Outcome)
    ensures IsOutcome(attempt, timeoutMs, o)
    ensures totalDelay == TotalDelay(o.failures) && slept == Slept(o.failures)
  {
    var sent, delay, failures := false, 2, 0;
    totalDelay, slept := 0, 0;
    while !sent && totalDelay + delay < timeoutMs
      invariant delay == Delay(failures) && totalDelay == TotalDelay(failures) && slept == Slept(failures)
      invariant forall k: nat :: k < failures ==> attempt(k).Refused? && MayTry(k, timeoutMs)
      invariant sent ==> attempt(failures).Through? && MayTry(failures, timeoutMs)
      decreases !sent, timeoutMs - totalDelay - delay
    {
      match attempt(failures)
      case Through =>
        sent := true;
      case Refused =>
        slept := slept + delay;
        delay := delay * 3 / 2;
        totalDelay := totalDelay + delay;
        failures := failures + 1;
      case Broken =>
        o := Outcome(Threw, failures);
        return;
    }
    o := Outcome(if sent then Sent else GaveUp, failures);
  }

  datatype Result<T> = Returned(value: T) | Thrown

  /** The server's adaptive_wait_send: same loop, but running out of time throws. */
  method AdaptiveWaitSendOrThrow(attempt: nat -> Attempt, timeoutMs: int) returns (r: Result<int>, o: Outcome)
    ensures IsOutcome(attempt, timeoutMs, o)
    ensures r == if o.end.Sent? then Returned(TotalDelay(o.failures)) else Thrown
  {
    var totalDelay, _, outcome := AdaptiveWaitSend(attempt, timeoutMs);
    o := outcome;
    r := if o.end.Sent? then Returned(totalDelay) else Thrown;
  }

  function Pow(b: nat, e: nat): nat { if e == 0 then 1 else b * Pow(b, e - 1) }

  lemma MulMono(a: int, b: int, c: nat)
    requires a <= b
    ensures a * c <= b * c
  {
  }

  lemma MulAssoc(a: int, b: int, c: int)
    ensures (a * b) * c == a * (b * c)
  {
  }

  lemma GrowthArithmetic(q: int, p: nat, x: int, y: int)
    requires q <= x * p && 3 * x <= 2 * y
    ensures 3 * q <= y * (2 * p)
  {
    MulMono(3 * x, 2 * y, p);
    MulAssoc(3, x, p);
    MulAssoc(2, y, p);
    MulAssoc(y, 2, p);
  }

  /** delay - 1 grows at least by half each time, truncation included. */
  lemma {:induction false} DelayGrowth(k: nat)
    ensures Pow(3, k) <= (Delay(k) - 1) * Pow(2, k)
  {
    if k > 0 {
      DelayGrowth(k - 1);
      GrowthArithmetic(Pow(3, k - 1), Pow(2, k - 1), Delay(k - 1) - 1, Delay(k) - 1);
    }
  }

  /** An attempt numbered k + 1 is only made if the timeout is exponentially larger than k. */
  lemma AttemptBound(k: nat, timeoutMs: int)
    requires MayTry(k, timeoutMs)
    ensures 4 * Pow(3, k) <= (timeoutMs + 1) * Pow(2, k)
  {
    SleptIdentity(k);
    DelayGrowth(k);
    MulMono(4 * (Delay(k) - 1), timeoutMs + 1, Pow(2, k));
    MulAssoc(4, Delay(k) - 1, Pow(2, k));
  }

  lemma TotalBound(k: nat, timeoutMs: int)
    requires MayTry(k, timeoutMs)
    ensures 8 * TotalDelay(k + 1) <= 9 * timeoutMs - 3 && Slept(k + 1) < timeoutMs
  {
    SleptIdentity(k);
    SleptIdentity(k + 1);
  }

  /**
   Bounds on every call, whatever the network does: the reported total overshoots the timeout by at most an
   eighth, the number of attempts is logarithmic in it, and real sleep stays below it.
   */
  lemma BackoffBounds(attempt: nat -> Attempt, timeoutMs: int, o: Outcome)
    requires timeoutMs >= 1 && IsOutcome(attempt, timeoutMs, o)
    ensures 8 * TotalDelay(o.failures) <= 9 * timeoutMs - 3
    ensures Slept(o.failures) < timeoutMs
    ensures o.Attempts() >= 1 ==> 4 * Pow(3, o.Attempts() - 1) <= (timeoutMs + 1) * Pow(2, o.Attempts() - 1)
  {
    if o.failures > 0 { TotalBound(o.failures - 1, timeoutMs); }
    if o.Attempts() >= 1 { AttemptBound(o.Attempts() - 1, timeoutMs); }
  }

  // ---------------------------------------------------------------- int arithmetic

  const INT_MAX := 0x7FFF_FFFF

  /** The largest int of the loop after k failures: the left-hand side of its guard. */
  function GuardSum(k: nat): (g: int)
    ensures g >= Delay(k) && g >= TotalDelay(k)
  {
    TotalDelay(k) + Delay(k)
  }

  /** The last failure, from the k-th on, after which the guard can still be computed in an int. */
  function LastInRange(k: nat): (r: nat)
    requires GuardSum(k) <= INT_MAX
    ensures r >= k && GuardSum(r) <= INT_MAX < GuardSum(r + 1)
    decreases INT_MAX - GuardSum(k)
  {
    if GuardSum(k + 1) > INT_MAX then k else LastInRange(k + 1)
  }

  /** The largest timeout for which the loop needs no number above INT_MAX. */
  function SafeTimeout(): int {
    assert GuardSum(0) <= INT_MAX;
    GuardSum(LastInRange(0))
  }

  lemma {:induction false} GuardGrows(j: nat, k: nat)
    requires j <= k
    ensures GuardSum(j) <= GuardSum(k)
    decreases k
  {
    if j < k { GuardGrows(j, k - 1); }
  }

  /** Whatever the network does, no number of the loop exceeds INT_MAX. */
  ghost predicate StaysInInt(timeoutMs: int) {
    forall attempt: nat -> Attempt, o: Outcome, k: nat ::
      IsOutcome(attempt, timeoutMs, o) && k <= o.failures ==> GuardSum(k) <= INT_MAX
  }

  /** How often a dead link fails, counted from the k-th failure on. */
  function DeadFailures(k: nat, timeoutMs: int): (f: nat)
    requires forall j: nat :: j < k ==> MayTry(j, timeoutMs)
    ensures f >= k && !MayTry(f, timeoutMs) && forall j: nat :: j < f ==> MayTry(j, timeoutMs)
    decreases timeoutMs - GuardSum(k)
  {
    if MayTry(k, timeoutMs) then DeadFailures(k + 1, timeoutMs) else k
  }

  lemma StaysBelow(timeoutMs: int, last: nat)
    requires GuardSum(last) <= INT_MAX && timeoutMs <= GuardSum(last)
    ensures StaysInInt(timeoutMs)
  {
    forall attempt: nat -> Attempt, o: Outcome, k: nat | IsOutcome(attempt, timeoutMs, o) && k <= o.failures
      ensures GuardSum(k) <= INT_MAX
    {
      if k > last {
        assert MayTry(k - 1, timeoutMs);
        GuardGrows(last, k - 1);
      } else {
        GuardGrows(k, last);
      }
    }
  }

  lemma LeavesAbove(timeoutMs: int, last: nat)
    requires GuardSum(last + 1) > INT_MAX && timeoutMs > GuardSum(last)
    ensures !StaysInInt(timeoutMs)
  {
    var none: nat := 0;
    var f := DeadFailures(none, timeoutMs);
    if f <= last { GuardGrows(f, last); }
    assert IsOutcome((k: nat) => Refused, timeoutMs, Outcome(GaveUp, f));
  }

  lemma RangeLimit(last: nat)
    requires GuardSum(last + 1) > INT_MAX
    ensures GuardSum(last) >= 1431655764
  {
    SleptIdentity(last);
  }

  /** The int arithmetic is exact exactly up to SafeTimeout, which is at least two thirds of INT_MAX, rounded down. */
  lemma NoOverflowIff(timeoutMs: int)
    ensures StaysInInt(timeoutMs) <==> timeoutMs <= SafeTimeout()
    ensures SafeTimeout() >= 1431655764
  {
    var last := LastInRange(0);
    RangeLimit(last);
    if timeoutMs <= GuardSum(last) { StaysBelow(timeoutMs, last); } else { LeavesAbove(timeoutMs, last); }
  }

  // ---------------------------------------------------------------- polling

  /** `polls` is how often the do-while loop goes round: until the flag is up or the time is used, at least once. */
  ghost predicate IsPolling(answered: nat -> bool, timeout: int, polls: nat) {
    && polls >= 1
    && (forall k: nat :: 1 <= k < polls ==> !answered(k))
    && (polls > 1 ==> polls - 1 < timeout)
    && (answered(polls) || polls >= timeout)
  }

  /** sleep_until_open / sleep_until_recv: SLEEP_WAIT_TIME is 1 ms, so `polls` is also the time slept. */
  method SleepUntil(answered: nat -> bool, timeout: int) returns (polls: nat)
    ensures IsPolling(answered, timeout, polls)
  {
    polls := 1;
    var flag := answered(polls);
    while !flag && polls < timeout
      invariant polls >= 1 && flag == answered(polls)
      invariant (forall k: nat :: 1 <= k < polls ==> !answered(k)) && (polls > 1 ==> polls - 1 < timeout)
    {
      polls := polls + 1;
      flag := answered(polls);
    }
  }

  /** A behaviour of the whole call: no polling if sending threw. */
  ghost predicate IsCall(attempt: nat -> Attempt, answered: nat -> bool, timeout: int, o: Outcome, polls: nat) {
    && IsOutcome(attempt, timeout, o)
    && (if o.end.Threw? then polls == 0 else IsPolling(answered, timeout - TotalDelay(o.failures), polls))
  }

  /**
   The waiting part of bindy_open and of bindy_enumerate_specify_adapter: send, then poll for what is left of the
   timeout after the delay that sending reports - once, if nothing is left - or until the answer is there.
   */
  method SendAndPoll(attempt: nat -> Attempt, answered: nat -> bool, timeout: int)
    returns (slept: int, reported: int, o: Outcome, polls: nat)
    ensures IsCall(attempt, answered, timeout, o, polls)
    ensures slept == Slept(o.failures) + polls && reported == TotalDelay(o.failures)
    ensures timeout >= 1 ==> slept <= timeout
    ensures o.end.Threw? ==> polls == 0
    ensures !o.end.Threw? ==>
              var most := if timeout - reported > 1 then timeout - reported else 1;
              && 1 <= polls <= most && (answered(polls) || polls == most)
              && forall k: nat :: 1 <= k < polls ==> !answered(k)
  {
    var initialTimeout, s, outcome := AdaptiveWaitSend(attempt, timeout);
    reported, o, polls := initialTimeout, outcome, 0;
    if !o.end.Threw? { polls := SleepUntil(answered, timeout - initialTimeout); }
    slept := s + polls;
    if timeout >= 1 { Deadline(attempt, answered, timeout, o, polls); }
  }

  /** A call never sleeps longer than its timeout, even when the budget left for polling is negative. */
  lemma Deadline(attempt: nat -> Attempt, answered: nat -> bool, timeout: int, o: Outcome, polls: nat)
    requires IsCall(attempt, answered, timeout, o, polls) && timeout >= 1
    ensures Slept(o.failures) + polls <= timeout
  {
    SleptIdentity(o.failures);
    if o.failures > 0 {
      assert MayTry(o.failures - 1, timeout);
      SleptIdentity(o.failures - 1);
    }
  }

  /** Every behaviour of a call with this timeout keeps the deadline. */
  ghost predicate KeepsDeadline(timeout: int) {
    forall attempt: nat -> Attempt, answered: nat -> bool, o: Outcome, polls: nat ::
      IsCall(attempt, answered, timeout, o, polls) ==> Slept(o.failures) + polls <= timeout
  }

  /** The deadline is kept exactly for positive timeouts: with a timeout of 0 or less one poll still sleeps 1 ms. */
  lemma DeadlineIffPositive(timeout: int)
    ensures KeepsDeadline(timeout) <==> timeout >= 1
  {
    if timeout >= 1 {
      forall attempt: nat -> Attempt, answered: nat -> bool, o: Outcome, polls: nat
        | IsCall(attempt, answered, timeout, o, polls)
        ensures Slept(o.failures) + polls <= timeout
      {
        Deadline(attempt, answered, timeout, o, polls);
      }
    } else {
      assert IsCall((k: nat) => Refused, (k: nat) => false, timeout, Outcome(GaveUp, 0), 1);
    }
  }

  /** The deadline cannot be lowered: for every positive timeout a lost answer costs exactly that long. */
  lemma DeadlineTight(timeout: int)
    requires timeout >= 1
    ensures exists attempt: nat -> Attempt, answered: nat -> bool, o: Outcome, polls: nat ::
              IsCall(attempt, answered, timeout, o, polls) && Slept(o.failures) + polls == timeout
  {
    var attempt, answered := (k: nat) => Through, (k: nat) => false;
    var o := Outcome(if timeout >= 3 then Sent else GaveUp, 0);
    assert IsCall(attempt, answered, timeout, o, timeout);
    assert Slept(o.failures) + timeout == timeout;
  }

  /** total_delay stays above 3 * delay - 6 from the second failure on. */
  lemma {:induction false} TotalAbove(k: nat)
    requires k >= 2
    ensures TotalDelay(k) >= 3 * Delay(k) - 5
  {
    if k == 2 { SecondFailure(); } else { TotalAbove(k - 1); }
  }

  lemma SecondFailure()
    ensures Delay(1) == 3 && Delay(2) == 4 && TotalDelay(1) == 3 && TotalDelay(2) == 7
  {
    assert Delay(1) == 3;
  }

  /** The overshoot bound of BackoffBounds is attained by one timeout only: 3 ms with the one attempt refused. */
  lemma OvershootIff(attempt: nat -> Attempt, timeoutMs: int, o: Outcome)
    requires timeoutMs >= 1 && IsOutcome(attempt, timeoutMs, o)
    ensures 8 * TotalDelay(o.failures) == 9 * timeoutMs - 3 <==> timeoutMs == 3 && o.failures == 1
  {
    SecondFailure();
    var n := o.failures;
    if n > 0 {
      var k: nat := n - 1;
      assert MayTry(k, timeoutMs);
      if k >= 2 { TotalAbove(k); }
    }
  }

  // ---------------------------------------------------------------- bindy_write

  const SEND_WAIT_TIMEOUT_MS := 5000

  /** Attempt k is the first one not refused, and the timeout permits it. */
  ghost predicate FirstThatCounts(attempt: nat -> Attempt, timeoutMs: int, k: nat) {
    MayTry(k, timeoutMs) && !attempt(k).Refused? && forall j: nat :: j < k ==> attempt(j).Refused?
  }

  /** That attempt alone decides how the loop ends. */
  lemma EndIff(attempt: nat -> Attempt, timeoutMs: int, o: Outcome)
    requires IsOutcome(attempt, timeoutMs, o)
    ensures o.end.Sent? <==> exists k: nat :: FirstThatCounts(attempt, timeoutMs, k) && attempt(k).Through?
    ensures o.end.Threw? <==> exists k: nat :: FirstThatCounts(attempt, timeoutMs, k) && attempt(k).Broken?
  {
    if !o.end.GaveUp? { assert FirstThatCounts(attempt, timeoutMs, o.failures); }
    forall k: nat | FirstThatCounts(attempt, timeoutMs, k) ensures k == o.failures && !o.end.GaveUp? {
      if k > o.failures { GuardGrows(o.failures, k); }
    }
  }

  /** Some attempt that the timeout permits does not end in a caught exception. */
  ghost predicate SomeAttemptCounts(attempt: nat -> Attempt, timeoutMs: int) {
    exists k: nat :: MayTry(k, timeoutMs) && !attempt(k).Refused?
  }

  /** The loop gives up exactly when every permitted attempt is refused; the data is sent iff one gets through. */
  lemma SentIff(attempt: nat -> Attempt, timeoutMs: int, o: Outcome)
    requires IsOutcome(attempt, timeoutMs, o)
    ensures !o.end.GaveUp? <==> SomeAttemptCounts(attempt, timeoutMs)
    ensures (forall k: nat :: !attempt(k).Broken?) ==>
              (o.end.Sent? <==> exists k: nat :: MayTry(k, timeoutMs) && attempt(k).Through?)
  {
    if k: nat :| MayTry(k, timeoutMs) && !attempt(k).Refused? {
      if k > o.failures { GuardGrows(o.failures, k); }
    }
  }

  /** What bindy_write returns once it has looked up the device: is_ok. */
  function WriteReturn(o: Outcome): int { if o.end.Threw? then 0 else 1 }

  /**
   The return value of bindy_write tells whether the data was sent exactly when some permitted attempt ends
   otherwise than by an exception that adaptive_wait_send swallows.
   */
  lemma WriteHonestIff(attempt: nat -> Attempt, o: Outcome)
    requires IsOutcome(attempt, SEND_WAIT_TIMEOUT_MS, o)
    ensures (WriteReturn(o) == 1 <==> o.end.Sent?) <==> SomeAttemptCounts(attempt, SEND_WAIT_TIMEOUT_MS)
  {
    SentIff(attempt, SEND_WAIT_TIMEOUT_MS, o);
  }

  /** Over a dead link it is not: every attempt refused, nothing sent, and 1 is returned. */
  lemma DeadLinkReportsSuccess(attempt: nat -> Attempt, o: Outcome)
    requires (forall k: nat :: attempt(k) == Refused) && IsOutcome(attempt, SEND_WAIT_TIMEOUT_MS, o)
    ensures !o.end.Sent? && WriteReturn(o) == 1 && o.failures > 0
  {
    assert MayTry(0, SEND_WAIT_TIMEOUT_MS);
  }
}
