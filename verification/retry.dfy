/**
  The bounded retry loop of the two retrying scripts:

    attempt = 0
    while attempt <= MAX_RETRIES:
        attempt += 1
        try: return <call and decode>
        except: if attempt <= MAX_RETRIES: sleep(5 * attempt) else: return <placeholders>

  The outcome of each attempt is given: `outcome(i)` is the decoded value of
  attempt number `i + 1`, or `None` when the call or the decoding raised.
  Sleeps are recorded as the number of seconds requested.
 */
module Retry {
  import opened Outcomes

  /** Retries after the first attempt. */
  const MAX_RETRIES: nat := 2
  /** Seconds of backoff per attempt number. */
  const BACKOFF_UNIT: nat := 5

  /** What the loop returns, how many attempts (remote calls) it made, and
      the sleeps it requested, in order. */
  datatype Retried<T> = Retried(value: T, attempts: nat, sleeps: seq<nat>)

  /** The loop once `made` attempts have failed. */
  function RetryFrom<T>(outcome: nat -> Option<T>, maxRetries: nat, fallback: T, made: nat): (r: Retried<T>)
    requires made <= maxRetries
    ensures made < r.attempts <= maxRetries + 1
    ensures forall i :: made <= i < r.attempts - 1 ==> outcome(i).None?
    ensures outcome(r.attempts - 1).Some? ==> r.value == outcome(r.attempts - 1).value
    ensures outcome(r.attempts - 1).None? ==> r.attempts == maxRetries + 1 && r.value == fallback
    ensures |r.sleeps| == r.attempts - made - 1
    ensures forall j :: 0 <= j < |r.sleeps| ==> r.sleeps[j] == BACKOFF_UNIT * (made + j + 1)
    decreases maxRetries - made
  {
    var attempt := made + 1;
    match outcome(made)
    case Some(v) => Retried(v, attempt, [])
    case None =>
      if attempt <= maxRetries then
        var rest := RetryFrom(outcome, maxRetries, fallback, attempt);
        Retried(rest.value, rest.attempts, [BACKOFF_UNIT * attempt] + rest.sleeps)
      else
        Retried(fallback, attempt, [])
  }

  /** The whole loop, from no attempt made. */
  function RetryLoop<T>(outcome: nat -> Option<T>, maxRetries: nat, fallback: T): (r: Retried<T>)
    ensures 1 <= r.attempts <= maxRetries + 1
    ensures forall i :: 0 <= i < r.attempts - 1 ==> outcome(i).None?
    ensures outcome(r.attempts - 1).Some? ==> r.value == outcome(r.attempts - 1).value
    ensures outcome(r.attempts - 1).None? ==> r.attempts == maxRetries + 1 && r.value == fallback
    ensures |r.sleeps| == r.attempts - 1
    ensures forall j :: 0 <= j < |r.sleeps| ==> r.sleeps[j] == BACKOFF_UNIT * (j + 1)
  {
    RetryFrom(outcome, maxRetries, fallback, 0)
  }

  /** Reference definition: the index of the first attempt among the first
      `n` that succeeds, if any. */
  function FirstSuccess<T>(outcome: nat -> Option<T>, n: nat): (r: Option<nat>)
    ensures r.Some? ==> r.value < n && outcome(r.value).Some?
    ensures r.Some? ==> forall i :: 0 <= i < r.value ==> outcome(i).None?
    ensures r.None? ==> forall i :: 0 <= i < n ==> outcome(i).None?
  {
    if n == 0 then None
    else
      match FirstSuccess(outcome, n - 1)
      case Some(k) => Some(k)
      case None => if outcome(n - 1).Some? then Some(n - 1) else None
  }

  /** The loop agrees with the reference: it returns the value of the first
      successful attempt within `maxRetries + 1` attempts and stops there,
      and otherwise makes every attempt and returns the fallback. The
      sleeps are 5, 10, ... seconds, one between each two attempts and none
      after the last. */
  lemma RetryIsFirstSuccess<T>(outcome: nat -> Option<T>, maxRetries: nat, fallback: T)
    ensures var r := RetryLoop(outcome, maxRetries, fallback);
            match FirstSuccess(outcome, maxRetries + 1)
            case Some(k) => r.value == outcome(k).value && r.attempts == k + 1
            case None => r.value == fallback && r.attempts == maxRetries + 1
    ensures var r := RetryLoop(outcome, maxRetries, fallback);
            |r.sleeps| == r.attempts - 1
            && forall j :: 0 <= j < |r.sleeps| ==> r.sleeps[j] == BACKOFF_UNIT * (j + 1)
  {
  }

  /** With the scripts' `MAX_RETRIES = 2`: at most three calls, and the
      sleeps between them are a prefix of [5, 10]. */
  lemma AtMostThreeCalls<T>(outcome: nat -> Option<T>, fallback: T)
    ensures var r := RetryLoop(outcome, MAX_RETRIES, fallback);
            1 <= r.attempts <= 3 && r.sleeps == [5, 10][..r.attempts - 1]
  {
    var r := RetryLoop(outcome, MAX_RETRIES, fallback);
    if r.attempts == 3 {
      assert r.sleeps == [5, 10];
    }
  }

  /** The scenario of a call that raises twice and then succeeds: exactly
      three calls, sleeps of 5 then 10 seconds, and the third result used. */
  lemma FailTwiceThenSucceed<T>(outcome: nat -> Option<T>, fallback: T)
    requires outcome(0).None? && outcome(1).None? && outcome(2).Some?
    ensures RetryLoop(outcome, MAX_RETRIES, fallback)
            == Retried(outcome(2).value, 3, [5, 10])
  {
    var r := RetryLoop(outcome, MAX_RETRIES, fallback);
    assert r.sleeps == [5, 10];
  }
}
