/**
  A model of the `retry_func` decorator from `main/util_retry.py`.

  One invocation of the decorated `wrapper` is modelled.  The wrapped
  function is an oracle `f`: its call number `k` (counting from 0 within the
  invocation) returns or raises `f(k)`.  Which exceptions are retried is the
  predicate `catches`, standing for `isinstance(e, exceptions)`.  Sleeps are
  not performed but recorded, in whole seconds, in the order they happen.
*/
module Retry {

  /** What one call of the wrapped function does. */
  datatype Outcome<R, E> = Returns(value: R) | Raises(exc: E)

  /** How the invocation of `wrapper` ends: the function's value is returned,
      an exception that is not retried propagates, or every try failed and
      an `Exception` with `message` is raised. */
  datatype Final<R, E> = Returned(value: R) | Propagated(exc: E) | Exhausted(message: string)

  /** The end of an invocation, how many times the function was called, and
      the durations slept. */
  datatype RetryRun<R, E> = RetryRun(final: Final<R, E>, calls: nat, sleeps: seq<nat>)

  /** The decorator's default arguments. */
  const DefaultTries: int := 3
  const DefaultDelay: nat := 3
  const DefaultBackoff: nat := 2

  const MessageHead := "関数 '"
  const MessageTail := "' は最大試行回数に達しました。処理を中断します."

  /** The message of the exception raised once the tries are used up. */
  function ExhaustedMessage(name: string): (m: string)
    ensures |m| == |MessageHead| + |name| + |MessageTail|
    ensures m[|MessageHead|..|MessageHead| + |name|] == name
  {
    MessageHead + name + MessageTail
  }

  function Pow(b: nat, k: nat): nat {
    if k == 0 then 1 else b * Pow(b, k - 1)
  }

  /** Sleeps that start with `cur` and go on geometrically from
      `cur * backoff` continue one geometric sequence from `cur`. */
  lemma GeometricShift(sleeps: seq<nat>, cur: nat, backoff: nat, t: seq<nat>)
    requires sleeps + [cur] <= t
    requires forall k :: |sleeps| + 1 <= k < |t| ==> t[k] == cur * backoff * Pow(backoff, k - (|sleeps| + 1))
    ensures sleeps <= t
    ensures forall k :: |sleeps| <= k < |t| ==> t[k] == cur * Pow(backoff, k - |sleeps|)
  {
    assert t[|sleeps|] == (sleeps + [cur])[|sleeps|];
    forall k | |sleeps| <= k < |t|
      ensures t[k] == cur * Pow(backoff, k - |sleeps|)
    {
      if k > |sleeps| {
        assert Pow(backoff, k - |sleeps|) == backoff * Pow(backoff, k - (|sleeps| + 1));
      }
    }
  }

  /** The number of iterations of `range(n)`. */
  function RangeLength(n: int): nat {
    if n > 0 then n else 0
  }

  /** A call outcome that `wrapper` catches and retries. */
  predicate CaughtFailure<R, E>(o: Outcome<R, E>, catches: E -> bool) {
    o.Raises? && catches(o.exc)
  }

  /** Reference definition of the attempt loop from attempt number `attempt`
      on, with the current delay `cur` and the sleeps made so far. */
  function Attempts<R, E>(attempt: nat, tries: int, catches: E -> bool, cur: nat, backoff: nat,
                          f: nat -> Outcome<R, E>, name: string, sleeps: seq<nat>): RetryRun<R, E>
    decreases tries - attempt
  {
    if attempt >= tries then
      RetryRun(Exhausted(ExhaustedMessage(name)), attempt, sleeps)
    else
      match f(attempt)
      case Returns(v) => RetryRun(Returned(v), attempt + 1, sleeps)
      case Raises(e) =>
        if !catches(e) then RetryRun(Propagated(e), attempt + 1, sleeps)
        else if attempt < tries - 1 then
          Attempts(attempt + 1, tries, catches, cur * backoff, backoff, f, name, sleeps + [cur])
        else
          Attempts(attempt + 1, tries, catches, cur, backoff, f, name, sleeps)
  }

  /** What the attempt loop does from attempt number `attempt` on. */
  lemma {:induction false} AttemptsSpec<R, E>(attempt: nat, tries: int, catches: E -> bool, cur: nat, backoff: nat,
                                              f: nat -> Outcome<R, E>, name: string, sleeps: seq<nat>)
    ensures var r := Attempts(attempt, tries, catches, cur, backoff, f, name, sleeps);
      // never more calls than tries
      && (attempt < tries ==> attempt < r.calls <= tries)
      && (attempt >= tries ==> r == RetryRun(Exhausted(ExhaustedMessage(name)), attempt, sleeps))
      // exhaustion happens exactly when every remaining try is a caught failure
      && (r.final.Exhausted? <==> forall k :: attempt <= k < tries ==> CaughtFailure(f(k), catches))
      && (r.final.Exhausted? ==> r.final.message == ExhaustedMessage(name) && (attempt < tries ==> r.calls == tries))
      // otherwise the last call decides, and every call before it was a caught failure
      && (!r.final.Exhausted? ==>
            && (forall k :: attempt <= k < r.calls - 1 ==> CaughtFailure(f(k), catches))
            && match f(r.calls - 1)
               case Returns(v) => r.final == Returned(v)
               case Raises(e) => !catches(e) && r.final == Propagated(e))
      // sleeps extend the earlier ones with a geometric sequence starting at cur
      && sleeps <= r.sleeps
      && (forall k :: |sleeps| <= k < |r.sleeps| ==> r.sleeps[k] == cur * Pow(backoff, k - |sleeps|))
      && (attempt < tries ==>
            |r.sleeps| - |sleeps| == if r.final.Exhausted? then tries - 1 - attempt else r.calls - 1 - attempt)
    decreases tries - attempt
  {
    if attempt < tries && CaughtFailure(f(attempt), catches) {
      if attempt < tries - 1 {
        AttemptsSpec(attempt + 1, tries, catches, cur * backoff, backoff, f, name, sleeps + [cur]);
        var r := Attempts(attempt + 1, tries, catches, cur * backoff, backoff, f, name, sleeps + [cur]);
        GeometricShift(sleeps, cur, backoff, r.sleeps);
      } else {
        AttemptsSpec(attempt + 1, tries, catches, cur, backoff, f, name, sleeps);
      }
    }
  }

  /** One invocation of the decorated function, as a reference definition. */
  function Retry<R, E>(tries: int, catches: E -> bool, delay: nat, backoff: nat,
                       f: nat -> Outcome<R, E>, name: string): RetryRun<R, E>
  {
    Attempts(0, tries, catches, delay, backoff, f, name, [])
  }

  /** `wrapper`: the attempt loop as the decorator runs it. */
  method Wrapper<R, E>(tries: int, catches: E -> bool, delay: nat, backoff: nat,
                       f: nat -> Outcome<R, E>, name: string) returns (run: RetryRun<R, E>)
    ensures run == Retry(tries, catches, delay, backoff, f, name)
  {
    var mDelay: nat := delay;
    var sleeps: seq<nat> := [];
    var attempt: nat := 0;
    while attempt < tries
      invariant Attempts(attempt, tries, catches, mDelay, backoff, f, name, sleeps)
             == Retry(tries, catches, delay, backoff, f, name)
      invariant tries > 0 ==> attempt <= tries
      invariant tries <= 0 ==> attempt == 0
      decreases tries - attempt
    {
      match f(attempt) {
        case Returns(v) =>
          return RetryRun(Returned(v), attempt + 1, sleeps);
        case Raises(e) =>
          if !catches(e) {
            return RetryRun(Propagated(e), attempt + 1, sleeps);
          }
          if attempt < tries - 1 {
            sleeps := sleeps + [mDelay];
            mDelay := mDelay * backoff;
          }
      }
      attempt := attempt + 1;
    }
    run := RetryRun(Exhausted(ExhaustedMessage(name)), attempt, sleeps);
  }

  /** The function is called at most `tries` times and slept after at most
      `tries - 1` of them. */
  lemma CallsBounded<R, E>(tries: int, catches: E -> bool, delay: nat, backoff: nat,
                           f: nat -> Outcome<R, E>, name: string)
    ensures var r := Retry(tries, catches, delay, backoff, f, name);
            && r.calls <= RangeLength(tries)
            && |r.sleeps| <= RangeLength(tries - 1)
            && (r.calls > 0 ==> |r.sleeps| < r.calls)
  {
    AttemptsSpec(0, tries, catches, delay, backoff, f, name, []);
  }

  /** The first call that returns ends the invocation with its value, after
      one sleep per earlier failed call and no further call. */
  lemma FirstReturnEnds<R, E>(tries: int, catches: E -> bool, delay: nat, backoff: nat,
                              f: nat -> Outcome<R, E>, name: string, i: nat)
    requires i < tries
    requires forall k :: 0 <= k < i ==> CaughtFailure(f(k), catches)
    requires f(i).Returns?
    ensures var r := Retry(tries, catches, delay, backoff, f, name);
            r.final == Returned(f(i).value) && r.calls == i + 1 && |r.sleeps| == i
  {
    AttemptsSpec(0, tries, catches, delay, backoff, f, name, []);
    assert !CaughtFailure(f(i), catches);
  }

  /** An exception that is not retried propagates out of the call that raised
      it, with no further call and no sleep after it. */
  lemma UncaughtPropagates<R, E>(tries: int, catches: E -> bool, delay: nat, backoff: nat,
                                 f: nat -> Outcome<R, E>, name: string, i: nat)
    requires i < tries
    requires forall k :: 0 <= k < i ==> CaughtFailure(f(k), catches)
    requires f(i).Raises? && !catches(f(i).exc)
    ensures var r := Retry(tries, catches, delay, backoff, f, name);
            r.final == Propagated(f(i).exc) && r.calls == i + 1 && |r.sleeps| == i
  {
    AttemptsSpec(0, tries, catches, delay, backoff, f, name, []);
    assert !CaughtFailure(f(i), catches);
  }

  /** The k-th sleep lasts `delay * backoff^k` (counting from 0). */
  lemma SleepsGeometric<R, E>(tries: int, catches: E -> bool, delay: nat, backoff: nat,
                              f: nat -> Outcome<R, E>, name: string)
    ensures var r := Retry(tries, catches, delay, backoff, f, name);
            forall k :: 0 <= k < |r.sleeps| ==> r.sleeps[k] == delay * Pow(backoff, k)
  {
    AttemptsSpec(0, tries, catches, delay, backoff, f, name, []);
  }

  /** The invocation is exhausted exactly when all `tries` calls fail with a
      retried exception; it then raises the message naming the function after
      exactly `tries` calls (none when `tries <= 0`). */
  lemma ExhaustedIffAllFail<R, E>(tries: int, catches: E -> bool, delay: nat, backoff: nat,
                                  f: nat -> Outcome<R, E>, name: string)
    ensures var r := Retry(tries, catches, delay, backoff, f, name);
            && (r.final.Exhausted? <==> forall k :: 0 <= k < tries ==> CaughtFailure(f(k), catches))
            && (r.final.Exhausted? ==>
                  r.final.message == ExhaustedMessage(name) && r.calls == RangeLength(tries))
  {
    AttemptsSpec(0, tries, catches, delay, backoff, f, name, []);
  }

  /** With no tries the function is never called and nothing sleeps. */
  lemma NoTriesNoCalls<R, E>(tries: int, catches: E -> bool, delay: nat, backoff: nat,
                             f: nat -> Outcome<R, E>, name: string)
    requires tries <= 0
    ensures Retry(tries, catches, delay, backoff, f, name) == RetryRun(Exhausted(ExhaustedMessage(name)), 0, [])
  {
  }

  /** With the decorator's defaults the function is called at most three
      times, and the sleeps are a prefix of 3 then 6 seconds. */
  lemma DefaultDecorator<R, E>(catches: E -> bool, f: nat -> Outcome<R, E>, name: string)
    ensures var r := Retry(DefaultTries, catches, DefaultDelay, DefaultBackoff, f, name);
            && 1 <= r.calls <= 3
            && r.sleeps <= [3, 6]
  {
    CallsBounded(DefaultTries, catches, DefaultDelay, DefaultBackoff, f, name);
    SleepsGeometric(DefaultTries, catches, DefaultDelay, DefaultBackoff, f, name);
    AttemptsSpec(0, DefaultTries, catches, DefaultDelay, DefaultBackoff, f, name, []);
    assert Pow(DefaultBackoff, 1) == 2;
  }
}
