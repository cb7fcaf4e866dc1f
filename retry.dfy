/**
 * The `retry_db_operation` decorator (bot/utils.py): call the wrapped operation up to
 * `max_retries` times, retrying only on OperationalError and InterfaceError, sleeping
 * `initial_delay * backoff_factor^k` seconds before retry k+1.
 *
 * The wrapped operation is a function from the attempt number (from 0) to what that
 * call does: return a value or raise an exception. The sleeps are returned instead of
 * slept; delays are exact reals.
 */
module Retry {

  datatype ErrorKind = OperationalError | InterfaceError | OtherError | TypeError

  /** A raised exception: its class, and which one it is. */
  datatype Exception = Exception(kind: ErrorKind, id: nat)

  datatype Outcome<T> = Returned(value: T) | Raised(error: Exception)

  /** The exceptions the decorator retries on. */
  predicate Retryable<T>(o: Outcome<T>) {
    o.Raised? && (o.error.kind == OperationalError || o.error.kind == InterfaceError)
  }

  /** What `raise None` raises: `max_retries = 0` runs no attempt and re-raises nothing. */
  const RaiseNone: Exception := Exception(TypeError, 0)

  function Power(x: real, k: nat): real {
    if k == 0 then 1.0 else x * Power(x, k - 1)
  }

  /** The pause before retry `k + 1`: `initial_delay` multiplied `k` times by `backoff_factor`. */
  function Delay(initialDelay: real, backoffFactor: real, k: nat): real {
    initialDelay * Power(backoffFactor, k)
  }

  /** `delay *= backoff_factor` steps from one pause to the next. */
  lemma DelayStep(initialDelay: real, backoffFactor: real, k: nat)
    ensures Delay(initialDelay, backoffFactor, k + 1) == Delay(initialDelay, backoffFactor, k) * backoffFactor
  {
    var p := Power(backoffFactor, k);
    assert Power(backoffFactor, k + 1) == backoffFactor * p;
    assert initialDelay * (backoffFactor * p) == (initialDelay * p) * backoffFactor;
  }

  /** The decorated call. `calls` is how many times the operation ran; `sleeps` the pauses, in order. */
  method RetryDbOperation<T>(maxRetries: nat, initialDelay: real, backoffFactor: real, call: nat -> Outcome<T>)
    returns (r: Outcome<T>, calls: nat, sleeps: seq<real>)
    ensures calls <= maxRetries
    ensures forall k :: 0 <= k < calls - 1 ==> Retryable(call(k))
    ensures forall k :: 0 <= k < |sleeps| ==> sleeps[k] == Delay(initialDelay, backoffFactor, k)
    // the first call that returns, or raises something not retried, decides the outcome
    ensures calls > 0 && !Retryable(call(calls - 1)) ==> r == call(calls - 1) && |sleeps| == calls - 1
    // every one of the `max_retries` calls raised a retried error: the last one is re-raised
    ensures calls > 0 && Retryable(call(calls - 1)) ==>
              calls == maxRetries && r == call(calls - 1) && |sleeps| == maxRetries - 1
    ensures calls == 0 <==> maxRetries == 0
    ensures maxRetries == 0 ==> r == Raised(RaiseNone) && sleeps == []
  {
    var delay := initialDelay;
    var last: Outcome<T> := Raised(RaiseNone);
    calls, sleeps := 0, [];
    for attempt := 0 to maxRetries
      invariant calls == attempt
      invariant forall k :: 0 <= k < attempt ==> Retryable(call(k))
      invariant attempt > 0 ==> last == call(attempt - 1)
      invariant attempt == 0 ==> last == Raised(RaiseNone)
      invariant |sleeps| == if 0 < attempt == maxRetries then attempt - 1 else attempt
      invariant forall k :: 0 <= k < |sleeps| ==> sleeps[k] == Delay(initialDelay, backoffFactor, k)
      invariant delay == Delay(initialDelay, backoffFactor, |sleeps|)
    {
      calls := attempt + 1;
      var o := call(attempt);
      if !Retryable(o) {
        return o, calls, sleeps;
      }
      last := o;
      if attempt + 1 < maxRetries {
        var n := |sleeps|;
        sleeps := sleeps + [delay];
        DelayStep(initialDelay, backoffFactor, n);
        delay := delay * backoffFactor;
      }
    }
    r := last;
  }
}
