/**
 * The retry helper for API calls (lib/utils/retry.ts).
 *
 * The awaited call is modelled by `outcome(k)`, what the k-th call (counting from 1) returns or
 * throws.  Sleeping is recorded, not performed: each wait is appended to `waits` in milliseconds.
 */
module Retry {

  import opened Wrappers

  /** What a call threw: an `Error` (with its message) or any other value. */
  datatype Thrown = ErrorValue(message: string) | NonError

  /** What one call did. */
  datatype Outcome<T> = Returned(value: T) | Threw(thrown: Thrown)

  const UnknownError := "Unknown error"
  const MaxAttemptsReached := "Max retry attempts reached"

  /** The message of the error kept as `lastError`: a thrown `Error` as it is, anything else wrapped. */
  function LastErrorMessage(t: Thrown): (m: string)
    ensures t.ErrorValue? ==> m == t.message
    ensures t.NonError? ==> m == UnknownError
  {
    match t
    case ErrorValue(message) => message
    case NonError => UnknownError
  }

  /** The waits after the first `k` failed calls: `delay * attempt` for attempt 1..k. */
  function Waits(delay: int, k: nat): (w: seq<int>)
    ensures |w| == k
    ensures forall i :: 0 <= i < k ==> w[i] == delay * (i + 1)
  {
    seq(k, i requires 0 <= i < k => delay * (i + 1))
  }

  /** The attempt numbers 1..n, in order. */
  function Attempts(n: nat): (a: seq<nat>)
    ensures |a| == n
    ensures forall i :: 0 <= i < n ==> a[i] == i + 1
  {
    seq(n, i requires 0 <= i < n => i + 1)
  }

  /** `retry(fn, maxAttempts, delay)`: returns the first value a call returns, or throws the last error. */
  method RunRetry<T>(outcome: nat -> Outcome<T>, maxAttempts: int, delay: int) returns (r: Result<T>, calls: seq<nat>, waits: seq<int>)
    ensures calls == Attempts(|calls|)
    ensures |calls| <= (if maxAttempts > 0 then maxAttempts else 0)
    ensures forall k :: 1 <= k < |calls| ==> outcome(k).Threw?
    ensures r.Ok? <==> exists k :: 1 <= k <= maxAttempts && outcome(k).Returned?
    ensures r.Ok? ==> outcome(|calls|) == Returned(r.value)
    ensures r.Err? ==> |calls| == (if maxAttempts > 0 then maxAttempts else 0)
    ensures r.Err? && maxAttempts >= 1 ==> r.message == LastErrorMessage(outcome(maxAttempts).thrown)
    ensures r.Err? && maxAttempts < 1 ==> r.message == MaxAttemptsReached
    ensures waits == Waits(delay, if |calls| == 0 then 0 else |calls| - 1)
  {
    var lastError: Option<string> := None;
    calls, waits := [], [];
    var attempt := 1;
    while attempt <= maxAttempts
      invariant 1 <= attempt
      invariant maxAttempts >= 0 ==> attempt <= maxAttempts + 1
      invariant maxAttempts < 0 ==> attempt == 1
      invariant calls == Attempts(attempt - 1)
      invariant forall k :: 1 <= k < attempt ==> outcome(k).Threw?
      invariant lastError.None? <==> attempt == 1
      invariant attempt > 1 ==> lastError == Some(LastErrorMessage(outcome(attempt - 1).thrown))
      invariant waits == Waits(delay, if attempt == 1 then 0 else if attempt <= maxAttempts then attempt - 1 else attempt - 2)
      decreases maxAttempts - attempt
    {
      calls := calls + [attempt];
      match outcome(attempt) {
        case Returned(value) =>
          r := Ok(value);
          return;
        case Threw(thrown) =>
          lastError := Some(LastErrorMessage(thrown));
          if attempt < maxAttempts {
            waits := waits + [delay * attempt];
          }
      }
      attempt := attempt + 1;
    }
    r := Err(if lastError.Some? then lastError.value else MaxAttemptsReached);
  }
}
