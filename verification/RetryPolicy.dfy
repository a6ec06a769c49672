/** The bounded retry schedule shared by the queue workers (app/database/worker.py). */
module RetryPolicies {
  import opened Wrappers

  datatype AttemptError = AttemptMustBePositive

  const DELAYS: seq<int> := [15, 60, 300, 1800]

  /** The delay in seconds after a failed attempt, or None when retries are exhausted. */
  function DelayAfterAttempt(attempt: int): (r: Result<Option<int>, AttemptError>)
    ensures r.Err? <==> attempt < 1
    ensures r.Ok? ==> (r.value.Some? <==> attempt <= 4)
    ensures attempt == 1 ==> r == Ok(Some(15))
    ensures attempt == 2 ==> r == Ok(Some(60))
    ensures attempt == 3 ==> r == Ok(Some(300))
    ensures attempt == 4 ==> r == Ok(Some(1800))
  {
    if attempt < 1 then Err(AttemptMustBePositive)
    else if attempt - 1 >= |DELAYS| then Ok(None)
    else Ok(Some(DELAYS[attempt - 1]))
  }

  /** Whether a job that has failed its `attempt`th claim is tried again. */
  predicate MayRetry(attempt: int) {
    DelayAfterAttempt(attempt).Ok? && DelayAfterAttempt(attempt).value.Some?
  }

  function RetryDelay(attempt: int): int
    requires MayRetry(attempt)
  {
    DelayAfterAttempt(attempt).value.value
  }
}
