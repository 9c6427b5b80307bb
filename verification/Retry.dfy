/** The schedule on which failed messages are delivered again (common/natsclient/retry.go). Delays are in seconds. */
module Retry {

  const RETRY_DELAYS: seq<nat> := [1, 2, 5, 10, 30, 60]

  /** The delay before retry number `attempt`, counting from 1; the last delay is used beyond the end. */
  method RetryDelay(attempt: int) returns (delay: nat)
    ensures 1 <= delay <= 60
    ensures attempt <= 1 ==> delay == 1
    ensures attempt == 2 ==> delay == 2
    ensures attempt == 3 ==> delay == 5
    ensures attempt == 4 ==> delay == 10
    ensures attempt == 5 ==> delay == 30
    ensures attempt >= 6 ==> delay == 60
    ensures delay == DelayOf(attempt)
  {
    var index := attempt - 1;
    if index < 0 {
      index := 0;
    }
    if index >= |RETRY_DELAYS| {
      index := |RETRY_DELAYS| - 1;
    }
    return RETRY_DELAYS[index];
  }

  /** The delay as a function of the attempt. */
  function DelayOf(attempt: int): nat {
    if attempt < 1 then RETRY_DELAYS[0]
    else if attempt > |RETRY_DELAYS| then RETRY_DELAYS[|RETRY_DELAYS| - 1]
    else RETRY_DELAYS[attempt - 1]
  }

  /** Later retries never come sooner. */
  lemma RetryDelayNonDecreasing(attempt: int, later: int)
    requires attempt <= later
    ensures 1 <= DelayOf(attempt) <= DelayOf(later) <= 60
  {
  }
}
