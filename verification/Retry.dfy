/** The transport that tries a request again after a transient failure, a bounded number of times. */
module Retry {
  import opened Wrappers

  datatype Failure = ConnectError | ConnectTimeout | ReadError | WriteError | ProtocolError | OtherError

  /** How one attempt goes. */
  datatype Outcome = Responds(status: int) | Raises(failure: Failure)

  datatype Answer = Returned(status: int) | Raised(failure: Failure) | AssertionFailed

  const IDEMPOTENT_METHODS: set<string> := {"GET", "HEAD", "OPTIONS"}

  predicate IsRetryable(failure: Failure) { failure != OtherError }

  /** The connection was never made, so the request cannot have arrived. */
  predicate NeverSent(outcome: Outcome) {
    outcome.Raises? && (outcome.failure == ConnectError || outcome.failure == ConnectTimeout)
  }

  /** `_should_retry`; the method is in upper case. */
  predicate ShouldRetry(httpMethod: string, failure: Failure) {
    failure == ConnectError || failure == ConnectTimeout || httpMethod in IDEMPOTENT_METHODS
  }

  /** An outcome after which another attempt may follow, if any is left. */
  predicate IsTriedAgain(httpMethod: string, outcome: Outcome) {
    outcome.Raises? && IsRetryable(outcome.failure) && ShouldRetry(httpMethod, outcome.failure)
  }

  function AnswerOf(outcome: Outcome): Answer {
    if outcome.Responds? then Returned(outcome.status) else Raised(outcome.failure)
  }

  /** How many of the first `n` attempts may have reached the server. */
  function MayHaveArrived(outcomes: nat -> Outcome, n: nat): nat {
    if n == 0 then 0 else MayHaveArrived(outcomes, n - 1) + if NeverSent(outcomes(n - 1)) then 0 else 1
  }

  class Transport {
    const retries: int

    constructor (retries: int)
      ensures this.retries == retries
    {
      this.retries := retries;
    }

    /**
      `handle_request`: the answer is the last attempt's; it is the first attempt that was
      not to be tried again, or the last one allowed. The pauses between attempts grow by one.
      Only a negative bound reaches the trailing assertion.
     */
    method HandleRequest(httpMethod: string, outcomes: nat -> Outcome) returns (answer: Answer, attempts: nat, pauses: seq<nat>)
      ensures answer.AssertionFailed? <==> retries < 0
      ensures retries < 0 ==> attempts == 0
      ensures retries >= 0 ==> 1 <= attempts <= retries + 1
      ensures attempts > 0 ==> answer == AnswerOf(outcomes(attempts - 1))
      ensures forall i: nat :: i + 1 < attempts ==> IsTriedAgain(httpMethod, outcomes(i))
      ensures attempts > 0 && attempts < retries + 1 ==> !IsTriedAgain(httpMethod, outcomes(attempts - 1))
      ensures forall i: nat :: i + 1 < attempts ==>
                && outcomes(i).Raises? && outcomes(i).failure != OtherError
                && (outcomes(i).failure in {ConnectError, ConnectTimeout} || httpMethod in {"GET", "HEAD", "OPTIONS"})
      ensures 0 < attempts < retries + 1 ==>
                var last := outcomes(attempts - 1);
                || last.Responds? || last.failure == OtherError
                || (last.failure in {ReadError, WriteError, ProtocolError} && httpMethod !in {"GET", "HEAD", "OPTIONS"})
      ensures |pauses| == (if attempts == 0 then 0 else attempts - 1)
      ensures forall i :: 0 <= i < |pauses| ==> pauses[i] == i + 1
      ensures httpMethod !in IDEMPOTENT_METHODS ==> MayHaveArrived(outcomes, attempts) <= 1
    {
      var attempt := 0;
      pauses := [];
      while attempt < retries + 1
        invariant 0 <= attempt && (retries >= 0 ==> attempt <= retries) && (retries < 0 ==> attempt == 0)
        invariant forall i: nat :: i < attempt ==> IsTriedAgain(httpMethod, outcomes(i))
        invariant |pauses| == attempt && forall i :: 0 <= i < |pauses| ==> pauses[i] == i + 1
        invariant httpMethod !in IDEMPOTENT_METHODS ==> MayHaveArrived(outcomes, attempt) == 0
      {
        var outcome := outcomes(attempt);
        if outcome.Responds? {
          return Returned(outcome.status), attempt + 1, pauses;
        }
        if !IsRetryable(outcome.failure) || attempt >= retries || !ShouldRetry(httpMethod, outcome.failure) {
          return Raised(outcome.failure), attempt + 1, pauses;
        }
        pauses := pauses + [attempt + 1];
        attempt := attempt + 1;
      }
      return AssertionFailed, 0, [];
    }
  }

  /** A request that may be replayed without harm is the only kind that can arrive twice. */
  lemma {:induction false} ArrivedTwice(httpMethod: string, outcomes: nat -> Outcome, attempts: nat)
    requires forall i: nat :: i + 1 < attempts ==> IsTriedAgain(httpMethod, outcomes(i))
    requires MayHaveArrived(outcomes, attempts) > 1
    ensures httpMethod in IDEMPOTENT_METHODS
  {
    if httpMethod !in IDEMPOTENT_METHODS {
      NothingArrivedBefore(httpMethod, outcomes, attempts - 1);
      assert false;
    }
  }

  lemma {:induction false} NothingArrivedBefore(httpMethod: string, outcomes: nat -> Outcome, n: nat)
    requires httpMethod !in IDEMPOTENT_METHODS
    requires forall i: nat :: i < n ==> IsTriedAgain(httpMethod, outcomes(i))
    ensures MayHaveArrived(outcomes, n) == 0
  {
    if n > 0 {
      NothingArrivedBefore(httpMethod, outcomes, n - 1);
    }
  }
}
