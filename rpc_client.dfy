/**
 * The RPC client's retry policy (`make_api_request`).
 *
 * The node is an oracle `network`: `network(i)` is what attempt `i` sees
 * (a response carrying `result`, a response carrying `error`, or a transport
 * exception). Sleeps are not performed; their lengths are recorded, in order.
 */
module RpcClient {
  import opened Envelope

  /** What one `requests.post(...).json()` attempt produced. */
  datatype Response =
    | Answer(result: Json)            // a response without an `error` key: its `result`
    | ApiError(error: Json)           // a response with an `error` key
    | TransportError(reason: string)  // a `RequestException`

  /** The exception `make_api_request` raises. */
  datatype Failure =
    | ApiErrorAfter(maxRetries: int)                       // "API error after N attempts"
    | RequestFailedAfter(maxRetries: int, reason: string)  // "Request failed after N attempts: e"
    | NegativeSleep                                        // `time.sleep` refuses a negative length

  /** How a call ends: a result, an exception, or falling off the end of the loop (`None`). */
  datatype Outcome = Returned(value: Json) | Raised(failure: Failure) | NoResult

  /** A call's outcome, the sleeps it made in order, and how many attempts it made. */
  datatype Trace = Trace(outcome: Outcome, sleeps: seq<int>, attempts: nat)

  /** The exception raised when the last permitted attempt failed with `r`. */
  function ExhaustedFailure(r: Response, maxRetries: int): Failure
    requires !r.Answer?
  {
    match r
    case ApiError(_) => ApiErrorAfter(maxRetries)
    case TransportError(e) => RequestFailedAfter(maxRetries, e)
  }

  /** The pause before retrying after attempt `attempt` failed: linear backoff. */
  function Backoff(delay: int, attempt: nat): int {
    delay * (attempt + 1)
  }

  /**
   * The behaviour of the loop from attempt `attempt` on: an answer is returned
   * at once; a failed attempt that is not the last sleeps `delay * (attempt + 1)`
   * and retries; a failed last attempt raises; with no attempt left, `None`.
   */
  function RetryFrom(network: nat -> Response, maxRetries: int, delay: int, attempt: nat): Trace
    decreases if attempt < maxRetries then maxRetries - attempt else 0
  {
    if maxRetries <= attempt then Trace(NoResult, [], 0)
    else if network(attempt).Answer? then Trace(Returned(network(attempt).result), [], 1)
    else if attempt == maxRetries - 1 then Trace(Raised(ExhaustedFailure(network(attempt), maxRetries)), [], 1)
    else if Backoff(delay, attempt) < 0 then Trace(Raised(NegativeSleep), [], 1)
    else
      var rest := RetryFrom(network, maxRetries, delay, attempt + 1);
      Trace(rest.outcome, [Backoff(delay, attempt)] + rest.sleeps, rest.attempts + 1)
  }

  /** `make_api_request(payload, max_retries, delay)` against the oracle `network`. */
  method MakeApiRequest(network: nat -> Response, maxRetries: int, delay: int)
    returns (outcome: Outcome, ghost sleeps: seq<int>, ghost attempts: nat)
    ensures outcome == RetryFrom(network, maxRetries, delay, 0).outcome
    ensures Trace(outcome, sleeps, attempts) == RetryFrom(network, maxRetries, delay, 0)
  {
    sleeps, attempts := [], 0;
    var attempt: nat := 0;
    while attempt < maxRetries
      invariant attempts == attempt
      invariant var rest := RetryFrom(network, maxRetries, delay, attempt);
        RetryFrom(network, maxRetries, delay, 0) == Trace(rest.outcome, sleeps + rest.sleeps, attempt + rest.attempts)
      decreases maxRetries - attempt
    {
      attempts := attempts + 1;
      var response := network(attempt);
      if response.Answer? {
        return Returned(response.result), sleeps, attempts;
      }
      if attempt < maxRetries - 1 {
        var pause := delay * (attempt + 1);
        if pause < 0 {
          return Raised(NegativeSleep), sleeps, attempts;
        }
        sleeps := sleeps + [pause];
        attempt := attempt + 1;
      } else if response.ApiError? {
        return Raised(ApiErrorAfter(maxRetries)), sleeps, attempts;
      } else {
        return Raised(RequestFailedAfter(maxRetries, response.reason)), sleeps, attempts;
      }
    }
    outcome := NoResult;
  }

  // ---------------------------------------------------------------------------
  // Properties of the policy
  // ---------------------------------------------------------------------------

  /** At most the remaining `maxRetries - attempt` attempts are made, and at least one if any remain. */
  lemma {:induction false} AttemptsBounded(network: nat -> Response, maxRetries: int, delay: int, attempt: nat)
    ensures var t := RetryFrom(network, maxRetries, delay, attempt);
      if attempt < maxRetries then 1 <= t.attempts <= maxRetries - attempt else t.attempts == 0
    decreases if attempt < maxRetries then maxRetries - attempt else 0
  {
    if attempt < maxRetries - 1 {
      AttemptsBounded(network, maxRetries, delay, attempt + 1);
    }
  }

  /**
   * The call falls off the end of the loop and returns `None` exactly when
   * there is no attempt to make (`max_retries <= 0`).
   */
  lemma {:induction false} NoResultIffNoAttempts(network: nat -> Response, maxRetries: int, delay: int, attempt: nat)
    ensures RetryFrom(network, maxRetries, delay, attempt).outcome == NoResult <==> maxRetries <= attempt
    decreases if attempt < maxRetries then maxRetries - attempt else 0
  {
    if attempt < maxRetries - 1 {
      NoResultIffNoAttempts(network, maxRetries, delay, attempt + 1);
    }
  }

  /**
   * The i-th sleep after attempt `attempt` lasts `delay * (attempt + i + 1)`, and
   * there is one sleep fewer than attempts: no sleep follows the last attempt.
   */
  lemma {:induction false} SleepSchedule(network: nat -> Response, maxRetries: int, delay: int, attempt: nat)
    ensures var t := RetryFrom(network, maxRetries, delay, attempt);
      && (if t.attempts == 0 then t.sleeps == [] else |t.sleeps| == t.attempts - 1)
      && forall i :: 0 <= i < |t.sleeps| ==> t.sleeps[i] == Backoff(delay, attempt + i)
    decreases if attempt < maxRetries then maxRetries - attempt else 0
  {
    var t := RetryFrom(network, maxRetries, delay, attempt);
    if attempt < maxRetries - 1 && !network(attempt).Answer? && Backoff(delay, attempt) >= 0 {
      var rest := RetryFrom(network, maxRetries, delay, attempt + 1);
      SleepSchedule(network, maxRetries, delay, attempt + 1);
      AttemptsBounded(network, maxRetries, delay, attempt + 1);
      assert t.sleeps == [Backoff(delay, attempt)] + rest.sleeps;
      forall i | 1 <= i < |t.sleeps| ensures t.sleeps[i] == Backoff(delay, attempt + i) {
        assert t.sleeps[i] == rest.sleeps[i - 1];
      }
    }
  }

  /** A later attempt's pause is longer when the base delay is positive. */
  lemma BackoffStep(delay: int, i: nat, j: nat)
    requires delay > 0 && i < j
    ensures Backoff(delay, i) < Backoff(delay, j)
  {
    assert Backoff(delay, j) == Backoff(delay, i) + delay * (j - i);
    assert delay * (j - i) > 0;
  }

  /** With a positive base delay the pauses strictly increase. */
  lemma BackoffIncreases(network: nat -> Response, maxRetries: int, delay: int)
    requires delay > 0
    ensures var s := RetryFrom(network, maxRetries, delay, 0).sleeps;
      forall i, j :: 0 <= i < j < |s| ==> s[i] < s[j]
  {
    var s := RetryFrom(network, maxRetries, delay, 0).sleeps;
    SleepSchedule(network, maxRetries, delay, 0);
    forall i, j | 0 <= i < j < |s| ensures s[i] < s[j] {
      BackoffStep(delay, i, j);
    }
  }

  /**
   * The first answer wins: if attempt `k` is the first to answer and lies
   * within the budget (and pauses are legal), its result is returned after
   * `k + 1` attempts.
   */
  lemma {:induction false} FirstAnswerReturned(network: nat -> Response, maxRetries: int, delay: int, attempt: nat, k: nat)
    requires delay >= 0
    requires attempt <= k < maxRetries
    requires network(k).Answer?
    requires forall j :: attempt <= j < k ==> !network(j).Answer?
    ensures RetryFrom(network, maxRetries, delay, attempt).outcome == Returned(network(k).result)
    ensures RetryFrom(network, maxRetries, delay, attempt).attempts == k - attempt + 1
    decreases k - attempt
  {
    if attempt < k {
      assert Backoff(delay, attempt) >= 0;
      FirstAnswerReturned(network, maxRetries, delay, attempt + 1, k);
    }
  }

  /**
   * Conversely, a returned value is the answer of an attempt within the budget
   * that was preceded only by failures.
   */
  lemma {:induction false} ReturnedIsFirstAnswer(network: nat -> Response, maxRetries: int, delay: int, attempt: nat)
    ensures var t := RetryFrom(network, maxRetries, delay, attempt);
      t.outcome.Returned? ==>
        exists k :: attempt <= k < maxRetries && network(k) == Answer(t.outcome.value) &&
          forall j :: attempt <= j < k ==> !network(j).Answer?
    decreases if attempt < maxRetries then maxRetries - attempt else 0
  {
    var t := RetryFrom(network, maxRetries, delay, attempt);
    if attempt < maxRetries - 1 && !network(attempt).Answer? && Backoff(delay, attempt) >= 0 {
      ReturnedIsFirstAnswer(network, maxRetries, delay, attempt + 1);
    } else if t.outcome.Returned? {
      assert network(attempt) == Answer(t.outcome.value);
    }
  }

  /**
   * Exhaustion: when every permitted attempt fails (and pauses are legal),
   * exactly `maxRetries` attempts are made and the last failure is raised.
   */
  lemma {:induction false} AllFailuresRaise(network: nat -> Response, maxRetries: int, delay: int, attempt: nat)
    requires delay >= 0
    requires attempt < maxRetries
    requires forall j :: attempt <= j < maxRetries ==> !network(j).Answer?
    ensures RetryFrom(network, maxRetries, delay, attempt).outcome
         == Raised(ExhaustedFailure(network(maxRetries - 1), maxRetries))
    ensures RetryFrom(network, maxRetries, delay, attempt).attempts == maxRetries - attempt
    decreases maxRetries - attempt
  {
    if attempt < maxRetries - 1 {
      assert Backoff(delay, attempt) >= 0;
      AllFailuresRaise(network, maxRetries, delay, attempt + 1);
    }
  }

  /** A node that never answers, with three attempts and base delay 2: three attempts, pauses 2 and 4. */
  lemma ThreeFailedAttemptsExample()
    ensures var t := RetryFrom(_ => TransportError("timeout"), 3, 2, 0);
      t == Trace(Raised(RequestFailedAfter(3, "timeout")), [2, 4], 3)
  {
  }
}
