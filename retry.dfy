/** `fetchWithRetry` of lib/grok-utils.ts: up to `retries` calls of `fetch`,
    each classified as accepted (returned at once) or failed (remembered as
    the last error, then a back-off wait), and the last error thrown once
    the attempts run out.  The network is a parameter: `fetch(k)` is what
    the k-th call (counting from 0) does; waits are recorded, not taken. */
module Retry {
  import opened Wrappers
  import opened Strings

  datatype Response = Response(status: int, text: string)

  /** `response.ok`: a status in the range 200-299. */
  predicate IsOk(status: int) {
    200 <= status <= 299
  }

  /** What one call of `fetch` did: answered, was aborted by the 30-second
      timer (an `AbortError`), or threw some other error. */
  datatype FetchOutcome = Responded(response: Response) | TimedOut | Threw(message: string)

  const DefaultRetries: int := 5
  const DefaultBackoffFactor: int := 2
  const DefaultStatusesToRetry: seq<int> := [429, 500, 502, 503, 504]
  const ExhaustedMessage: string := "Request failed after retries"
  const TimeoutMessage: string := "Request timed out after 30 seconds"

  /** An outcome that ends the loop: a response that is ok or whose status
      is not to be retried. */
  predicate Accepted(statusesToRetry: seq<int>, o: FetchOutcome)
    ensures Accepted(statusesToRetry, o) ==> o.Responded?
    ensures o.Responded? && IsOk(o.response.status) ==> Accepted(statusesToRetry, o)
    ensures o.Responded? && o.response.status in statusesToRetry && !IsOk(o.response.status)
            ==> !Accepted(statusesToRetry, o)
  {
    o.Responded? && (IsOk(o.response.status) || o.response.status !in statusesToRetry)
  }

  const StatusFailurePrefix: string := "Request failed with status "

  /** The message `lastError` gets from an outcome that is retried: a
      response is named by its status, an abort by the 30-second timeout,
      and any other error keeps its own message. */
  function FailureMessage(o: FetchOutcome): (m: string)
    ensures o.Responded? ==> |m| > |StatusFailurePrefix| && m[..|StatusFailurePrefix|] == StatusFailurePrefix
    ensures o.TimedOut? ==> m == TimeoutMessage
    ensures o.Threw? ==> m == o.message
  {
    match o
    case Responded(r) => StatusFailurePrefix + DecimalString(r.status) + ": " + r.text
    case TimedOut => TimeoutMessage
    case Threw(m) => m
  }

  function Pow(base: int, e: nat): (p: int)
    ensures base >= 1 ==> p >= 1
  {
    if e == 0 then 1 else base * Pow(base, e - 1)
  }

  /** `Math.pow(backoffFactor, attempt) * 1000`, in milliseconds. */
  function Backoff(backoffFactor: int, attempt: nat): (ms: int)
    ensures backoffFactor >= 1 ==> ms >= 1000
  {
    Pow(backoffFactor, attempt) * 1000
  }

  /** The waits after the failed attempts `from`, ..., `to - 1`. */
  function Backoffs(backoffFactor: int, from: nat, to: nat): (w: seq<int>)
    requires from <= to
    ensures |w| == to - from
    ensures forall i :: 0 <= i < to - from ==> w[i] == Backoff(backoffFactor, from + i)
  {
    seq(to - from, i requires 0 <= i < to - from => Backoff(backoffFactor, from + i))
  }

  /** What a call of `fetchWithRetry` ends with: the response returned or the
      message thrown, how many times `fetch` was called, and the waits. */
  datatype RetryResult = RetryResult(outcome: Result<Response, string>, calls: nat, sleeps: seq<int>)

  /** The loop from attempt `attempt` on, with the last error so far and the
      waits taken so far. */
  function Run(retries: int, backoffFactor: int, statusesToRetry: seq<int>,
               fetch: nat -> FetchOutcome, attempt: nat, lastError: Option<string>,
               sleeps: seq<int>): (r: RetryResult)
    ensures attempt >= retries ==> r.calls == attempt && r.outcome.Err? && r.sleeps == sleeps
    ensures attempt < retries ==> attempt < r.calls <= retries
    ensures sleeps <= r.sleeps
    ensures |r.sleeps| == |sleeps| + r.calls - attempt - (if r.outcome.Ok? then 1 else 0)
    decreases retries - attempt
  {
    if attempt >= retries then RetryResult(Err(lastError.GetOr(ExhaustedMessage)), attempt, sleeps)
    else if Accepted(statusesToRetry, fetch(attempt)) then
      RetryResult(Ok(fetch(attempt).response), attempt + 1, sleeps)
    else
      Run(retries, backoffFactor, statusesToRetry, fetch, attempt + 1,
          Some(FailureMessage(fetch(attempt))), sleeps + [Backoff(backoffFactor, attempt)])
  }

  /** A whole call of `fetchWithRetry`. */
  function Retrying(retries: int, backoffFactor: int, statusesToRetry: seq<int>,
                    fetch: nat -> FetchOutcome): (r: RetryResult)
    ensures r.calls <= (if retries < 0 then 0 else retries)
    ensures |r.sleeps| == r.calls - (if r.outcome.Ok? then 1 else 0)
  {
    Run(retries, backoffFactor, statusesToRetry, fetch, 0, None, [])
  }

  /** The loop as the source writes it. */
  method FetchWithRetry(fetch: nat -> FetchOutcome, retries: int, backoffFactor: int,
                        statusesToRetry: seq<int>)
    returns (result: Result<Response, string>, calls: nat, sleeps: seq<int>)
    ensures RetryResult(result, calls, sleeps) == Retrying(retries, backoffFactor, statusesToRetry, fetch)
  {
    var lastError: Option<string> := None;
    var attempt: nat := 0;
    calls, sleeps := 0, [];
    while attempt < retries
      invariant calls == attempt
      invariant Retrying(retries, backoffFactor, statusesToRetry, fetch)
             == Run(retries, backoffFactor, statusesToRetry, fetch, attempt, lastError, sleeps)
      decreases retries - attempt
    {
      var outcome := fetch(attempt);
      calls := calls + 1;
      match outcome {
        case Responded(response) =>
          if IsOk(response.status) || response.status !in statusesToRetry {
            return Ok(response), calls, sleeps;
          }
          lastError := Some(StatusFailurePrefix + DecimalString(response.status) + ": " + response.text);
        case TimedOut =>
          lastError := Some(TimeoutMessage);
        case Threw(message) =>
          lastError := Some(message);
      }
      var backoffTime := Pow(backoffFactor, attempt) * 1000;
      sleeps := sleeps + [backoffTime];
      attempt := attempt + 1;
    }
    result := Err(lastError.GetOr(ExhaustedMessage));
  }

  /** Everything the loop promises, from any attempt on: it returns the
      first accepted outcome with no calls after it, or throws after
      exactly the remaining attempts have all failed, with the message of
      the last failure (the starting message when no attempt was left);
      after every failed attempt `j` it waits `backoffFactor^j` seconds. */
  lemma {:induction false} RunShape(retries: int, backoffFactor: int, statusesToRetry: seq<int>,
                                    fetch: nat -> FetchOutcome, attempt: nat,
                                    lastError: Option<string>, sleeps: seq<int>)
    ensures var r := Run(retries, backoffFactor, statusesToRetry, fetch, attempt, lastError, sleeps);
      match r.outcome
      case Ok(response) =>
        && attempt < r.calls <= retries
        && Accepted(statusesToRetry, fetch(r.calls - 1))
        && response == fetch(r.calls - 1).response
        && (forall j :: attempt <= j < r.calls - 1 ==> !Accepted(statusesToRetry, fetch(j)))
        && r.sleeps == sleeps + Backoffs(backoffFactor, attempt, r.calls - 1)
      case Err(message) =>
        && r.calls == (if attempt < retries then retries else attempt)
        && (forall j :: attempt <= j < retries ==> !Accepted(statusesToRetry, fetch(j)))
        && r.sleeps == sleeps + Backoffs(backoffFactor, attempt, r.calls)
        && message == (if attempt < retries then FailureMessage(fetch(retries - 1))
                       else lastError.GetOr(ExhaustedMessage))
    decreases retries - attempt
  {
    if attempt < retries && !Accepted(statusesToRetry, fetch(attempt)) {
      var next := sleeps + [Backoff(backoffFactor, attempt)];
      RunShape(retries, backoffFactor, statusesToRetry, fetch, attempt + 1,
               Some(FailureMessage(fetch(attempt))), next);
      var r := Run(retries, backoffFactor, statusesToRetry, fetch, attempt + 1,
                   Some(FailureMessage(fetch(attempt))), next);
      BackoffsCons(backoffFactor, attempt, if r.outcome.Ok? then r.calls - 1 else r.calls, sleeps);
    } else {
      assert sleeps + Backoffs(backoffFactor, attempt, attempt) == sleeps;
    }
  }

  /** The waits from `from` on are the wait after `from`, then the rest. */
  lemma BackoffsCons(backoffFactor: int, from: nat, to: nat, sleeps: seq<int>)
    requires from < to
    ensures sleeps + [Backoff(backoffFactor, from)] + Backoffs(backoffFactor, from + 1, to)
         == sleeps + Backoffs(backoffFactor, from, to)
  {
    assert [Backoff(backoffFactor, from)] + Backoffs(backoffFactor, from + 1, to)
        == Backoffs(backoffFactor, from, to);
  }

  /** `fetch` is called at most `retries` times (never when `retries <= 0`),
      and the call returns a response exactly when some attempt within
      the bound was accepted; the response returned is the first one. */
  lemma RetryingReturnsFirstAccepted(retries: int, backoffFactor: int, statusesToRetry: seq<int>,
                                     fetch: nat -> FetchOutcome)
    ensures var r := Retrying(retries, backoffFactor, statusesToRetry, fetch);
      && r.calls <= (if retries < 0 then 0 else retries)
      && (r.outcome.Ok? <==> exists j :: 0 <= j < retries && Accepted(statusesToRetry, fetch(j)))
      && (r.outcome.Ok? ==> r.calls >= 1 && fetch(r.calls - 1).Responded? &&
                            r.outcome.value == fetch(r.calls - 1).response &&
                            forall j :: 0 <= j < r.calls - 1 ==> !Accepted(statusesToRetry, fetch(j)))
  {
    RunShape(retries, backoffFactor, statusesToRetry, fetch, 0, None, []);
  }

  /** When every attempt fails, the error thrown is the last failure's
      message, `fetch` was called `retries` times and the loop waited after
      each attempt, the last one included. */
  lemma RetryingExhausted(retries: int, backoffFactor: int, statusesToRetry: seq<int>,
                          fetch: nat -> FetchOutcome)
    requires retries > 0
    requires forall j :: 0 <= j < retries ==> !Accepted(statusesToRetry, fetch(j))
    ensures var r := Retrying(retries, backoffFactor, statusesToRetry, fetch);
      && r.outcome == Err(FailureMessage(fetch(retries - 1)))
      && r.calls == retries
      && r.sleeps == Backoffs(backoffFactor, 0, retries)
  {
    RunShape(retries, backoffFactor, statusesToRetry, fetch, 0, None, []);
    assert [] + Backoffs(backoffFactor, 0, retries) == Backoffs(backoffFactor, 0, retries);
  }

  /** With no attempts allowed nothing is fetched and the fixed message is
      thrown. */
  lemma RetryingWithoutAttempts(retries: int, backoffFactor: int, statusesToRetry: seq<int>,
                                fetch: nat -> FetchOutcome)
    requires retries <= 0
    ensures Retrying(retries, backoffFactor, statusesToRetry, fetch)
         == RetryResult(Err(ExhaustedMessage), 0, [])
  {
  }

  /** Two 503 answers and then a 200 with the default settings: three calls,
      waits of 1 and 2 seconds, and the 200 response returned. */
  lemma RetryingTwoUnavailable()
    ensures var fetch := (k: nat) => if k < 2 then Responded(Response(503, "busy"))
                                     else Responded(Response(200, "hello"));
      Retrying(DefaultRetries, DefaultBackoffFactor, DefaultStatusesToRetry, fetch)
        == RetryResult(Ok(Response(200, "hello")), 3, [1000, 2000])
  {
    var fetch := (k: nat) => if k < 2 then Responded(Response(503, "busy"))
                             else Responded(Response(200, "hello"));
    var s := DefaultStatusesToRetry;
    assert !Accepted(s, fetch(0)) && !Accepted(s, fetch(1)) && Accepted(s, fetch(2));
    assert Backoff(2, 0) == 1000 && Backoff(2, 1) == 2000;
  }
}
