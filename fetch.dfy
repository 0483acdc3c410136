/** The fetcher's retry loop. The network is a function from the attempt
    number (1, 2, …) to what that attempt ran into; the sleeps between
    attempts are returned as a list of durations instead of being waited. */
module Fetch {
  import opened Strings

  const MaxRetries: nat := 3
  const RetryDelayMs: nat := 2000
  /** The per-attempt abort timer; an attempt that hits it is a `Timeout`. */
  const RequestTimeoutMs: nat := 15000

  /** What `res.json()` gives: the parsed body or the error it throws. */
  datatype Body<B> = Parsed(value: B) | Malformed(message: string)

  /** What one attempt ran into. */
  datatype Outcome<B> =
    | Response(status: nat, statusText: string, body: Body<B>)
    | Timeout  // the abort after `RequestTimeoutMs`
    | NetworkError(message: string)

  /** How the call ends: it resolves with a body, rejects with a message, or
      (with no attempts allowed) resolves to `undefined`. */
  datatype FetchResult<B> = Resolved(body: B) | Rejected(message: string) | NoAttempt

  /** `res.ok` and a body that parses. */
  predicate Succeeds<B>(o: Outcome<B>) {
    o.Response? && 200 <= o.status <= 299 && o.body.Parsed?
  }

  /** The message of the error a failed attempt throws. */
  function ErrorMessage<B>(o: Outcome<B>): string
    requires !Succeeds(o)
  {
    match o
    case Timeout => "Request timeout"
    case NetworkError(m) => m
    case Response(status, text, body) =>
      if !(200 <= status <= 299) then "HTTP " + NatToString(status) + " " + text
      else body.message
  }

  function FailureMessage(retries: nat, errMsg: string): string {
    "Failed after " + NatToString(retries) + " attempts: " + errMsg
  }

  /** How a call that starts at attempt `attempt` ends: the first attempt
      that succeeds resolves it; a failure at the last allowed attempt
      rejects it with that attempt's error. */
  function RetryFrom<B>(network: nat -> Outcome<B>, attempt: nat, retries: int): FetchResult<B>
    requires attempt >= 1
    decreases retries - attempt
  {
    if attempt > retries then NoAttempt
    else if Succeeds(network(attempt)) then Resolved(network(attempt).body.value)
    else if attempt == retries then Rejected(FailureMessage(retries, ErrorMessage(network(attempt))))
    else RetryFrom(network, attempt + 1, retries)
  }

  /** The value (or error) `fetchWithRetry` settles with. */
  function RetryOutcome<B>(network: nat -> Outcome<B>, retries: int): FetchResult<B> {
    RetryFrom(network, 1, retries)
  }

  /** `fetchWithRetry(url, headers, retries)`. */
  method FetchWithRetry<B>(network: nat -> Outcome<B>, retries: int)
    returns (result: FetchResult<B>, attempts: nat, delays: seq<nat>)
    ensures result == RetryOutcome(network, retries)
    ensures retries < 1 ==> result == NoAttempt && attempts == 0 && delays == []
    ensures retries >= 1 ==> 1 <= attempts <= retries && !result.NoAttempt?
    ensures forall k :: 1 <= k < attempts ==> !Succeeds(network(k))
    ensures result.Resolved? ==> Succeeds(network(attempts)) && result.body == network(attempts).body.value
    ensures result.Rejected? ==>
      attempts == retries && !Succeeds(network(attempts)) &&
      result.message == FailureMessage(attempts, ErrorMessage(network(attempts)))
    ensures attempts >= 1 && Succeeds(network(attempts)) ==> result.Resolved?
    ensures |delays| == if attempts == 0 then 0 else attempts - 1
    ensures forall i :: 0 <= i < |delays| ==> delays[i] == RetryDelayMs * (i + 1)
  {
    result, attempts, delays := NoAttempt, 0, [];
    var attempt := 1;
    while attempt <= retries
      invariant 1 <= attempt && (if retries >= 1 then attempt <= retries else attempt == 1)
      invariant result == NoAttempt && attempts == attempt - 1
      invariant RetryOutcome(network, retries) == RetryFrom(network, attempt, retries)
      invariant forall k :: 1 <= k < attempt ==> !Succeeds(network(k))
      invariant |delays| == attempt - 1 && (attempt == 1 ==> delays == [])
      invariant forall i :: 0 <= i < |delays| ==> delays[i] == RetryDelayMs * (i + 1)
      decreases retries - attempt
    {
      var outcome := network(attempt);
      attempts := attempt;
      if Succeeds(outcome) {
        result := Resolved(outcome.body.value);
        return;
      }
      var errMsg := ErrorMessage(outcome);
      if attempt == retries {
        result := Rejected(FailureMessage(retries, errMsg));
        return;
      }
      delays := delays + [RetryDelayMs * attempt];
      attempt := attempt + 1;
    }
  }

  /** When every allowed attempt fails, the call rejects with the retry
      count and the last attempt's error. */
  lemma {:induction false} RetryAllFail<B>(network: nat -> Outcome<B>, attempt: nat, retries: int)
    requires 1 <= attempt <= retries
    requires forall k :: attempt <= k <= retries ==> !Succeeds(network(k))
    ensures RetryFrom(network, attempt, retries) == Rejected(FailureMessage(retries, ErrorMessage(network(retries))))
    decreases retries - attempt
  {
    if attempt < retries {
      RetryAllFail(network, attempt + 1, retries);
    }
  }

  /** The first attempt that succeeds settles the call with its body. */
  lemma {:induction false} RetryFirstSuccess<B>(network: nat -> Outcome<B>, attempt: nat, retries: int, k: nat)
    requires 1 <= attempt <= k <= retries
    requires forall j :: attempt <= j < k ==> !Succeeds(network(j))
    requires Succeeds(network(k))
    ensures RetryFrom(network, attempt, retries) == Resolved(network(k).body.value)
    decreases k - attempt
  {
    if attempt < k {
      RetryFirstSuccess(network, attempt + 1, retries, k);
    }
  }

  /** An endpoint that always times out: the call rejects after three
      attempts, and the message names the attempt count and the timeout. */
  lemma {:induction false} AlwaysTimeout<B>(network: nat -> Outcome<B>)
    requires forall k :: network(k) == Timeout
    ensures RetryOutcome(network, MaxRetries) == Rejected("Failed after " + "3" + " attempts: " + "Request timeout")
  {
    RetryAllFail(network, 1, MaxRetries);
    assert ErrorMessage(network(MaxRetries)) == "Request timeout";
    assert NatToString(MaxRetries) == [DigitChar(3)] == "3";
  }
}
