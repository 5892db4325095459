/**
 * `callLlmApiWithRetry` (background.js:91-130): POST a payload to the
 * text-generation endpoint, retrying with exponential backoff and jitter.
 *
 * The network and the clock are inputs: `replies[n]` is what the n-th
 * `fetch` produced and `jitters[r]` is the value `Math.random() * 1000`
 * returned when the r-th backoff delay was computed. Sleeping is recorded
 * as the sequence of delays the loop waited, in milliseconds.
 */
module Retry {
  import opened Wrappers

  const MaxRetries: nat := 5
  const BaseDelay: nat := 1000
  const OverloadedMessage: string := "Model is currently overloaded or unavailable. Please try again later."

  /** What one `fetch` produced. */
  datatype Reply<B> =
    | Fault                                   // the `fetch` promise rejected
    | Response(status: int, body: Option<B>)  // `None`: `response.json()` rejected

  predicate IsOkStatus(status: int) { 200 <= status <= 299 }

  /** The two statuses the loop treats as "busy" (background.js:104). */
  predicate IsBusyStatus(status: int) { status == 429 || status == 503 }

  /** A reply the loop returns on: an ok status whose body parses. */
  predicate Succeeds<B>(r: Reply<B>) {
    r.Response? && IsOkStatus(r.status) && r.body.Some?
  }

  /** A non-ok reply that is not one of the two busy statuses. */
  predicate IsPermanent<B>(r: Reply<B>) {
    r.Response? && !IsOkStatus(r.status) && !IsBusyStatus(r.status)
  }

  datatype CallError =
    | Overloaded            // the `Error` carrying OverloadedMessage
    | ApiError(status: int) // a non-ok status reported to the caller

  datatype CallResult<B> = Parsed(body: B) | Failed(error: CallError)

  function Pow2(n: nat): (p: nat)
    ensures p >= 1
  {
    if n == 0 then 1 else 2 * Pow2(n - 1)
  }

  /** `Math.random() * 1000` lies in [0, 1000). */
  predicate IsJitter(j: real) { 0.0 <= j < 1000.0 }

  predicate AreJitters(jitters: seq<real>) {
    forall r :: 0 <= r < |jitters| ==> IsJitter(jitters[r])
  }

  /**
   * The delay computed before retry number `retries` (background.js:105, 120):
   * with a jitter in [0, 1000) it lies in [1000 * 2^r, 1000 * 2^r + 1000).
   */
  function Backoff(retries: nat, jitter: real): (d: real)
    ensures IsJitter(jitter) ==>
      (BaseDelay * Pow2(retries)) as real <= d < (BaseDelay * Pow2(retries) + 1000) as real
  {
    (BaseDelay * Pow2(retries)) as real + jitter
  }

  /** The delays of retries 0, 1, ..., |jitters| - 1, in order. */
  function BackoffTrace(jitters: seq<real>): (t: seq<real>)
    ensures |t| == |jitters|
  {
    seq(|jitters|, r requires 0 <= r < |jitters| => Backoff(r, jitters[r]))
  }

  /** Index of the first attempt that succeeds, or |replies| if none does. */
  function FirstSuccess<B>(replies: seq<Reply<B>>): (k: nat)
    ensures k <= |replies|
    ensures k < |replies| ==> Succeeds(replies[k])
    ensures forall i :: 0 <= i < k ==> !Succeeds(replies[i])
  {
    if replies == [] || Succeeds(replies[0]) then 0 else 1 + FirstSuccess(replies[1..])
  }

  /**
   * The loop as written. Every failed attempt, whatever its kind, costs one
   * retry and one sleep; a non-ok status other than 429/503 throws inside
   * the `try` (background.js:112-114), so the `catch` at background.js:118
   * retries it too and its message is lost. The call returns the body of
   * the first successful attempt, or fails with OverloadedMessage after five
   * attempts and five sleeps, the last of them after the fifth failure.
   */
  method CallLlmApiWithRetry<B>(replies: seq<Reply<B>>, jitters: seq<real>)
    returns (result: CallResult<B>, attempts: nat, delays: seq<real>)
    requires |replies| == MaxRetries && |jitters| == MaxRetries
    ensures var k := FirstSuccess(replies);
      if k < MaxRetries then
        result == Parsed(replies[k].body.value) && attempts == k + 1 && |delays| == k
      else
        result == Failed(Overloaded) && attempts == MaxRetries && |delays| == MaxRetries
    ensures delays == BackoffTrace(jitters[..|delays|])
  {
    var retries: nat := 0;
    attempts, delays := 0, [];
    while retries < MaxRetries
      invariant retries <= MaxRetries
      invariant attempts == retries == |delays|
      invariant delays == BackoffTrace(jitters[..retries])
      invariant forall i :: 0 <= i < retries ==> !Succeeds(replies[i])
    {
      // background.js:98-102: one POST per iteration
      var reply := replies[retries];
      attempts := attempts + 1;
      if reply.Response? && IsBusyStatus(reply.status) {
        // background.js:104-109
        var delay := Backoff(retries, jitters[retries]);
        retries := retries + 1;
        delays := delays + [delay];
        assert jitters[..retries] == jitters[..retries - 1] + [jitters[retries - 1]];
        continue;
      }
      if reply.Response? && IsOkStatus(reply.status) && reply.body.Some? {
        // background.js:117
        result := Parsed(reply.body.value);
        return;
      }
      // background.js:118: reached on a rejected fetch, on the Error thrown
      // for a non-ok status, and on a body that does not parse
      if retries < MaxRetries {
        // background.js:119-123
        var delay := Backoff(retries, jitters[retries]);
        retries := retries + 1;
        delays := delays + [delay];
        assert jitters[..retries] == jitters[..retries - 1] + [jitters[retries - 1]];
      } else {
        // background.js:124-125 cannot run: the loop guard still holds here
        assert false;
      }
    }
    // background.js:129
    result := Failed(Overloaded);
  }

  /** Index of the first attempt that succeeds or fails permanently, or |replies|. */
  function FirstDecisive<B>(replies: seq<Reply<B>>): (k: nat)
    ensures k <= |replies|
    ensures k < |replies| ==> Succeeds(replies[k]) || IsPermanent(replies[k])
    ensures forall i :: 0 <= i < k ==> !Succeeds(replies[i]) && !IsPermanent(replies[i])
  {
    if replies == [] || Succeeds(replies[0]) || IsPermanent(replies[0]) then 0
    else 1 + FirstDecisive(replies[1..])
  }

  /**
   * The loop as its error message at background.js:114 shows it was meant to
   * work: a non-ok status other than 429/503 ends the call at once with that
   * status, without a sleep. Everything else is as in CallLlmApiWithRetry.
   */
  method CallSurfacingApiErrors<B>(replies: seq<Reply<B>>, jitters: seq<real>)
    returns (result: CallResult<B>, attempts: nat, delays: seq<real>)
    requires |replies| == MaxRetries && |jitters| == MaxRetries
    ensures var k := FirstDecisive(replies);
      if k < MaxRetries then
        attempts == k + 1 && |delays| == k &&
        result == (if Succeeds(replies[k]) then Parsed(replies[k].body.value)
                   else Failed(ApiError(replies[k].status)))
      else
        result == Failed(Overloaded) && attempts == MaxRetries && |delays| == MaxRetries
    ensures delays == BackoffTrace(jitters[..|delays|])
  {
    var retries: nat := 0;
    attempts, delays := 0, [];
    while retries < MaxRetries
      invariant retries <= MaxRetries
      invariant attempts == retries == |delays|
      invariant delays == BackoffTrace(jitters[..retries])
      invariant forall i :: 0 <= i < retries ==> !Succeeds(replies[i]) && !IsPermanent(replies[i])
    {
      var reply := replies[retries];
      attempts := attempts + 1;
      if reply.Response? && !IsOkStatus(reply.status) && !IsBusyStatus(reply.status) {
        result := Failed(ApiError(reply.status));
        return;
      }
      if reply.Response? && IsOkStatus(reply.status) && reply.body.Some? {
        result := Parsed(reply.body.value);
        return;
      }
      var delay := Backoff(retries, jitters[retries]);
      retries := retries + 1;
      delays := delays + [delay];
      assert jitters[..retries] == jitters[..retries - 1] + [jitters[retries - 1]];
    }
    result := Failed(Overloaded);
  }

  /** When no reply is a permanent failure, the two loops stop at the same attempt. */
  lemma {:induction false} SameStopWithoutPermanentFailures<B>(replies: seq<Reply<B>>)
    requires forall i :: 0 <= i < |replies| ==> !IsPermanent(replies[i])
    ensures FirstDecisive(replies) == FirstSuccess(replies)
  {
    if replies != [] && !Succeeds(replies[0]) {
      SameStopWithoutPermanentFailures(replies[1..]);
    }
  }

  lemma {:induction false} Pow2Grows(i: nat, k: nat)
    requires i < k
    ensures 2 * Pow2(i) <= Pow2(k)
  {
    if i + 1 < k { Pow2Grows(i, k - 1); }
  }

  /** A later retry waits strictly longer than an earlier one, whatever the jitters. */
  lemma BackoffIncreasing(i: nat, k: nat, ji: real, jk: real)
    requires i < k && IsJitter(ji) && IsJitter(jk)
    ensures Backoff(i, ji) < Backoff(k, jk)
  {
    Pow2Grows(i, k);
    assert (BaseDelay * Pow2(i) + 1000) as real <= (BaseDelay * Pow2(k)) as real;
  }

  /** The recorded delays strictly increase. */
  lemma TraceIncreasing(jitters: seq<real>, i: nat, k: nat)
    requires AreJitters(jitters) && i < k < |jitters|
    ensures BackoffTrace(jitters)[i] < BackoffTrace(jitters)[k]
  {
    BackoffIncreasing(i, k, jitters[i], jitters[k]);
  }

  function Sum(xs: seq<real>): real {
    if xs == [] then 0.0 else xs[0] + Sum(xs[1..])
  }

  /**
   * Five failed attempts keep the caller waiting between 31 and 36 seconds
   * in total before the error is thrown.
   */
  lemma ExhaustedWait(jitters: seq<real>)
    requires |jitters| == MaxRetries && AreJitters(jitters)
    ensures 31000.0 <= Sum(BackoffTrace(jitters)) < 36000.0
  {
    var t := BackoffTrace(jitters);
    assert Sum(t[4..]) == t[4] by { assert t[4..][1..] == []; }
    assert Sum(t[3..]) == t[3] + Sum(t[4..]) by { assert t[3..][1..] == t[4..]; }
    assert Sum(t[2..]) == t[2] + Sum(t[3..]) by { assert t[2..][1..] == t[3..]; }
    assert Sum(t[1..]) == t[1] + Sum(t[2..]) by { assert t[1..][1..] == t[2..]; }
    assert IsJitter(jitters[0]) && IsJitter(jitters[1]) && IsJitter(jitters[2])
      && IsJitter(jitters[3]) && IsJitter(jitters[4]);
  }

  /** A 429 twice, then a parseable ok reply: two sleeps, of at least one and two seconds. */
  method RateLimitedTwiceThenOk<B>(body: B, jitters: seq<real>)
    returns (result: CallResult<B>, attempts: nat, delays: seq<real>)
    requires |jitters| == MaxRetries && AreJitters(jitters)
    ensures result == Parsed(body) && attempts == 3 && |delays| == 2
    ensures 1000.0 <= delays[0] < 2000.0 && 2000.0 <= delays[1] < 3000.0
  {
    var replies := [Response(429, None), Response(429, None), Response(200, Some(body)), Fault, Fault];
    assert FirstSuccess(replies) == 2 by {
      assert !Succeeds(replies[0]) && !Succeeds(replies[1]) && Succeeds(replies[2]);
    }
    result, attempts, delays := CallLlmApiWithRetry(replies, jitters);
  }

  /** An unauthorised reply on every attempt, as the code is written. */
  method UnauthorizedAsWritten<B>(body: B, jitters: seq<real>)
    returns (result: CallResult<B>, attempts: nat, delays: seq<real>)
    requires |jitters| == MaxRetries
    ensures result == Failed(Overloaded) && attempts == MaxRetries && |delays| == MaxRetries
  {
    var r: Reply<B> := Response(401, Some(body));
    var replies := [r, r, r, r, r];
    assert FirstSuccess(replies) == MaxRetries;
    result, attempts, delays := CallLlmApiWithRetry(replies, jitters);
  }

  /** The same replies under the corrected loop: the 401 is reported at once. */
  method UnauthorizedCorrected<B>(body: B, jitters: seq<real>)
    returns (result: CallResult<B>, attempts: nat, delays: seq<real>)
    requires |jitters| == MaxRetries
    ensures result == Failed(ApiError(401)) && attempts == 1 && delays == []
  {
    var r: Reply<B> := Response(401, Some(body));
    var replies := [r, r, r, r, r];
    assert FirstDecisive(replies) == 0;
    result, attempts, delays := CallSurfacingApiErrors(replies, jitters);
  }
}
