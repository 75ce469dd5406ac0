/** Fetching one blob's contents with retries: `decode_blob` in
    fetch_agents.py:103-123, with `MAX_RETRIES` from line 22. */
module Blob {
  import opened Env

  /** `MAX_RETRIES` (fetch_agents.py:22). */
  const MaxRetries: nat := 3

  /** What one call of `get_git_blob` gives back: the decoded contents, a
      rate-limit signal, or a platform error with its status code. */
  datatype FetchOutcome = Content(bytes: Bytes) | RateLimited | Failure(status: int)

  /** The answers the platform would give to the three calls `decode_blob`
      may make, in order; answers to calls that are never made are ignored. */
  type Replies = r: seq<FetchOutcome> | |r| == MaxRetries
    witness [RateLimited, RateLimited, RateLimited]

  /** The two ways `decode_blob` fails: a non-5xx platform error re-raised
      as it came, or the RuntimeError raised once the attempts run out. */
  datatype BlobError = Raised(status: int) | Exhausted

  datatype BlobResult = Decoded(bytes: Bytes) | Failed(error: BlobError)

  /** The result of a run, how many times `get_git_blob` was called and the
      pauses made, in order. */
  datatype Trace = Trace(result: BlobResult, calls: nat, pauses: seq<Pause>)

  /** `2**n`. */
  function Pow2(n: nat): (r: nat)
    ensures r > n
  {
    if n == 0 then 1 else 2 * Pow2(n - 1)
  }

  /** An answer after which `decode_blob` goes on to the next attempt. */
  predicate Retryable(o: FetchOutcome)
  {
    o.RateLimited? || (o.Failure? && Is5xx(o.status))
  }

  /** The pause made after a retryable answer on attempt `attempt`: a quota
      wait on the core resource class, or a sleep of `2**attempt` seconds. */
  function PauseAfter(o: FetchOutcome, attempt: nat): Pause
    requires Retryable(o)
  {
    if o.RateLimited? then QuotaWait(Core) else Sleep(Pow2(attempt))
  }

  /** What `decode_blob` does from attempt `attempt` (counted from 1) on. */
  function AttemptsFrom(replies: Replies, attempt: nat): Trace
    requires 1 <= attempt <= MaxRetries + 1
    decreases MaxRetries + 1 - attempt
  {
    if attempt == MaxRetries + 1 then Trace(Failed(Exhausted), 0, [])
    else
      var o := replies[attempt - 1];
      if Retryable(o) then
        var rest := AttemptsFrom(replies, attempt + 1);
        Trace(rest.result, rest.calls + 1, [PauseAfter(o, attempt)] + rest.pauses)
      else if o.Content? then Trace(Decoded(o.bytes), 1, [])
      else Trace(Failed(Raised(o.status)), 1, [])
  }

  /** The specification of `decode_blob`. */
  function DecodeSpec(replies: Replies): Trace
  {
    AttemptsFrom(replies, 1)
  }

  /** The loop invariant of `decode_blob`: `calls` attempts were made, and
      they, followed by what the remaining attempts do, make up the whole
      specification. */
  ghost predicate Reached(replies: Replies, attempt: nat, calls: nat, pauses: seq<Pause>)
    requires 1 <= attempt <= MaxRetries + 1
  {
    var rest := AttemptsFrom(replies, attempt);
    calls == attempt - 1 && DecodeSpec(replies) == Trace(rest.result, calls + rest.calls, pauses + rest.pauses)
  }

  /** A retryable answer moves the invariant on by one attempt. */
  lemma AttemptRetried(replies: Replies, attempt: nat, calls: nat, pauses: seq<Pause>)
    requires 1 <= attempt <= MaxRetries && Retryable(replies[attempt - 1])
    requires Reached(replies, attempt, calls, pauses)
    ensures Reached(replies, attempt + 1, calls + 1, pauses + [PauseAfter(replies[attempt - 1], attempt)])
  {
    var p := PauseAfter(replies[attempt - 1], attempt);
    var rest := AttemptsFrom(replies, attempt + 1);
    assert (pauses + [p]) + rest.pauses == pauses + ([p] + rest.pauses);
  }

  /** Any other answer ends the run with its result. */
  lemma AttemptFinal(replies: Replies, attempt: nat, calls: nat, pauses: seq<Pause>)
    requires 1 <= attempt <= MaxRetries && !Retryable(replies[attempt - 1])
    requires Reached(replies, attempt, calls, pauses)
    ensures var o := replies[attempt - 1];
      DecodeSpec(replies) == Trace(if o.Content? then Decoded(o.bytes) else Failed(Raised(o.status)), calls + 1, pauses)
  {
    assert pauses + [] == pauses;
  }

  /** After three retryable answers the run is exhausted. */
  lemma AttemptsUsedUp(replies: Replies, calls: nat, pauses: seq<Pause>)
    requires Reached(replies, MaxRetries + 1, calls, pauses)
    ensures DecodeSpec(replies) == Trace(Failed(Exhausted), calls, pauses)
  {
    assert pauses + [] == pauses;
  }

  /** `decode_blob` itself: a loop over three attempts that returns on the
      first success, re-raises a non-5xx error at once, and raises
      `Exhausted` when no attempt succeeded. */
  method DecodeBlob(replies: Replies) returns (result: BlobResult, calls: nat, pauses: seq<Pause>)
    ensures Trace(result, calls, pauses) == DecodeSpec(replies)
  {
    calls, pauses := 0, [];
    for attempt := 1 to MaxRetries + 1
      invariant Reached(replies, attempt, calls, pauses)
    {
      var reply := replies[attempt - 1];
      match reply
      case Content(bytes) =>
        AttemptFinal(replies, attempt, calls, pauses);
        calls := calls + 1;
        result := Decoded(bytes);
        return;
      case RateLimited =>
        AttemptRetried(replies, attempt, calls, pauses);
        calls := calls + 1;
        pauses := pauses + [QuotaWait(Core)];
      case Failure(status) =>
        if Is5xx(status) {
          AttemptRetried(replies, attempt, calls, pauses);
          calls := calls + 1;
          pauses := pauses + [Sleep(Pow2(attempt))];
        } else {
          AttemptFinal(replies, attempt, calls, pauses);
          calls := calls + 1;
          result := Failed(Raised(status));
          return;
        }
    }
    AttemptsUsedUp(replies, calls, pauses);
    result := Failed(Exhausted);
  }

  /** The run from attempt `attempt` on, described without recursion: every
      call but the last got a retryable answer and was followed by its pause;
      the last answer decides the result, unless every remaining answer was
      retryable, in which case the run is exhausted. */
  lemma {:induction false} AttemptsFromSpec(replies: Replies, attempt: nat)
    requires 1 <= attempt <= MaxRetries + 1
    decreases MaxRetries + 1 - attempt
    ensures var t := AttemptsFrom(replies, attempt);
      var first := attempt - 1;
      var last := first + t.calls - 1;
      t.calls <= MaxRetries + 1 - attempt
      && (t.result == Failed(Exhausted) <==>
            forall k | first <= k < MaxRetries :: Retryable(replies[k]))
      && (t.result == Failed(Exhausted) ==> t.calls == MaxRetries + 1 - attempt && |t.pauses| == t.calls)
      && (t.result != Failed(Exhausted) ==>
            1 <= t.calls && |t.pauses| == t.calls - 1 && !Retryable(replies[last])
            && (t.result.Decoded? <==> replies[last].Content?)
            && (t.result.Decoded? ==> t.result.bytes == replies[last].bytes)
            && (t.result.Failed? ==> replies[last] == Failure(t.result.error.status)))
      && (forall i | 0 <= i < |t.pauses| ::
            Retryable(replies[first + i]) && t.pauses[i] == PauseAfter(replies[first + i], attempt + i))
  {
    if attempt <= MaxRetries && Retryable(replies[attempt - 1]) {
      AttemptsFromSpec(replies, attempt + 1);
    }
  }

  /** `decode_blob` calls `get_git_blob` between one and three times. It
      returns the first content received, provided every earlier answer was a
      rate limit or a 5xx error; a non-5xx error after such answers is passed
      on unchanged; three retryable answers end in `Exhausted`. Every
      retryable answer on attempt k (from 1) is followed by its pause: a
      quota wait, or a sleep of `2**k` seconds. */
  lemma DecodeSpecProperties(replies: Replies)
    ensures var t := DecodeSpec(replies);
      var last := t.calls - 1;
      1 <= t.calls <= MaxRetries
      && (forall k | 0 <= k < last :: Retryable(replies[k]))
      && (t.result == Failed(Exhausted) <==> forall k | 0 <= k < MaxRetries :: Retryable(replies[k]))
      && (t.result.Decoded? <==> replies[last].Content?)
      && (t.result.Decoded? ==> t.result.bytes == replies[last].bytes)
      && (t.result.Failed? && t.result.error.Raised? ==>
            replies[last] == Failure(t.result.error.status) && !Is5xx(t.result.error.status))
      && |t.pauses| == (if t.result == Failed(Exhausted) then t.calls else t.calls - 1)
      && (forall i | 0 <= i < |t.pauses| :: t.pauses[i] == PauseAfter(replies[i], i + 1))
  {
    AttemptsFromSpec(replies, 1);
    var t := DecodeSpec(replies);
    assert forall k | 0 <= k < t.calls - 1 :: Retryable(replies[k]) by {
      forall k | 0 <= k < t.calls - 1 ensures Retryable(replies[k]) {
        assert k < |t.pauses|;
      }
    }
  }

  /** The backoff sleeps are 2, 4 and 8 seconds: after a 5xx answer on
      attempt k the pause at position k - 1 is a sleep of `2**k`. */
  lemma BackoffDurations(replies: Replies)
    ensures var t := DecodeSpec(replies);
      forall i | 0 <= i < |t.pauses| && t.pauses[i].Sleep? ::
        t.pauses[i].seconds == [2, 4, 8][i] && replies[i].Failure? && Is5xx(replies[i].status)
  {
    DecodeSpecProperties(replies);
    assert Pow2(1) == 2 && Pow2(2) == 4 && Pow2(3) == 8;
  }

  /** A first answer that is content is returned after one call, without
      any pause. */
  lemma FirstSuccessReturnsAtOnce(replies: Replies)
    requires replies[0].Content?
    ensures DecodeSpec(replies) == Trace(Decoded(replies[0].bytes), 1, [])
  {
  }

  /** Three rate-limit answers exhaust the attempts: a rate-limit wait uses
      up an attempt just as a 5xx error does. */
  lemma RateLimitsExhaust()
    ensures DecodeSpec([RateLimited, RateLimited, RateLimited])
         == Trace(Failed(Exhausted), 3, [QuotaWait(Core), QuotaWait(Core), QuotaWait(Core)])
  {
  }
}
