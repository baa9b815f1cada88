/** Opening the streaming chat completion with bounded retries. Each attempt
    calls streamChatCompletion; `attempt(i)` is what the i-th call does. A 401
    ends everything at once; 429, 500 and 503 sleep `delay` seconds and double
    it; any other status retries at once. After five attempts the client gives
    up with an error of its own. */
module Retry {
  import opened Remote

  const MaxAttempts: nat := 5
  const InitialDelaySeconds: nat := 5
  const ApiKeyStatus: int := 401

  /** The statuses after which the client sleeps and doubles its delay. */
  predicate IsBackoffStatus(code: int) {
    code == 429 || code == 500 || code == 503
  }

  /** An attempt that ends the retrying: the stream opened, or the key was rejected. */
  predicate Decisive(o: StreamOutcome) {
    o.Opened? || o.statusCode == ApiKeyStatus
  }

  datatype Attempted = Attempted(result: Result<ChunkStream>, effects: seq<Effect>)

  /** The retrying from attempt `tries` on, with `delaySeconds` the next backoff. */
  function Retrying(attempt: nat -> StreamOutcome, systemPrompt: string, userPrompt: string,
                    tries: nat, delaySeconds: nat): Attempted
    requires tries <= MaxAttempts
    decreases MaxAttempts - tries
  {
    if tries == MaxAttempts then Attempted(Err(RetriesExhausted), [])
    else
      var call := [StreamChatCompletion(systemPrompt, userPrompt)];
      match attempt(tries)
      case Opened(stream) => Attempted(Ok(stream), call)
      case HttpFailure(code) =>
        if code == ApiKeyStatus then Attempted(Err(ApiKeyRejected), call)
        else if IsBackoffStatus(code) then
          var later := Retrying(attempt, systemPrompt, userPrompt, tries + 1, 2 * delaySeconds);
          Attempted(later.result, call + [Sleep(1000 * delaySeconds)] + later.effects)
        else
          var later := Retrying(attempt, systemPrompt, userPrompt, tries + 1, delaySeconds);
          Attempted(later.result, call + later.effects)
  }

  /** The first decisive attempt at or after `from`, or MaxAttempts if none is. */
  function FirstDecisive(attempt: nat -> StreamOutcome, from: nat): (n: nat)
    requires from <= MaxAttempts
    ensures from <= n <= MaxAttempts
    ensures forall j :: from <= j < n ==> !Decisive(attempt(j))
    ensures n < MaxAttempts ==> Decisive(attempt(n))
    decreases MaxAttempts - from
  {
    if from == MaxAttempts || Decisive(attempt(from)) then from else FirstDecisive(attempt, from + 1)
  }

  /** How many of the attempts `from` .. `to` - 1 failed with a backoff status. */
  function BackoffCount(attempt: nat -> StreamOutcome, from: nat, to: nat): nat
    decreases to - from
  {
    if to <= from then 0
    else (if attempt(from).HttpFailure? && IsBackoffStatus(attempt(from).statusCode) then 1 else 0) +
         BackoffCount(attempt, from + 1, to)
  }

  function Pow2(n: nat): nat {
    if n == 0 then 1 else 2 * Pow2(n - 1)
  }

  /** `count` sleeps starting at `delaySeconds`, each twice the one before. */
  function Backoff(delaySeconds: nat, count: nat): (r: seq<Effect>)
    ensures |r| == count
    decreases count
  {
    if count == 0 then [] else [Sleep(1000 * delaySeconds)] + Backoff(2 * delaySeconds, count - 1)
  }

  lemma {:induction false} BackoffDoubles(delaySeconds: nat, count: nat, i: nat)
    requires i < count
    ensures Backoff(delaySeconds, count)[i] == Sleep(1000 * delaySeconds * Pow2(i))
    decreases count
  {
    if i > 0 {
      BackoffDoubles(2 * delaySeconds, count - 1, i - 1);
      assert 1000 * (2 * delaySeconds) * Pow2(i - 1) == 1000 * delaySeconds * (2 * Pow2(i - 1));
    }
  }

  /** The outcome: the stream of the first decisive attempt, the key error if that
      attempt was a 401, and the exhausted error if no attempt was decisive. */
  lemma {:induction false} RetryingResult(attempt: nat -> StreamOutcome, systemPrompt: string, userPrompt: string,
                                          from: nat, delaySeconds: nat)
    requires from <= MaxAttempts
    ensures var n := FirstDecisive(attempt, from);
      Retrying(attempt, systemPrompt, userPrompt, from, delaySeconds).result ==
        if n == MaxAttempts then Err(RetriesExhausted)
        else if attempt(n).Opened? then Ok(attempt(n).stream)
        else Err(ApiKeyRejected)
    decreases MaxAttempts - from
  {
    if from < MaxAttempts && !Decisive(attempt(from)) {
      var next := if IsBackoffStatus(attempt(from).statusCode) then 2 * delaySeconds else delaySeconds;
      RetryingResult(attempt, systemPrompt, userPrompt, from + 1, next);
    }
  }

  /** `e`, `m` times. */
  function Repeat(e: Effect, m: nat): (r: seq<Effect>)
    ensures |r| == m
  {
    if m == 0 then [] else [e] + Repeat(e, m - 1)
  }

  /** The effects of one failed, non-decisive attempt: the call, then the sleep
      when its status asks for backoff. */
  function FailedAttempt(systemPrompt: string, userPrompt: string, code: int, delaySeconds: nat): seq<Effect> {
    [StreamChatCompletion(systemPrompt, userPrompt)] + (if IsBackoffStatus(code) then [Sleep(1000 * delaySeconds)] else [])
  }

  function NextDelay(code: int, delaySeconds: nat): nat {
    if IsBackoffStatus(code) then 2 * delaySeconds else delaySeconds
  }

  lemma RetryingStep(attempt: nat -> StreamOutcome, systemPrompt: string, userPrompt: string,
                     from: nat, delaySeconds: nat)
    requires from < MaxAttempts && !Decisive(attempt(from))
    ensures var code := attempt(from).statusCode;
      var later := Retrying(attempt, systemPrompt, userPrompt, from + 1, NextDelay(code, delaySeconds));
      Retrying(attempt, systemPrompt, userPrompt, from, delaySeconds) ==
        Attempted(later.result, FailedAttempt(systemPrompt, userPrompt, code, delaySeconds) + later.effects)
  {
    var code := attempt(from).statusCode;
    var call := [StreamChatCompletion(systemPrompt, userPrompt)];
    var later := Retrying(attempt, systemPrompt, userPrompt, from + 1, NextDelay(code, delaySeconds));
    assert attempt(from) == HttpFailure(code);
    if IsBackoffStatus(code) {
      assert call + [Sleep(1000 * delaySeconds)] + later.effects ==
        FailedAttempt(systemPrompt, userPrompt, code, delaySeconds) + later.effects;
    } else {
      assert call + [] == call;
    }
  }

  lemma RetryingDecisive(attempt: nat -> StreamOutcome, systemPrompt: string, userPrompt: string,
                         from: nat, delaySeconds: nat)
    requires from < MaxAttempts && Decisive(attempt(from))
    ensures Retrying(attempt, systemPrompt, userPrompt, from, delaySeconds) ==
      Attempted(if attempt(from).Opened? then Ok(attempt(from).stream) else Err(ApiKeyRejected),
                [StreamChatCompletion(systemPrompt, userPrompt)])
  {
  }

  lemma FailedAttemptKept(systemPrompt: string, userPrompt: string, code: int, delaySeconds: nat)
    ensures Kept(FailedAttempt(systemPrompt, userPrompt, code, delaySeconds), IsStreamCall) ==
      [StreamChatCompletion(systemPrompt, userPrompt)]
    ensures Kept(FailedAttempt(systemPrompt, userPrompt, code, delaySeconds), IsSleep) ==
      if IsBackoffStatus(code) then [Sleep(1000 * delaySeconds)] else []
  {
    var es := FailedAttempt(systemPrompt, userPrompt, code, delaySeconds);
    assert es[1..] == if IsBackoffStatus(code) then [Sleep(1000 * delaySeconds)] else [];
    if IsBackoffStatus(code) {
      assert es[1..][1..] == [];
    }
  }

  lemma DecisiveAttemptKept(systemPrompt: string, userPrompt: string)
    ensures Kept([StreamChatCompletion(systemPrompt, userPrompt)], IsStreamCall) ==
      [StreamChatCompletion(systemPrompt, userPrompt)]
    ensures Kept([StreamChatCompletion(systemPrompt, userPrompt)], IsSleep) == []
  {
    assert [StreamChatCompletion(systemPrompt, userPrompt)][1..] == [];
  }

  /** How many attempts are made from attempt `from` on: up to and including
      the first decisive one, and at most up to MaxAttempts. */
  function AttemptsMade(attempt: nat -> StreamOutcome, from: nat): nat
    requires from <= MaxAttempts
  {
    var n := FirstDecisive(attempt, from);
    (if n == MaxAttempts then n else n + 1) - from
  }

  /** One streamChatCompletion call per attempt made. */
  lemma {:induction false} RetryingCalls(attempt: nat -> StreamOutcome, systemPrompt: string, userPrompt: string,
                                         from: nat, delaySeconds: nat)
    requires from <= MaxAttempts
    ensures Kept(Retrying(attempt, systemPrompt, userPrompt, from, delaySeconds).effects, IsStreamCall) ==
      Repeat(StreamChatCompletion(systemPrompt, userPrompt), AttemptsMade(attempt, from))
    decreases MaxAttempts - from
  {
    if from < MaxAttempts {
      if Decisive(attempt(from)) {
        DecisiveAttemptKept(systemPrompt, userPrompt);
        assert Repeat(StreamChatCompletion(systemPrompt, userPrompt), 1) ==
          [StreamChatCompletion(systemPrompt, userPrompt)] + [];
      } else {
        var next := NextDelay(attempt(from).statusCode, delaySeconds);
        RetryingCalls(attempt, systemPrompt, userPrompt, from + 1, next);
        CallsAfterFailure(attempt, systemPrompt, userPrompt, from, delaySeconds);
      }
    }
  }

  lemma CallsAfterFailure(attempt: nat -> StreamOutcome, systemPrompt: string, userPrompt: string,
                          from: nat, delaySeconds: nat)
    requires from < MaxAttempts && !Decisive(attempt(from))
    requires var next := NextDelay(attempt(from).statusCode, delaySeconds);
      Kept(Retrying(attempt, systemPrompt, userPrompt, from + 1, next).effects, IsStreamCall) ==
        Repeat(StreamChatCompletion(systemPrompt, userPrompt), AttemptsMade(attempt, from + 1))
    ensures Kept(Retrying(attempt, systemPrompt, userPrompt, from, delaySeconds).effects, IsStreamCall) ==
      Repeat(StreamChatCompletion(systemPrompt, userPrompt), AttemptsMade(attempt, from))
  {
    var code := attempt(from).statusCode;
    var failed := FailedAttempt(systemPrompt, userPrompt, code, delaySeconds);
    var later := Retrying(attempt, systemPrompt, userPrompt, from + 1, NextDelay(code, delaySeconds)).effects;
    RetryingStep(attempt, systemPrompt, userPrompt, from, delaySeconds);
    FailedAttemptKept(systemPrompt, userPrompt, code, delaySeconds);
    OneMoreCall(failed, later, StreamChatCompletion(systemPrompt, userPrompt), AttemptsMade(attempt, from + 1));
    assert FirstDecisive(attempt, from) == FirstDecisive(attempt, from + 1);
  }

  lemma OneMoreCall(failed: seq<Effect>, later: seq<Effect>, call: Effect, m: nat)
    requires Kept(failed, IsStreamCall) == [call]
    requires Kept(later, IsStreamCall) == Repeat(call, m)
    ensures Kept(failed + later, IsStreamCall) == Repeat(call, m + 1)
  {
    KeptConcat(failed, later, IsStreamCall);
  }

  /** The sleeps: one per backoff-status failure before the first decisive
      attempt (the last attempt's included), 5 s doubling each time. */
  lemma {:induction false} RetryingSleeps(attempt: nat -> StreamOutcome, systemPrompt: string, userPrompt: string,
                                          from: nat, delaySeconds: nat)
    requires from <= MaxAttempts
    ensures Kept(Retrying(attempt, systemPrompt, userPrompt, from, delaySeconds).effects, IsSleep) ==
      Backoff(delaySeconds, BackoffCount(attempt, from, FirstDecisive(attempt, from)))
    decreases MaxAttempts - from
  {
    if from < MaxAttempts {
      if Decisive(attempt(from)) {
        DecisiveAttemptKept(systemPrompt, userPrompt);
      } else {
        var next := NextDelay(attempt(from).statusCode, delaySeconds);
        RetryingSleeps(attempt, systemPrompt, userPrompt, from + 1, next);
        SleepsAfterFailure(attempt, systemPrompt, userPrompt, from, delaySeconds);
      }
    }
  }

  lemma SleepsAfterFailure(attempt: nat -> StreamOutcome, systemPrompt: string, userPrompt: string,
                           from: nat, delaySeconds: nat)
    requires from < MaxAttempts && !Decisive(attempt(from))
    requires var next := NextDelay(attempt(from).statusCode, delaySeconds);
      Kept(Retrying(attempt, systemPrompt, userPrompt, from + 1, next).effects, IsSleep) ==
        Backoff(next, BackoffCount(attempt, from + 1, FirstDecisive(attempt, from + 1)))
    ensures Kept(Retrying(attempt, systemPrompt, userPrompt, from, delaySeconds).effects, IsSleep) ==
      Backoff(delaySeconds, BackoffCount(attempt, from, FirstDecisive(attempt, from)))
  {
    var code := attempt(from).statusCode;
    var failed := FailedAttempt(systemPrompt, userPrompt, code, delaySeconds);
    var later := Retrying(attempt, systemPrompt, userPrompt, from + 1, NextDelay(code, delaySeconds)).effects;
    RetryingStep(attempt, systemPrompt, userPrompt, from, delaySeconds);
    FailedAttemptKept(systemPrompt, userPrompt, code, delaySeconds);
    KeptConcat(failed, later, IsSleep);
    assert FirstDecisive(attempt, from) == FirstDecisive(attempt, from + 1);
  }

  /** The exhausted error comes exactly when all five attempts failed without a
      401, and then never the key error. */
  lemma ExhaustedOnlyAfterFiveNonKeyFailures(attempt: nat -> StreamOutcome, systemPrompt: string, userPrompt: string)
    ensures var r := Retrying(attempt, systemPrompt, userPrompt, 0, InitialDelaySeconds).result;
      (r == Err(RetriesExhausted) <==>
         forall j :: 0 <= j < MaxAttempts ==> attempt(j).HttpFailure? && attempt(j).statusCode != ApiKeyStatus) &&
      (r == Err(ApiKeyRejected) <==>
         exists n :: 0 <= n < MaxAttempts && attempt(n) == HttpFailure(ApiKeyStatus) &&
           forall j :: 0 <= j < n ==> attempt(j).HttpFailure? && attempt(j).statusCode != ApiKeyStatus)
  {
    RetryingResult(attempt, systemPrompt, userPrompt, 0, InitialDelaySeconds);
    var n := FirstDecisive(attempt, 0);
    if n < MaxAttempts {
      assert Decisive(attempt(n));
    }
  }

  /** Two rate-limit failures and then a stream: 5 s and 10 s of sleep, three calls. */
  lemma TwoRateLimitsThenStream(attempt: nat -> StreamOutcome, systemPrompt: string, userPrompt: string,
                                stream: ChunkStream)
    requires attempt(0) == HttpFailure(429) && attempt(1) == HttpFailure(429) && attempt(2) == Opened(stream)
    ensures var call := StreamChatCompletion(systemPrompt, userPrompt);
      Retrying(attempt, systemPrompt, userPrompt, 0, InitialDelaySeconds) ==
        Attempted(Ok(stream), [call, Sleep(5000), call, Sleep(10000), call])
  {
  }

  /** A 401 on the first attempt: no sleep and no second attempt. */
  lemma KeyRejectedAtOnce(attempt: nat -> StreamOutcome, systemPrompt: string, userPrompt: string)
    requires attempt(0) == HttpFailure(ApiKeyStatus)
    ensures Retrying(attempt, systemPrompt, userPrompt, 0, InitialDelaySeconds) ==
      Attempted(Err(ApiKeyRejected), [StreamChatCompletion(systemPrompt, userPrompt)])
  {
  }
}
