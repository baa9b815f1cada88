/** The client object. Its one piece of state is the id of the conversation's
    thread: created by the first question of assistant mode, reused by the
    following ones, and dropped when the conversation is reset. Every remote
    call it makes, and every sleep, is returned as an effect; what the remote
    answers comes in as parameters. */
module Client {
  import opened Remote
  import opened Polling
  import opened Assistant
  import Messages
  import Retry

  /** What is left of the run after the wait that follows the tool output. */
  lemma SecondWaitEnds(threadId: string, runId: string, rest: seq<RunState>, listing: seq<Message>,
                       completed: bool, done: bool, used: nat, secondWait: seq<Effect>)
    requires completed ==> done && used == 0
    requires !completed ==>
      var k := WaitIndex(rest, IsCompletedRun);
      done == (k < |rest|) && used == (if k < |rest| then k + 1 else |rest|)
    requires secondWait == PollTrace(threadId, runId, SecondWaitMillis, used)
    ensures var remaining := if completed then Answered(threadId, listing) else AfterToolOutput(threadId, runId, rest, listing);
      if done then remaining == After(secondWait, Answered(threadId, listing))
      else remaining == RunOutcome(Err(Unresolved), secondWait)
  {
    if completed {
      assert secondWait == [];
      assert [] + Answered(threadId, listing).effects == Answered(threadId, listing).effects;
    }
  }

  class OpenAIClient {
    const assistantId: string
    var threadId: Option<string>

    constructor(assistantId: string)
      ensures this.assistantId == assistantId && threadId == None
    {
      this.assistantId := assistantId;
      threadId := None;
    }

    /** Assistant mode: one question in the session's thread, answered by the
        newest message once the run is completed. */
    method Ask(question: string, created: string, runId: string, polls: seq<RunState>,
               dispatch: (string, string) -> Option<string>, listing: seq<Message>)
      returns (answer: Result<string>, effects: seq<Effect>)
      modifies this
      ensures Exchange(threadId, answer, effects) ==
        Converse(old(threadId), assistantId, question, created, runId, polls, dispatch, listing)
    {
      if threadId.None? {
        effects := [CreateThread(question)];
        threadId := Some(created);
      } else {
        effects := [CreateMessage(threadId.value, question)];
      }
      effects := effects + [CreateRun(threadId.value, assistantId)];
      var runEffects;
      answer, runEffects := AwaitAnswer(threadId.value, runId, polls, dispatch, listing);
      effects := effects + runEffects;
    }

    /** Everything after the run is created: the first wait, the tool output
        for the run's first tool call, the second wait, and the answer. */
    method AwaitAnswer(threadId: string, runId: string, polls: seq<RunState>,
                       dispatch: (string, string) -> Option<string>, listing: seq<Message>)
      returns (answer: Result<string>, effects: seq<Effect>)
      ensures RunOutcome(answer, effects) == RunToAnswer(threadId, runId, polls, dispatch, listing)
    {
      var completed, actionRequired, used;
      completed, actionRequired, used, effects := AwaitActionOrCompletion(threadId, runId, polls);
      if !completed && !actionRequired {
        return Err(Unresolved), effects;
      }
      var run := polls[used - 1];
      var rest := polls[used..];
      // what is left of the run once `effects` have happened
      ghost var remaining := AfterFirstWait(threadId, runId, run, rest, dispatch, listing);
      assert RunToAnswer(threadId, runId, polls, dispatch, listing) == After(effects, remaining);
      if actionRequired {
        var output := ToolOutputFor(run.requiredAction.value, dispatch);
        if output.Err? {
          return Err(output.error), effects;
        }
        var submit := [SubmitToolOutputs(threadId, runId, [output.value])];
        assert remaining == After(submit, if completed then Answered(threadId, listing)
                                          else AfterToolOutput(threadId, runId, rest, listing));
        remaining := if completed then Answered(threadId, listing) else AfterToolOutput(threadId, runId, rest, listing);
        AfterAfter(effects, submit, remaining);
        effects := effects + submit;
        assert RunToAnswer(threadId, runId, polls, dispatch, listing) == After(effects, remaining);
        var done, usedAfter, secondWait := AwaitCompletion(threadId, runId, completed, rest);
        SecondWaitEnds(threadId, runId, rest, listing, completed, done, usedAfter, secondWait);
        if !done {
          return Err(Unresolved), effects + secondWait;
        }
        AfterAfter(effects, secondWait, Answered(threadId, listing));
        effects := effects + secondWait;
        remaining := Answered(threadId, listing);
      }
      effects := effects + [ListMessages(threadId)];
      answer := Messages.LatestAnswer(listing);
    }

    /** Chat mode: open the streaming completion, retrying as the status of
        each failure dictates. */
    method OpenChatStream(systemPrompt: string, userPrompt: string, attempt: nat -> StreamOutcome)
      returns (stream: Result<ChunkStream>, effects: seq<Effect>)
      ensures Retry.Attempted(stream, effects) ==
        Retry.Retrying(attempt, systemPrompt, userPrompt, 0, Retry.InitialDelaySeconds)
    {
      var delaySeconds := Retry.InitialDelaySeconds;
      var tries := 0;
      effects := [];
      while tries != Retry.MaxAttempts
        invariant tries <= Retry.MaxAttempts
        invariant var later := Retry.Retrying(attempt, systemPrompt, userPrompt, tries, delaySeconds);
          Retry.Retrying(attempt, systemPrompt, userPrompt, 0, Retry.InitialDelaySeconds) ==
            Retry.Attempted(later.result, effects + later.effects)
        decreases Retry.MaxAttempts - tries
      {
        var outcome := attempt(tries);
        var call := [StreamChatCompletion(systemPrompt, userPrompt)];
        match outcome
        case Opened(s) =>
          Retry.RetryingDecisive(attempt, systemPrompt, userPrompt, tries, delaySeconds);
          return Ok(s), effects + call;
        case HttpFailure(code) =>
          if code == Retry.ApiKeyStatus {
            Retry.RetryingDecisive(attempt, systemPrompt, userPrompt, tries, delaySeconds);
            return Err(ApiKeyRejected), effects + call;
          }
          Retry.RetryingStep(attempt, systemPrompt, userPrompt, tries, delaySeconds);
          ghost var failed := Retry.FailedAttempt(systemPrompt, userPrompt, code, delaySeconds);
          ghost var next := Retry.NextDelay(code, delaySeconds);
          ghost var later := Retry.Retrying(attempt, systemPrompt, userPrompt, tries + 1, next);
          assert effects + (failed + later.effects) == (effects + failed) + later.effects;
          ghost var before := effects;
          effects := effects + call;
          if Retry.IsBackoffStatus(code) {
            effects := effects + [Sleep(1000 * delaySeconds)];
            delaySeconds := 2 * delaySeconds;
          }
          assert effects == before + failed && delaySeconds == next;
          tries := tries + 1;
      }
      stream := Err(RetriesExhausted);
    }

    /** The texts of the session's thread, oldest first; nothing and no call
        when there is no thread yet. */
    method LoadHistory(listing: seq<Message>) returns (history: Result<seq<string>>, effects: seq<Effect>)
      ensures threadId.None? ==> history == Ok([]) && effects == []
      ensures threadId.Some? ==> history == Messages.History(listing) && effects == [ListMessages(threadId.value)]
    {
      if threadId.None? {
        return Ok([]), [];
      }
      effects := [ListMessages(threadId.value)];
      history := Messages.History(listing);
    }

    /** Reset the conversation: delete the thread, if there is one, and forget it. */
    method DeleteThread() returns (effects: seq<Effect>)
      modifies this
      ensures threadId == None
      ensures effects == if old(threadId).Some? then [Effect.DeleteThread(old(threadId).value)] else []
    {
      effects := [];
      if threadId.Some? {
        effects := [Effect.DeleteThread(threadId.value)];
        threadId := None;
      }
    }
  }
}
