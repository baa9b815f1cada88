/** One question in assistant mode, as a function of what the remote answers:
    the message goes to the session's thread (created on the first question),
    a run is started, the client waits for it, services at most one tool call,
    waits again, and reads the answer from the newest message. */
module Assistant {
  import opened Remote
  import opened Polling
  import Messages

  /** The output for the run's first tool call: the call's id with what the
      dispatcher returned for its name and arguments. Further tool calls are
      not serviced. */
  function ToolOutputFor(action: RequiredAction, dispatch: (string, string) -> Option<string>): Result<ToolOutput> {
    if |action.toolCalls| == 0 then Err(MissingToolCall)
    else
      var call := action.toolCalls[0];
      match dispatch(call.name, call.arguments)
      case None => Err(ToolFailed)
      case Some(text) => Ok(ToolOutput(call.id, text))
  }

  /** Only the first tool call matters: the calls after it change nothing. */
  lemma ToolOutputIgnoresLaterCalls(call: ToolCall, more: seq<ToolCall>, dispatch: (string, string) -> Option<string>)
    ensures ToolOutputFor(RequiredAction([call] + more), dispatch) == ToolOutputFor(RequiredAction([call]), dispatch)
  {
    assert ([call] + more)[0] == call;
  }

  /** The poll `run` that ended the first wait needs no tool, or the dispatcher
      serves the first tool call it requires. */
  predicate Served(run: RunState, dispatch: (string, string) -> Option<string>) {
    run.requiredAction.Some? ==> ToolOutputFor(run.requiredAction.value, dispatch).Ok?
  }

  /** Whether the first wait over `polls` ends on a poll that is `Served`. */
  predicate ServesFirstStop(polls: seq<RunState>, dispatch: (string, string) -> Option<string>) {
    var k := WaitIndex(polls, StopsFirstWait);
    k < |polls| ==> Served(polls[k], dispatch)
  }

  datatype RunOutcome = RunOutcome(answer: Result<string>, effects: seq<Effect>)

  /** `o` preceded by the effects `es`. */
  function After(es: seq<Effect>, o: RunOutcome): RunOutcome {
    RunOutcome(o.answer, es + o.effects)
  }

  /** Reading the answer once the run is completed. */
  function Answered(threadId: string, listing: seq<Message>): RunOutcome {
    RunOutcome(Messages.LatestAnswer(listing), [ListMessages(threadId)])
  }

  /** The wait after the tool output, over the polls left, then the answer. */
  function AfterToolOutput(threadId: string, runId: string, rest: seq<RunState>, listing: seq<Message>): RunOutcome {
    var m := WaitIndex(rest, IsCompletedRun);
    if m == |rest| then RunOutcome(Err(Unresolved), PollTrace(threadId, runId, SecondWaitMillis, |rest|))
    else After(PollTrace(threadId, runId, SecondWaitMillis, m + 1), Answered(threadId, listing))
  }

  /** What follows the poll `run` that ended the first wait; `rest` are the polls left. */
  function AfterFirstWait(threadId: string, runId: string, run: RunState, rest: seq<RunState>,
                          dispatch: (string, string) -> Option<string>, listing: seq<Message>): RunOutcome
  {
    match run.requiredAction
    case None => Answered(threadId, listing)
    case Some(action) =>
      match ToolOutputFor(action, dispatch)
      case Err(e) => RunOutcome(Err(e), [])
      case Ok(output) =>
        After([SubmitToolOutputs(threadId, runId, [output])],
              if IsCompleted(run.status) then Answered(threadId, listing)
              else AfterToolOutput(threadId, runId, rest, listing))
  }

  /** Everything after the run is created: both waits, the tool output and the answer.
      `polls` answers the retrievals in order; `listing` answers listMessages. */
  function RunToAnswer(threadId: string, runId: string, polls: seq<RunState>,
                       dispatch: (string, string) -> Option<string>, listing: seq<Message>): RunOutcome
  {
    var k := WaitIndex(polls, StopsFirstWait);
    if k == |polls| then RunOutcome(Err(Unresolved), PollTrace(threadId, runId, FirstWaitMillis, |polls|))
    else After(PollTrace(threadId, runId, FirstWaitMillis, k + 1),
               AfterFirstWait(threadId, runId, polls[k], polls[k + 1..], dispatch, listing))
  }

  datatype Exchange = Exchange(session: Option<string>, answer: Result<string>, effects: seq<Effect>)

  /** The thread a question goes to: the session's, or the one created for it. */
  function ThreadFor(session: Option<string>, created: string): string {
    if session.Some? then session.value else created
  }

  /** The effects before the run is polled: seed a new thread with the question or
      append it to the session's thread, then create a run of the assistant. */
  function Opening(session: Option<string>, assistantId: string, question: string, created: string): seq<Effect> {
    var threadId := ThreadFor(session, created);
    (if session.Some? then [CreateMessage(threadId, question)] else [CreateThread(question)]) +
    [CreateRun(threadId, assistantId)]
  }

  /** One question asked with the session `session`; `created` is the id the
      remote gives a new thread and `runId` the id of the new run. */
  function Converse(session: Option<string>, assistantId: string, question: string, created: string, runId: string,
                    polls: seq<RunState>, dispatch: (string, string) -> Option<string>, listing: seq<Message>): Exchange
  {
    var threadId := ThreadFor(session, created);
    var run := RunToAnswer(threadId, runId, polls, dispatch, listing);
    Exchange(Some(threadId), run.answer, Opening(session, assistantId, question, created) + run.effects)
  }

  lemma AfterAfter(a: seq<Effect>, b: seq<Effect>, o: RunOutcome)
    ensures After(a, After(b, o)) == After(a + b, o)
  {
    assert a + (b + o.effects) == (a + b) + o.effects;
  }

  lemma KeptAfter(es: seq<Effect>, o: RunOutcome, keep: Effect -> bool)
    ensures Kept(After(es, o).effects, keep) == Kept(es, keep) + Kept(o.effects, keep)
  {
    KeptConcat(es, o.effects, keep);
  }

  lemma KeptSingle(e: Effect, keep: Effect -> bool)
    ensures Kept([e], keep) == if keep(e) then [e] else []
  {
    assert [e][1..] == [];
  }

  lemma OpeningCreatesThread(session: Option<string>, assistantId: string, question: string, created: string)
    ensures |Kept(Opening(session, assistantId, question, created), IsThreadCreation)| == (if session.None? then 1 else 0)
  {
    var o := Opening(session, assistantId, question, created);
    assert o[1..][1..] == [];
  }

  /** A call the client makes about the run `runId` of thread `threadId`, or a sleep. */
  predicate IsRunCall(threadId: string, runId: string, e: Effect) {
    e.Sleep? || e == RetrieveRun(threadId, runId) || e == ListMessages(threadId) ||
    (e.SubmitToolOutputs? && e.threadId == threadId && e.runId == runId)
  }

  lemma PollTraceRunCalls(threadId: string, runId: string, millis: nat, n: nat)
    ensures forall e :: e in PollTrace(threadId, runId, millis, n) ==> IsRunCall(threadId, runId, e)
  {
    PollTraceOnlyPolls(threadId, runId, millis, n);
  }

  lemma AfterToolOutputRunCalls(threadId: string, runId: string, rest: seq<RunState>, listing: seq<Message>)
    ensures forall e :: e in AfterToolOutput(threadId, runId, rest, listing).effects ==> IsRunCall(threadId, runId, e)
  {
    PollTraceRunCalls(threadId, runId, SecondWaitMillis, |rest|);
    PollTraceRunCalls(threadId, runId, SecondWaitMillis, WaitIndex(rest, IsCompletedRun) + 1);
  }

  lemma AfterFirstWaitRunCalls(threadId: string, runId: string, run: RunState, rest: seq<RunState>,
                               dispatch: (string, string) -> Option<string>, listing: seq<Message>)
    ensures forall e :: e in AfterFirstWait(threadId, runId, run, rest, dispatch, listing).effects ==>
      IsRunCall(threadId, runId, e)
  {
    AfterToolOutputRunCalls(threadId, runId, rest, listing);
  }

  /** After the opening, every effect is about the run's thread: waits, the tool
      output, and the listing. */
  lemma RunEffectsAreRunCalls(threadId: string, runId: string, polls: seq<RunState>,
                              dispatch: (string, string) -> Option<string>, listing: seq<Message>)
    ensures forall e :: e in RunToAnswer(threadId, runId, polls, dispatch, listing).effects ==>
      IsRunCall(threadId, runId, e)
  {
    var k := WaitIndex(polls, StopsFirstWait);
    if k == |polls| {
      PollTraceRunCalls(threadId, runId, FirstWaitMillis, |polls|);
    } else {
      PollTraceRunCalls(threadId, runId, FirstWaitMillis, k + 1);
      AfterFirstWaitRunCalls(threadId, runId, polls[k], polls[k + 1..], dispatch, listing);
    }
  }

  lemma RunCreatesNoThread(threadId: string, runId: string, polls: seq<RunState>,
                           dispatch: (string, string) -> Option<string>, listing: seq<Message>)
    ensures Kept(RunToAnswer(threadId, runId, polls, dispatch, listing).effects, IsThreadCreation) == []
  {
    var es := RunToAnswer(threadId, runId, polls, dispatch, listing).effects;
    RunEffectsAreRunCalls(threadId, runId, polls, dispatch, listing);
    forall i | 0 <= i < |es| ensures !IsThreadCreation(es[i]) {
      assert es[i] in es;
    }
    KeptNone(es, IsThreadCreation);
  }

  /** Session state machine: with no thread, a new one is created seeded with the
      question and its id kept; otherwise the question is appended to the thread
      and the id is left as it was. Either way a run of the assistant follows. */
  lemma ConverseKeepsOrCreatesThread(session: Option<string>, assistantId: string, question: string, created: string,
                                     runId: string, polls: seq<RunState>,
                                     dispatch: (string, string) -> Option<string>, listing: seq<Message>)
    ensures var c := Converse(session, assistantId, question, created, runId, polls, dispatch, listing);
      var threadId := if session.Some? then session.value else created;
      c.session == Some(threadId) &&
      (session.Some? ==> c.session == session) &&
      |c.effects| >= 2 &&
      c.effects[0] == (if session.Some? then CreateMessage(threadId, question) else CreateThread(question)) &&
      c.effects[1] == CreateRun(threadId, assistantId) &&
      |Kept(c.effects, IsThreadCreation)| == (if session.None? then 1 else 0)
  {
    var threadId := ThreadFor(session, created);
    var run := RunToAnswer(threadId, runId, polls, dispatch, listing);
    OpeningCreatesThread(session, assistantId, question, created);
    RunCreatesNoThread(threadId, runId, polls, dispatch, listing);
    KeptConcat(Opening(session, assistantId, question, created), run.effects, IsThreadCreation);
  }

  lemma AfterToolOutputSubmitsNothing(threadId: string, runId: string, rest: seq<RunState>, listing: seq<Message>)
    ensures Kept(AfterToolOutput(threadId, runId, rest, listing).effects, IsSubmission) == []
  {
    var m := WaitIndex(rest, IsCompletedRun);
    var n := if m == |rest| then |rest| else m + 1;
    PollTraceKeepsNothing(threadId, runId, SecondWaitMillis, n, IsSubmission);
    KeptSingle(ListMessages(threadId), IsSubmission);
    KeptAfter(PollTrace(threadId, runId, SecondWaitMillis, n), Answered(threadId, listing), IsSubmission);
  }

  /** The tool output submitted for the poll `run` that ended the first wait. */
  function Submitted(threadId: string, runId: string, run: RunState,
                     dispatch: (string, string) -> Option<string>): seq<Effect>
  {
    match run.requiredAction
    case None => []
    case Some(action) =>
      match ToolOutputFor(action, dispatch)
      case Ok(output) => [SubmitToolOutputs(threadId, runId, [output])]
      case Err(_) => []
  }

  lemma AfterFirstWaitSubmits(threadId: string, runId: string, run: RunState, rest: seq<RunState>,
                              dispatch: (string, string) -> Option<string>, listing: seq<Message>)
    ensures Kept(AfterFirstWait(threadId, runId, run, rest, dispatch, listing).effects, IsSubmission) ==
      Submitted(threadId, runId, run, dispatch)
  {
    KeptSingle(ListMessages(threadId), IsSubmission);
    match run.requiredAction
    case None =>
    case Some(action) =>
      match ToolOutputFor(action, dispatch)
      case Err(e) =>
      case Ok(output) =>
        var submit := SubmitToolOutputs(threadId, runId, [output]);
        KeptSingle(submit, IsSubmission);
        AfterToolOutputSubmitsNothing(threadId, runId, rest, listing);
        var next := if IsCompleted(run.status) then Answered(threadId, listing)
                    else AfterToolOutput(threadId, runId, rest, listing);
        KeptAfter([submit], next, IsSubmission);
  }

  /** Exactly one tool output is submitted when the first wait ends on a run that
      requires an action whose first tool call the dispatcher serves, and none
      otherwise; it carries that call's id and the dispatcher's result. */
  lemma RunSubmitsFirstToolCallOnly(threadId: string, runId: string, polls: seq<RunState>,
                                    dispatch: (string, string) -> Option<string>, listing: seq<Message>)
    ensures var k := WaitIndex(polls, StopsFirstWait);
      Kept(RunToAnswer(threadId, runId, polls, dispatch, listing).effects, IsSubmission) ==
        if k < |polls| && polls[k].requiredAction.Some? && |polls[k].requiredAction.value.toolCalls| > 0 &&
           dispatch(polls[k].requiredAction.value.toolCalls[0].name,
                    polls[k].requiredAction.value.toolCalls[0].arguments).Some?
        then
          var call := polls[k].requiredAction.value.toolCalls[0];
          [SubmitToolOutputs(threadId, runId, [ToolOutput(call.id, dispatch(call.name, call.arguments).value)])]
        else []
  {
    var k := WaitIndex(polls, StopsFirstWait);
    if k == |polls| {
      PollTraceKeepsNothing(threadId, runId, FirstWaitMillis, |polls|, IsSubmission);
    } else {
      PollTraceKeepsNothing(threadId, runId, FirstWaitMillis, k + 1, IsSubmission);
      AfterFirstWaitSubmits(threadId, runId, polls[k], polls[k + 1..], dispatch, listing);
      KeptAfter(PollTrace(threadId, runId, FirstWaitMillis, k + 1),
                AfterFirstWait(threadId, runId, polls[k], polls[k + 1..], dispatch, listing), IsSubmission);
    }
  }

  /** The number of polls a run outcome consumed. */
  function Polls(o: RunOutcome): nat {
    |Kept(o.effects, IsRetrieval)|
  }

  /** The `n`-th poll is the first one of `polls` that reports the run completed. */
  ghost predicate FirstCompletedAt(polls: seq<RunState>, n: nat) {
    1 <= n <= |polls| && IsCompleted(polls[n - 1].status) &&
    forall j :: 0 <= j < n - 1 ==> !IsCompleted(polls[j].status)
  }

  /** No poll of `polls` reports the run completed. */
  ghost predicate NoneCompleted(polls: seq<RunState>) {
    forall j :: 0 <= j < |polls| ==> !IsCompleted(polls[j].status)
  }

  /** What a run outcome promises about the polls `polls` it was given: the answer
      is read only at the first completed poll, and given up as unresolved only
      when no poll is completed; and, when the tool step (if any) was `served`,
      a completed run does get its messages listed, once, and the answer read
      from them. `done` says the run was completed before the polls. */
  ghost predicate ReadsAnswerAtCompletion(o: RunOutcome, threadId: string, polls: seq<RunState>, done: bool,
                                          served: bool, listing: seq<Message>) {
    (Kept(o.effects, IsListing) != [] ==>
       o.answer == Messages.LatestAnswer(listing) &&
       |o.effects| > 0 && o.effects[|o.effects| - 1].ListMessages? &&
       (if done then Polls(o) == 0 else FirstCompletedAt(polls, Polls(o)))) &&
    (o.answer == Err(Unresolved) ==> !done && NoneCompleted(polls)) &&
    (!done && NoneCompleted(polls) ==>
       o.answer.Err? && Kept(o.effects, IsListing) == []) &&
    (served && (done || !NoneCompleted(polls)) ==>
       Kept(o.effects, IsListing) == [ListMessages(threadId)] && o.answer == Messages.LatestAnswer(listing))
  }

  lemma AnsweredReadsAnswer(threadId: string, listing: seq<Message>, polls: seq<RunState>, served: bool)
    ensures ReadsAnswerAtCompletion(Answered(threadId, listing), threadId, polls, true, served, listing)
  {
    KeptSingle(ListMessages(threadId), IsRetrieval);
    KeptSingle(ListMessages(threadId), IsListing);
  }

  lemma AfterToolOutputReadsAnswer(threadId: string, runId: string, rest: seq<RunState>, listing: seq<Message>)
    ensures ReadsAnswerAtCompletion(AfterToolOutput(threadId, runId, rest, listing), threadId, rest, false, true, listing)
  {
    var m := WaitIndex(rest, IsCompletedRun);
    if m == |rest| {
      assert NoneCompleted(rest);
      PollTraceKeepsNothing(threadId, runId, SecondWaitMillis, |rest|, IsListing);
    } else {
      var waited := PollTrace(threadId, runId, SecondWaitMillis, m + 1);
      assert FirstCompletedAt(rest, m + 1);
      PollTraceRetrievals(threadId, runId, SecondWaitMillis, m + 1);
      PollTraceKeepsNothing(threadId, runId, SecondWaitMillis, m + 1, IsListing);
      WaitThenAnswer(waited, threadId, rest, m + 1, listing);
    }
  }

  /** A wait of `n` polls, the `n`-th being the first completed one, then the answer. */
  lemma WaitThenAnswer(waited: seq<Effect>, threadId: string, polls: seq<RunState>, n: nat, listing: seq<Message>)
    requires FirstCompletedAt(polls, n)
    requires |Kept(waited, IsRetrieval)| == n && Kept(waited, IsListing) == []
    ensures ReadsAnswerAtCompletion(After(waited, Answered(threadId, listing)), threadId, polls, false, true, listing)
  {
    var o := After(waited, Answered(threadId, listing));
    KeptSingle(ListMessages(threadId), IsRetrieval);
    KeptSingle(ListMessages(threadId), IsListing);
    KeptAfter(waited, Answered(threadId, listing), IsRetrieval);
    KeptAfter(waited, Answered(threadId, listing), IsListing);
    assert o.effects == waited + [ListMessages(threadId)];
    ListedAt(o, threadId, polls, n, listing);
  }

  /** An outcome that lists the messages once, as its last call, after the `n`-th
      poll, the first completed one, and answers from that listing. */
  lemma ListedAt(o: RunOutcome, threadId: string, polls: seq<RunState>, n: nat, listing: seq<Message>)
    requires FirstCompletedAt(polls, n) && Polls(o) == n
    requires Kept(o.effects, IsListing) == [ListMessages(threadId)]
    requires |o.effects| > 0 && o.effects[|o.effects| - 1] == ListMessages(threadId)
    requires o.answer == Messages.LatestAnswer(listing)
    ensures ReadsAnswerAtCompletion(o, threadId, polls, false, true, listing)
  {
    assert IsCompleted(polls[n - 1].status);
  }

  lemma AfterFirstWaitReadsAnswer(threadId: string, runId: string, run: RunState, rest: seq<RunState>,
                                  dispatch: (string, string) -> Option<string>, listing: seq<Message>)
    requires StopsFirstWait(run)
    ensures ReadsAnswerAtCompletion(AfterFirstWait(threadId, runId, run, rest, dispatch, listing),
                                    threadId, rest, IsCompleted(run.status), Served(run, dispatch), listing)
    ensures !Served(run, dispatch) ==>
      AfterFirstWait(threadId, runId, run, rest, dispatch, listing) ==
        RunOutcome(Err(if |run.requiredAction.value.toolCalls| == 0 then MissingToolCall else ToolFailed), [])
  {
    var done := IsCompleted(run.status);
    match run.requiredAction
    case None =>
      AnsweredReadsAnswer(threadId, listing, rest, true);
    case Some(action) =>
      ToolOutputErrors(action, dispatch);
      match ToolOutputFor(action, dispatch)
      case Err(e) =>
        ToolFailureReadsNothing(threadId, rest, done, listing, e);
      case Ok(output) =>
        var submit := SubmitToolOutputs(threadId, runId, [output]);
        var next := if done then Answered(threadId, listing) else AfterToolOutput(threadId, runId, rest, listing);
        if done {
          AnsweredReadsAnswer(threadId, listing, rest, true);
        } else {
          AfterToolOutputReadsAnswer(threadId, runId, rest, listing);
        }
        KeptSingle(submit, IsRetrieval);
        KeptSingle(submit, IsListing);
        AfterQuietCalls([submit], next, threadId, rest, done, true, listing);
  }

  /** The two ways a tool output cannot be made: no tool call, or the dispatcher fails. */
  lemma ToolOutputErrors(action: RequiredAction, dispatch: (string, string) -> Option<string>)
    ensures ToolOutputFor(action, dispatch).Err? <==>
      |action.toolCalls| == 0 || dispatch(action.toolCalls[0].name, action.toolCalls[0].arguments).None?
    ensures ToolOutputFor(action, dispatch).Err? ==>
      ToolOutputFor(action, dispatch).error == if |action.toolCalls| == 0 then MissingToolCall else ToolFailed
  {
  }

  /** A tool step that fails ends the run with its error and no listing. */
  lemma ToolFailureReadsNothing(threadId: string, polls: seq<RunState>, done: bool, listing: seq<Message>, e: Error)
    requires e != Unresolved
    ensures ReadsAnswerAtCompletion(RunOutcome(Err(e), []), threadId, polls, done, false, listing)
  {
  }

  /** Calls that neither retrieve the run nor list messages do not change what a
      run outcome promises. */
  lemma AfterQuietCalls(es: seq<Effect>, next: RunOutcome, threadId: string, polls: seq<RunState>, done: bool,
                        served: bool, listing: seq<Message>)
    requires Kept(es, IsRetrieval) == [] && Kept(es, IsListing) == []
    requires ReadsAnswerAtCompletion(next, threadId, polls, done, served, listing)
    ensures ReadsAnswerAtCompletion(After(es, next), threadId, polls, done, served, listing)
  {
    KeptAfter(es, next, IsRetrieval);
    KeptAfter(es, next, IsListing);
  }

  /** The messages are listed, and the answer read, only once a poll reported the
      run completed, and then at the first such poll; the run is given up as
      unresolved only when no poll of the trace is completed, and if none is, no
      answer is read. Conversely, when some poll is completed and the tool step
      (if any) is served, the messages are listed once and the answer is read. */
  lemma RunAnswersAtFirstCompletedPoll(threadId: string, runId: string, polls: seq<RunState>,
                                       dispatch: (string, string) -> Option<string>, listing: seq<Message>)
    ensures ReadsAnswerAtCompletion(RunToAnswer(threadId, runId, polls, dispatch, listing), threadId, polls, false,
                                    ServesFirstStop(polls, dispatch), listing)
  {
    var k := WaitIndex(polls, StopsFirstWait);
    if k == |polls| {
      PollTraceKeepsNothing(threadId, runId, FirstWaitMillis, |polls|, IsListing);
    } else {
      var run := polls[k];
      var rest := polls[k + 1..];
      var waited := PollTrace(threadId, runId, FirstWaitMillis, k + 1);
      AfterFirstWaitReadsAnswer(threadId, runId, run, rest, dispatch, listing);
      PollTraceRetrievals(threadId, runId, FirstWaitMillis, k + 1);
      PollTraceKeepsNothing(threadId, runId, FirstWaitMillis, k + 1, IsListing);
      FirstWaitThenRest(waited, AfterFirstWait(threadId, runId, run, rest, dispatch, listing), threadId, polls, k, rest,
                        Served(run, dispatch), listing);
    }
  }

  /** When the first wait ends on a poll whose required action cannot be served,
      that failure is the answer: `MissingToolCall` when the action names no
      tool call, `ToolFailed` when the dispatcher fails. Nothing is submitted
      and the messages are not listed. */
  lemma RunStopsOnToolFailure(threadId: string, runId: string, polls: seq<RunState>,
                              dispatch: (string, string) -> Option<string>, listing: seq<Message>)
    ensures var k := WaitIndex(polls, StopsFirstWait);
      var o := RunToAnswer(threadId, runId, polls, dispatch, listing);
      k < |polls| && !Served(polls[k], dispatch) ==>
        o.answer == Err(if |polls[k].requiredAction.value.toolCalls| == 0 then MissingToolCall else ToolFailed) &&
        Kept(o.effects, IsListing) == [] && Kept(o.effects, IsSubmission) == []
  {
    var k := WaitIndex(polls, StopsFirstWait);
    if k < |polls| && !Served(polls[k], dispatch) {
      var waited := PollTrace(threadId, runId, FirstWaitMillis, k + 1);
      ToolOutputErrors(polls[k].requiredAction.value, dispatch);
      PollTraceKeepsNothing(threadId, runId, FirstWaitMillis, k + 1, IsListing);
      PollTraceKeepsNothing(threadId, runId, FirstWaitMillis, k + 1, IsSubmission);
      assert waited + [] == waited;
    }
  }

  /** Joins the first wait, which stopped at poll `k`, to what followed it. */
  lemma FirstWaitThenRest(waited: seq<Effect>, next: RunOutcome, threadId: string, polls: seq<RunState>, k: nat,
                          rest: seq<RunState>, served: bool, listing: seq<Message>)
    requires k < |polls| && rest == polls[k + 1..]
    requires forall j :: 0 <= j < k ==> !IsCompleted(polls[j].status)
    requires |Kept(waited, IsRetrieval)| == k + 1 && Kept(waited, IsListing) == []
    requires ReadsAnswerAtCompletion(next, threadId, rest, IsCompleted(polls[k].status), served, listing)
    ensures ReadsAnswerAtCompletion(After(waited, next), threadId, polls, false, served, listing)
  {
    KeptAfter(waited, next, IsRetrieval);
    KeptAfter(waited, next, IsListing);
    var done := IsCompleted(polls[k].status);
    if done {
      assert FirstCompletedAt(polls, k + 1);
    }
    if !done && FirstCompletedAt(rest, Polls(next)) {
      ShiftFirstCompleted(polls, k, rest, Polls(next));
    }
    if !done && NoneCompleted(rest) {
      ShiftNoneCompleted(polls, k, rest);
    }
    if NoneCompleted(polls) {
      RestNoneCompleted(polls, k, rest);
    }
  }

  /** The first wait stopped at poll `k`; the first completed poll among the rest
      is the first completed poll of the whole trace, shifted by k + 1. */
  lemma ShiftFirstCompleted(polls: seq<RunState>, k: nat, rest: seq<RunState>, n: nat)
    requires k < |polls| && !IsCompleted(polls[k].status)
    requires forall j :: 0 <= j < k ==> !IsCompleted(polls[j].status)
    requires rest == polls[k + 1..] && FirstCompletedAt(rest, n)
    ensures FirstCompletedAt(polls, k + 1 + n)
  {
    assert polls[k + n] == rest[n - 1];
    forall j | 0 <= j < k + n ensures !IsCompleted(polls[j].status) {
      if j > k {
        assert polls[j] == rest[j - k - 1];
      }
    }
  }

  lemma ShiftNoneCompleted(polls: seq<RunState>, k: nat, rest: seq<RunState>)
    requires k < |polls| && !IsCompleted(polls[k].status)
    requires forall j :: 0 <= j < k ==> !IsCompleted(polls[j].status)
    requires rest == polls[k + 1..] && NoneCompleted(rest)
    ensures NoneCompleted(polls)
  {
    forall j | 0 <= j < |polls| ensures !IsCompleted(polls[j].status) {
      if j > k {
        assert polls[j] == rest[j - k - 1];
      }
    }
  }

  lemma RestNoneCompleted(polls: seq<RunState>, k: nat, rest: seq<RunState>)
    requires k < |polls| && rest == polls[k + 1..]
    requires NoneCompleted(polls)
    ensures NoneCompleted(rest)
  {
    forall j | 0 <= j < |rest| ensures !IsCompleted(rest[j].status) {
      assert rest[j] == polls[j + k + 1];
    }
  }
}
