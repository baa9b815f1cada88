# OpenAIClient, modelled in Dafny

This project models `OpenAIClient`, the class of the e-commerce chatbot that talks to the OpenAI API, and proves what it does. It has two modes.

**Assistant mode** (`enviarRequisicaoAssistente`). The client keeps one conversation thread per client object, in its `threadId` field:
- The first question creates the thread, seeded with the question. Later questions are appended to that thread.
- Each question starts a run of the configured assistant. The client then sleeps 3 s and retrieves the run, repeatedly, until the run is completed (case-insensitively) or asks for a tool call.
- In the tool case it submits one tool output, for the first tool call. Unless the run was already completed, it then sleeps 10 s and retrieves the run, repeatedly, until it is completed.
- The answer is the first text block of the newest message, with every `【…】` citation marker removed.
- `carregarHistorico` returns the thread's texts, oldest first. `deletarThread` deletes the thread and forgets it.

**Chat mode** (`enviarRequisicaoChatCompletion`). The client opens a streaming chat completion with up to five attempts:
- A 401 fails at once with the API-key error.
- 429, 500 and 503 sleep 5 s, then 10 s, 20 s and so on, doubling each time.
- Any other HTTP status retries at once.
- Five failures end in the "API down" error.

The remote API is not part of the model. Every call the client makes is recorded as an `Effect`, and a sleep is recorded as `Sleep(millis)`. What the remote answers comes in as parameters:
- the id of a created thread and of a created run;
- the run states returned by successive retrievals, as a finite trace;
- the message listing;
- the outcome of each stream-open attempt;
- the tool dispatcher.

Files:
- `remote.dfy` holds the remote's value types (messages, runs, tool calls), the `Effect` log and a filter over it.
- `citations.dfy` removes citation markers.
- `messages.dfy` holds the stable sort by `createdAt`, the history and the answer.
- `polling.dfy` holds the two wait loops.
- `assistant.dfy` specifies one assistant-mode question as a function of the remote's answers.
- `retry.dfy` specifies the stream-open retrying.
- `client.dfy` holds the `OpenAIClient` class. Its methods are proved equal to those specifications.

## Model

All source paths are under `src/main/java/br/com/alura/ecomart/chatbot/infra/openai/`.

| member | source | states |
|---|---|---|
| Client.OpenAIClient.constructor | src/main/java/br/com/alura/ecomart/chatbot/infra/openai/OpenAIClient.java:38-43 | A new client has the configured assistant id and no thread. |
| Client.OpenAIClient.Ask | src/main/java/br/com/alura/ecomart/chatbot/infra/openai/OpenAIClient.java:45-118 | The new thread field, the answer and the calls made are exactly `Assistant.Converse` of the old thread field. |
| Assistant.Converse | src/main/java/br/com/alura/ecomart/chatbot/infra/openai/OpenAIClient.java:45-115 | One question as a value: the session's thread (or the created one) becomes the session, the answer is the run's, and the calls are the opening calls followed by the run's. Its properties are proved by `ConverseKeepsOrCreatesThread`, and `Ask` is proved equal to it. |
| Assistant.ConverseKeepsOrCreatesThread | src/main/java/br/com/alura/ecomart/chatbot/infra/openai/OpenAIClient.java:52-67 | With no thread, the first call creates one seeded with the question, and its id becomes the session's. With a thread, the first call appends the question to it and the session is unchanged. Either way the second call creates a run of the assistant on that thread, and exactly one thread is created per question with no session, none otherwise. |
| Assistant.RunCreatesNoThread | src/main/java/br/com/alura/ecomart/chatbot/infra/openai/OpenAIClient.java:67-115 | After the run is created, no call creates a thread. |
| Assistant.RunEffectsAreRunCalls | src/main/java/br/com/alura/ecomart/chatbot/infra/openai/OpenAIClient.java:67-115 | After the run is created, every call is a sleep, a retrieval of that run, a tool-output submission for that run, or a listing of that thread. |
| Assistant.RunToAnswer | src/main/java/br/com/alura/ecomart/chatbot/infra/openai/OpenAIClient.java:70-115 | Everything after run creation as a value: the first wait over the polled states, then what follows the stopping poll, or `Unresolved` when the polls run out. Its properties are proved by the `Run…` lemmas below, and `AwaitAnswer` is proved equal to it. |
| Client.OpenAIClient.AwaitAnswer | src/main/java/br/com/alura/ecomart/chatbot/infra/openai/OpenAIClient.java:70-115 | The answer and the calls after run creation are exactly `Assistant.RunToAnswer` of the polled states, the dispatcher and the listing. |
| Polling.WaitIndex | src/main/java/br/com/alura/ecomart/chatbot/infra/openai/OpenAIClient.java:73-78 | The index of the first poll that ends a wait: no earlier poll ends it, and the poll at that index does. |
| Polling.IsCompleted | src/main/java/br/com/alura/ecomart/chatbot/infra/openai/OpenAIClient.java:76 | The case-insensitive status test. Its meaning is stated by `IsCompletedMeans`. |
| Polling.IsCompletedMeans | src/main/java/br/com/alura/ecomart/chatbot/infra/openai/OpenAIClient.java:76 | A status is completed exactly when it has nine characters that spell "completed" with each ASCII letter in either case, so "COMPLETED" and "Completed" pass and "failed" does not. |
| Polling.AwaitActionOrCompletion | src/main/java/br/com/alura/ecomart/chatbot/infra/openai/OpenAIClient.java:70-78 | Polls until the first state that is completed (case-insensitively) or has a required action, and consumes exactly the polls up to and including it. The two flags are that state's. The calls are one 3000 ms sleep plus one retrieval per poll. |
| Polling.AwaitCompletion | src/main/java/br/com/alura/ecomart/chatbot/infra/openai/OpenAIClient.java:98-103 | With the run already completed, makes no poll. Otherwise polls until the first completed state and consumes the polls up to and including it. The calls are one 10000 ms sleep plus one retrieval per poll. |
| Polling.PollTraceRetrievals | src/main/java/br/com/alura/ecomart/chatbot/infra/openai/OpenAIClient.java:73-78 | A wait of n rounds retrieves the run n times. |
| Polling.PollTraceSleeps | src/main/java/br/com/alura/ecomart/chatbot/infra/openai/OpenAIClient.java:73-78 | A wait of n rounds sleeps n times, always for the same interval. |
| Assistant.ToolOutputIgnoresLaterCalls | src/main/java/br/com/alura/ecomart/chatbot/infra/openai/OpenAIClient.java:83-95 | Only the first tool call of the required action counts: appending more calls after it changes neither the output nor the error. |
| Assistant.RunSubmitsFirstToolCallOnly | src/main/java/br/com/alura/ecomart/chatbot/infra/openai/OpenAIClient.java:83-96 | One submission exactly when the first wait ended on a state with a required action whose first call the dispatcher serves: for that run, carrying call 0's id and the dispatcher's result. No submission otherwise. |
| Assistant.AfterToolOutputReadsAnswer | src/main/java/br/com/alura/ecomart/chatbot/infra/openai/OpenAIClient.java:98-110 | After the tool output, the messages are listed (as the last call) only at the first completed poll, and the run stays unresolved only if no poll is completed. Conversely, when some remaining poll is completed, the messages are listed exactly once and the answer is `LatestAnswer` of the listing. |
| Assistant.AfterFirstWaitReadsAnswer | src/main/java/br/com/alura/ecomart/chatbot/infra/openai/OpenAIClient.java:83-110 | After the first wait, with no action or with the first tool call served, a run that was already completed skips the second wait, lists the messages once, and answers with `LatestAnswer`. When the tool step is not served, what follows is exactly the error (`MissingToolCall` with no tool call, `ToolFailed` when the dispatcher fails) with no further call. |
| Assistant.RunAnswersAtFirstCompletedPoll | src/main/java/br/com/alura/ecomart/chatbot/infra/openai/OpenAIClient.java:70-115 | A listing, if made, comes exactly at the first poll of the trace that reports the run completed, and the answer is read from it. With no completed poll there is no listing and the answer is an error. Conversely, when some poll is completed and the stopping poll needs no tool or its first tool call is served, the messages are listed exactly once and the answer is `LatestAnswer` of the listing. |
| Assistant.RunStopsOnToolFailure | src/main/java/br/com/alura/ecomart/chatbot/infra/openai/OpenAIClient.java:83-96 | When the first wait stops on a required action with no tool call, the answer is `MissingToolCall`. When the dispatcher fails on the first call, it is `ToolFailed`. Either way nothing is submitted and the messages are not listed. |
| Messages.SortByCreatedAt | src/main/java/br/com/alura/ecomart/chatbot/infra/openai/OpenAIClient.java:189 | The sorted listing is ascending by `createdAt` and a permutation of the listing. |
| Messages.SortIsStable | src/main/java/br/com/alura/ecomart/chatbot/infra/openai/OpenAIClient.java:189 | Sorting keeps messages with equal `createdAt` in listing order. |
| Messages.AscendingOrderIsUnique | src/main/java/br/com/alura/ecomart/chatbot/infra/openai/OpenAIClient.java:189 | Two ascending sequences that agree on the messages of every timestamp are equal. |
| Messages.SortIsTheStableOrder | src/main/java/br/com/alura/ecomart/chatbot/infra/openai/OpenAIClient.java:189 | The sort is the only ascending order that keeps ties in listing order. |
| Messages.Texts | src/main/java/br/com/alura/ecomart/chatbot/infra/openai/OpenAIClient.java:190 | One text per message, each the message's first content block. It fails exactly when some message has no text first block. |
| Messages.FirstText | src/main/java/br/com/alura/ecomart/chatbot/infra/openai/OpenAIClient.java:114 | The text of a message's first content block, or `NoTextContent` when there is none or it is not text. `Texts` and `AnswerIsNewestMessage` state how it is used. |
| Messages.HistoryIsChronological | src/main/java/br/com/alura/ecomart/chatbot/infra/openai/OpenAIClient.java:185-191 | The history succeeds exactly when every listed message has a text first block. It is then the texts of an ascending, tie-stable permutation of the listing, one per message. |
| Messages.History | src/main/java/br/com/alura/ecomart/chatbot/infra/openai/OpenAIClient.java:186-191 | The thread's texts in the order of the stable ascending sort. `HistoryIsChronological` and `HistoryOfListedOutOfOrder` state its meaning. |
| Messages.HistoryOfListedOutOfOrder | src/main/java/br/com/alura/ecomart/chatbot/infra/openai/OpenAIClient.java:185-191 | Messages listed as t3, t1, t2 give the history t1, t2, t3. |
| Client.OpenAIClient.LoadHistory | src/main/java/br/com/alura/ecomart/chatbot/infra/openai/OpenAIClient.java:179-197 | With no thread: an empty history and no call. Otherwise: one listing of the thread and its history. |
| Client.OpenAIClient.DeleteThread | src/main/java/br/com/alura/ecomart/chatbot/infra/openai/OpenAIClient.java:200-205 | The thread field becomes empty. The remote thread is deleted once when the field was set, and nothing is called when it was already empty, so a second reset does nothing. Followed by `LoadHistory`, the history is empty. |
| Messages.LatestIndex | src/main/java/br/com/alura/ecomart/chatbot/infra/openai/OpenAIClient.java:110-114 | The message chosen for the answer has the greatest `createdAt`, and is the first listed among those that do. |
| Messages.NewestIsUnique | src/main/java/br/com/alura/ecomart/chatbot/infra/openai/OpenAIClient.java:113-114 | Only one position satisfies that choice. |
| Messages.LatestAnswer | src/main/java/br/com/alura/ecomart/chatbot/infra/openai/OpenAIClient.java:110-115 | The answer fails with no-messages exactly when the listing is empty. A returned answer contains no citation. |
| Messages.AnswerIsNewestMessage | src/main/java/br/com/alura/ecomart/chatbot/infra/openai/OpenAIClient.java:110-115 | The answer is the newest message's first text with citations removed, or that message's text error. |
| Messages.AnswerIgnoresListingOrder | src/main/java/br/com/alura/ecomart/chatbot/infra/openai/OpenAIClient.java:110-114 | With distinct timestamps, the answer does not depend on the order of the listing. |
| Messages.DistinctTimesPickSameNewest | src/main/java/br/com/alura/ecomart/chatbot/infra/openai/OpenAIClient.java:113-114 | With distinct timestamps, two orders of the same listing have the same newest message. |
| Messages.AnswerOfListedOutOfOrder | src/main/java/br/com/alura/ecomart/chatbot/infra/openai/OpenAIClient.java:110-115 | For messages listed as t3, t1, t2, the answer is the t3 message's text. |
| Citations.CloseAfter | src/main/java/br/com/alura/ecomart/chatbot/infra/openai/OpenAIClient.java:115 | The lazy `.*?` ends at the first `】` with no line terminator before it. When there is none, no `】` can close the marker. |
| Citations.StripCitations | src/main/java/br/com/alura/ecomart/chatbot/infra/openai/OpenAIClient.java:115 | The `replaceAll` of `【.*?】` by nothing, scanning left to right. The result is never longer. `StripPlainPrefix`, `StripRemovesCitation` and `StripKeepsUnmatchedOpen` together fix the result on every input. |
| Citations.StripLeavesNoCitation | src/main/java/br/com/alura/ecomart/chatbot/infra/openai/OpenAIClient.java:115 | After stripping, no `【…】` pair remains on one line. |
| Citations.StripKeepsCitationFree | src/main/java/br/com/alura/ecomart/chatbot/infra/openai/OpenAIClient.java:115 | A text with no citation comes back unchanged. |
| Citations.StripIdempotent | src/main/java/br/com/alura/ecomart/chatbot/infra/openai/OpenAIClient.java:115 | Stripping twice is stripping once. |
| Citations.StripPlainPrefix | src/main/java/br/com/alura/ecomart/chatbot/infra/openai/OpenAIClient.java:115 | Text before the first `【` is kept as it is. |
| Citations.StripRemovesCitation | src/main/java/br/com/alura/ecomart/chatbot/infra/openai/OpenAIClient.java:115 | `p【m】q` with no `【` in `p`, and no `】` or line break in `m`, becomes `p` followed by `q` stripped. |
| Citations.StripKeepsUnmatchedOpen | src/main/java/br/com/alura/ecomart/chatbot/infra/openai/OpenAIClient.java:115 | A `【` that no `】` closes on its own line is kept, and stripping continues right after it, so a citation on a later line is still removed. |
| Citations.StripKeepsUnclosed | src/main/java/br/com/alura/ecomart/chatbot/infra/openai/OpenAIClient.java:115 | Stripping never lets a later `】` close an earlier unmatched `【`. |
| Client.OpenAIClient.OpenChatStream | src/main/java/br/com/alura/ecomart/chatbot/infra/openai/OpenAIClient.java:135-155 | The result and the calls made are exactly `Retry.Retrying` from attempt 0 with a 5 s delay. |
| Retry.Retrying | src/main/java/br/com/alura/ecomart/chatbot/infra/openai/OpenAIClient.java:135-155 | The retry loop from a given attempt and delay, as a value. Its result, calls and sleeps are characterised by `RetryingResult`, `RetryingCalls` and `RetryingSleeps`. |
| Retry.FirstDecisive | src/main/java/br/com/alura/ecomart/chatbot/infra/openai/OpenAIClient.java:137-143 | The first attempt that opens the stream or is a 401: none before it is, and it is one, unless all five fail. |
| Retry.RetryingResult | src/main/java/br/com/alura/ecomart/chatbot/infra/openai/OpenAIClient.java:137-155 | The outcome is the stream of the first decisive attempt, or the API-key error if that attempt was a 401, or the exhausted error if none of the five was decisive. |
| Retry.RetryingCalls | src/main/java/br/com/alura/ecomart/chatbot/infra/openai/OpenAIClient.java:137-139 | `streamChatCompletion` is called once per attempt, up to and including the first decisive one, and never more than five times. |
| Retry.RetryingSleeps | src/main/java/br/com/alura/ecomart/chatbot/infra/openai/OpenAIClient.java:140-152 | One sleep per 429/500/503 failure before the first decisive attempt, and no sleep for a 401 or another status. The delays start at 5 s and double. |
| Retry.BackoffDoubles | src/main/java/br/com/alura/ecomart/chatbot/infra/openai/OpenAIClient.java:146-147 | The i-th sleep lasts 1000 · 5 · 2^i ms. |
| Retry.ExhaustedOnlyAfterFiveNonKeyFailures | src/main/java/br/com/alura/ecomart/chatbot/infra/openai/OpenAIClient.java:137-155 | The exhausted error comes exactly when all five attempts fail without a 401, so never the API-key error then. The API-key error comes exactly when a 401 follows only failures that were not 401. |
| Retry.TwoRateLimitsThenStream | src/main/java/br/com/alura/ecomart/chatbot/infra/openai/OpenAIClient.java:135-152 | 429, 429, then success: call, 5 s sleep, call, 10 s sleep, call, and the third attempt's stream. |
| Retry.KeyRejectedAtOnce | src/main/java/br/com/alura/ecomart/chatbot/infra/openai/OpenAIClient.java:141-143 | A first-attempt 401: one call, no sleep, the API-key error. |

## Left out

- The `OpenAiService` calls (create thread, message and run; retrieve run; submit tool outputs; list and delete; stream chat completion) are network I/O through a library that is not part of this model. The model records each call as an `Effect`, and the remote's replies are parameters.
- `Thread.sleep` becomes a `Sleep(millis)` effect. `InterruptedException` is not modelled, because interruption comes from another thread.
- Client.OpenAIClient.AwaitAnswer: the run states come from a finite trace. If the trace runs out before the wait ends, the run ends with `Unresolved`, where the client would keep polling forever. Liveness against a real remote is not modelled.
- Client.OpenAIClient.Ask, Client.OpenAIClient.AwaitAnswer, Client.OpenAIClient.DeleteThread: every assistant-mode service call is taken to succeed. In the source (OpenAIClient.java:57-58, 67, 75, 96, 110, 202), a failing call throws out of the method:
  - a throwing `createThread` leaves `threadId` null;
  - a failure after line 58 leaves the new thread id set;
  - a throwing `deleteThread` leaves the thread id set, where `DeleteThread` always clears it.
  These remote failures are not inputs of the model.
- The retrieved run is taken to keep the id of the run that was created.
- `chamarFuncao` (OpenAIClient.java:158-177), with Jackson, the SDK's `FunctionExecutor` and the shipping calculator, is modelled as an opaque dispatcher from (name, arguments) to a result or a failure. The client's throw becomes `ToolFailed`.
- The returned `Flowable`, the request building and the model name (OpenAIClient.java:121-133) are left out, because they are reactive and library plumbing. The stream is an opaque handle.
- Exceptions other than `OpenAiHttpException` from `streamChatCompletion` would propagate out of the loop. They are left out.
- Polling.IsCompleted: case-insensitive comparison folds ASCII letters only. Java's `equalsIgnoreCase` also folds other letters; this makes no difference for the literal "completed".
- Citation stripping is an explicit function that matches the lazy pattern `【.*?】`, where `.` excludes Java's default line terminators. The Java regex engine itself is not modelled.
- The client's exceptions for missing data become `Result` errors, and the Java exception types are not distinguished:
  - an empty listing (`NoSuchElementException`) becomes `NoMessages`;
  - a missing or non-text first content block becomes `NoTextContent`;
  - a required action with no tool call becomes `MissingToolCall`.
- A `null` run status would make the Java throw. Statuses are strings here and cannot be null.
- `ChatBotService` and `ChatController` only delegate to this class and render pages. The API key and the service construction are configuration.
- On these points the model follows the code as written:
  - A run whose status is `failed` is not a terminal state. The loops keep polling until "completed".
  - An HTTP status other than 401, 429, 500 and 503 is retried at once, without a sleep and without doubling the delay.
  - A 429/500/503 on the fifth attempt still sleeps before the exhausted error is raised.
