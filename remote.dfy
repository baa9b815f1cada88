/** Values exchanged with the remote assistant service, the errors the client
    raises, and the log of remote calls and sleeps that each operation leaves. */
module Remote {

  datatype Option<+T> = None | Some(value: T)

  /** Every exception the client lets escape, as a tagged value. */
  datatype Error =
    | ApiKeyRejected    // HTTP 401 while opening the stream: "Erro com a chave da API!"
    | RetriesExhausted  // five failed attempts: "API Fora do ar! Tentativas finalizadas sem sucesso!"
    | MissingToolCall   // the required action lists no tool call (get(0) fails)
    | ToolFailed        // the tool dispatcher threw
    | NoMessages        // the thread lists no message (findFirst().get() fails)
    | NoTextContent     // a message whose first content block is missing or not text
    | Unresolved        // the given trace of polled run states ended before the wait did

  datatype Result<+T> = Ok(value: T) | Err(error: Error)

  /** One content block of a message: text, or anything else (an image file). */
  datatype Content = Text(value: string) | NonText

  datatype Message = Message(createdAt: int, content: seq<Content>)

  datatype ToolCall = ToolCall(id: string, name: string, arguments: string)

  datatype RequiredAction = RequiredAction(toolCalls: seq<ToolCall>)

  /** What one retrieveRun call answers: the status text and the required action, if any. */
  datatype RunState = RunState(status: string, requiredAction: Option<RequiredAction>)

  datatype ToolOutput = ToolOutput(toolCallId: string, output: string)

  /** The live chunk stream a successful streamChatCompletion call hands back. */
  datatype ChunkStream = ChunkStream(handle: nat)

  /** What one streamChatCompletion call does: open a stream, or fail with an HTTP status. */
  datatype StreamOutcome = Opened(stream: ChunkStream) | HttpFailure(statusCode: int)

  /** A remote call the client made, or a sleep it took, in the order it happened. */
  datatype Effect =
    | CreateThread(firstMessage: string)
    | CreateMessage(threadId: string, text: string)
    | CreateRun(threadId: string, assistantId: string)
    | RetrieveRun(threadId: string, runId: string)
    | SubmitToolOutputs(threadId: string, runId: string, outputs: seq<ToolOutput>)
    | ListMessages(threadId: string)
    | DeleteThread(threadId: string)
    | StreamChatCompletion(systemPrompt: string, userPrompt: string)
    | Sleep(millis: nat)

  predicate IsThreadCreation(e: Effect) { e.CreateThread? }
  predicate IsRetrieval(e: Effect) { e.RetrieveRun? }
  predicate IsSubmission(e: Effect) { e.SubmitToolOutputs? }
  predicate IsListing(e: Effect) { e.ListMessages? }
  predicate IsStreamCall(e: Effect) { e.StreamChatCompletion? }
  predicate IsSleep(e: Effect) { e.Sleep? }

  /** The effects of `es` that satisfy `keep`, in order. */
  function Kept(es: seq<Effect>, keep: Effect -> bool): (r: seq<Effect>)
    ensures |r| <= |es|
  {
    if |es| == 0 then [] else (if keep(es[0]) then [es[0]] else []) + Kept(es[1..], keep)
  }

  lemma {:induction false} KeptConcat(a: seq<Effect>, b: seq<Effect>, keep: Effect -> bool)
    ensures Kept(a + b, keep) == Kept(a, keep) + Kept(b, keep)
  {
    if |a| == 0 {
      assert a + b == b;
    } else {
      var head := if keep(a[0]) then [a[0]] else [];
      assert (a + b)[0] == a[0];
      assert (a + b)[1..] == a[1..] + b;
      assert Kept(a + b, keep) == head + Kept(a[1..] + b, keep);
      KeptConcat(a[1..], b, keep);
      assert Kept(a, keep) == head + Kept(a[1..], keep);
      assert head + (Kept(a[1..], keep) + Kept(b, keep)) == (head + Kept(a[1..], keep)) + Kept(b, keep);
    }
  }

  lemma {:induction false} KeptNone(es: seq<Effect>, keep: Effect -> bool)
    requires forall i :: 0 <= i < |es| ==> !keep(es[i])
    ensures Kept(es, keep) == []
  {
    if |es| > 0 {
      KeptNone(es[1..], keep);
    }
  }
}
