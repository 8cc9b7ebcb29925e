/**
 * The page's conversation state: the global `messages` array, the last
 * formatted answer `lastAIResponse` and the `responseHistory` log, with the
 * operations that change them (`clearMemory`, the finish callback of a
 * generation, and `onMessageSend`, which runs one generation).
 */
module Memory {
  import opened Wrappers
  import opened Session
  import opened Streaming
  import opened Formatter

  /** One completed answer; the timestamp (`new Date()`) is supplied by the caller. */
  datatype HistoryEntry = HistoryEntry(timestamp: int, message: string, usage: Option<Usage>)

  /** The values of the three globals. */
  datatype MemoryState = MemoryState(messages: seq<Message>, lastAIResponse: string,
                                     responseHistory: seq<HistoryEntry>)

  /** The state at page load and after every `clearMemory`. */
  const ClearedState: MemoryState :=
    MemoryState([Message(DefaultSystemPrompt, System)], "", [])

  /**
   * The error the finish callback throws when it reads the token counts of a
   * usage that no chunk supplied; it is thrown after the history entry is added.
   */
  const UsageUndefinedError: string := "TypeError: usage is undefined"

  /**
   * Whether, and with what, the widget's finish callback throws: it reads
   * `usage.prompt_tokens`, which throws exactly when no chunk supplied a usage.
   */
  function FinishCallbackRaises(finalMessage: string, usage: Option<Usage>): (r: Option<string>)
    ensures r.Some? <==> usage.None?
    ensures r.Some? ==> r.value == UsageUndefinedError
  {
    if usage.None? then Some(UsageUndefinedError) else None
  }

  /** A stream whose end reaches the finish callback. */
  predicate Completes(s: EngineStream) {
    s.tail.Exhausted? && s.tail.finalMessage.Ok?
  }

  /**
   * A completed stream in which no chunk carried a usage still reaches the
   * finish callback, and then `onError` runs after it; with a usage it ends at
   * the finish callback.
   */
  lemma MissingUsageReportsError(s: EngineStream)
    requires Completes(s)
    ensures var e := Events(s, FinishCallbackRaises);
            e[|s.chunks|] == Finish(s.tail.finalMessage.value, LastUsage(s.chunks)) &&
            (|e| == |s.chunks| + 2 <==> forall i :: 0 <= i < |s.chunks| ==> s.chunks[i].usage.None?) &&
            (|e| == |s.chunks| + 2 ==> e[|s.chunks| + 1] == Error(UsageUndefinedError))
  {
    LastUsageIsLatest(s.chunks);
  }

  class ChatMemory {
    var messages: seq<Message>
    var lastAIResponse: string
    var responseHistory: seq<HistoryEntry>

    function State(): MemoryState
      reads this
    {
      MemoryState(messages, lastAIResponse, responseHistory)
    }

    /** The globals as the module initialises them. */
    constructor ()
      ensures State() == ClearedState
    {
      messages := [Message(DefaultSystemPrompt, System)];
      lastAIResponse := "";
      responseHistory := [];
    }

    /**
     * `clearMemory`: truncates `messages` and pushes the default system
     * message, and empties the answer and the history. The new state does not
     * depend on the old one, so clearing twice is clearing once.
     */
    method ClearMemory()
      modifies this
      ensures State() == ClearedState
    {
      messages := [];
      messages := messages + [Message(DefaultSystemPrompt, System)];
      lastAIResponse := "";
      responseHistory := [];
    }

    /**
     * The finish callback: formats the engine's final message, keeps it as the
     * last answer and appends exactly one history entry, removing none.
     */
    method OnFinishGenerating(finalMessage: string, usage: Option<Usage>, timestamp: int)
      modifies this`lastAIResponse, this`responseHistory
      ensures lastAIResponse == Expand(finalMessage)
      ensures responseHistory == old(responseHistory) + [HistoryEntry(timestamp, Expand(finalMessage), usage)]
      ensures messages == old(messages)
    {
      var processedMessage, shouldStopGeneration := ProcessMessageFormat(finalMessage, SentinelCheckEnabled);
      lastAIResponse := processedMessage;
      responseHistory := responseHistory + [HistoryEntry(timestamp, processedMessage, usage)];
    }

    /**
     * `onMessageSend`: an empty input changes nothing and starts nothing;
     * otherwise a fresh two-message session is built (the global `messages` is
     * left alone), the stream is consumed, and a stream that completes adds
     * one history entry holding the formatted engine message and the last usage.
     */
    method OnMessageSend(input: string, promptBox: Option<string>, stream: EngineStream, timestamp: int)
        returns (session: Option<seq<Message>>, events: seq<Event>)
      modifies this`lastAIResponse, this`responseHistory
      ensures session == BuildSession(input, promptBox)
      ensures session.None? ==> events == [] && State() == old(State())
      ensures session.Some? ==> events == Events(stream, FinishCallbackRaises)
      ensures messages == old(messages)
      ensures lastAIResponse ==
                if session.Some? && Completes(stream) then Expand(stream.tail.finalMessage.value)
                else old(lastAIResponse)
      ensures responseHistory ==
                old(responseHistory) +
                (if session.Some? && Completes(stream)
                 then [HistoryEntry(timestamp, Expand(stream.tail.finalMessage.value), LastUsage(stream.chunks))]
                 else [])
    {
      session := BuildSession(input, promptBox);
      if session.None? {
        events := [];
        return;
      }
      events := StreamingGenerating(stream, FinishCallbackRaises);
      var n := |stream.chunks|;
      EventsShape(stream, FinishCallbackRaises);
      if events[n].Finish? {
        OnFinishGenerating(events[n].message, events[n].usage, timestamp);
      }
    }
  }
}
