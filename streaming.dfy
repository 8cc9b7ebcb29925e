/**
 * The stream accumulator (`streamingGenerating`). The engine's streamed
 * completion is an abstract value: the chunks it delivers, then either the
 * normal end of the stream together with what `engine.getMessage()` gives
 * (its text, or the error it throws), or an exception raised while creating or
 * reading the stream. The three callbacks become the log of events they see.
 */
module Streaming {
  import opened Wrappers

  /** Token counts of the `usage` record; its throughput rates are floating point and left out. */
  datatype Usage = Usage(promptTokens: nat, completionTokens: nat)

  /** One streamed chunk: `choices[0]?.delta.content` and `chunk.usage`. */
  datatype Chunk = Chunk(delta: Option<string>, usage: Option<Usage>)

  /** How the engine's stream ends after its chunks. */
  datatype Tail =
    | Exhausted(finalMessage: Result<string, string>)  // the result of `engine.getMessage()`
    | Raised(error: string)                           // an exception from `create` or from the iteration

  datatype EngineStream = EngineStream(chunks: seq<Chunk>, tail: Tail)

  /** A call of one of the callbacks. */
  datatype Event =
    | Update(text: string)
    | Finish(message: string, usage: Option<Usage>)
    | Error(error: string)

  /** The text a chunk adds: its content, or nothing when the content is missing or empty. */
  function DeltaText(c: Chunk): string {
    match c.delta
    case Some(d) => d
    case None => ""
  }

  /** The concatenated deltas of `cs`. */
  function Accumulated(cs: seq<Chunk>): string {
    if cs == [] then "" else Accumulated(cs[..|cs| - 1]) + DeltaText(cs[|cs| - 1])
  }

  /** The usage carried by the last chunk of `cs` that carries one. */
  function LastUsage(cs: seq<Chunk>): Option<Usage> {
    if cs == [] then None
    else if cs[|cs| - 1].usage.Some? then cs[|cs| - 1].usage
    else LastUsage(cs[..|cs| - 1])
  }

  /**
   * The callbacks' calls for a stream: one update per chunk with the text so
   * far, then either onFinish with the engine's final message and the last
   * usage (followed by onError when onFinish itself throws, since the same
   * `try` encloses it) or onError alone.
   */
  function Events(s: EngineStream, onFinishRaises: (string, Option<Usage>) -> Option<string>): seq<Event> {
    seq(|s.chunks|, k requires 0 <= k < |s.chunks| => Update(Accumulated(s.chunks[..k + 1])))
    + match s.tail
      case Raised(e) => [Error(e)]
      case Exhausted(Err(e)) => [Error(e)]
      case Exhausted(Ok(m)) =>
        [Finish(m, LastUsage(s.chunks))]
        + match onFinishRaises(m, LastUsage(s.chunks))
          case Some(e) => [Error(e)]
          case None => []
  }

  /**
   * The coordinator: folds the deltas into the current message, remembers the
   * latest usage, reports once per chunk and ends the way the stream does.
   */
  method StreamingGenerating(s: EngineStream, onFinishRaises: (string, Option<Usage>) -> Option<string>)
      returns (events: seq<Event>)
    ensures events == Events(s, onFinishRaises)
  {
    events := [];
    var curMessage := "";
    var usage: Option<Usage> := None;
    for i := 0 to |s.chunks|
      invariant curMessage == Accumulated(s.chunks[..i])
      invariant usage == LastUsage(s.chunks[..i])
      invariant events == seq(i, k requires 0 <= k < i => Update(Accumulated(s.chunks[..k + 1])))
    {
      var chunk := s.chunks[i];
      assert s.chunks[..i + 1][..i] == s.chunks[..i];
      if chunk.delta.Some? && chunk.delta.value != "" {
        curMessage := curMessage + chunk.delta.value;
      }
      if chunk.usage.Some? {
        usage := chunk.usage;
      }
      events := events + [Update(curMessage)];
    }
    assert s.chunks[..|s.chunks|] == s.chunks;
    match s.tail {
      case Raised(e) =>
        events := events + [Error(e)];
      case Exhausted(Err(e)) =>
        events := events + [Error(e)];
      case Exhausted(Ok(finalMessage)) =>
        events := events + [Finish(finalMessage, usage)];
        match onFinishRaises(finalMessage, usage) {
          case Some(e) => events := events + [Error(e)];
          case None =>
        }
    }
  }

  lemma {:induction false} AccumulatedAppend(a: seq<Chunk>, b: seq<Chunk>)
    ensures Accumulated(a + b) == Accumulated(a) + Accumulated(b)
    decreases |b|
  {
    if b == [] {
      assert a + b == a;
    } else {
      var b' := b[..|b| - 1];
      assert (a + b)[..|a + b| - 1] == a + b';
      AccumulatedAppend(a, b');
    }
  }

  lemma EventAt(s: EngineStream, f: (string, Option<Usage>) -> Option<string>, k: nat)
    requires k < |s.chunks|
    ensures Events(s, f)[k] == Update(Accumulated(s.chunks[..k + 1]))
  {
  }

  /** Each update extends the previous one by exactly that chunk's delta. */
  lemma UpdateExtendsByDelta(s: EngineStream, f: (string, Option<Usage>) -> Option<string>, k: nat)
    requires k + 1 < |s.chunks|
    ensures Events(s, f)[k + 1].text == Events(s, f)[k].text + DeltaText(s.chunks[k + 1])
  {
    EventAt(s, f, k);
    EventAt(s, f, k + 1);
    assert s.chunks[..k + 2][..k + 1] == s.chunks[..k + 1];
  }

  /** The k-th update is the concatenated deltas of chunks 0..k, so every earlier update is a prefix of a later one. */
  lemma UpdatesArePrefixes(s: EngineStream, f: (string, Option<Usage>) -> Option<string>, j: nat, k: nat)
    requires j <= k < |s.chunks|
    ensures Events(s, f)[j].Update? && Events(s, f)[k].Update?
    ensures Events(s, f)[k].text == Events(s, f)[j].text + Accumulated(s.chunks[j + 1..k + 1])
  {
    assert s.chunks[..k + 1] == s.chunks[..j + 1] + s.chunks[j + 1..k + 1];
    AccumulatedAppend(s.chunks[..j + 1], s.chunks[j + 1..k + 1]);
  }

  /** The reported usage is that of the last chunk that carried one. */
  lemma {:induction false} LastUsageIsLatest(cs: seq<Chunk>)
    ensures LastUsage(cs).None? <==> forall i :: 0 <= i < |cs| ==> cs[i].usage.None?
    ensures LastUsage(cs).Some? ==>
              exists i :: 0 <= i < |cs| && cs[i].usage == LastUsage(cs) &&
                          forall j :: i < j < |cs| ==> cs[j].usage.None?
  {
    if cs != [] {
      var last := |cs| - 1;
      var p := cs[..last];
      LastUsageIsLatest(p);
      assert forall i :: 0 <= i < last ==> cs[i] == p[i];
      if cs[last].usage.Some? {
        assert cs[last].usage == LastUsage(cs);
      } else if LastUsage(p).Some? {
        var i :| 0 <= i < |p| && p[i].usage == LastUsage(p) &&
                 forall j :: i < j < |p| ==> p[j].usage.None?;
        assert cs[i].usage == LastUsage(cs);
        assert forall j :: i < j < |cs| ==> cs[j].usage.None?;
      }
    }
  }

  /**
   * One update per chunk, every one before the end; the log then ends with
   * onFinish exactly when the stream was exhausted and `getMessage` succeeded,
   * and onFinish carries the engine's message, not the accumulated text.
   */
  lemma EventsShape(s: EngineStream, f: (string, Option<Usage>) -> Option<string>)
    ensures |s.chunks| < |Events(s, f)| <= |s.chunks| + 2
    ensures forall k :: 0 <= k < |s.chunks| ==> Events(s, f)[k].Update?
    ensures Events(s, f)[|s.chunks|].Finish? <==> s.tail.Exhausted? && s.tail.finalMessage.Ok?
    ensures Events(s, f)[|s.chunks|].Finish? ==>
              Events(s, f)[|s.chunks|] == Finish(s.tail.finalMessage.value, LastUsage(s.chunks))
    ensures Events(s, f)[|Events(s, f)| - 1].Error? <==>
              (!Events(s, f)[|s.chunks|].Finish? || f(s.tail.finalMessage.value, LastUsage(s.chunks)).Some?)
  {
  }

  /** onFinish is called at most once, and never after onError. */
  lemma AtMostOneFinish(s: EngineStream, f: (string, Option<Usage>) -> Option<string>, j: nat, k: nat)
    requires j < |Events(s, f)| && k < |Events(s, f)|
    requires Events(s, f)[j].Finish? && Events(s, f)[k].Finish?
    ensures j == k == |s.chunks|
  {
  }

  /** The stream of three deltas "Hello", " world", "!" ending normally. */
  lemma HelloWorld(u: Usage)
    ensures var s := EngineStream([Chunk(Some("Hello"), None), Chunk(Some(" world"), None),
                                   Chunk(Some("!"), Some(u))], Exhausted(Ok("Hello world!")));
            Events(s, (m, x) => None) ==
              [Update("Hello"), Update("Hello world"), Update("Hello world!"), Finish("Hello world!", Some(u))]
  {
    var s := EngineStream([Chunk(Some("Hello"), None), Chunk(Some(" world"), None),
                           Chunk(Some("!"), Some(u))], Exhausted(Ok("Hello world!")));
    var cs := s.chunks;
    assert cs[..1][..0] == [];
    assert Accumulated(cs[..1]) == "Hello";
    assert cs[..2][..1] == cs[..1];
    assert Accumulated(cs[..2]) == "Hello world";
    assert cs[..3][..2] == cs[..2];
    assert cs[..3] == cs;
    assert Accumulated(cs) == "Hello world!";
    assert LastUsage(cs) == Some(u);
  }
}
