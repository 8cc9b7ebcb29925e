/**
 * The response formatter (`processMessageFormat`): a left-to-right scan that
 * rewrites every `?` as `?<br>` and copies every other character. The scan also
 * carries an end-of-turn check for `<|im_end|>`, guarded by `false && ...`, so
 * in the widget as written it never fires; the guard is the parameter
 * `sentinelCheck` here and the widget's value for it is SentinelCheckEnabled.
 */
module Formatter {
  import opened Wrappers
  import opened Strings

  const Delimiter: char := '?'
  const LineBreak: string := "<br>"
  const EndSentinel: string := "<|im_end|>"

  /** The left operand of the guard on the sentinel check. */
  const SentinelCheckEnabled: bool := false

  datatype FormatResult = FormatResult(processedMessage: string, shouldStopGeneration: bool)

  /** What the scan emits for one character. */
  function Piece(c: char): string {
    if c == Delimiter then [Delimiter] + LineBreak else [c]
  }

  /** Every character replaced by its piece, in order. */
  function Expand(s: string): string {
    if s == [] then [] else Piece(s[0]) + Expand(s[1..])
  }

  function CountChar(s: string, c: char): nat {
    if s == [] then 0 else (if s[0] == c then 1 else 0) + CountChar(s[1..], c)
  }

  /**
   * The result of the scan: with the check on and a sentinel in the message,
   * the expansion of the text before the first sentinel and the stop flag;
   * otherwise the expansion of the whole message and no stop.
   */
  function Formatted(message: string, sentinelCheck: bool): FormatResult {
    match (if sentinelCheck then IndexOf(message, EndSentinel) else None)
    case Some(p) => FormatResult(Expand(message[..p]), true)
    case None => FormatResult(Expand(message), false)
  }

  /** The scan itself, one character per iteration. */
  method ProcessMessageFormat(message: string, sentinelCheck: bool)
      returns (processedMessage: string, shouldStopGeneration: bool)
    ensures FormatResult(processedMessage, shouldStopGeneration) == Formatted(message, sentinelCheck)
    ensures !sentinelCheck ==> !shouldStopGeneration && processedMessage == Expand(message)
  {
    processedMessage := "";
    var i := 0;
    shouldStopGeneration := false;

    while i < |message|
      invariant 0 <= i <= |message|
      invariant !shouldStopGeneration
      invariant processedMessage == Expand(message[..i])
      invariant sentinelCheck ==> forall q :: 0 <= q < i ==> !StartsAt(message, q, EndSentinel)
    {
      var c := message[i];
      ExpandSnoc(message[..i], c);
      assert message[..i + 1] == message[..i] + [c];
      assert StartsAt(message, i, EndSentinel) ==> message[i..i + |EndSentinel|][0] == c == '<';
      if c == Delimiter {
        processedMessage := processedMessage + [Delimiter] + LineBreak;
        i := i + 1;
      } else if c == '<' {
        if sentinelCheck && StartsAt(message, i, EndSentinel) {
          shouldStopGeneration := true;
          break;
        } else {
          processedMessage := processedMessage + [c];
          i := i + 1;
        }
      } else {
        processedMessage := processedMessage + [c];
        i := i + 1;
      }
    }

    if shouldStopGeneration {
      IndexOfAt(message, EndSentinel, i);
    } else {
      assert message[..i] == message;
      if sentinelCheck {
        IndexOfIsFirst(message, EndSentinel);
      }
    }
  }

  lemma {:induction false} ExpandAppend(a: string, b: string)
    ensures Expand(a + b) == Expand(a) + Expand(b)
  {
    if a != [] {
      assert (a + b)[1..] == a[1..] + b;
      ExpandAppend(a[1..], b);
    } else {
      assert a + b == b;
    }
  }

  lemma ExpandSnoc(s: string, c: char)
    ensures Expand(s + [c]) == Expand(s) + Piece(c)
  {
    ExpandAppend(s, [c]);
    assert Expand([c]) == Piece(c) + Expand([]);
  }

  lemma {:induction false} CountAppend(a: string, b: string, c: char)
    ensures CountChar(a + b, c) == CountChar(a, c) + CountChar(b, c)
  {
    if a != [] {
      assert (a + b)[1..] == a[1..] + b;
      CountAppend(a[1..], b, c);
    } else {
      assert a + b == b;
    }
  }

  /** Output length is input length plus four per `?`. */
  lemma {:induction false} ExpandLength(s: string)
    ensures |Expand(s)| == |s| + |LineBreak| * CountChar(s, Delimiter)
  {
    if s != [] {
      ExpandLength(s[1..]);
    }
  }

  /** The output is the input exactly when the input has no `?` (in particular for ""). */
  lemma ExpandUnchangedIff(s: string)
    ensures Expand(s) == s <==> CountChar(s, Delimiter) == 0
  {
    ExpandLength(s);
    if CountChar(s, Delimiter) == 0 {
      NoDelimiterUnchanged(s);
    }
  }

  lemma {:induction false} NoDelimiterUnchanged(s: string)
    requires CountChar(s, Delimiter) == 0
    ensures Expand(s) == s
  {
    if s != [] {
      NoDelimiterUnchanged(s[1..]);
    }
  }

  /** The rewrite inserts `<br>` only, so the output has as many `?` as the input. */
  lemma {:induction false} ExpandKeepsDelimiterCount(s: string)
    ensures CountChar(Expand(s), Delimiter) == CountChar(s, Delimiter)
  {
    if s != [] {
      ExpandKeepsDelimiterCount(s[1..]);
      CountAppend(Piece(s[0]), Expand(s[1..]), Delimiter);
    }
  }

  /**
   * The formatter is not idempotent: formatting its own output again changes
   * it exactly when the original had a `?`.
   */
  lemma ExpandIdempotentIff(s: string)
    ensures Expand(Expand(s)) == Expand(s) <==> CountChar(s, Delimiter) == 0
  {
    ExpandKeepsDelimiterCount(s);
    ExpandUnchangedIff(Expand(s));
  }

  lemma SliceAfterPrefix(x: string, p: string, y: string)
    ensures (x + (p + y))[|x|..|x| + |p|] == p
  {
  }

  /**
   * Character `i` of the input appears as its piece in the output, at the
   * offset shifted by four for every earlier `?`.
   */
  lemma ExpandAt(s: string, i: nat)
    requires i < |s|
    ensures var off := i + |LineBreak| * CountChar(s[..i], Delimiter);
            off + |Piece(s[i])| <= |Expand(s)| &&
            Expand(s)[off..off + |Piece(s[i])|] == Piece(s[i])
  {
    var pre := s[..i];
    var rest := [s[i]] + s[i + 1..];
    assert s == pre + rest;
    assert rest[0] == s[i] && rest[1..] == s[i + 1..];
    ExpandAppend(pre, rest);
    ExpandLength(pre);
    SliceAfterPrefix(Expand(pre), Piece(s[i]), Expand(s[i + 1..]));
  }

  /** Removes the `<br>` placed after each `?`: the inverse of Expand. */
  function Collapse(t: string): string {
    if t == [] then []
    else if t[0] == Delimiter && StartsAt(t, 1, LineBreak) then [Delimiter] + Collapse(t[1 + |LineBreak|..])
    else [t[0]] + Collapse(t[1..])
  }

  /** No character is lost or reordered: collapsing the output gives the input back. */
  lemma {:induction false} CollapseExpand(s: string)
    ensures Collapse(Expand(s)) == s
  {
    if s != [] {
      var t := Expand(s);
      CollapseExpand(s[1..]);
      if s[0] == Delimiter {
        assert t == [Delimiter] + LineBreak + Expand(s[1..]);
        assert t[1..1 + |LineBreak|] == LineBreak;
        assert t[1 + |LineBreak|..] == Expand(s[1..]);
      } else {
        assert t == [s[0]] + Expand(s[1..]);
        assert t[1..] == Expand(s[1..]);
      }
    }
  }

  /**
   * With the check off, a literal `<|im_end|>` passes through: it appears in
   * the output, shifted by four for every earlier `?`.
   */
  lemma SentinelPassesThrough(s: string, p: nat)
    requires StartsAt(s, p, EndSentinel)
    ensures StartsAt(Formatted(s, SentinelCheckEnabled).processedMessage,
                     p + |LineBreak| * CountChar(s[..p], Delimiter), EndSentinel)
  {
    var n := |EndSentinel|;
    assert s == s[..p] + (EndSentinel + s[p + n..]);
    ExpandAppend(s[..p], EndSentinel + s[p + n..]);
    ExpandAppend(EndSentinel, s[p + n..]);
    NoDelimiterUnchanged(EndSentinel);
    ExpandLength(s[..p]);
    var t := Expand(s);
    assert t == Expand(s[..p]) + EndSentinel + Expand(s[p + n..]);
  }

  /**
   * With the check on, the output is the expansion of the text before the
   * first sentinel and the stop flag is set.
   */
  lemma StopsAtFirstSentinel(s: string, p: nat)
    requires StartsAt(s, p, EndSentinel)
    requires forall q :: 0 <= q < p ==> !StartsAt(s, q, EndSentinel)
    ensures Formatted(s, true) == FormatResult(Expand(s[..p]), true)
  {
    IndexOfAt(s, EndSentinel, p);
  }
}
