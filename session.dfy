/**
 * Building what is sent to the engine: the two-message session of
 * `onMessageSend` and the question the "Ask AI" button fills in from the
 * question template, the editor's code and the error output. A text box that
 * may be missing from the page is an `Option` of its value.
 */
module Session {
  import opened Wrappers
  import opened Strings

  datatype Role = System | User | Assistant

  datatype Message = Message(content: string, role: Role)

  const DefaultSystemPrompt: string := "You are a helpful AI agent helping users."
  const CodePlaceholder: string := "{code}"
  const ErrorPlaceholder: string := "{error}"
  /** The default question template, written as its text around the two placeholders. */
  const DefaultQuestionTemplate: string :=
    "I'm writing Python, and here's my code: " + CodePlaceholder + " and I received this error: " +
    ErrorPlaceholder + " Hint in Socratic style:"
  const UnsupportedMarker: string := "(UNSUPPORTED FEATURES)"

  /** The system prompt: the trimmed prompt box, or the default when it is missing or trims to "". */
  function SystemPrompt(promptBox: Option<string>): (r: string)
    ensures r != []
    ensures promptBox.Some? && Trim(promptBox.value) != [] ==> r == Trim(promptBox.value)
    ensures promptBox.None? || Trim(promptBox.value) == [] ==> r == DefaultSystemPrompt
  {
    var systemPrompt := match promptBox
      case Some(v) => Trim(v)
      case None => DefaultSystemPrompt;
    if systemPrompt == [] then DefaultSystemPrompt else systemPrompt
  }


  /**
   * `onMessageSend`: nothing for an empty input; otherwise a fresh session of a
   * system message and the user's input.
   */
  function BuildSession(input: string, promptBox: Option<string>): (r: Option<seq<Message>>)
    ensures r.None? <==> input == []
    ensures r.Some? ==> |r.value| == 2 && r.value[0] == Message(SystemPrompt(promptBox), System) &&
                        r.value[0].content != [] && r.value[1] == Message(input, User)
  {
    if |input| == 0 then None
    else Some([Message(SystemPrompt(promptBox), System), Message(input, User)])
  }

  /** A prompt box holding only whitespace gets the default prompt. */
  lemma BlankPromptFallsBack(input: string, v: string)
    requires input != []
    requires forall i :: 0 <= i < |v| ==> IsWhitespace(v[i])
    ensures BuildSession(input, Some(v)) ==
              Some([Message(DefaultSystemPrompt, System), Message(input, User)])
  {
    TrimEmptyIff(v);
  }

  /** The system content has no whitespace at either end, whatever the box holds. */
  lemma SystemPromptIsTrimmed(promptBox: Option<string>)
    ensures var r := SystemPrompt(promptBox); Trim(r) == r
  {
    var r := SystemPrompt(promptBox);
    if promptBox.Some? && Trim(promptBox.value) != [] {
      TrimIdempotent(promptBox.value);
    } else {
      assert !IsWhitespace(r[0]) && !IsWhitespace(r[|r| - 1]);
      assert TrimStart(r) == r;
    }
  }

  /**
   * The error text: the error output without its first "(UNSUPPORTED FEATURES)".
   * It is the output itself exactly when the marker does not occur; otherwise
   * the text before and after the first marker is kept, in order.
   */
  function ErrorText(errorOutput: string): (r: string)
    ensures r == errorOutput <==> IndexOf(errorOutput, UnsupportedMarker).None?
    ensures IndexOf(errorOutput, UnsupportedMarker).Some? ==>
              var i := IndexOf(errorOutput, UnsupportedMarker).value;
              r == errorOutput[..i] + errorOutput[i + |UnsupportedMarker|..]
  {
    ReplaceFirst(errorOutput, UnsupportedMarker, "")
  }

  /** An error output shorter than the marker cannot hold it, so it is used as it is. */
  lemma ShortErrorTextUnchanged(errorOutput: string)
    requires |errorOutput| < |UnsupportedMarker|
    ensures ErrorText(errorOutput) == errorOutput
  {
  }

  /**
   * The template: the trimmed template box, or the default when the box is
   * missing. It never has whitespace at either end, and it is empty exactly
   * when the box is present and blank (there is no fallback for a blank box).
   */
  function QuestionTemplate(templateBox: Option<string>): (r: string)
    ensures Trim(r) == r
    ensures r == [] <==>
              templateBox.Some? && forall i :: 0 <= i < |templateBox.value| ==> IsWhitespace(templateBox.value[i])
  {
    match templateBox
    case Some(v) =>
      TrimIdempotent(v);
      TrimEmptyIff(v);
      Trim(v)
    case None =>
      DefaultTemplateIsTrimmed();
      DefaultQuestionTemplate
  }

  lemma DefaultTemplateIsTrimmed()
    ensures DefaultQuestionTemplate != [] && Trim(DefaultQuestionTemplate) == DefaultQuestionTemplate
  {
    var r := DefaultQuestionTemplate;
    assert !IsWhitespace(r[0]) && !IsWhitespace(r[|r| - 1]);
    TrimKeepsNonBlankEnds(r);
  }

  /**
   * The question: the first "{code}" of the template replaced by the code,
   * then the first "{error}" of THAT result replaced by the error text. A
   * template holding neither placeholder is sent as it is.
   */
  function Question(templateBox: Option<string>, code: string, errorOutput: string): (r: string)
    ensures IndexOf(QuestionTemplate(templateBox), CodePlaceholder).None? &&
            IndexOf(QuestionTemplate(templateBox), ErrorPlaceholder).None? ==>
              r == QuestionTemplate(templateBox)
  {
    ReplaceFirst(ReplaceFirst(QuestionTemplate(templateBox), CodePlaceholder, code),
                 ErrorPlaceholder, ErrorText(errorOutput))
  }

  /**
   * The "Ask AI" handler: nothing is sent exactly when the question is empty;
   * otherwise the session is the system prompt followed by the question.
   */
  function AskAI(templateBox: Option<string>, code: string, errorOutput: string,
                 promptBox: Option<string>): (r: Option<seq<Message>>)
    ensures r.None? <==> Question(templateBox, code, errorOutput) == []
    ensures r.Some? ==>
              r.value == [Message(SystemPrompt(promptBox), System),
                          Message(Question(templateBox, code, errorOutput), User)]
  {
    BuildSession(Question(templateBox, code, errorOutput), promptBox)
  }

  /** A template box holding only whitespace sends nothing. */
  lemma BlankTemplateSendsNothing(v: string, code: string, errorOutput: string, promptBox: Option<string>)
    requires forall i :: 0 <= i < |v| ==> IsWhitespace(v[i])
    ensures AskAI(Some(v), code, errorOutput, promptBox).None?
  {
    assert QuestionTemplate(Some(v)) == [];
    assert !StartsAt("", 0, CodePlaceholder);
    assert !StartsAt("", 0, ErrorPlaceholder);
  }

  /** A placeholder's only '{' is its first character. */
  lemma BraceOnlyFirst(pat: string, k: nat)
    requires pat == CodePlaceholder || pat == ErrorPlaceholder
    requires 1 <= k < |pat|
    ensures pat[k] != '{'
  {
  }

  /**
   * In `pre + pat + rest`, where `pre` holds no whole placeholder `pat`, the
   * first occurrence of `pat` is the one right after `pre`: an earlier one
   * would either lie inside `pre` or have a '{' past its first character.
   */
  lemma FirstPlaceholderAfter(pre: string, pat: string, rest: string)
    requires pat == CodePlaceholder || pat == ErrorPlaceholder
    requires IndexOf(pre, pat).None?
    ensures IndexOf(pre + pat + rest, pat) == Some(|pre|)
  {
    var t := pre + pat + rest;
    IndexOfIsFirst(pre, pat);
    forall q | 0 <= q < |pre| ensures !StartsAt(t, q, pat) {
      if q + |pat| <= |pre| {
        assert t[..|pre|] == pre;
        assert t[q..q + |pat|] == t[..|pre|][q..q + |pat|];
        assert !StartsAt(pre, q, pat);
      } else {
        var k := |pre| - q;
        BraceOnlyFirst(pat, k);
        assert t[|pre|] == '{';
        assert q + |pat| <= |t| ==> t[q..q + |pat|][k] == t[|pre|];
        assert q + |pat| <= |t| ==> t[q..q + |pat|] != pat;
      }
    }
    assert t[|pre|..|pre| + |pat|] == pat;
    IndexOfAt(t, pat, |pre|);
  }

  /** Replacing a placeholder that follows text without one replaces that very occurrence. */
  lemma ReplacePlaceholderAfter(pre: string, pat: string, rest: string, rep: string)
    requires pat == CodePlaceholder || pat == ErrorPlaceholder
    requires IndexOf(pre, pat).None?
    ensures ReplaceFirst(pre + pat + rest, pat, rep) == pre + rep + rest
  {
    var t := pre + pat + rest;
    FirstPlaceholderAfter(pre, pat, rest);
    ReplaceFirstAt(t, pat, rep, |pre|);
    assert t[..|pre|] == pre;
    assert t[|pre| + |pat|..] == rest;
  }

  lemma SplitAtSecond(a: string, p: string, b: string, q: string, c: string)
    ensures a + p + b + q + c == a + p + (b + q + c)
  {
  }

  lemma JoinBeforeSecond(a: string, x: string, b: string, q: string, c: string)
    ensures a + x + (b + q + c) == (a + x + b) + q + c
  {
  }

  lemma Regroup(a: string, x: string, e: string, y: string, r: string)
    ensures a + (x + e + y) + r == (a + x) + e + (y + r)
  {
  }

  lemma Flatten(a: string, x: string, e: string, y: string, b: string, p: string, c: string)
    ensures (a + x) + e + (y + (b + p + c)) == a + x + e + y + b + p + c
  {
  }

  /**
   * A template "A{code}B{error}C" gets both placeholders filled in place,
   * provided A holds no "{code}" and A, the code and B hold no "{error}".
   */
  lemma QuestionFillsBoth(a: string, b: string, c: string, code: string, err: string)
    requires IndexOf(a, CodePlaceholder).None?
    requires IndexOf(a + code + b, ErrorPlaceholder).None?
    ensures ReplaceFirst(ReplaceFirst(a + CodePlaceholder + b + ErrorPlaceholder + c, CodePlaceholder, code),
                         ErrorPlaceholder, err)
            == a + code + b + err + c
  {
    var rest := b + ErrorPlaceholder + c;
    SplitAtSecond(a, CodePlaceholder, b, ErrorPlaceholder, c);
    ReplacePlaceholderAfter(a, CodePlaceholder, rest, code);
    JoinBeforeSecond(a, code, b, ErrorPlaceholder, c);
    ReplacePlaceholderAfter(a + code + b, ErrorPlaceholder, c, err);
  }

  /**
   * A template "A{error}B{code}C", with the error placeholder first, also
   * gets both filled in place, provided A holds no "{error}" and A{error}B
   * holds no "{code}": the code goes in first and the error text after it.
   */
  lemma QuestionFillsBothErrorFirst(a: string, b: string, c: string, code: string, err: string)
    requires IndexOf(a + ErrorPlaceholder + b, CodePlaceholder).None?
    requires IndexOf(a, ErrorPlaceholder).None?
    ensures ReplaceFirst(ReplaceFirst(a + ErrorPlaceholder + b + CodePlaceholder + c, CodePlaceholder, code),
                         ErrorPlaceholder, err)
            == a + err + b + code + c
  {
    var rest := b + code + c;
    ReplacePlaceholderAfter(a + ErrorPlaceholder + b, CodePlaceholder, c, code);
    SplitAtSecond(a, ErrorPlaceholder, b, code, c);
    ReplacePlaceholderAfter(a, ErrorPlaceholder, rest, err);
    SplitAtSecond(a, err, b, code, c);
  }

  /**
   * The question for a template "A{code}B{error}C", when A holds no "{code}"
   * and A, the code and B hold no "{error}": braces elsewhere in the code
   * (dictionaries, sets, f-strings) do not matter.
   */
  lemma QuestionOfTemplate(templateBox: Option<string>, a: string, b: string, c: string,
                           code: string, errorOutput: string)
    requires QuestionTemplate(templateBox) == a + CodePlaceholder + b + ErrorPlaceholder + c
    requires IndexOf(a, CodePlaceholder).None?
    requires IndexOf(a + code + b, ErrorPlaceholder).None?
    ensures Question(templateBox, code, errorOutput) == a + code + b + ErrorText(errorOutput) + c
  {
    QuestionFillsBoth(a, b, c, code, ErrorText(errorOutput));
  }

  /**
   * When the code put in for "{code}" holds an "{error}" of its own, the
   * second replacement fills that one and leaves the template's "{error}".
   */
  lemma ErrorInCodeFilled(a: string, b: string, c: string, x: string, y: string, err: string)
    requires IndexOf(a, CodePlaceholder).None?
    requires IndexOf(a + x, ErrorPlaceholder).None?
    ensures ReplaceFirst(ReplaceFirst(a + CodePlaceholder + b + ErrorPlaceholder + c, CodePlaceholder,
                                      x + ErrorPlaceholder + y),
                         ErrorPlaceholder, err)
            == a + x + err + y + b + ErrorPlaceholder + c
  {
    var rest := b + ErrorPlaceholder + c;
    SplitAtSecond(a, CodePlaceholder, b, ErrorPlaceholder, c);
    ReplacePlaceholderAfter(a, CodePlaceholder, rest, x + ErrorPlaceholder + y);
    Regroup(a, x, ErrorPlaceholder, y, rest);
    ReplacePlaceholderAfter(a + x, ErrorPlaceholder, y + rest, err);
    Flatten(a, x, err, y, b, ErrorPlaceholder, c);
  }

  /**
   * The error substitution runs on the text after the code substitution, so
   * when the code itself holds "{error}", the first one there receives the
   * error text and the template's own "{error}" is sent as it is.
   */
  lemma CodeCapturesErrorPlaceholder(templateBox: Option<string>, a: string, b: string, c: string,
                                     x: string, y: string, errorOutput: string)
    requires QuestionTemplate(templateBox) == a + CodePlaceholder + b + ErrorPlaceholder + c
    requires IndexOf(a, CodePlaceholder).None?
    requires IndexOf(a + x, ErrorPlaceholder).None?
    ensures Question(templateBox, x + ErrorPlaceholder + y, errorOutput)
            == a + x + ErrorText(errorOutput) + y + b + ErrorPlaceholder + c
  {
    ErrorInCodeFilled(a, b, c, x, y, ErrorText(errorOutput));
  }
}
