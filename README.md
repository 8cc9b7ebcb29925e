# OPT Mentor chat widget: formatter, stream accumulator, sessions and state

This project models the sequential core of the chat widget in
`optlite-webllm/optlite-components/js/webllm.ts`, the browser code that sends
the Python editor's code and error output to an in-browser language model and
shows a Socratic hint. The model covers:

- **Formatter** (`formatter.dfy`): `processMessageFormat`, the left-to-right
  scan that rewrites every `?` as `?<br>`. Its end-of-turn check for
  `<|im_end|>` sits behind the guard `false && ...`. The guard is the parameter
  `sentinelCheck`, and the widget's value for it is the constant
  `SentinelCheckEnabled` (false). So in the widget the stop flag is always false
  and the whole message is scanned.
- **Stream accumulator** (`streaming.dfy`): `streamingGenerating`. The engine's
  stream is a value: the chunks it delivers (an optional content delta and an
  optional usage each), then either the normal end with the result of
  `engine.getMessage()`, or an exception. The callbacks `onUpdate`, `onFinish`
  and `onError` become the log of the calls they receive. `onFinish` runs inside
  the same `try`, so a finish callback that throws is followed by `onError`.
- **Session and question** (`session.dfy`): the two-message session of
  `onMessageSend` and the question that the "Ask AI" handler fills in from the
  template. A text box that may be missing is an `Option` of its value.
- **Conversation state** (`memory.dfy`): the globals `messages`,
  `lastAIResponse` and `responseHistory`, as a class. Its methods are
  `clearMemory`, the finish callback, and `onMessageSend` running one
  generation.
- **Custom models** (`models.dfy`): the custom-model form's validation and
  record (context window 2048), the `window.customModels` map, and the
  add-if-absent step that puts a selected custom model on the app
  configuration's model list. That list and the map form a class.
- **String helpers** (`strings.dfy`): `startsWith` at an index, `indexOf`,
  `replace` with a string pattern (first occurrence only), ECMAScript `trim`,
  and the decimal rendering of `Date.now()`.

Three facts about the code shape the model:

- The code has no "busy" flag and no guard against starting a second
  generation while one runs, so none is modelled.
- The sentinel check in `processMessageFormat` is switched off by its guard
  `false && ...` (`webllm.ts:57`), so the formatter never stops at the
  sentinel.
- Every submission builds a fresh two-message session (`webllm.ts:159-165`,
  `webllm.ts:182-183`). The global `messages` array never receives a user
  message: the `messages.push(message)` there is commented out, and only
  `clearMemory` pushes to it, the default system message.

## Model

| member | source | states |
|---|---|---|
| Formatter.ProcessMessageFormat | optlite-webllm/optlite-components/js/webllm.ts:41-74 | The scan returns the expansion of the whole message (every `?` followed by `<br>`, every other character copied) and a false stop flag when the sentinel check is off. With the check on, it returns the expansion of the text before the first end-of-turn sentinel and a true flag. |
| Formatter.ExpandLength | optlite-webllm/optlite-components/js/webllm.ts:46-71 | Output length is input length plus 4 for every `?`. |
| Formatter.ExpandUnchangedIff | optlite-webllm/optlite-components/js/webllm.ts:42-73 | The output equals the input exactly when the input has no `?`, so the empty input gives the empty output. |
| Formatter.ExpandKeepsDelimiterCount | optlite-webllm/optlite-components/js/webllm.ts:49-52 | The rewrite adds no `?` and removes none. |
| Formatter.ExpandIdempotentIff | optlite-webllm/optlite-components/js/webllm.ts:42-73 | Formatting the output again changes it exactly when the input had a `?`, so the formatter is not idempotent. |
| Formatter.ExpandAt | optlite-webllm/optlite-components/js/webllm.ts:46-70 | Input character i appears in the output as `?<br>` (for `?`) or as itself, at offset i plus 4 per earlier `?`. |
| Formatter.CollapseExpand | optlite-webllm/optlite-components/js/webllm.ts:46-71 | Removing the `<br>` after each `?` gives the input back, so nothing is lost or reordered. |
| Formatter.SentinelPassesThrough | optlite-webllm/optlite-components/js/webllm.ts:53-65 | With the widget's disabled check, a literal end-of-turn sentinel in the message appears in the output, shifted by 4 per earlier `?`. |
| Formatter.StopsAtFirstSentinel | optlite-webllm/optlite-components/js/webllm.ts:55-60 | With the check on, the output is the expansion of the text before the first sentinel and the stop flag is set. |
| Formatter.ExpandAppend | optlite-webllm/optlite-components/js/webllm.ts:46-71 | Formatting a concatenation is concatenating the formatted parts, so the scan can append piece by piece. |
| Streaming.StreamingGenerating | optlite-webllm/optlite-components/js/webllm.ts:117-142 | The callbacks are called exactly as Events describes: one `onUpdate` per chunk with the concatenated non-empty deltas so far, then `onFinish(getMessage(), last usage)` (followed by `onError` if `onFinish` throws), or `onError` alone. |
| Streaming.UpdateExtendsByDelta | optlite-webllm/optlite-components/js/webllm.ts:127-135 | Each update's text is the previous update's text plus that chunk's delta. A chunk without content repeats the previous text and is still reported. |
| Streaming.UpdatesArePrefixes | optlite-webllm/optlite-components/js/webllm.ts:127-135 | Every update is a prefix of every later one: the later text is the earlier text plus the deltas in between. |
| Streaming.LastUsageIsLatest | optlite-webllm/optlite-components/js/webllm.ts:132-134 | The reported usage is absent exactly when no chunk carried one. Otherwise it is the usage of a chunk after which no chunk carried one. |
| Streaming.EventsShape | optlite-webllm/optlite-components/js/webllm.ts:127-141 | The first events are the updates, one per chunk. The next event is `onFinish` exactly when the stream ended normally and `getMessage` succeeded, and it carries the engine's message, not the accumulated text. The log ends with `onError` exactly when that did not happen or the finish callback threw. |
| Streaming.AtMostOneFinish | optlite-webllm/optlite-components/js/webllm.ts:137-141 | `onFinish` is called at most once, and only right after the last update. |
| Streaming.HelloWorld | optlite-webllm/optlite-components/js/webllm.ts:127-138 | The deltas "Hello", " world", "!" give the updates "Hello", "Hello world", "Hello world!", then one `onFinish`. |
| Streaming.AccumulatedAppend | optlite-webllm/optlite-components/js/webllm.ts:129-131 | Accumulating the deltas of two runs of chunks concatenates their texts. |
| Session.SystemPrompt | optlite-webllm/optlite-components/js/webllm.ts:155-161 | The system content is never empty. It is the trimmed prompt box when that is present and non-empty, and the default prompt otherwise. |
| Session.BuildSession | optlite-webllm/optlite-components/js/webllm.ts:145-165 | Nothing is built exactly when the input is empty. Otherwise the session is the system prompt (non-empty) as a system message, followed by the user's input unchanged. |
| Session.BlankPromptFallsBack | optlite-webllm/optlite-components/js/webllm.ts:156-161 | A prompt box holding only whitespace gives the default system prompt. |
| Session.SystemPromptIsTrimmed | optlite-webllm/optlite-components/js/webllm.ts:156-161 | The system content never has whitespace at either end. |
| Session.ErrorText | optlite-webllm/optlite-components/js/webllm.ts:326 | The error text is the error output itself exactly when it holds no "(UNSUPPORTED FEATURES)". Otherwise it is the text before the first marker followed by the text after it. |
| Session.QuestionTemplate | optlite-webllm/optlite-components/js/webllm.ts:320-322 | The template never has whitespace at either end. It is empty exactly when the template box is present and holds only whitespace: a blank box does not fall back to the default. |
| Session.Question | optlite-webllm/optlite-components/js/webllm.ts:328-331 | A template holding neither `{code}` nor `{error}` is sent as it is, whatever the code and error output. |
| Session.AskAI | optlite-webllm/optlite-components/js/webllm.ts:317-334 | Nothing is sent exactly when the filled-in question is empty. Otherwise the session is the system prompt as a system message followed by the question as the user message. |
| Session.BlankTemplateSendsNothing | optlite-webllm/optlite-components/js/webllm.ts:321-334 | A template box holding only whitespace gives an empty question, so nothing is sent. |
| Session.QuestionOfTemplate | optlite-webllm/optlite-components/js/webllm.ts:326-331 | For a template "A{code}B{error}C" where A holds no `{code}` and A, the code and B hold no `{error}`, the question is A, the code, B, the error text and C. Braces elsewhere in the code do not matter. |
| Session.QuestionFillsBoth | optlite-webllm/optlite-components/js/webllm.ts:329-331 | The two chained first-occurrence replacements fill the template's `{code}` and `{error}` in place, for any code that holds no `{error}`. |
| Session.QuestionFillsBothErrorFirst | optlite-webllm/optlite-components/js/webllm.ts:329-331 | A template with `{error}` before `{code}` is filled in place too, when the text up to `{code}` holds no earlier `{code}` and the text before `{error}` holds no `{error}`. |
| Session.CodeCapturesErrorPlaceholder | optlite-webllm/optlite-components/js/webllm.ts:329-331 | The `{error}` replacement runs after the `{code}` replacement. So the first `{error}` inside the code gets the error text, and the template's own `{error}` is sent unreplaced. |
| Session.ErrorInCodeFilled | optlite-webllm/optlite-components/js/webllm.ts:329-331 | The chained replacements put the error text in the first `{error}` of the code that filled `{code}`, and keep the template's later `{error}`. |
| Session.ReplacePlaceholderAfter | optlite-webllm/optlite-components/js/webllm.ts:329-331 | Replacing a placeholder that follows text without a whole occurrence of it replaces that occurrence in place, even when the text before has braces. |
| Session.ShortErrorTextUnchanged | optlite-webllm/optlite-components/js/webllm.ts:326 | An error output shorter than "(UNSUPPORTED FEATURES)" is used as it is. |
| Strings.IndexOfIsFirst | optlite-webllm/optlite-components/js/webllm.ts:329-331 | `indexOf` returns the first occurrence: no occurrence starts earlier, and "not found" means no occurrence anywhere. |
| Strings.ReplaceFirst | optlite-webllm/optlite-components/js/webllm.ts:326-331 | `replace` with a string pattern returns the text unchanged when the pattern is absent. Otherwise the length changes by the replacement's length minus the pattern's. |
| Strings.ReplaceFirstLeavesLater | optlite-webllm/optlite-components/js/webllm.ts:329-331 | Only the first occurrence is replaced: a later one that does not overlap it survives, shifted. |
| Strings.ReplaceFirstKeepsPrefix | optlite-webllm/optlite-components/js/webllm.ts:326-331 | The text before the replaced occurrence is kept, and the replacement follows it. |
| Strings.TrimStart | optlite-webllm/optlite-components/js/webllm.ts:156 | Leading trim gives a suffix that does not start with whitespace, and everything dropped is whitespace. |
| Strings.TrimEnd | optlite-webllm/optlite-components/js/webllm.ts:156 | Trailing trim gives a prefix that does not end with whitespace, and everything dropped is whitespace. |
| Strings.TrimEmptyIff | optlite-webllm/optlite-components/js/webllm.ts:156-161 | `trim` gives "" exactly when every character is whitespace. |
| Strings.TrimIdempotent | optlite-webllm/optlite-components/js/webllm.ts:322 | Trimming twice is trimming once. |
| Strings.NatToDecimal | optlite-webllm/optlite-components/js/webllm.ts:424 | The rendering of a number is a non-empty digit string with no leading zero. |
| Strings.DecimalRoundTrip | optlite-webllm/optlite-components/js/webllm.ts:424 | Reading the rendering back gives the number. |
| Memory.FinishCallbackRaises | optlite-webllm/optlite-components/js/webllm.ts:210-211 | The finish callback throws exactly when the usage is missing, because it reads `usage.prompt_tokens`. |
| Memory.MissingUsageReportsError | optlite-webllm/optlite-components/js/webllm.ts:132-141 | A completed stream always reaches `onFinish`. `onError` follows it exactly when no chunk carried a usage. |
| Memory.ChatMemory.constructor | optlite-webllm/optlite-components/js/webllm.ts:7-16 | At page load `messages` is one default system message and the answer and history are empty. |
| Memory.ChatMemory.ClearMemory | optlite-webllm/optlite-components/js/webllm.ts:19-29 | After clearing, the state is exactly one default system message with an empty answer and history, whatever it was before, so clearing twice is clearing once. |
| Memory.ChatMemory.OnFinishGenerating | optlite-webllm/optlite-components/js/webllm.ts:197-207 | The formatted final message becomes the last answer. Exactly one history entry (timestamp, formatted message, usage) is appended, nothing is removed, and `messages` is untouched. |
| Memory.ChatMemory.OnMessageSend | optlite-webllm/optlite-components/js/webllm.ts:145-258 | An empty input changes nothing and calls nothing. Otherwise the callbacks see Events for the two-message session. The history grows by one entry and `lastAIResponse` becomes the formatted engine message exactly when the stream completes; otherwise both are unchanged. `messages` is never changed. |
| Models.CustomModelRecord | optlite-webllm/optlite-components/js/webllm.ts:421-442 | The form is refused with "Please enter Base URL and WASM URL" exactly when the trimmed base or WASM URL is empty. Otherwise the record holds the trimmed URLs, a non-empty id (the trimmed id box, or the generated id) and context window size 2048. |
| Models.GeneratedModelId | optlite-webllm/optlite-components/js/webllm.ts:424 | A generated id starts with "Custom-" and has no surrounding whitespace. |
| Models.GeneratedIdEncodesTime | optlite-webllm/optlite-components/js/webllm.ts:424 | A generated id is "Custom-" followed by the decimal digits of the time it was added. |
| Models.CustomModelIdIsTrimmed | optlite-webllm/optlite-components/js/webllm.ts:422-424 | A record's id never has whitespace at either end. |
| Models.FindModel | optlite-webllm/optlite-components/js/webllm.ts:107 | `find` returns nothing exactly when no record has the id. Otherwise it returns the first record with that id. |
| Models.ModelConfig.AddCustomModel | optlite-webllm/optlite-components/js/webllm.ts:421-452 | A refused form changes nothing. Otherwise the record is filed under its own id, replacing any earlier one, and every record stays filed under its id. |
| Models.ModelConfig.InjectSelectedModel | optlite-webllm/optlite-components/js/webllm.ts:103-110 | A selected custom model's record is appended only when no listed record has its id. Afterwards the id is listed, distinct ids stay distinct, and a second call changes nothing. |

## Left out

- DOM work is not modelled: element lookups, `innerHTML`/`textContent` writes, showing and hiding, button enabling, option elements, `displaySentContent`, `showLastModified`, and the "AI is thinking..." and "Error: ..." texts. The same goes for reading the editor through `extractText`: the code text is a parameter.
- The `MutationObserver` of `initializeErrorObserver` and the `DOMContentLoaded` wiring are event plumbing. They are not modelled.
- `localStorage` persistence of the prompt and template is browser storage. The boxes' current values are parameters.
- Engine calls are not modelled: `reload`, `setAppConfig`, `chat.completions.create`, `getMessage` and `interruptGenerate`. The engine's answer to a session is the `EngineStream` parameter, and which session produced it is not modelled.
- `async`/`for await` scheduling and interleaving of several generations are not modelled. The code has no guard against overlapping generations. `stopGeneration` only calls `interruptGenerate` and writes to the page, and it promises nothing about later chunks.
- The `onUpdate` callback only writes to the page. The `interruptGenerate` call it would make is reachable only through the stop flag, which the widget never sets.
- Streaming.Usage: only the token counts are kept. The prefill and decode rates and their `toFixed(4)` rendering are floating point.
- Memory.FinishCallbackRaises: models only the error from a missing `usage`, with the fixed message `UsageUndefinedError`. The browser's own TypeError text and a missing `usage.extra` are not modelled.
- Streaming.Chunk: a chunk whose `choices[0]` has no `delta` would throw on `.delta.content`. That case is not modelled: a chunk either has content or has none.
- `new Date()` timestamps and `Date.now()` ids are nondeterministic, so both are parameters.
- Strings.ReplaceFirst: treats the replacement literally. With a string pattern, JavaScript expands `$&`, `` $` ``, `$'` and `$$` in the replacement string (`$1` has no group and is copied as written); that expansion is not modelled. Code or error text holding one of these, such as the regular expression `'^\d+$'`, is therefore filled in as written by Session.Question and by the lemmas built on it (Session.QuestionFillsBoth, Session.QuestionFillsBothErrorFirst, Session.QuestionOfTemplate, Session.CodeCapturesErrorPlaceholder, Session.ErrorInCodeFilled), where the browser would expand it.
- Strings.IsWhitespace: lists the ECMAScript WhiteSpace and LineTerminator code points of current Unicode (the Zs separators written out). A future Unicode version that adds separators is not tracked.
- Reading `frontendErrorOutput` when that element is missing throws before the question is built. That case is not modelled: the error output is a string. `textContent?.` and `|| ""` change nothing for a string.
- The choice between `engine["appConfig"]` and the prebuilt configuration is a choice of which list object `ModelConfig` holds. The model does not say which one.
