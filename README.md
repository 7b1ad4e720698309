# Interactive story engine: turn state, proxy parsing and view selection

This is a model of a browser text adventure's core. A language model tells the
story, and the player answers its questions. Each turn has three parts:

- The browser sends the game state and the player's input to a serverless
  proxy.
- The proxy asks the model for the next scene. It recovers the one JSON object
  in the model's raw text and answers with an HTTP status.
- The browser applies the reply to its single game state. That means the
  stat deltas clamped to ±3, the flags added and removed, the ending unlocked,
  the recent-exchange log capped at 6 entries and the rolling 400-character
  summary. Then it renders the scene.

The project is modelled in seven modules:

- `Wrappers` holds `Option`.
- `JsString` holds `String.prototype.trim`, `indexOf`, `lastIndexOf` and the
  decimal form of integers.
- `Js` holds JavaScript values as `JSON.parse` yields them, with `undefined`,
  truthiness, `||`, `??`, optional property access, `Number()` and `String()`.
- `Store` holds `js/store.js`. `GameState` is a class with the fields of the
  one `state` object and with `pushRecent` as a method.
- `Engine` holds `js/engine.js`. Each step is a pure function on a `Snapshot`
  of the state, and the lemmas are about those functions. Each step is also a
  method that updates `GameState` in place, in the order the source runs it.
  Each method's `ensures` ties the new state to its function.
- `Story` holds `api/story.js`: `safeJson` and the status decisions of
  `handler`.
- `GameView` holds the pure parts of `js/render/gameView.js`:
  - `charSrc`;
  - `escapeHTML`;
  - the narration paragraph split;
  - the choice between the ending and the question panel;
  - the cap of three cast thumbnails.

Some outside code is turned into parameters:

- The proxy call (`callStoryAPI`) is the `reply` parameter of `RunTurn`. `None`
  means the call rejected.
- The model call is a function parameter of `Handler`.
- `JSON.parse` is a function parameter `parse` that answers `None` where it
  throws.
- The environment variable `GEMINI_API_KEY` is the parameter `apiKey`.

A render function that throws a `TypeError` is modelled with an `Option` result:
`None` stands for the throw.

Reaching an ending that is already unlocked overwrites its record with the
new title, summary and turn (`js/engine.js:32-39`). The ids are never lost, as
`RecordEnding` states. An `endingId` whose key is `__proto__` runs the
prototype setter instead of writing a record, so it adds no ending id.

## Model

| member | source | states |
|---|---|---|
| Js.ToNumber | js/engine.js:8 | `Number(v)` of a number is that number; `undefined` and objects without an own `toString` key give NaN (one with such a key throws in the source; see "Left out") |
| Js.StringToNumber | js/engine.js:8 | `Number` of a blank string is 0, and of a string of digits (after trimming) is their decimal value |
| Js.ToStr | js/render/gameView.js:67 | `String` of a string is that string; `Number(String(n))` is `n` for every integer; an object is "[object Object]" when it has no own `toString` key (one that has throws in the source; see "Left out") |
| JsString.Trim | js/engine.js:49 | the result is the input without its leading and trailing white space: a slice of it whose both ends are non-blank, with blanks only outside |
| JsString.TrimIdempotent | js/render/gameView.js:19 | trimming twice is trimming once |
| JsString.IndexOf | api/story.js:30 | the first position of the character, or -1 when it does not occur |
| JsString.LastIndexOf | api/story.js:31 | the last position of the character, or -1 when it does not occur |
| Store.Pushed | js/store.js:16-19 | below the limit the entry is appended; at the limit exactly the oldest entry is dropped; a log within the limit stays within it; the new entry is last |
| Store.GameState.constructor | js/store.js:2-13 | the state starts at turn 0, chapter "BOOK1_CH01", stats 5/5/5, no flags, empty memory, no endings, `lastAI` null |
| Store.GameState.PushRecent | js/store.js:16-19 | the log becomes `Pushed(old log, {role, text}, limit)`; the summary is unchanged |
| Engine.Clamp | js/engine.js:7-11 | NaN gives 0; a number is kept inside [min, max], given back when inside, and cut to the nearer bound when outside |
| Engine.DeltaStats | js/engine.js:17 | `d?.stats \|\| {}` is truthy, and is the empty object when the reply's stats are missing or falsy |
| Engine.StatChange | js/engine.js:18-20 | each stat change is within ±3, and a missing or null delta is 0 |
| Engine.AddStats | js/engine.js:17-20 | each stat moves by exactly its clamped delta |
| Engine.StatDeltaBounds | js/engine.js:17-20 | each of sanity, stamina and luck moves at most 3 per turn; a delta that is the number `d` moves it by `d` cut to [-3, 3]; a missing delta leaves it where it was |
| Engine.FlagList | js/engine.js:23-24 | a `flags_add`/`flags_remove` that is not an array is treated as empty |
| Engine.Includes | js/engine.js:25-26 | `includes` finds only values in the list, and never finds an object or array |
| Engine.AddFlags | js/engine.js:25 | the old flags are kept, in place, as a prefix |
| Engine.AddFlagsStep | js/engine.js:25 | one iteration of the loop pushes the flag exactly when it is not yet included |
| Engine.AddFlagsMembers | js/engine.js:25 | after the loop, a value is a flag exactly when it was a flag or is in `add` |
| Engine.AddFlagsNoNewDuplicates | js/engine.js:25 | the loop adds no duplicate, so duplicate-free flags stay duplicate-free |
| Engine.AddFlagsKeepOrder | js/engine.js:25 | the added flags form a subsequence of `flags_add`; that each is its first occurrence follows step by step from `AddFlagsStep` |
| Engine.RemoveFlags | js/engine.js:26 | the filter never lengthens the list |
| Engine.RemoveFlagsMembers | js/engine.js:26 | a value is kept exactly when it was a flag and `flags_remove` does not include it |
| Engine.RemoveFlagsKeepOrder | js/engine.js:26 | the kept flags keep their order, and no duplicate appears |
| Engine.NextFlags | js/engine.js:22-26 | every flag after the update was there before or was added, and is not in `flags_remove` |
| Engine.FlagUpdate | js/engine.js:22-26 | a removed flag is gone even if it was also added; any other flag is present exactly when it was there or was added; the order and distinctness are kept |
| Engine.WithDelta | js/engine.js:13-27 | `applyDelta` changes the stats and flags and nothing else |
| Engine.ApplyDelta | js/engine.js:13-27 | the in-place update leaves the state `WithDelta(old state, ai)`; the loop invariant tracks `AddFlags` on the processed prefix |
| Engine.EndingKey | js/engine.js:34 | a string `endingId` is its own property key |
| Engine.ReachesEnding | js/engine.js:30-32 | `applyEnding` goes past its two early returns only for an `end` object with an `endingId` |
| Engine.EndingFor | js/engine.js:34-39 | the record is unlocked and stamped with the turn; the title falls back to the id and the summary to "" |
| Engine.RecordEnding | js/engine.js:29-40 | without a truthy `end` and `endingId`, or with the key `__proto__`, nothing changes; otherwise that id gets `EndingFor`; every other id is unchanged, no id is lost, and `__proto__` never becomes an own key |
| Engine.WithEnding | js/engine.js:29-40 | `applyEnding` changes the endings and nothing else |
| Engine.ApplyEnding | js/engine.js:29-40 | the in-place update leaves the state `WithEnding(old state, ai)` |
| Engine.Logged | js/engine.js:44-45 | the player's input is logged unless it is empty or the start marker, then the narration (or "") always is |
| Engine.PushedAll | js/engine.js:44-45 | logging keeps the log within 6 entries, and the last entry logged is last |
| Engine.LogExchange | js/engine.js:44-45 | the two `pushRecent` calls leave the log `PushedAll(old log, Logged(input, ai))` and the summary unchanged |
| Engine.SummaryLine | js/engine.js:49 | the line is the trimmed `ai.status.summary` when that is a string, and "" when it is missing or falsy; `None` (the `.trim` throw) exactly when it is truthy and not a string; a line is already trimmed |
| Engine.LastChars | js/engine.js:52 | `slice(-n)` is the last `min(n, length)` characters |
| Engine.NextSummary | js/engine.js:49-53 | an empty line leaves the summary alone; otherwise the summary is at most 400 characters |
| Engine.SummaryKeepsNewest | js/engine.js:50-53 | the new summary is the tail of the old summary, " / " and the line; a line within 400 characters survives whole at its end |
| Engine.FoldSummary | js/engine.js:50-53 | the in-place update leaves the summary `NextSummary(old summary, line)` and the log unchanged |
| Engine.WithMemory | js/engine.js:42-54 | `updateMemory` changes only the memory, and completes exactly when the summary line can be read |
| Engine.UpdateMemory | js/engine.js:42-54 | the in-place update leaves the state and the completion flag as `WithMemory` says |
| Engine.ReportedTurn | js/engine.js:58 | a reported turn is never 0; a missing or null `turn` reports nothing; a non-zero number is reported as it is |
| Engine.NextTurn | js/engine.js:58 | the new turn is the reported non-zero number, or the old turn plus one |
| Engine.WithAI | js/engine.js:56-62 | `applyAI` stores the reply, sets the turn and chapter, applies the delta, then the ending at the new turn; the memory is unchanged |
| Engine.ApplyAI | js/engine.js:56-62 | the in-place update leaves the state `WithAI(old state, ai)` |
| Engine.Turn | js/engine.js:73-90 | a rejected call changes nothing; a reply never counts as a failed call |
| Engine.TurnKeepsBounds | js/engine.js:86-88 | every turn keeps the log within 6 entries, the summary within 400 characters, and the flags free of duplicates |
| Engine.CompletedTurn | js/engine.js:86-88 | a completed turn logs the exchange; the turn is the reported or next one; the ending is stamped with the new turn, or left alone for the key `__proto__`; no ending id is lost |
| Engine.ThrowingTurn | js/engine.js:44-49 | when `.trim` throws, the exchange is already logged and nothing else has changed |
| Engine.RunTurn | js/engine.js:73-90 | the payload is built from the state before the call; the state and outcome afterwards are those of `Turn` |
| Engine.PayloadOf | js/engine.js:74-84 | the payload carries the turn, the input and the ids of the unlocked endings |
| Engine.PayloadKeepsEndingIds | js/engine.js:74-88 | the ending ids sent by the next turn include every id sent before, whatever became of the turn |
| Engine.NewGame | js/engine.js:92-104 | a failed first call leaves the initial state; a reply is never a failed call |
| Engine.NewGameFirstTurn | js/engine.js:92-104 | the first turn of a new game logs only the narration, reaches turn 1 unless another is reported, keeps stats within 2..8, and unlocks at most one ending |
| Engine.StartNewGame | js/engine.js:92-104 | the state is reset, then the start-marker turn runs; the state and outcome are those of `NewGame` |
| Story.OpeningFenceLength | api/story.js:27 | only a text that starts with three backticks has an opening fence to strip |
| Story.StripOpeningFence | api/story.js:27 | the result is a suffix of the text, shorter only when the text starts with three backticks |
| Story.StripClosingFence | api/story.js:27 | the result is a prefix of the text: the text itself, or the text without a final three backticks |
| Story.Cleaned | api/story.js:24-27 | the cleaned text is trimmed and no longer than the reply |
| Story.BraceSlice | api/story.js:30-34 | a slice is at least two characters, starts with `{` and ends with `}` |
| Story.BraceSliceBounds | api/story.js:30-34 | there is no slice exactly when `{` or `}` is missing or the last `}` is not after the first `{`; otherwise the slice runs from the first `{` to the last `}` |
| Story.ParserInput | api/story.js:21-34 | an empty reply is not parsed; otherwise the parser is given the brace slice of the cleaned text |
| Story.SafeJson | api/story.js:21-41 | `safeJson` is null when there is no slice; otherwise it is what `JSON.parse` makes of the slice, with a throw caught as null |
| Story.SliceMargins | api/story.js:30-34 | margins without braces do not change the brace slice |
| Story.TrimMargins | api/story.js:24-27 | trimming does not change the brace slice |
| Story.OpeningFenceMargin | api/story.js:27 | stripping the opening fence does not change the brace slice |
| Story.ClosingFenceMargin | api/story.js:27 | stripping the closing fence does not change the brace slice |
| Story.ParserInputIsRawSlice | api/story.js:24-34 | the cleaning steps never change what is parsed: the parser input is the brace slice of the raw reply |
| Story.ProseAndFencesIgnored | api/story.js:21-41 | an object between prose or fences without braces is parsed exactly as it is |
| Story.ObjectBetweenMargins | api/story.js:21-34 | a `{…}` slice between brace-free margins is exactly what the parser is given |
| Story.WholeObject | api/story.js:30-34 | a text that is one `{...}` is its own slice |
| Story.NoObjectNoParse | api/story.js:30-32 | without a `{` followed by a `}`, `safeJson` is null |
| Story.InvalidJson | api/story.js:153-156 | the 502 body carries the first 800 characters of the raw reply |
| Story.MissingKeys | api/story.js:160-165 | the 502 body carries the parsed value as `got` |
| Story.KeySet | api/story.js:123 | a missing or empty `GEMINI_API_KEY` counts as unset |
| Story.WellFormedBody | api/story.js:127-130 | a body that passes is an object with `state` and `user_input` keys |
| Story.HasRequiredKeys | api/story.js:160 | a value that passes is an object with `narration`, `cast`, `status` and `delta` keys |
| Story.Handler | api/story.js:116-171 | OPTIONS gives 200 and no body; another method gives 405; a missing key gives 500; a bad body gives 400; the only other statuses are 500 and 502; every error has an `error` field; a 200 POST reply has the four required keys |
| Story.RejectedBeforeModelCall | api/story.js:119-132 | a request rejected before the model call gets the same answer whatever the model and parser do |
| Story.AcceptedReply | api/story.js:148-167 | a valid POST is answered 200 exactly when the reply's slice parses to a truthy value with the four keys, and the body is then that value; a failed parse and a falsy parse result both give 502 with the invalid-JSON body; a truthy result without the four keys gives 502 with the missing-keys body holding that result; a model error gives 500 with its message |
| GameView.ReplaceAll | js/render/gameView.js:113 | after replacing every `c` by a text without `c`, no `c` is left; a character in neither the text nor the replacement does not appear |
| GameView.EscapeText | js/render/gameView.js:111-118 | the escaped text holds no `<`, `>`, `"` or `'` |
| GameView.ReplaceAllConcat | js/render/gameView.js:113-117 | a replacement pass works piece by piece over a concatenation |
| GameView.EscapeHtml | js/render/gameView.js:111-118 | `escapeHTML` of any value holds no `<`, `>`, `"` or `'`; of a string it is `EscapeText` of that string |
| GameView.EscapeTextChar | js/render/gameView.js:111-118 | one character goes through the five passes to exactly its own entity |
| GameView.EscapeTextIsPerChar | js/render/gameView.js:111-118 | the five chained passes equal escaping each character once, because `&` goes first |
| GameView.UnescapeEscape | js/render/gameView.js:111-118 | reading the five entities back gives the original text |
| GameView.NoMarkupUnchanged | js/render/gameView.js:111-118 | a text with nothing to escape is shown as it is |
| GameView.ImagePath | js/render/gameView.js:20 | definition only: the template path, with `String(id)` in both places; `ImagePathInjective` is about it |
| GameView.CharSrc | js/render/gameView.js:18-21 | `charSrc` throws exactly when the expression is truthy and not a string |
| GameView.FalsyExpressionIsNeutral | js/render/gameView.js:19 | a missing or falsy expression gives the `neutral` image |
| GameView.PaddingIgnored | js/render/gameView.js:19 | white space around the expression does not change the path |
| GameView.BlankExpressionIsEmpty | js/render/gameView.js:19 | an expression of white space only is truthy, so it gives an empty expression segment rather than `neutral` |
| GameView.ImagePathInjective | js/render/gameView.js:20 | for one character, different expressions give different paths |
| GameView.PortraitOf | js/render/gameView.js:56-58 | a portrait is drawn exactly when `charSrc` of its expression does not throw |
| GameView.FallbackIsNeutral | js/render/gameView.js:43-45 | the fallback image is the neutral image of the same character, and it is the main image when no expression is given |
| GameView.ThumbnailList | js/render/gameView.js:51 | `(others \|\| []).slice(0, 3)` has at most three items |
| GameView.ArrayOthersPrefix | js/render/gameView.js:51 | an array of others keeps its first `min(3, length)` entries unchanged |
| GameView.ThumbnailOf | js/render/gameView.js:52-58 | a null or undefined item throws at `p.name`; any other throws exactly when `charSrc` of its expression does |
| GameView.ThumbnailResults | js/render/gameView.js:52-58 | one result per listed item, in list order |
| GameView.AllSomeDefined | js/render/gameView.js:52-60 | the loop completes exactly when no item throws |
| GameView.AllSomeInOrder | js/render/gameView.js:52-60 | a completed loop has one result per item, in order |
| GameView.ThumbnailsOf | js/render/gameView.js:52-60 | a completed loop has one thumbnail per listed item |
| GameView.ThumbnailsInOrder | js/render/gameView.js:52-60 | the loop completes exactly when no listed item throws; the strip then has one thumbnail per item, each that item's, in list order |
| GameView.Prefix | js/render/gameView.js:52-60 | the values drawn before a throw are never more than the items |
| GameView.PrefixUpToMissing | js/render/gameView.js:52-60 | the prefix holds each result up to the first throw, in order; the item at its end is the one that throws; with no throw it is every result |
| GameView.DrawnThumbnails | js/render/gameView.js:50-60 | the strip never holds more thumbnails than there are listed items |
| GameView.DrawnBeforeThrow | js/render/gameView.js:50-60 | the cleared strip ends up holding the thumbnails of the items before the first one that throws, in order, and all of them when none throws |
| GameView.ThumbnailCap | js/render/gameView.js:51-60 | a rendered strip has at most three thumbnails, taken in order from the front of `others` |
| GameView.AllSome | js/render/gameView.js:52-60 | a completed loop has one result per item |
| GameView.RenderCast | js/render/gameView.js:38-62 | a rendered cast has at most three thumbnails, and the active portrait is shown exactly when `cast.active` is truthy |
| GameView.FirstBlankLine | js/render/gameView.js:68 | the leftmost match of `/\n{2,}/` starts at the first `\n\n`, or there is none |
| GameView.NewlineRun | js/render/gameView.js:68 | the greedy match takes the whole run of newlines |
| GameView.SplitBlankLines | js/render/gameView.js:68 | `split` always yields at least one piece |
| GameView.BlankRuns | js/render/gameView.js:68 | there is one separator fewer than pieces |
| GameView.SplitRejoin | js/render/gameView.js:68 | putting the separators back between the pieces gives the text again |
| GameView.RunsAreBlankLines | js/render/gameView.js:68 | every separator is two or more newlines |
| GameView.PiecesHaveNoBlankLine | js/render/gameView.js:68 | no piece holds two newlines in a row |
| GameView.SplitPiecesEdges | js/render/gameView.js:68 | the separators are maximal: no piece before one ends with a newline, and no piece after one starts with a newline |
| GameView.PiecesEndBeforeRun | js/render/gameView.js:68 | no piece before a separator ends with a newline |
| GameView.PiecesStartAfterRun | js/render/gameView.js:68 | no piece after a separator starts with a newline |
| GameView.InnerPiecesNonEmpty | js/render/gameView.js:68 | only the first and the last piece can be empty, so together with the edges above the split is the only one of its kind |
| GameView.KeepTrimmed | js/render/gameView.js:68 | map-trim-filter never yields more paragraphs than there are pieces, and none of them is empty |
| GameView.KeepTrimmedConcat | js/render/gameView.js:68 | map-trim-filter works piece by piece: the paragraphs of joined lists are the paragraphs of each, in order |
| GameView.KeepTrimmedOne | js/render/gameView.js:68 | one piece gives its trim, or nothing when it is blank |
| GameView.KeptAreTrimmedPieces | js/render/gameView.js:68 | every paragraph is the non-empty trim of some piece |
| GameView.NonBlankPiecesKept | js/render/gameView.js:68 | every piece that trims to something non-empty is kept |
| GameView.FirstPieceKept | js/render/gameView.js:67-68 | a trimmed non-empty narration has at least one paragraph |
| GameView.Paragraphs | js/render/gameView.js:68 | an empty text has no paragraphs, and no paragraph is empty |
| GameView.ParagraphShape | js/render/gameView.js:67-68 | every paragraph is non-empty, has no white space at either end, and holds no blank line |
| GameView.NarrationText | js/render/gameView.js:67 | the narration text is trimmed, and empty when `ai.narration` is missing or falsy |
| GameView.ParagraphsHtml | js/render/gameView.js:69-70 | no paragraph gives "", and one gives `<p>`, its escaped text and `</p>` |
| GameView.ParagraphsHtmlConcat | js/render/gameView.js:69-70 | `map(...).join("")` works list by list: joined lists give their markups one after the other |
| GameView.PlaceholderIffBlank | js/render/gameView.js:67-71 | there is no paragraph exactly when the narration is missing, falsy or blank |
| GameView.NarrationHtml | js/render/gameView.js:66-71 | a missing, falsy or blank narration shows `<p>…</p>`; any other shows its escaped paragraphs |
| GameView.EndingIgnoresQuestion | js/render/gameView.js:88-93 | once `ai.end` is truthy the panel shows the ending, whatever `question` holds |
| GameView.QuestionIgnoresFalsyEnding | js/render/gameView.js:94-100 | a falsy `end` is the same as none: the question is shown |
| GameView.DefaultQuestionShown | js/render/gameView.js:95-97 | a missing or falsy question text shows "베르는 어떻게 할 거야?" unchanged |
| GameView.QuestionTitleReadsBack | js/render/gameView.js:97 | unescaping the title gives back the question text |
| GameView.QuestionPanelOf | js/render/gameView.js:88-100 | neither line of the panel holds `<`, `>`, `"` or `'`, whatever the reply holds |

## Left out

- Numbers are integers. Fractions, exponents, `Infinity`, hexadecimal and the
  other forms `Number()` reads are not modelled, and NaN only arises as the
  result of `Number()`.
- `Js.ToNumber`, `Js.ToStr`: a JSON object with its own `toString` key, such
  as `{"toString": 1}`, is not coerced as the source coerces it. In the
  source, `Number()`, `String()`, a computed property key and the
  `textContent`/`alt` setters all look up `toString`, find it not callable,
  get the object back from `valueOf`, and throw a `TypeError`. An array
  holding such an object throws the same way through `join`. In the model,
  `ToNumber` gives NaN and `ToStr` gives "[object Object]". The throw is not
  modelled in any of the places coercion reaches:
  - `Clamp` and so `AddStats` (`js/engine.js:8`, `18-20`), where the source
    throws before the stats or flags change;
  - `NextTurn` (`js/engine.js:58`);
  - `EndingKey` (`js/engine.js:34`);
  - `NarrationText` and `EscapeHtml` (`js/render/gameView.js:67`, `112`);
  - the captions (`js/render/gameView.js:42`, `55`).
- Numbers are also unbounded, where JavaScript numbers are doubles. So
  `state.turn + 1` and the stat sums are exact in the model even beyond 2^53.
  Likewise `String(n)` (`IntToDecimal`) always writes plain digits, while
  JavaScript writes |n| ≥ 10^21 in exponent form. The second difference
  reaches `EndingKey`, `ImagePath` and `EscapeHtml` of a number.
- A string is a sequence of code points. JavaScript measures and slices by
  UTF-16 units, so `slice(-400)`, `slice(0, 800)` and `slice(0, 3)` on a
  string differ from the model for characters outside the Basic Multilingual
  Plane.
- The Unicode space separators that `trim` removes are written out as a fixed
  list in `JsString.IsWhitespace`, not read from the Unicode database.
- `RecordEnding`: for the key `__proto__` the source's assignment replaces the
  prototype of `state.endings`. The model keeps only what that leaves visible,
  which is no new own key. The new prototype itself is not modelled, since
  nothing in the core reads it.
- `Object.keys(state.endings)` in the payload is the set of ending ids. Its
  insertion order is not modelled.
- Arrays and objects in the flags are compared by identity in the source, where
  `includes` never finds them. The model says so by only including primitive
  values, and the flags themselves are held by value.
- The DOM is not modelled. That covers `innerHTML`, `textContent`,
  `appendChild`, the `onerror` handler of `setImgWithFallback`, the
  `requestAnimationFrame` scroll, and the checks that an element exists. Only
  what would be drawn is computed.
- The status line of `renderStory` (`js/render/gameView.js:75-85`) and
  `renderHUD` (`js/render/gameView.js:32-36`) are not modelled. Both are
  display code with no selection logic.
- `RenderCast`: `None` stands for a throw, and then gives no strip. What a
  throw leaves drawn is given by `DrawnThumbnails` instead: the thumbnails
  before the throwing item. The active name written into the DOM before a
  later throw is not modelled.
- An exception thrown by rendering inside `applyAI`, after the state has
  changed, is not modelled. Neither is `saveState`.
- `ApplyAI`: the calls to `renderHUD`, `renderCast`, `renderStory` and
  `saveState` are left out.
- `setCors`, the `SYSTEM_PROMPT` text, `JSON.stringify` of the prompt input,
  and the Gemini SDK objects are not modelled. The model call is a parameter
  that answers the reply text or the message it threw.
- `Handler`: any exception other than the model call's is not modelled. The
  500 `catch` branch is reached through `ModelOutcome.Failed`.
- The proxy call of `js/api.js`, `js/storage.js` and `js/app.js` are not part
  of this model.
- Promises, `await`, and concurrent turns (the input guard in `js/app.js`) are
  not modelled. `RunTurn` takes the awaited reply as a parameter.
