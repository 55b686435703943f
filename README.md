# SnippetsManager, modelled in Dafny

A model of the text-expansion core of quickwords (`src/main/modules/SnippetsManager.js`).
The manager watches key events, keeps a rolling buffer of recently typed
characters, and checks after each typed character whether the buffer ends with
the key of a stored snippet. On the first hit it deletes the typed key with
simulated backspaces. It then pastes the snippet's expansion through the
clipboard: it reads the clipboard, writes the expansion, sends the paste chord
after 50 ms and writes the old text back after 500 ms. An expansion is plain
text, the output of a Lua chunk, or the result of a JavaScript function.

Modules, one per concern:

- `JsValues` (`js_values.dfy`): JavaScript values, `String(v)`, `substring`, and promises that settle once.
- `KeyDecoder` (`key_decoder.dfy`): keycode and modifiers to the typed text.
  - The keycode table and the live layout table are map parameters.
  - `DecodeByTable` restates the decoding as a table and serves as the reference definition.
- `MatchBuffer` (`match_buffer.dfy`): shortening, trimming, and the first-in-first-out window.
- `SnippetMatcher` (`snippet_matcher.dfy`): matching with the pattern `.*(key)$` and the loop over snippets.
  - For a literal key, the model follows how `exec` runs the pattern: leftmost start, greedy `.*` that stops at line terminators, `$` only at the end of the input. It is proved equal to "the buffer ends with the key".
  - A `regex: true` key goes through a matcher parameter, which reports a malformed pattern (`new RegExp` throws), no match, or the first group.
- `Evaluators` (`evaluators.dfy`): the Lua and JavaScript evaluators.
  - Each foreign step is an input: load, call, `qprint` arguments, the kind of value returned.
  - Each evaluator is a method that settles a promise step by step, where the first settlement wins.
- `Injection` (`injection.dfy`): the outside world as a value.
  - It holds the clipboard, a log of actions in order, a virtual clock and the pending timers.
  - Timers fire by due time, and timers due at the same time fire in the order they were set.
  - `Replace` is the clipboard protocol.
- `Manager` (`snippets_manager.dfy`): the class `SnippetsManager`, with the fields `buffer`, `shouldMatch` and `world`.
  - Its methods follow the source step by step.
  - Each method's `ensures` ties the new state to the pure `KeyDown` / `MatchAndExpand` / `Expand` functions. The lemmas are stated about those functions.

Behaviour of the code as written, kept in the model:

- Line 266 calls `this._evaluate`, which does not exist. It throws a `TypeError` before any evaluation, so every `js` snippet expands to `"QWError TypeError: this._evaluate is not a function"`, or to `""` plus a notification (`JavascriptExpansion`). `EvaluateJavascript` is modelled on its own.
- `_handleLuaSnippet` pastes and restores by itself and then returns `undefined`, which line 229 hands to `replace`.
  - If the clipboard turns `undefined` into text, `replace` reads the Lua result as the "old" text and writes "undefined".
    - Both pastes fire at +50 and insert the text "undefined", not the Lua result (`LuaPaste`).
    - The restore at +500 then leaves the Lua result on the clipboard (`LuaExpansion`).
  - If the clipboard throws, the one paste at +50 inserts the Lua result, and the handler's own restore is the last write.
  - The world flag `coercesNonString` chooses between the two.
- `_.get('error', 'message', String(error))` always gives `String(error)`. The model writes `String(error)` directly.
- Nothing clears the buffer after a match (lines 221-235).
- Every Backspace without the option key shortens the buffer, including ctrl+Backspace and cmd+Backspace (lines 89, 104).
- The Lua error text is `"QWError: …"` (with a colon). The JavaScript one is `"QWError …"` (without).
- A decoded value longer than one character is trimmed by only one character, so the buffer can grow past `bufferLength` (`LongCharacterOutgrowsBound`).

## Model

| member | source | states |
|---|---|---|
| `JsValues.Substring` | src/main/modules/SnippetsManager.js:286-293 | `substring` clamps its indices to the string and swaps them, so the result is always a slice of the string and equals `s[start..end]` for in-range indices |
| `KeyDecoder.CharNameFromKeycode` | src/main/modules/SnippetsManager.js:45-47 | the key name is the table entry for the keycode, and missing (`null`) exactly when the table has none |
| `KeyDecoder.IsBackspace` | src/main/modules/SnippetsManager.js:41-43 | true exactly when the keycode's name is `Backspace` |
| `KeyDecoder.ShouldResetBuffer` | src/main/modules/SnippetsManager.js:86-92 | true exactly for option+Backspace, Tab and the four arrow keys |
| `KeyDecoder.EventToUnicode` | src/main/modules/SnippetsManager.js:49-76 | ctrl or meta always gives no character; an unknown keycode or a name missing from the layout gives none; a result is never empty; and it equals the modifier table (shift+option, then shift, then option, then base field) |
| `MatchBuffer.ShortenBy` | src/main/modules/SnippetsManager.js:286-288 | removes exactly `amount` trailing characters, and yields `""` when there are fewer (Backspace on an empty buffer is a no-op) |
| `MatchBuffer.TrimIfNecessary` | src/main/modules/SnippetsManager.js:290-294 | drops exactly the first character, and only when the buffer is longer than `bufferLength`; the result is a suffix of the buffer |
| `MatchBuffer.AddAndTrim` | src/main/modules/SnippetsManager.js:109-114 | the result is a suffix of buffer + character; it is buffer + character when that fits and otherwise drops one leading character; with a one-character value it stays within `bufferLength` |
| `MatchBuffer.AddAndTrimIsWindow` | src/main/modules/SnippetsManager.js:282-294 | for a buffer within bounds, appending one character and trimming gives the last `bufferLength` characters |
| `MatchBuffer.TypingKeepsMostRecent` | src/main/modules/SnippetsManager.js:282-294 | typing any sequence of single characters leaves exactly the most recent `bufferLength` characters (first in, first out) |
| `MatchBuffer.LongCharacterOutgrowsBound` | src/main/modules/SnippetsManager.js:290-294 | a two-character value appended to a full buffer leaves it one character over the bound |
| `SnippetMatcher.RunEnd` | src/main/modules/SnippetsManager.js:218 | the greedy `.*` reaches as far as the next line terminator, and crosses none |
| `SnippetMatcher.Backtrack` | src/main/modules/SnippetsManager.js:218 | backtracking finds a position exactly when the key ends the buffer and that position is in range, and then it is `|buffer| - |key|` |
| `SnippetMatcher.ExecFrom` | src/main/modules/SnippetsManager.js:213-219 | executing the escaped key's pattern captures the key when the buffer ends with it, and matches nothing otherwise |
| `SnippetMatcher.ExecLiteral` | src/main/modules/SnippetsManager.js:218 | `exec` of the escaped key's pattern matches exactly when the buffer ends with the key, and then the first group is the key |
| `SnippetMatcher.ExecLiteralIsEndsWith` | src/main/modules/SnippetsManager.js:213-219 | for a literal key, `exec` of `.*(escaped key)$` gives the key exactly when the buffer ends with it, and no match otherwise |
| `SnippetMatcher.MatchedString` | src/main/modules/SnippetsManager.js:211-221 | a literal key yields a match exactly when it is non-empty and ends the buffer, and the match is the key; a regex key yields a match exactly when the matcher captures a non-empty group, and the match is that group; a malformed pattern yields none; an empty match never counts |
| `SnippetMatcher.FirstMatchFrom` | src/main/modules/SnippetsManager.js:210-235 | the scan from position `i` stops at the first snippet whose pattern is malformed (`new RegExp` throws) or that has a non-empty match; every snippet before it neither throws nor matches; when it reaches the end, none from `i` on does either |
| `SnippetMatcher.FirstMatch` | src/main/modules/SnippetsManager.js:210-235 | the first snippet in store order that throws or has a non-empty match ends the scan; a hit carries a non-empty match of that snippet; no earlier snippet throws or matches; with neither, no snippet does |
| `SnippetMatcher.ThrowingKeyHidesLaterSnippets` | src/main/modules/SnippetsManager.js:210-218 | a snippet with a malformed regex key blocks every snippet after it: a hit, if any, comes before it |
| `SnippetMatcher.FirstLiteralWins` | src/main/modules/SnippetsManager.js:210-235 | a first literal snippet whose non-empty key ends the buffer is taken with the key as match, whatever comes after it |
| `Evaluators.Output` | src/main/modules/SnippetsManager.js:133 | nothing printed leaves the empty text |
| `Evaluators.OutputConcat` | src/main/modules/SnippetsManager.js:125-133 | the text of two runs of `qprint` is the text of the first followed by that of the second, so each print is appended in order |
| `Evaluators.LuaOutcome` | src/main/modules/SnippetsManager.js:138-159 | the evaluation always settles; it resolves exactly when neither the load nor the call raised, always with a string; a load error rejects with a string |
| `Evaluators.EvaluateLua` | src/main/modules/SnippetsManager.js:120-161 | a load error rejects with its text, even though `r(e)` runs later; otherwise a call error rejects with the error; otherwise the result is the concatenation of every `qprint` argument; the promise always settles |
| `Evaluators.EvaluateJavascript` | src/main/modules/SnippetsManager.js:163-207 | an eval error rejects with its text; a non-function rejects with "Used snippet code is not a function"; a throwing call rejects with the error; a string or number resolves with it; any other value rejects with the invalid-type message; a thenable defers to its settlement, or times out; the first rejection wins |
| `Injection.WriteText` | src/main/modules/SnippetsManager.js:243 | a string is written as is; any other value is written as its text or throws, depending on the clipboard |
| `Injection.InsertSplit` | src/main/modules/SnippetsManager.js:245-246 | a new timer goes after the leading run of timers due no later, and before the first one due later; in a queue kept in due order (`InsertKeepsOrder`) that is after every timer due no later |
| `Injection.SetTimeout` | src/main/modules/SnippetsManager.js:245-246 | setting a timer queues one more callback and changes nothing else: clipboard, log and clock stay as they were |
| `Injection.SetTimeoutKeepsOrder` | src/main/modules/SnippetsManager.js:245-246 | a queue in due order stays in due order, with exactly the new timer added |
| `Injection.RunDuePrefix` | src/main/modules/SnippetsManager.js:245-246 | letting time pass fires a prefix of the queue, every timer of it due by then, and stops at the first one not due; the clock does not move meanwhile |
| `Injection.RunDueFiresAllDue` | src/main/modules/SnippetsManager.js:245-246 | on a queue in due order, every timer due by then fires, every one left is due later, and the rest stays in due order |
| `Injection.AdvanceKeepsOrder` | src/main/modules/SnippetsManager.js:245-246 | after `ms` milliseconds the clock is `ms` later, the queue is still in due order and holds only timers due later |
| `Injection.InsertKeepsOrder` | src/main/modules/SnippetsManager.js:245-246 | setting a timer keeps the queue ordered by due time and adds exactly that timer |
| `Injection.LastDueWriteWins` | src/main/modules/SnippetsManager.js:246 | after the due timers have run, the clipboard holds what the last due clipboard write wrote |
| `Injection.SetTimeoutWriteDecides` | src/main/modules/SnippetsManager.js:246 | a clipboard write set `delay` ms ahead decides the clipboard once `delay` ms have passed |
| `Injection.Replace` | src/main/modules/SnippetsManager.js:239-247 | the clipboard is read first and then holds the value (`String(v)` for a non-string on a coercing clipboard), with two timers added; when the write throws, only the read happens and no timer is set; the clock does not move |
| `Injection.ReplaceQueues` | src/main/modules/SnippetsManager.js:239-247 | a successful `replace` queues exactly the paste at +50 and the write-back of the text read at +500 |
| `Injection.ReplaceKeepsOrder` | src/main/modules/SnippetsManager.js:239-247 | `replace` keeps the timer queue in due order |
| `Injection.ReplaceRestoresClipboard` | src/main/modules/SnippetsManager.js:239-247 | once both timers of `replace` have run, the clipboard holds the text it held before the call, even with other timers pending |
| `Injection.ReplaceTimeline` | src/main/modules/SnippetsManager.js:239-247 | the read comes before the write of `v`; the clipboard holds `v` until the paste at +50; the snapshot is written back at +500, and nothing else happens |
| `Manager.BackspaceTaps` | src/main/modules/SnippetsManager.js:222-224 | a run of `n` backspace taps |
| `Manager.Backspaces` | src/main/modules/SnippetsManager.js:222-224 | the loop appends exactly `n` backspace taps to the log and changes nothing else |
| `Manager.HandlePlainTextSnippet` | src/main/modules/SnippetsManager.js:278-280 | the stored value is the expansion, unchanged |
| `Manager.JavascriptSnippetEffect` | src/main/modules/SnippetsManager.js:264-276 | the result is the missing-`_evaluate` error text when notifications are unsupported, otherwise `""` with one notification logged; clipboard and timers are untouched |
| `Manager.LuaClipboardText` | src/main/modules/SnippetsManager.js:252-257 | a fulfilled string is written as is; a rejection writes `QWError: ` followed by the reason's text |
| `Manager.LuaClipboardShowsPrints` | src/main/modules/SnippetsManager.js:125-159 | a Lua snippet that raises nothing puts on the clipboard what it printed while loading, followed by what `qw` printed |
| `Manager.LuaSnippetEffectKeepsOrder` | src/main/modules/SnippetsManager.js:249-262 | the Lua handler keeps the timer queue in due order |
| `Manager.LuaSnippetEffect` | src/main/modules/SnippetsManager.js:249-262 | the clipboard is read, then holds the result text or `QWError: ` plus the error, and two timers are added; the clock does not move |
| `Manager.Expand` | src/main/modules/SnippetsManager.js:222-232 | an expansion only appends to the log (more than `|matched|` entries), adds at most four timers and never moves the clock |
| `Manager.MatchAndExpand` | src/main/modules/SnippetsManager.js:209-237 | without a hit, and when a malformed pattern ends the scan first, nothing changes; with one, more than `|matched|` actions are appended to the log and the earlier log is kept; the clock does not move |
| `Manager.MalformedFirstKeyDisablesAll` | src/main/modules/SnippetsManager.js:210-218 | when the first stored snippet's regex key is malformed, no typed text expands anything |
| `Manager.MouseClick` | src/main/modules/SnippetsManager.js:82-84 | a click empties the buffer and changes nothing else, even while matching is disabled |
| `Manager.KeyDown` | src/main/modules/SnippetsManager.js:94-118 | disabled: no change; reset key: empty buffer, nothing else; Backspace: the last character removed (the reset check comes first, so option+Backspace empties the buffer); nothing decoded: no change; ctrl/meta chords have no world effects; a typed character: buffer + character trimmed, and the matcher runs on that buffer without changing it |
| `Manager.KeyDownKeepsBound` | src/main/modules/SnippetsManager.js:94-118 | for a buffer within bounds and a one-character layout value, no key event takes the buffer over `bufferLength` |
| `Manager.KeyDownsType` | src/main/modules/SnippetsManager.js:94-118 | a run of typing events changes the buffer exactly as appending and trimming those characters does, whatever the snippets do |
| `Manager.TypedEventsKeepMostRecent` | src/main/modules/SnippetsManager.js:109-114 | after typing single characters, the buffer holds exactly the most recent `bufferLength` characters |
| `Manager.PlainExpansion` | src/main/modules/SnippetsManager.js:222-247 | a plain-text hit sends exactly `|matched|` backspaces, then reads and writes the value; after 500 ms the clipboard is back to its old text |
| `Manager.JavascriptExpansion` | src/main/modules/SnippetsManager.js:264-276 | whatever its code, a `js` hit writes the missing-`_evaluate` error text (with no notification sink), or shows it and writes `""`; the clipboard is restored after 500 ms |
| `Manager.QueuedWriteDecides` | src/main/modules/SnippetsManager.js:260 | a timer queue ending in a just-set clipboard write decides the clipboard after the write's delay |
| `Manager.LuaExpansion` | src/main/modules/SnippetsManager.js:249-262 | a `lua` hit writes the result or the error text, then `replace(undefined)` follows. A coercing clipboard keeps the Lua text after 500 ms; a throwing one ends back at the old text |
| `Manager.LuaPaste` | src/main/modules/SnippetsManager.js:249-262 | with no other timer pending, a coercing clipboard pastes the text "undefined" twice at +50; a throwing one pastes the Lua result once |
| `Manager.ExpandKeepsOrder` | src/main/modules/SnippetsManager.js:222-232 | expanding any snippet keeps the timer queue in due order |
| `Manager.KeyDownKeepsOrder` | src/main/modules/SnippetsManager.js:94-118 | no key event breaks the due order of the timer queue |
| `Manager.ExpandErasesTrigger` | src/main/modules/SnippetsManager.js:222-232 | expanding a snippet of any type sends exactly `|matched|` backspaces first and none after them |
| `Manager.MatchErasesTrigger` | src/main/modules/SnippetsManager.js:209-237 | without a hit (or after a malformed pattern) nothing happens; on a hit exactly `|matched|` backspaces come first, and no backspace follows |
| `Manager.LiteralTriggerExpands` | src/main/modules/SnippetsManager.js:209-237 | typing the last character of a first, plain, literal key erases it with `|key|` backspaces and writes the snippet's value |
| `Manager.SnippetsManager.constructor` | src/main/modules/SnippetsManager.js:22-23 | an empty buffer with matching enabled, over a timer queue in due order (`Valid`) |
| `Manager.SnippetsManager.ResetBuffer` | src/main/modules/SnippetsManager.js:78-80 | empties the buffer and changes nothing else |
| `Manager.SnippetsManager.OnMouseClick` | src/main/modules/SnippetsManager.js:82-84 | a click empties the buffer, even with matching disabled, and keeps `Valid` |
| `Manager.SnippetsManager.AddCharToBuffer` | src/main/modules/SnippetsManager.js:282-284 | appends the character |
| `Manager.SnippetsManager.ShortenBufferBy` | src/main/modules/SnippetsManager.js:286-288 | the buffer becomes `ShortenBy` of the old one |
| `Manager.SnippetsManager.ShortenBufferIfNecessary` | src/main/modules/SnippetsManager.js:290-294 | the buffer becomes `TrimIfNecessary` of the old one |
| `Manager.SnippetsManager.Replace` | src/main/modules/SnippetsManager.js:239-247 | the world becomes `Injection.Replace` of the old one: read, write, and the two timers (none if the write throws); the timer queue stays in due order |
| `Manager.SnippetsManager.HandleLuaSnippet` | src/main/modules/SnippetsManager.js:249-262 | the clipboard is read, the evaluation result (or `QWError: ` + its error) is written, the paste and restore timers are set, and `undefined` is returned; the timer queue stays in due order |
| `Manager.SnippetsManager.HandleJavascriptSnippet` | src/main/modules/SnippetsManager.js:264-276 | returns the error text, or shows a notification and returns `""`; the timer queue is untouched |
| `Manager.SnippetsManager.ReplaceSnippetIfMatchFound` | src/main/modules/SnippetsManager.js:209-237 | the loop finds the first hit, taps `|matched|` backspaces, dispatches on the type and stops; a malformed pattern ends the loop with no effect; the buffer is unchanged and the timer queue stays in due order |
| `Manager.SnippetsManager.OnKeyDown` | src/main/modules/SnippetsManager.js:94-118 | the new state is `KeyDown` of the old state, and the timer queue stays in due order |

## Left out

- Keyboard hook lifecycle is left out: the constructor's wiring, `destructor`, `setKeyboardDelay`, `fixPath` and `console.log` (lines 16-39, 117). They are I/O plumbing. The constructor is kept only for the initial `buffer` and `shouldMatch`.
- The contents of the `./chars` table and of `NativeKeymap.getKeyMap()` are left out. They are external data, passed in as maps on every event.
- The configuration store is read through `Env` (snippets, `bufferLength`) on every event. `shouldMatch` is a public field, because the source never changes it after construction.
- Running user code (node-lua, `eval`, `node-fetch`, `child_process`) is foreign. It appears only as its observable outcomes: `LuaRun`, `JsRun`, and the `lua` argument of `Env`. So the fetch and subprocess capabilities given to JavaScript snippets are not modelled.
- Regular-expression semantics for `regex: true` keys are left out. They are the `regex` matcher parameter, which says whether `new RegExp` of `.*(key)$` throws, and otherwise gives its first group or no match.
- An exception inside `_replaceSnippetIfMatchFound` rejects the promise it returns, and line 114 does not await it. This happens for a malformed regex key (line 218) or a throwing `writeText` in `replace` (line 243, reached with `undefined` on the Lua path). The model ends the scan (`Threw`) or the expansion (`Replace` keeps only the read) at that point. It does not record the unhandled rejection itself.
- Real time is left out. Timers are entries with virtual due times, and `Advance` lets time pass with no other event.
- The `Notification` display is left out. `isSupported()` is a world flag, and `show` is a logged action.
- Overlapping expansions on the shared clipboard are not analysed for interleaving. That is concurrency. Timers from earlier expansions may be pending and are handled by the queue.
- `clipboard.writeText` on a value that is not a string is the external primitive's business. The model leaves its behaviour open with the flag `coercesNonString`.
- Lengths count Dafny characters (Unicode scalar values). JavaScript counts UTF-16 code units, so the two differ for characters outside the Basic Multilingual Plane.
- Key names are assumed to contain no `.` or `[`, which lodash's `_.get` would read as a path.
- Properties the layout object inherits through JavaScript's `in` are not modelled.
- Numbers are integers, and floating point rendering by `String(n)` is not modelled.
- `EvaluateJavascript`: does not model a thenable that settles after the 5-second deadline (the timeout race); a pending thenable is modelled as never settling, so the timeout rejects.
- `EvaluateLua`: the Lua stack operations (`Push`, `Pop`) are not modelled. A `qprint` argument is the JavaScript value `ToValue(1)` gives, supplied with the run.
- `EvaluateLua`: its 5-second timer is not modelled, because `r(e)` clears it before resolving on every path (lines 144-159).
- The world a manager starts with must hold its timers in due order, as a runtime's timer queue does. The class keeps this as `Valid`. `RunDueFiresAllDue` relies on the order; the `Replace` and `Advance` lemmas hold for any queue.
- `KeyDownKeepsBound`: assumes the layout types at most one character. The source does not ensure this, as `LongCharacterOutgrowsBound` shows.
