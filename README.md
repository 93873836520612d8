# flatten-string, modelled in Dafny

flatten-string is a background utility. It waits for one configured trigger key. When
that key is pressed it copies the selected text with a simulated Ctrl+C and reads it from
the clipboard. It then deletes every carriage return and turns every line feed into a
space, writes the result back to the clipboard and pastes it with a simulated Ctrl+V.

The model has three modules, one per part of `src/main.rs`:

- `Transform` (`transform.dfy`) is the newline-flattening expression. It is a pure
  function `Flatten`, built from `Replace`, which models a string replace with a
  one-character pattern. Lemmas cover the absence of newline characters, the length
  equation, idempotence, order preservation, spaces, Windows line endings and the worked
  example.
- `Pipeline` (`pipeline.dfy`) is `remove_newlines_and_paste` with its chord helpers. The
  operating system's capabilities are injected as a `Host` value, which says:
  - which simulate calls of the invocation the input simulator refuses;
  - what text the clipboard holds when it is read (none, so that the read fails);
  - whether the write is accepted.

  The class `Desktop` holds the clipboard and a log of every capability call made, the
  failing one included, with the fixed waits as `Slept` entries. Its methods follow the
  source step by step, and each `?` becomes an early return. `RemoveNewlinesAndPaste` is
  proved against the specification function `Invocation`. The lemmas about `Invocation`
  state the short-circuiting, the ordering of the calls, and what the clipboard holds
  afterwards.
- `Hotkey` (`hotkey.dfy`) is the listener callback. The class `Listener` holds the trigger
  key, and its `Callback` runs the pipeline only for a press of that key, dropping the
  outcome. `Listen` folds the callback over a stream of reported events. Its lemmas show
  that a failed invocation does not stop later events from being handled.

## Model

| member | source | states |
|---|---|---|
| `Transform.Replace` | src/main.rs:57 | removing a character shortens the text by its number of occurrences, a one-character replacement keeps the length, and the replaced character is gone unless the replacement contains it |
| `Transform.ReplaceKeepsOut` | src/main.rs:57 | a character found neither in the text nor in the replacement is not in the result, so the second replace cannot bring back a carriage return |
| `Transform.Flatten` | src/main.rs:54-57 | the transformed text contains no carriage return and no line feed, and its length is the input's length minus the number of carriage returns |
| `Transform.FlattenChar` | src/main.rs:57 | a carriage return becomes nothing, a line feed one space, any other character itself |
| `Transform.FlattenAppend` | src/main.rs:57 | the transform distributes over concatenation, so it works character by character |
| `Transform.FlattenAt` | src/main.rs:57 | order preservation: each character that is not a carriage return lands at its index minus the carriage returns before it, as a space if it was a line feed and unchanged otherwise |
| `Transform.FlattenFixedPoint` | src/main.rs:57 | the transform leaves a text unchanged if and only if the text has no carriage return and no line feed |
| `Transform.FlattenIdempotent` | src/main.rs:57 | applying the transform to transformed text returns that text unchanged |
| `Transform.FlattenSpaces` | src/main.rs:54-57 | the output has as many spaces as the input has spaces and line feeds together, and no carriage returns or line feeds |
| `Transform.FlattenCrlf` | src/main.rs:55-57 | a "\r\n" pair anywhere in the text becomes exactly one space |
| `Transform.FlattenLf` | src/main.rs:55-57 | a bare "\n" anywhere in the text becomes exactly one space |
| `Transform.FlattenJoin` | src/main.rs:55-57 | newline-free pieces joined by "\r\n" and by "\n" come out joined by single spaces |
| `Transform.FlattenExample` | src/main.rs:57 | "Hello\r\nWorld\n!" becomes "Hello World !" |
| `Pipeline.FirstRejected` | src/main.rs:85-91 | finds the first refused simulate call of a chord: it is refused, and every call before it is accepted; with no result, all four calls are accepted |
| `Pipeline.ChordOrder` | src/main.rs:83-106 | a chord simulates Ctrl press, letter press, letter release and Ctrl release in that order; its calls are a prefix of the full chord, and when a call is refused that call is the last one made |
| `Pipeline.CopyFailureAbortsEarly` | src/main.rs:35-36 | the invocation fails in the copy chord exactly when one of its calls is refused; it then makes no clipboard access and no paste, and the clipboard keeps what it held |
| `Pipeline.ReadFailureOrEmptySkipsWrite` | src/main.rs:44-52 | after a completed copy, a failed read ends in a read failure and an empty text in success; in both cases nothing is written or pasted and the clipboard keeps what was read |
| `Pipeline.WriteFailureKeepsOriginal` | src/main.rs:63-66 | a refused write ends in a write failure, the write is the last call made, no paste follows, and the clipboard still holds the original text |
| `Pipeline.SuccessPastesTransformed` | src/main.rs:32-78 | the invocation succeeds if and only if the copy completes and the text read is empty, or is written and pasted without a refusal; on non-empty text the clipboard then holds the transformed text and the full trace was made |
| `Pipeline.EffectsFollowSuccessTrace` | src/main.rs:32-78 | every invocation's calls are a prefix of the full copy, wait, read, write, wait, paste trace, and start with the copy chord's Ctrl press |
| `Pipeline.PasteOnlyAfterWrite` | src/main.rs:63-74 | a call after the write happens exactly when copy, read and write all succeeded on non-empty text; the paste chord's letter press additionally needs the paste chord's Ctrl press to be accepted |
| `Pipeline.ClipboardOnlyEverTransformed` | src/main.rs:45-66 | afterwards the clipboard holds its earlier content, the text read, or that text's transform, and no text written contains a newline character |
| `Pipeline.Desktop.Simulate` | src/main.rs:85 | one synthetic key event is recorded and the simulator's answer is returned |
| `Pipeline.Desktop.Sleep` | src/main.rs:40 | a fixed wait is recorded |
| `Pipeline.Desktop.GetClipboardString` | src/main.rs:45-47 | the read is recorded and returns the clipboard's text, or none |
| `Pipeline.Desktop.SetClipboardString` | src/main.rs:64-66 | the write is recorded; the clipboard holds the new text if the write is accepted and is unchanged otherwise |
| `Pipeline.Desktop.SendChord` | src/main.rs:83-106 | simulates a Ctrl chord with a 30 ms wait between events; it reports success exactly when no call was refused, and logs the chord's calls up to the first refusal |
| `Pipeline.Desktop.RemoveNewlinesAndPaste` | src/main.rs:32-78 | performs one invocation; the outcome, the clipboard and the calls appended to the log are those of `Invocation` |
| `Hotkey.StepOnlyOnTriggerPress` | src/main.rs:122-133 | handling an event changes something if and only if the event is a press of the trigger key; such a press appends calls to the log, starting with the copy chord's Ctrl press |
| `Hotkey.ListenAppend` | src/main.rs:122-133 | handling a stream is handling its first part and then the rest from where that left off, so an earlier failure does not stop later handling |
| `Hotkey.ListenIgnoresOtherEvents` | src/main.rs:131 | a stream with no press of the trigger key leaves the clipboard and the log untouched |
| `Hotkey.ListenExtendsLog` | src/main.rs:122-133 | handling events only ever appends to the log |
| `Hotkey.TriggerAfterAnyHistoryRuns` | src/main.rs:124-130 | whatever earlier invocations did, a later trigger press runs a full new invocation from the current clipboard |
| `Hotkey.Listener.constructor` | src/main.rs:112 | the listener keeps the trigger key chosen at startup |
| `Hotkey.Listener.Callback` | src/main.rs:122-133 | runs the pipeline for a press of the trigger key and leaves everything untouched otherwise; the pipeline's outcome is not passed on |

## Left out

- The real input simulator, clipboard and global keyboard hook are not modelled. Their
  answers are the fields of `Host`, and the model records each call made to them.
- The foreground application's reaction to the copy chord is modelled in one step: the
  clipboard takes the value `Host.clipboardAtRead` during the first settle delay. Changes
  made by other processes at other moments are not modelled.
- A clipboard that holds text but cannot be opened is not told apart from one that holds
  no text. Both are `None` at read time, and both make the read fail.
- The waits are `Slept` entries in the log. No time passes in the model.
- The diagnostics printed to the console are not modelled. That includes the 100-character
  preview and the error report in the callback. `Outcome` keeps only which step failed,
  not the context strings.
- `send_ctrl_c` and `send_ctrl_v` are identical except for the letter, so both are one
  method, `SendChord`, with the letter as a parameter.
- Command-line parsing, the trigger-key enumeration and its conversion to a key code are
  not modelled. The file `src/easy_rdev_key.rs` is not part of this model. Keys other than
  Ctrl, C and V are `Key.Other`.
- The blocking `listen` loop in `main` and its fatal error path are not modelled. Handling
  a stream of events is the fold function `Hotkey.Listen`, not a method.
- Transform.Replace: its length is stated only for replacements of at most one character.
  Those are the only ones the transform uses.
- Transform.FlattenExample: the three words are parameters bound to the example's
  literals. This stops the verifier from unfolding the transform on a 14-character
  literal.
