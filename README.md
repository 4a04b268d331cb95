# Shell Script Creator: the generate-then-reveal editor, in Dafny

This project models the `ScriptEditor` component of Shell Script Creator. The component holds a shell script and lets the user ask an AI generator to change it. A user request, together with the current script and the user's API key, goes to the generator. The generator's full replacement text is then revealed in the live preview one character per timer tick. Once the whole text is shown, it becomes the script.

The model has five modules:

- `Wrappers`: the `Option` and `Result` datatypes.
- `JsText`: JavaScript's `String.prototype.trim` over ECMAScript white space. The submit handler uses it to reject blank requests.
- `AiHelpers`: `generateScript` as an outcome. An empty key fails first. A library failure becomes the one fixed error. Otherwise the reply text comes back unchanged. What the library answers is a parameter.
- `ScriptEditorModel`: the component state as a value (`Editor`) and each event as a transition function:
  - `Click`: the submit button, which is disabled while generating.
  - `Resolve`: the awaited generator call resuming.
  - `Step`: one run of the reveal/commit effect.
  - `Edit`: typing in the editor.

  The module also holds the invariant `Valid` and the lemmas about runs of these transitions.
- `ScriptEditorComponent`: the class `ScriptEditor`. Its fields are the component's state variables: `script`, `previewScript`, `isGenerating`, `generatedScript` and `currentIndex`. A further field, `pending`, holds the submission handler that is suspended on the generator. Each method updates the fields in place and keeps `Valid`. `Click`, `Resolve`, `Step` and `Edit` are each proved to perform the model transition of the same name. `RunReveal`, which has no transition of its own, is proved to end in the state that `Steps` gives after its count of ticks plus the commit.

`Valid` states these invariants:

- The reveal position stays within `0 ..= |generatedScript|`.
- Whenever no text is being revealed, the preview equals the script. In particular this holds when idle.
- After a tick, the preview shows the revealed prefix, unless the user has typed since.
- A reveal never runs beside a pending request.
- A generation is always either waiting for the generator or revealing.

The preview-sync effect (`setPreviewScript(script)` whenever `script` changes) is folded into the transitions that change the script. React runs it only when the value really changes, so the commit copies the generated text into the preview only in that case. The invariant is what shows that the preview still ends up equal to the generated text.

## Model

| member | source | states |
|---|---|---|
| JsText.TrimStart | src/components/ScriptEditor.tsx:69 | the result is the suffix of the input left after a blank prefix, and it does not start with white space |
| JsText.TrimEnd | src/components/ScriptEditor.tsx:69 | the result is the prefix of the input left before a blank suffix, and it does not end with white space |
| JsText.Trim | src/components/ScriptEditor.tsx:69 | `trim()` is empty exactly when every character is white space; otherwise it neither starts nor ends with white space |
| AiHelpers.GenerateScript | src/utils/aiHelpers.ts:3-97 | fails with the missing-key error exactly when the key is empty; fails with the one fixed generation error exactly when the key is present and the library fails; otherwise returns the library's text unchanged |
| ScriptEditorModel.Init | src/components/ScriptEditor.tsx:11-21 | the mounted editor is idle, satisfies the invariant, and shows the initial script in both editor and preview |
| ScriptEditorModel.SetScript | src/components/ScriptEditor.tsx:19-21 | changing the script touches only script and preview: the preview takes the new script when the value changed, and stays exactly as it was when the script kept its value |
| ScriptEditorModel.Click | src/components/ScriptEditor.tsx:68-79 | pressing the button does nothing while generating (disabled); a blank request is rejected with no state change; otherwise generating starts with index 0, and the request captures the key, the instruction and the script as they were; the invariant is kept |
| ScriptEditorModel.Resolve | src/components/ScriptEditor.tsx:78-91 | a non-empty text becomes the reveal target; an empty text or any thrown error ends the generation, and a failure reports exactly the error `generateScript` threw (missing key or generation failure); script, preview and index are untouched in every case, and the invariant is kept |
| ScriptEditorModel.Branch | src/components/ScriptEditor.tsx:24-31 | the effect ticks exactly while generating with a non-empty target not fully shown, and commits exactly when it does not tick and a non-empty target is fully shown; in every reachable state it is quiet exactly when there is no target, so a reveal never stalls |
| ScriptEditorModel.Step | src/components/ScriptEditor.tsx:23-38 | nothing happens without a target; a tick advances the index by exactly one and shows the next prefix of the target; a commit makes the target both script and preview and returns to idle; the invariant is kept |
| ScriptEditorModel.Edit | src/components/ScriptEditor.tsx:159-163 | typing sets script and preview to the same text, leaves the generation state alone, and keeps the invariant |
| ScriptEditorModel.RevealPrefixes | src/components/ScriptEditor.tsx:24-28 | during a reveal, the next `|target| - index` runs of the effect are all ticks, and after the j-th the preview is the first `index + j` characters of the target |
| ScriptEditorModel.RevealCommits | src/components/ScriptEditor.tsx:23-38 | a reveal takes exactly `|target| - index` ticks and then commits, and afterwards script and preview are the target and the editor is idle |
| ScriptEditorModel.EditsDuringRevealAreOverwritten | src/components/ScriptEditor.tsx:31-35 | whatever is typed and pressed during a reveal, once the effect has run `|target| - index + 1` times the target is both script and preview, overwriting every edit made meanwhile |
| ScriptEditorModel.SynthesisCycle | src/components/ScriptEditor.tsx:68-92 | from idle, a non-blank request with a key and a non-empty answer starts a generation on the current script, reveals the answer one prefix per tick, and then commits it |
| ScriptEditorModel.FailedSubmissionChangesNothing | src/components/ScriptEditor.tsx:81-91 | a submission that ends with an error or an empty text leaves the editor exactly as it was before the button was pressed |
| ScriptEditorComponent.ScriptEditor.constructor | src/components/ScriptEditor.tsx:11-17 | the fields start as the mounted editor `Init` |
| ScriptEditorComponent.ScriptEditor.Click | src/components/ScriptEditor.tsx:129-132 | performs the model's `Click` on the fields, and the submission outcome it returns is the model's |
| ScriptEditorComponent.ScriptEditor.Resolve | src/components/ScriptEditor.tsx:78-91 | performs the model's `Resolve` on the fields, and the resolution it returns is the model's |
| ScriptEditorComponent.ScriptEditor.Step | src/components/ScriptEditor.tsx:23-38 | performs the model's `Step` on the fields and reports which branch ran |
| ScriptEditorComponent.ScriptEditor.Edit | src/components/ScriptEditor.tsx:159-163 | performs the model's `Edit` on the fields |
| ScriptEditorComponent.ScriptEditor.RunReveal | src/components/ScriptEditor.tsx:24-35 | firing the effect until it commits takes exactly `|target| - index` ticks, and leaves the target as script and preview with generation over |

## Left out

- Rendering (src/components/ScriptEditor.tsx:94-186) is not modelled. It is presentation only. The only UI rule that matters, the button being disabled while generating (line 132), is part of `Click`.
- Copying to the clipboard (lines 40-47) and downloading the script (lines 49-60) are not modelled. They are browser I/O that only read `script`.
- The API-key field and its persistence to `localStorage` (lines 12, 62-66) are not modelled. The key is a parameter of `Click`, the value the handler reads when it runs.
- The request text field (`userRequest`, lines 13, 122-128) is not modelled as state. Its value at the click is a parameter of `Click`.
- Toasts and `console.error` calls are left out, and so is the message text a thrown error carries. `Submission` and `Resolution` record which branch ran and which error was thrown.
- Timing is left out: the 10 ms `setTimeout`, the `clearTimeout` cleanup and React's effect scheduling. Each firing of the reveal effect is one `Step`. The model assumes each handler and effect run completes before the next event, as on React's single thread.
- The prompt that `generateScript` builds and the call into the Google generative-model library (src/utils/aiHelpers.ts:8-93) are not modelled. The library's answer is the `Reply` parameter of `Resolve`.
- src/utils/scriptTemplates.ts is not modelled. It only defines a constant string that the component never uses.
- The state before the first preview-sync effect (an empty preview, line 14) is not modelled. The model starts from the mounted editor.
- A `char` is one Unicode scalar value, while JavaScript strings are sequences of UTF-16 code units. A character outside the Basic Multilingual Plane takes two ticks in the source, where the preview briefly shows a lone surrogate, but one tick in the model. Lone surrogates cannot be expressed in the model at all.
- A request still pending when the component unmounts is not modelled.
- The code has no generation counter, no cancellation of an earlier request, no clearing of the preview when a result arrives, and it treats an empty result as a failure; the model follows the code:
  - There is no generation counter and no cancellation of an earlier request. A second submission is prevented only by the disabled button, and `Click` shows that it cannot start while a request is pending or a text is being revealed.
  - The preview is not cleared when a result arrives. It keeps showing the script until the first tick.
  - Typing during a reveal does not stop it. The typed text shows in the preview until the next tick, and the commit overwrites it (`EditsDuringRevealAreOverwritten`).
  - An empty result is handled as a failure, not as a reveal that is already complete.
