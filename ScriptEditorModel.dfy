/**
 * The generate-then-reveal state machine of the script editor, as values.
 *
 * An `Editor` holds the component's state: the script in the editor, the
 * text shown in the live preview, whether a generation is in progress, the
 * generated text being revealed, the reveal position, and the suspended
 * submission handler waiting for the generator (if any). Each user or timer
 * event is a function from one `Editor` to the next; the class in
 * ScriptEditor.dfy is proved to perform exactly these transitions.
 */
module ScriptEditorModel {
  import opened Wrappers
  import opened JsText
  import AiHelpers

  /** The script the editor starts with. */
  const InitialScript: string := "#!/bin/bash\n\n# Your script here\n"

  /** What a submission hands to the generator: the key, the request and the script, all as they were when it was made. */
  datatype Request = Request(apiKey: string, instruction: string, baseText: string)

  /** The component state. `pending` is the submission handler suspended on the generator. */
  datatype Editor = Editor(
    script: string,
    preview: string,
    generating: bool,
    generated: string,
    index: nat,
    pending: Option<Request>)

  /** The invariant every reachable state keeps. */
  ghost predicate Valid(e: Editor) {
    // the reveal position never passes the end of the generated text
    && e.index <= |e.generated|
    // before the first tick of a reveal, and whenever no text is being revealed, the preview shows the script
    && (e.index == 0 ==> e.preview == e.script)
    && (e.generated == "" ==> e.index == 0)
    // after a tick the preview shows the revealed prefix, unless the user has typed since
    && (e.index > 0 ==> e.preview == e.generated[..e.index] || e.preview == e.script)
    // a reveal only runs during a generation, and never beside a pending request
    && (e.generated != "" ==> e.generating && e.pending.None?)
    && (e.pending.Some? ==> e.generating && e.generated == "")
    // a generation is either waiting for the generator or revealing its text
    && (e.generating ==> e.pending.Some? || e.generated != "")
  }

  /** The editor once mounted: the preview-sync effect has copied the initial script into the preview. */
  function Init(): (e: Editor)
    ensures Valid(e) && !e.generating
    ensures e.script == InitialScript && e.preview == e.script
  {
    Editor(InitialScript, InitialScript, false, "", 0, None)
  }

  /** A change of the script, followed by the preview-sync effect, which runs only when the value actually changed. */
  function SetScript(e: Editor, text: string): (r: Editor)
    ensures r == e.(script := text, preview := r.preview)
    ensures text != e.script ==> r.preview == text
    ensures text == e.script ==> r.preview == e.preview
  {
    e.(script := text, preview := if text == e.script then e.preview else text)
  }

  /** What pressing the submit button does. */
  datatype Submission =
    | Disabled          // the button is disabled while generating: the handler does not run
    | Rejected          // the request is blank: nothing changes and the generator is not called
    | Started(request: Request)

  /** Pressing the submit button with the request field holding `instruction`. */
  function Click(e: Editor, apiKey: string, instruction: string): (r: (Editor, Submission))
    ensures r.1 == Disabled <==> e.generating
    ensures Valid(e) && (e.pending.Some? || e.generated != "") ==> r.1 == Disabled
    ensures r.1 == Rejected <==> !e.generating && IsBlank(instruction)
    ensures !r.1.Started? ==> r.0 == e
    ensures r.1.Started? ==>
      && r.1.request == Request(apiKey, instruction, e.script)
      && r.0.generating && r.0.index == 0 && r.0.pending == Some(r.1.request)
      && r.0.script == e.script && r.0.preview == e.preview && r.0.generated == e.generated
    ensures Valid(e) ==> Valid(r.0)
  {
    if e.generating then
      (e, Disabled)
    else if Trim(instruction) == [] then
      (e, Rejected)
    else
      var request := Request(apiKey, instruction, e.script);
      (e.(generating := true, index := 0, pending := Some(request)), Started(request))
  }

  /** How the suspended submission handler ends. */
  datatype Resolution =
    | Revealing                             // a non-empty text arrived and is handed to the reveal
    | EmptyResult                           // the generator returned an empty text
    | Failed(failure: AiHelpers.Failure)    // the generator threw

  /** The generator's answer reaching the suspended submission handler. */
  function Resolve(e: Editor, reply: AiHelpers.Reply): (r: (Editor, Resolution))
    requires e.pending.Some?
    ensures
      var req := e.pending.value;
      var out := AiHelpers.GenerateScript(req.apiKey, req.instruction, req.baseText, reply);
      && (r.1 == Revealing <==> out.Ok? && out.value != "")
      && (r.1 == EmptyResult <==> out == Ok(""))
      && (r.1.Failed? <==> out.Err?)
      && (r.1.Failed? ==> out == Err(r.1.failure))
      && (r.1 == Revealing ==> r.0.generated == out.value)
    ensures r.0.script == e.script && r.0.preview == e.preview && r.0.index == e.index && r.0.pending.None?
    ensures r.1 == Revealing ==> r.0.generating == e.generating
    ensures r.1 != Revealing ==> !r.0.generating && r.0.generated == e.generated
    ensures Valid(e) ==> Valid(r.0)
  {
    var req := e.pending.value;
    var e' := e.(pending := None);
    match AiHelpers.GenerateScript(req.apiKey, req.instruction, req.baseText, reply)
    case Ok(newScript) =>
      if newScript != "" then (e'.(generated := newScript), Revealing)
      else (e'.(generating := false), EmptyResult)
    case Err(failure) =>
      (e'.(generating := false), Failed(failure))
  }

  /** The reveal effect's first branch: a tick is scheduled. */
  predicate Ticks(e: Editor) {
    e.generating && e.generated != "" && e.index < |e.generated|
  }

  /** The reveal effect's second branch: the whole text has been revealed. */
  predicate Commits(e: Editor) {
    e.index >= |e.generated| && e.generated != ""
  }

  /** Which branch one run of the reveal effect takes. */
  datatype EffectRun = Tick | Commit | Quiet

  function Branch(e: Editor): (b: EffectRun)
    ensures b == Tick <==> Ticks(e)
    ensures b == Commit <==> !Ticks(e) && Commits(e)
    ensures Valid(e) ==> (b == Quiet <==> e.generated == "")
  {
    if Ticks(e) then Tick else if Commits(e) then Commit else Quiet
  }

  /**
   * One run of the reveal effect: a tick shows one more character of the
   * generated text; a commit makes that text the script and returns to idle.
   */
  function Step(e: Editor): (r: Editor)
    ensures e.generated == "" ==> r == e
    ensures Ticks(e) ==>
      && r.index == e.index + 1 && r.preview == e.generated[..r.index] && r.preview <= r.generated
      && r.generated == e.generated && r.generating && r.script == e.script && r.pending == e.pending
    ensures Commits(e) && Valid(e) ==>
      && r.script == e.generated && r.preview == e.generated
      && !r.generating && r.generated == "" && r.index == 0
    ensures Valid(e) ==> Valid(r)
  {
    if Ticks(e) then
      e.(preview := e.generated[..e.index + 1], index := e.index + 1)
    else if Commits(e) then
      SetScript(e, e.generated).(generating := false, generated := "", index := 0)
    else
      e
  }

  /** The user typing in the editor: script and preview both take the new text. */
  function Edit(e: Editor, text: string): (r: Editor)
    ensures r.script == text && r.preview == text
    ensures r.generating == e.generating && r.generated == e.generated && r.index == e.index && r.pending == e.pending
    ensures Valid(e) ==> Valid(r)
  {
    e.(script := text, preview := text)
  }

  /** `n` consecutive runs of the reveal effect. */
  function Steps(e: Editor, n: nat): Editor {
    if n == 0 then e else Step(Steps(e, n - 1))
  }

  /**
   * During a reveal, each of the next `|generated| - index` runs is a tick,
   * and after the `j`-th one the preview shows the first `index + j`
   * characters of the generated text.
   */
  lemma {:induction false} RevealPrefixes(e: Editor, j: nat)
    requires Valid(e) && e.generated != ""
    requires j <= |e.generated| - e.index
    ensures
      var s := Steps(e, j);
      && Valid(s) && s.generating && s.generated == e.generated && s.index == e.index + j
      && s.script == e.script && s.pending == e.pending
    ensures j > 0 ==> Steps(e, j).preview == e.generated[..e.index + j]
  {
    if j > 0 {
      RevealPrefixes(e, j - 1);
      assert Ticks(Steps(e, j - 1));
    }
  }

  /**
   * A reveal takes exactly `|generated| - index` ticks, then commits: the
   * generated text becomes both the script and the preview, and the editor
   * is idle again.
   */
  lemma {:induction false} RevealCommits(e: Editor)
    requires Valid(e) && e.generated != ""
    ensures
      var n := |e.generated| - e.index;
      && (forall j :: 0 <= j < n ==> Branch(Steps(e, j)) == Tick)
      && Branch(Steps(e, n)) == Commit
      && (n > 0 ==> Steps(e, n).preview == e.generated)
    ensures
      var s := Steps(e, |e.generated| - e.index + 1);
      && Valid(s) && !s.generating && s.script == e.generated && s.preview == e.generated
      && s.generated == "" && s.index == 0 && s.pending.None?
  {
    var n := |e.generated| - e.index;
    forall j | 0 <= j < n
      ensures Branch(Steps(e, j)) == Tick
    {
      RevealPrefixes(e, j);
    }
    RevealPrefixes(e, n);
  }

  /** What can happen while a text is being revealed. */
  datatype Event =
    | Timer                                  // the reveal effect runs
    | Typed(text: string)                    // the user types in the editor
    | Pressed(apiKey: string, instruction: string)  // the user presses the submit button

  function Apply(e: Editor, ev: Event): Editor {
    match ev
    case Timer => Step(e)
    case Typed(text) => Edit(e, text)
    case Pressed(apiKey, instruction) => Click(e, apiKey, instruction).0
  }

  function Run(e: Editor, evs: seq<Event>): Editor
    decreases |evs|
  {
    if evs == [] then e else Run(Apply(e, evs[0]), evs[1..])
  }

  /** How many runs of the reveal effect `evs` holds. */
  function Timers(evs: seq<Event>): nat
    decreases |evs|
  {
    if evs == [] then 0 else (if evs[0] == Timer then 1 else 0) + Timers(evs[1..])
  }

  lemma {:induction false} LastTimerCounted(evs: seq<Event>)
    requires evs != [] && evs[|evs| - 1] == Timer
    ensures Timers(evs) >= 1
    decreases |evs|
  {
    if evs[0] != Timer {
      LastTimerCounted(evs[1..]);
    }
  }

  /**
   * However the user types and presses the button during a reveal, once the
   * effect has run `|generated| - index + 1` times the generated text is the
   * script and the preview, overwriting every edit made meanwhile; no second
   * submission starts in between.
   */
  lemma {:induction false} EditsDuringRevealAreOverwritten(e: Editor, evs: seq<Event>)
    requires Valid(e) && e.generated != ""
    requires evs != [] && evs[|evs| - 1] == Timer
    requires Timers(evs) == |e.generated| - e.index + 1
    ensures
      var s := Run(e, evs);
      Valid(s) && !s.generating && s.script == e.generated && s.preview == e.generated
    decreases |evs|
  {
    var s := Apply(e, evs[0]);
    if evs[0] == Timer && !Ticks(e) {
      assert Commits(e);
      if evs[1..] != [] {
        LastTimerCounted(evs[1..]);
        assert false;
      }
      assert Run(e, evs) == Run(s, []);
    } else {
      assert Timers(evs[1..]) >= 1;
      EditsDuringRevealAreOverwritten(s, evs[1..]);
    }
  }

  /**
   * A whole synthesis: from an idle editor, a non-blank request with a key,
   * answered with a non-empty text, reveals that text one character per tick
   * and then commits it.
   */
  lemma SynthesisCycle(e: Editor, apiKey: string, instruction: string, text: string)
    requires Valid(e) && !e.generating
    requires !IsBlank(instruction) && apiKey != "" && text != ""
    ensures Click(e, apiKey, instruction).1 == Started(Request(apiKey, instruction, e.script))
    ensures
      var d := Editor(e.script, e.preview, true, text, 0, None);
      && Resolve(Click(e, apiKey, instruction).0, AiHelpers.Text(text)) == (d, Revealing)
      && (forall j :: 0 < j <= |text| ==> Steps(d, j).preview == text[..j])
      && var s := Steps(d, |text| + 1);
      && Valid(s) && !s.generating && s.script == text && s.preview == text
  {
    var d := Editor(e.script, e.preview, true, text, 0, None);
    assert Valid(d);
    forall j | 0 < j <= |text|
      ensures Steps(d, j).preview == text[..j]
    {
      RevealPrefixes(d, j);
    }
    RevealCommits(d);
  }

  /**
   * A submission that ends without a text, whether the generator throws or
   * answers with nothing, leaves the editor exactly as it was before the
   * button was pressed.
   */
  lemma FailedSubmissionChangesNothing(e: Editor, apiKey: string, instruction: string, reply: AiHelpers.Reply)
    requires Valid(e) && !e.generating && !IsBlank(instruction)
    requires apiKey == "" || reply.LibraryFailure? || reply == AiHelpers.Text("")
    ensures Resolve(Click(e, apiKey, instruction).0, reply).0 == e
  {
  }
}
