/**
 * The `ScriptEditor` component as an object: its state variables are fields,
 * and its handlers and effects are methods that update them in place. Each
 * method but RunReveal is proved to perform the transition of the same name in
 * ScriptEditorModel, and to keep that module's invariant.
 */
module ScriptEditorComponent {
  import opened Wrappers
  import opened JsText
  import AiHelpers
  import M = ScriptEditorModel

  class ScriptEditor {
    var script: string
    var previewScript: string
    var isGenerating: bool
    var generatedScript: string
    var currentIndex: nat
    /** The submission handler suspended on the generator, with what it captured. */
    var pending: Option<M.Request>

    /** The state as a value of the model. */
    ghost function Model(): M.Editor
      reads this
    {
      M.Editor(script, previewScript, isGenerating, generatedScript, currentIndex, pending)
    }

    ghost predicate Valid()
      reads this
    {
      M.Valid(Model())
    }

    /** The mounted component: the initial script, shown in the preview too. */
    constructor ()
      ensures Model() == M.Init() && Valid()
    {
      script := M.InitialScript;
      previewScript := M.InitialScript;
      isGenerating := false;
      generatedScript := "";
      currentIndex := 0;
      pending := None;
    }

    /** Pressing the submit button: nothing while it is disabled, a rejection for a blank request, otherwise the generation starts. */
    method Click(apiKey: string, userRequest: string) returns (submission: M.Submission)
      requires Valid()
      modifies this
      ensures (Model(), submission) == M.Click(old(Model()), apiKey, userRequest)
      ensures Valid()
    {
      if isGenerating {
        return M.Disabled;
      }
      if Trim(userRequest) == [] {
        return M.Rejected;
      }
      var request := M.Request(apiKey, userRequest, script);
      isGenerating := true;
      currentIndex := 0;
      pending := Some(request);
      submission := M.Started(request);
    }

    /** The generator's answer resuming the suspended submission handler. */
    method Resolve(reply: AiHelpers.Reply) returns (resolution: M.Resolution)
      requires Valid() && pending.Some?
      modifies this
      ensures (Model(), resolution) == M.Resolve(old(Model()), reply)
      ensures Valid()
    {
      var request := pending.value;
      pending := None;
      var newScript := AiHelpers.GenerateScript(request.apiKey, request.instruction, request.baseText, reply);
      match newScript
      case Ok(text) =>
        if text != "" {
          generatedScript := text;
          resolution := M.Revealing;
        } else {
          isGenerating := false;
          resolution := M.EmptyResult;
        }
      case Err(failure) =>
        isGenerating := false;
        resolution := M.Failed(failure);
    }

    /** One run of the reveal effect; says which branch it took. */
    method Step() returns (branch: M.EffectRun)
      requires Valid()
      modifies this
      ensures branch == M.Branch(old(Model()))
      ensures Model() == M.Step(old(Model()))
      ensures Valid()
    {
      if isGenerating && generatedScript != "" && currentIndex < |generatedScript| {
        previewScript := generatedScript[..currentIndex + 1];
        currentIndex := currentIndex + 1;
        branch := M.Tick;
      } else if currentIndex >= |generatedScript| && generatedScript != "" {
        // the preview-sync effect follows only if the script actually changes
        if script != generatedScript {
          previewScript := generatedScript;
        }
        script := generatedScript;
        isGenerating := false;
        generatedScript := "";
        currentIndex := 0;
        branch := M.Commit;
      } else {
        branch := M.Quiet;
      }
    }

    /** The user typing in the editor. */
    method Edit(newValue: string)
      requires Valid()
      modifies this
      ensures Model() == M.Edit(old(Model()), newValue)
      ensures Valid()
    {
      script := newValue;
      previewScript := newValue;
    }

    /**
     * Lets the reveal effect fire until it commits, counting the ticks: there
     * are exactly as many as characters left to reveal, and afterwards the
     * generated text is the script and the preview.
     */
    method RunReveal() returns (ticks: nat)
      requires Valid() && generatedScript != ""
      modifies this
      ensures ticks == |old(generatedScript)| - old(currentIndex)
      ensures Model() == M.Steps(old(Model()), ticks + 1)
      ensures !isGenerating && script == old(generatedScript) && previewScript == old(generatedScript)
      ensures Valid()
    {
      ghost var start := Model();
      ghost var n := |generatedScript| - currentIndex;
      M.RevealCommits(start);
      ticks := 0;
      var committed := false;
      while !committed
        invariant ticks <= n
        invariant !committed ==> Model() == M.Steps(start, ticks)
        invariant committed ==> ticks == n && Model() == M.Steps(start, n + 1)
        invariant Valid()
        decreases if committed then 0 else 1, n - ticks
      {
        M.RevealPrefixes(start, ticks);
        var branch := Step();
        if branch == M.Commit {
          committed := true;
        } else {
          ticks := ticks + 1;
        }
      }
    }
  }
}
