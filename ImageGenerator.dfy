/** The generation form's controller (`ImageGenerator`): prompt validation, the
    request it sends, what a settled generation does to the history and to the
    displayed `isGenerating`, `status`, `error` and `progress`, the interrupt
    button and one tick of the progress poll. */
module ImageGenerator {
  import opened ApiTypes
  import opened JsText
  import ImageUtils
  import ImageHistory

  /** The controlled inputs of the form. */
  datatype Form = Form(
    prompt: string,
    negativePrompt: string,
    width: int,
    height: int,
    steps: int,
    cfgScale: real,
    seed: Option<int>,
    batchSize: int,
    samplerName: string)

  const DefaultForm: Form := Form("", "", 512, 512, 20, 7.0, None, 1, "Euler")

  const PromptRequired: string := "Por favor, insira um prompt"
  const StartingStatus: string := "Iniciando geração..."
  const GenerateErrorPrefix: string := "Erro ao gerar imagem: "
  const UnknownError: string := "Erro desconhecido"
  const SuccessSuffix: string := " imagem(ns) gerada(s) com sucesso!"
  const InterruptedStatus: string := "Geração interrompida"
  const InterruptError: string := "Erro ao interromper geração"

  /** A prompt counts as missing when it holds nothing but whitespace, i.e. its
      trimmed text is empty. */
  predicate IsBlank(s: string) {
    Trim(s) == ""
  }

  /** The txt2img body built from the form. */
  function BuildRequest(form: Form): GenerationRequest {
    var negative := Trim(form.negativePrompt);
    GenerationRequest(
      Trim(form.prompt),
      if negative == "" then None else Some(negative),
      form.width, form.height, form.steps, form.cfgScale, form.samplerName, form.seed,
      form.batchSize, 1, false, false, true, false)
  }

  /** The request carries the prompt with its surrounding whitespace cut away (and
      thus non-empty exactly when the prompt is not blank); a negative prompt only
      when the form's has a non-whitespace character, and then trimmed as well; the
      remaining knobs copied from the form; and the fixed defaults: one iteration, no
      face restoration, no tiling, images sent back inline, nothing saved on the
      server. */
  lemma RequestFromForm(form: Form)
    ensures var req := BuildRequest(form);
      && (exists a :: 0 <= a <= |form.prompt| - |req.prompt| &&
            form.prompt[a..a + |req.prompt|] == req.prompt &&
            AllWhitespace(form.prompt[..a]) && AllWhitespace(form.prompt[a + |req.prompt|..]))
      && (req.prompt != "" <==> !IsBlank(form.prompt))
      && (req.prompt != "" ==> !IsWhitespace(req.prompt[0]) && !IsWhitespace(req.prompt[|req.prompt| - 1]))
      && (req.negativePrompt.Some? <==> !AllWhitespace(form.negativePrompt))
      && (req.negativePrompt.Some? ==>
            req.negativePrompt.value == Trim(form.negativePrompt) && req.negativePrompt.value != "")
      && req.width == form.width && req.height == form.height && req.steps == form.steps
      && req.cfgScale == form.cfgScale && req.samplerName == form.samplerName
      && req.seed == form.seed && req.batchSize == form.batchSize
      && req.nIter == 1 && !req.restoreFaces && !req.tiling && req.sendImages && !req.saveImages
  {
    TrimSplitsInput(form.prompt);
    TrimSplitsInput(form.negativePrompt);
  }

  /** The text shown for a rejected generation: the message of a thrown `Error`,
      and a fixed "unknown error" text for anything else that was thrown. */
  function FailureText(reason: Thrown): string {
    match reason
    case ErrorObject(message) => message
    case NonError => UnknownError
  }

  /** On the generation path every rejection comes from the client's response
      interceptor, so the error shown is the prefix followed by the interceptor's
      own message, which is never empty; the "unknown error" text appears only if
      the server itself sent it. */
  lemma InterceptedRejectionText(f: HttpFailure)
    ensures var t := InterceptorError(f);
      && FailureText(t) == t.message && FailureText(t) != ""
      && (FailureText(t) == UnknownError ==>
            f.Answered? && f.body.Some? && f.body.value.message == Some(UnknownError))
  {
    assert ApiErrorText != UnknownError && ConnectionErrorText != UnknownError;
  }

  /** The status after a successful generation: the number of records written
      in decimal, followed by a fixed success text. */
  function SuccessStatus(count: nat): string {
    NatToString(count) + SuccessSuffix
  }

  /** The success status starts with the decimal digits of exactly the number of
      records generated, so different counts give different messages. */
  lemma SuccessStatusReportsCount(count: nat, other: nat)
    ensures var s := SuccessStatus(count); var d := NatToString(count);
      |s| > |d| && s[..|d|] == d && IsDecimal(d) && DecimalValue(d) == count &&
      s[|d|..] == SuccessSuffix
    ensures SuccessStatus(count) == SuccessStatus(other) ==> count == other
  {
    DecimalRoundTrip(count);
    DecimalRoundTrip(other);
    var s, d := SuccessStatus(count), NatToString(count);
    assert s[..|d|] == d;
    if SuccessStatus(count) == SuccessStatus(other) {
      var d' := NatToString(other);
      assert ' ' !in d && ' ' !in d';
      assert d == s[..|d|] == d';
    }
  }

  /** The component's state. `history` is the history hook instance it adds to. */
  class Generator {
    var form: Form
    var isGenerating: bool
    var status: string
    var error: string
    var progress: real
    const history: ImageHistory.HistoryStore

    constructor (history: ImageHistory.HistoryStore)
      ensures this.history == history && form == DefaultForm
      ensures !isGenerating && status == "" && error == "" && progress == 0.0
    {
      this.history := history;
      form := DefaultForm;
      isGenerating, status, error, progress := false, "", "", 0.0;
    }

    /** `handleGenerate` up to its `await`: a blank prompt only sets the error and
      issues no request; otherwise the session starts and the request is returned
      for the generation call. */
    method BeginGenerate() returns (request: Option<GenerationRequest>)
      modifies this`isGenerating, this`error, this`status, this`progress
      ensures IsBlank(form.prompt) ==>
                request.None? && error == PromptRequired && isGenerating == old(isGenerating) &&
                status == old(status) && progress == old(progress)
      ensures !IsBlank(form.prompt) ==>
                request == Some(BuildRequest(form)) && isGenerating && error == "" &&
                status == StartingStatus && progress == 0.0
    {
      if IsBlank(form.prompt) {
        error := PromptRequired;
        request := None;
      } else {
        isGenerating, error, status, progress := true, "", StartingStatus, 0.0;
        request := Some(BuildRequest(form));
      }
    }

    /** `handleGenerate` after its `await`, for the form `captured` when the button
      was pressed. On success each record is handed to `addImage` in turn, so the
      history gains the batch reversed, and the batch is returned for
      `onImageGenerated`; on failure nothing is returned and the history is
      untouched. Either way the session ends. */
    method FinishGenerate(captured: Form, outcome: GenerateOutcome,
                          newId: nat -> string, now: nat -> int)
      returns (notified: Option<seq<GeneratedImage>>)
      modifies this`isGenerating, this`error, this`status, this`progress, history`images
      ensures !isGenerating
      ensures outcome.Generated? ==>
                var batch := ImageUtils.ConvertToGeneratedImage(
                  outcome.response, captured.prompt, Some(captured.negativePrompt), newId, now);
                && notified == Some(batch)
                && history.images == ImageHistory.Reverse(batch) + old(history.images)
                && status == SuccessStatus(|batch|) && progress == 100.0 && error == old(error)
      ensures outcome.Rejected? ==>
                && notified.None? && history.images == old(history.images)
                && error == GenerateErrorPrefix + FailureText(outcome.reason)
                && status == "" && progress == old(progress)
    {
      match outcome {
        case Generated(response) =>
        var batch := ImageUtils.ConvertToGeneratedImage(
          response, captured.prompt, Some(captured.negativePrompt), newId, now);
        var i := 0;
        while i < |batch|
          invariant 0 <= i <= |batch|
          invariant history.images == ImageHistory.Reverse(batch[..i]) + old(history.images)
          invariant error == old(error)
        {
          history.AddImage(batch[i]);
          assert batch[..i + 1][..i] == batch[..i];
          i := i + 1;
        }
        assert batch[..i] == batch;
        notified := Some(batch);
        status := SuccessStatus(|batch|);
        progress := 100.0;
      case Rejected(reason) =>
        error := GenerateErrorPrefix + FailureText(reason);
        status := "";
        notified := None;
      }
      isGenerating := false;
    }

    /** The whole of `handleGenerate` when no poll tick runs during the call. */
    method HandleGenerate(outcome: GenerateOutcome, newId: nat -> string, now: nat -> int)
      returns (request: Option<GenerationRequest>, notified: Option<seq<GeneratedImage>>)
      modifies this`isGenerating, this`error, this`status, this`progress, history`images
      ensures IsBlank(form.prompt) ==>
                request.None? && notified.None? && history.images == old(history.images) &&
                error == PromptRequired && isGenerating == old(isGenerating) &&
                status == old(status) && progress == old(progress)
      ensures !IsBlank(form.prompt) ==>
                request == Some(BuildRequest(form)) && !isGenerating &&
                (outcome.Generated? ==>
                   var batch := ImageUtils.ConvertToGeneratedImage(
                     outcome.response, form.prompt, Some(form.negativePrompt), newId, now);
                   notified == Some(batch) &&
                   history.images == ImageHistory.Reverse(batch) + old(history.images) &&
                   status == SuccessStatus(|batch|) && progress == 100.0 && error == "") &&
                (outcome.Rejected? ==>
                   notified.None? && history.images == old(history.images) &&
                   error == GenerateErrorPrefix + FailureText(outcome.reason) &&
                   status == "" && progress == 0.0)
    {
      request := BeginGenerate();
      if request.Some? {
        notified := FinishGenerate(form, outcome, newId, now);
      } else {
        notified := None;
      }
    }

    /** `handleInterrupt`: `isGenerating` is left alone either way. */
    method HandleInterrupt(interruptOk: bool)
      modifies this`status, this`error
      ensures interruptOk ==> status == InterruptedStatus && error == old(error)
      ensures !interruptOk ==> error == InterruptError && status == old(status)
    {
      if interruptOk {
        status := InterruptedStatus;
      } else {
        error := InterruptError;
      }
    }

    /** One tick of the progress poll: a reply sets the percentage and, when it
      carries a state and a non-empty text, the status; a failed poll changes
      nothing. */
    method PollTick(outcome: PollOutcome)
      modifies this`progress, this`status
      ensures outcome.PollFailed? ==> progress == old(progress) && status == old(status)
      ensures outcome.Polled? ==> progress == outcome.snapshot.progress * 100.0
      ensures outcome.Polled? && outcome.snapshot.state.Some? && Truthy(outcome.snapshot.textinfo) ==>
                status == outcome.snapshot.textinfo.value
      ensures outcome.Polled? && !(outcome.snapshot.state.Some? && Truthy(outcome.snapshot.textinfo)) ==>
                status == old(status)
    {
      match outcome
      case PollFailed =>
      case Polled(snapshot) =>
        progress := snapshot.progress * 100.0;
        if snapshot.state.Some? {
          if Truthy(snapshot.textinfo) {
            status := snapshot.textinfo.value;
          }
        }
    }
  }
}
