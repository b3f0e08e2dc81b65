/**
 * The application's state and its generate attempt (the `App` component).
 *
 * The nine `useState` hooks are the fields of `AppState`; each setter is a
 * method. The effect that rebuilds the prompt runs inside every setter whose
 * value it depends on, so `generatedPrompt` always matches the current
 * selections (`Valid`). `handleGenerate` is split at its single `await`:
 * `BeginGenerate` runs up to the service call, `FinishGenerate` records how the
 * call settled, and `HandleGenerate` runs the two around the service model.
 */
module App {
  import opened Optional
  import opened Strings
  import opened StyleOptions
  import opened Prompt
  import opened GeminiService

  const MissingProductMessage := "Please upload a product photo first."
  const UnknownErrorMessage := "An unknown error occurred."

  /** What the output pane shows. */
  datatype Pane = LoadingIndicator | GeneratedImage(src: string) | Placeholder

  /** The arguments `handleGenerate` passes to the service. */
  datatype ServiceCall = ServiceCall(prompt: string, product: File, style: Option<File>)

  /** A string state value is truthy when it is set and non-empty. */
  predicate IsSet(value: Option<string>) {
    value.Some? && value.value != ""
  }

  /** The three guarded blocks of the output pane, in the order they are written. */
  function ShownPanes(isLoading: bool, outputImage: Option<string>): (panes: seq<Pane>)
    ensures |panes| == 1
  {
    (if isLoading then [LoadingIndicator] else [])
    + (if !isLoading && IsSet(outputImage) then [GeneratedImage(outputImage.value)] else [])
    + (if !isLoading && !IsSet(outputImage) then [Placeholder] else [])
  }

  /** The guards exclude one another and cover every state: exactly one block is shown. */
  lemma ExactlyOnePane(isLoading: bool, outputImage: Option<string>)
    ensures |ShownPanes(isLoading, outputImage)| == 1
    ensures ShownPanes(isLoading, outputImage)[0]
            == if isLoading then LoadingIndicator
               else if IsSet(outputImage) then GeneratedImage(outputImage.value)
               else Placeholder
  {
  }

  /** The message the `catch` block records for a thrown value. */
  function ErrorMessage(thrown: Thrown): string {
    match thrown
    case ErrorObject(message) => message
    case NonError => UnknownErrorMessage
  }

  /** The messages the error line can show for the missing product, the missing
      key, an empty response, a text-only response and a non-`Error` throw are
      pairwise different, so the user can tell the causes apart. */
  lemma ErrorMessagesAreDistinct(text: string)
    ensures var product, key, empty, textOnly, unknown :=
          MissingProductMessage,
          ErrorMessage(ErrorObject(MissingKeyMessage)),
          ErrorMessage(ErrorObject(NoImageMessage)),
          ErrorMessage(ErrorObject(TextOnlyPrefix + text)),
          ErrorMessage(NonError);
      && product != key && product != empty && product != textOnly && product != unknown
      && key != empty && key != textOnly && key != unknown
      && empty != textOnly && empty != unknown
      && textOnly != unknown
  {
    var textOnly := TextOnlyPrefix + text;
    assert MissingProductMessage[0] == 'P';
    assert MissingKeyMessage[0] == 'A' && MissingKeyMessage[1] == 'P' && MissingKeyMessage[3] == '_';
    assert NoImageMessage[0] == 'N';
    assert textOnly[0] == 'A' && textOnly[1] == 'P' && textOnly[3] == ' ';
    assert UnknownErrorMessage[0] == 'A' && UnknownErrorMessage[1] == 'n';
  }

  /** Every way the service can fail shows its own message; a value that is not
      an `Error` shows the fixed fallback. */
  lemma ServiceErrorMessages(apiKey: Option<string>, reply: Reply)
    ensures !HasKey(apiKey) ==> ErrorMessage(ServiceOutcome(apiKey, reply).thrown) == MissingKeyMessage
    ensures HasKey(apiKey) && reply.Failure? && reply.thrown.NonError?
            ==> ErrorMessage(ServiceOutcome(apiKey, reply).thrown) == UnknownErrorMessage
    ensures HasKey(apiKey) && reply.Response? && ServiceOutcome(apiKey, reply).Rejected?
            ==> ServiceOutcome(apiKey, reply).thrown.ErrorObject?
  {
  }

  class AppState {
    var productImage: Option<File>
    var styleImage: Option<File>
    var aspectRatio: string
    var lightingStyle: string
    var cameraPerspective: string
    var generatedPrompt: string
    var outputImage: Option<string>
    var isLoading: bool
    var error: Option<string>

    /** The prompt shown and sent is the one built from the current selections. */
    ghost predicate Valid()
      reads this
    {
      generatedPrompt == BuildPrompt(aspectRatio, lightingStyle, cameraPerspective, styleImage.Some?)
    }

    /** The first render, after the prompt effect has run once: the first option
        of each list is selected, no files, no output, no error. */
    constructor ()
      ensures Valid()
      ensures aspectRatio == AspectRatios[0].id
      ensures lightingStyle == LightingStyles[0].id
      ensures cameraPerspective == CameraPerspectives[0].id
      ensures productImage.None? && styleImage.None?
      ensures outputImage.None? && !isLoading && error.None?
    {
      productImage := None;
      styleImage := None;
      aspectRatio := AspectRatios[0].id;
      lightingStyle := LightingStyles[0].id;
      cameraPerspective := CameraPerspectives[0].id;
      generatedPrompt := BuildPrompt(AspectRatios[0].id, LightingStyles[0].id, CameraPerspectives[0].id, false);
      outputImage := None;
      isLoading := false;
      error := None;
    }

    /** `disabled={isLoading || !productImage}` negated. */
    function GenerateEnabled(): (enabled: bool)
      reads this
      ensures enabled <==> productImage.Some? && LoadingIndicator !in Panes()
    {
      !isLoading && productImage.Some?
    }

    /** The output pane of the current state. */
    function Panes(): seq<Pane>
      reads this
    {
      ShownPanes(isLoading, outputImage)
    }

    /** The error paragraph: shown only for a non-empty message. */
    function ShownError(): (shown: Option<string>)
      reads this
      ensures shown.Some? <==> error.Some? && error.value != ""
      ensures shown.Some? ==> shown == error
    {
      if IsSet(error) then error else None
    }

    /** The selections come from the option lists, as the option buttons supply them. */
    predicate FromOptionLists()
      reads this
    {
      aspectRatio in Ids(AspectRatios) && lightingStyle in Ids(LightingStyles)
      && cameraPerspective in Ids(CameraPerspectives)
    }

    /** The prompt on display carries the style-reference sentence exactly when a
        style image is uploaded. */
    lemma StyleSentenceShownIffStyleImage()
      requires Valid() && FromOptionLists()
      ensures Contains(generatedPrompt, StyleReference) <==> styleImage.Some?
    {
      StyleSentenceIffStyleImage(aspectRatio, lightingStyle, cameraPerspective, styleImage.Some?);
    }

    method SetProductImage(file: Option<File>)
      requires Valid()
      modifies this
      ensures Valid()
      ensures productImage == file
      ensures styleImage == old(styleImage) && generatedPrompt == old(generatedPrompt)
      ensures aspectRatio == old(aspectRatio) && lightingStyle == old(lightingStyle)
      ensures cameraPerspective == old(cameraPerspective)
      ensures outputImage == old(outputImage) && isLoading == old(isLoading) && error == old(error)
    {
      productImage := file;
    }

    /** Choosing or clearing the style image also rebuilds the prompt. */
    method SetStyleImage(file: Option<File>)
      modifies this
      ensures Valid()
      ensures styleImage == file
      ensures productImage == old(productImage)
      ensures aspectRatio == old(aspectRatio) && lightingStyle == old(lightingStyle)
      ensures cameraPerspective == old(cameraPerspective)
      ensures outputImage == old(outputImage) && isLoading == old(isLoading) && error == old(error)
    {
      var prompt := BuildPrompt(aspectRatio, lightingStyle, cameraPerspective, file.Some?);
      styleImage, generatedPrompt := file, prompt;
    }

    method SetAspectRatio(id: string)
      modifies this
      ensures Valid()
      ensures aspectRatio == id
      ensures productImage == old(productImage) && styleImage == old(styleImage)
      ensures lightingStyle == old(lightingStyle) && cameraPerspective == old(cameraPerspective)
      ensures outputImage == old(outputImage) && isLoading == old(isLoading) && error == old(error)
    {
      var prompt := BuildPrompt(id, lightingStyle, cameraPerspective, styleImage.Some?);
      aspectRatio, generatedPrompt := id, prompt;
    }

    method SetLightingStyle(id: string)
      modifies this
      ensures Valid()
      ensures lightingStyle == id
      ensures productImage == old(productImage) && styleImage == old(styleImage)
      ensures aspectRatio == old(aspectRatio) && cameraPerspective == old(cameraPerspective)
      ensures outputImage == old(outputImage) && isLoading == old(isLoading) && error == old(error)
    {
      var prompt := BuildPrompt(aspectRatio, id, cameraPerspective, styleImage.Some?);
      lightingStyle, generatedPrompt := id, prompt;
    }

    method SetCameraPerspective(id: string)
      modifies this
      ensures Valid()
      ensures cameraPerspective == id
      ensures productImage == old(productImage) && styleImage == old(styleImage)
      ensures aspectRatio == old(aspectRatio) && lightingStyle == old(lightingStyle)
      ensures outputImage == old(outputImage) && isLoading == old(isLoading) && error == old(error)
    {
      var prompt := BuildPrompt(aspectRatio, lightingStyle, id, styleImage.Some?);
      cameraPerspective, generatedPrompt := id, prompt;
    }

    /** `handleGenerate` up to the service call. Without a product image only the
        error is set and no call is made; otherwise loading starts and the
        previous error and output are cleared, and the call carries the current
        prompt and files. */
    method BeginGenerate() returns (call: Option<ServiceCall>)
      modifies this
      ensures productImage == old(productImage) && styleImage == old(styleImage)
      ensures aspectRatio == old(aspectRatio) && lightingStyle == old(lightingStyle)
      ensures cameraPerspective == old(cameraPerspective) && generatedPrompt == old(generatedPrompt)
      ensures call.None? <==> productImage.None?
      ensures old(GenerateEnabled()) ==> call.Some?
      ensures productImage.None? ==>
                error == Some(MissingProductMessage) && ShownError() == error
                && isLoading == old(isLoading) && outputImage == old(outputImage)
      ensures productImage.Some? ==>
                call == Some(ServiceCall(generatedPrompt, productImage.value, styleImage))
                && isLoading && error.None? && ShownError().None? && outputImage.None?
                && !GenerateEnabled() && Panes() == [LoadingIndicator]
    {
      if productImage.None? {
        error := Some(MissingProductMessage);
        return None;
      }
      isLoading := true;
      error := None;
      outputImage := None;
      call := Some(ServiceCall(generatedPrompt, productImage.value, styleImage));
    }

    /** `handleGenerate` after the service call settles: the result or the error
        message is recorded, and `finally` clears the loading flag either way. */
    method FinishGenerate(outcome: Outcome)
      modifies this
      ensures !isLoading
      ensures outcome.Resolved? ==> outputImage == Some(outcome.uri) && error == old(error)
      ensures outcome.Rejected? ==> error == Some(ErrorMessage(outcome.thrown)) && outputImage == old(outputImage)
      ensures productImage == old(productImage) && styleImage == old(styleImage)
      ensures aspectRatio == old(aspectRatio) && lightingStyle == old(lightingStyle)
      ensures cameraPerspective == old(cameraPerspective) && generatedPrompt == old(generatedPrompt)
    {
      match outcome {
        case Resolved(uri) =>
          outputImage := Some(uri);
        case Rejected(thrown) =>
          error := Some(ErrorMessage(thrown));
      }
      isLoading := false;
    }

    /** A whole generate attempt, with the service modelled by `GenerateImage`
        on the given key and SDK reply. */
    method HandleGenerate(apiKey: Option<string>, reply: Reply) returns (call: Option<ServiceCall>)
      requires Valid()
      modifies this
      ensures Valid()
      ensures call.None? <==> old(productImage).None?
      ensures old(productImage).None? ==>
                error == Some(MissingProductMessage) && ShownError() == error
                && isLoading == old(isLoading) && outputImage == old(outputImage)
      ensures old(productImage).Some? ==>
                call == Some(ServiceCall(old(generatedPrompt), old(productImage).value, old(styleImage)))
                && !isLoading
                && GenerateEnabled()
                && match ServiceOutcome(apiKey, reply)
                   case Resolved(uri) => outputImage == Some(uri) && error.None? && ShownError().None?
                   case Rejected(thrown) => outputImage.None? && error == Some(ErrorMessage(thrown))
                                            && Panes() == [Placeholder]
      ensures productImage == old(productImage) && styleImage == old(styleImage)
      ensures aspectRatio == old(aspectRatio) && lightingStyle == old(lightingStyle)
      ensures cameraPerspective == old(cameraPerspective) && generatedPrompt == old(generatedPrompt)
    {
      call := BeginGenerate();
      if call.Some? {
        var outcome, request := GenerateImage(call.value.prompt, call.value.product, call.value.style, apiKey, reply);
        FinishGenerate(outcome);
      }
    }
  }
}
