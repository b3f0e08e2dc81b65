# AI Product Studio, modelled in Dafny

AI Product Studio is a small React application. The user uploads a product photo and, optionally, a style-reference photo. They choose an aspect ratio, a lighting style and a camera perspective from three fixed option lists. The application then asks an image-generation service for a new product photograph. This project models the parts of the application with exact behaviour and proves their properties:

- **StyleOptions.dfy** holds the three option lists (`constants.ts`). Each has five entries, the ids are distinct and non-empty, the aspect ratios have the form `digits:digits`, and the first entries are the initial selections.
- **Prompt.dfy** holds the instruction text that the application rebuilds whenever a selection changes (`App.tsx`). It is a pure function of the three selected ids and of whether a style image is present. The proofs cover:
  - the prompt's line structure: one preamble line and four bullet lines;
  - the order of the selected values;
  - that the style-reference sentence appears exactly when there is a style image;
  - that `trim` changes nothing;
  - that the selections can be read back from the prompt.
- **GeminiService.dfy** holds the service (`services/geminiService.ts`):
  - turning an uploaded file into an inline-data part, by taking the payload of its data URL;
  - the API-key guard;
  - the order of the request parts;
  - the two-pass scan of the first response candidate.

  `ScanResponse` and `GenerateImage` are methods with the loops and pushes of the source. They are proved against the functions `ScanOutcome` and `RequestParts`.
- **App.dfy** holds the component state as the class `AppState`, with the fields `productImage`, `styleImage`, `aspectRatio`, `lightingStyle`, `cameraPerspective`, `generatedPrompt`, `outputImage`, `isLoading` and `error`.
  - The setters keep `generatedPrompt` equal to the built prompt (`Valid`).
  - `handleGenerate` is split at its `await`. `BeginGenerate` covers the guard and the reset. `FinishGenerate` records the outcome and clears `isLoading`. `HandleGenerate` runs both around `GenerateImage`.
  - `ShownPanes` models the three guarded blocks of the output pane.
- **Strings.dfy** models JavaScript's `split` with a one-character separator and `trim`, plus substring predicates. `Join` is the reference inverse of `Split`.
- **Optional.dfy** holds the `Option` type used for `null`.

Three details of the code that the model keeps:
- With a style image the request has four parts: product, style instruction, style image, prompt (`GeminiService.RequestShape`).
- `if (part.text)` skips text parts whose text is empty (`GeminiService.FirstText`).
- `split(',')[1]` is the text between the first comma and the next one (`GeminiService.PayloadFollowsFirstComma`); a base64 payload holds no comma (`GeminiService.PayloadOfDataUri`).

JavaScript truthiness is written out:
- an empty `API_KEY` counts as missing (`GeminiService.HasKey`);
- an empty `outputImage` shows the placeholder, and an empty `error` shows nothing (`App.IsSet`).

## Model

| member | source | states |
|---|---|---|
| StyleOptions.FiveOptionsEach | constants.ts:4-26 | each option list has exactly five entries, so the `[0]` initial selections exist |
| StyleOptions.DefaultSelections | constants.ts:4-26 | the first ids are '1:1', 'soft studio lighting' and 'front-on eye-level shot' |
| StyleOptions.IdsAreDistinct | constants.ts:4-26 | within each list no two options share an id |
| StyleOptions.IdsAreNonEmpty | constants.ts:4-26 | every id of every list is non-empty |
| StyleOptions.AspectRatioIdsAreRatios | constants.ts:4-10 | every aspect-ratio id is a run of digits, ':', and a run of digits |
| StyleOptions.AspectRatioIdsInOrder | constants.ts:4-10 | the aspect-ratio ids, in list order |
| StyleOptions.LightingIdsInOrder | constants.ts:12-18 | the lighting ids, in list order |
| StyleOptions.CameraIdsInOrder | constants.ts:20-26 | the camera-perspective ids, in list order |
| StyleOptions.IdsAreShortLines | constants.ts:4-26 | every id holds no line break and is at most 4, 24 or 23 characters long (per list) |
| Strings.Split | services/geminiService.ts:7 | `split` always gives at least one piece, gives a single piece exactly when the separator is absent, and no piece holds the separator |
| Strings.SplitJoin | services/geminiService.ts:7 | joining separator-free pieces and splitting again gives the pieces back |
| Strings.JoinSplit | services/geminiService.ts:7 | splitting and joining again gives the string back |
| Strings.SplitAtFirst | services/geminiService.ts:7 | splitting a string cuts at its first separator: the first piece is everything before it |
| Strings.TrimRemovesOuterWhitespace | App.tsx:27 | `trim` gives a slice of its input; everything cut off before and after it is ECMAScript whitespace, and the result neither starts nor ends with whitespace |
| Strings.TrimUnchanged | App.tsx:27 | `trim` leaves a string unchanged when its first and last characters are not whitespace |
| Prompt.BuildPrompt | App.tsx:20-28 | the trimmed prompt is the preamble and the aspect, lighting, camera and closing lines, joined by line breaks |
| Prompt.TemplateEnds | App.tsx:22-26 | the template literal (`Prompt.Template`) starts with 'G' and ends with '.' for every input |
| Prompt.TemplateIsLines | App.tsx:22-26 | the template literal is its five lines joined by line breaks |
| Prompt.TrimIsNoOp | App.tsx:22-27 | `trim` is a no-op on the template, which starts with 'G' and ends with '.' for every input |
| Prompt.PromptLinesInOrder | App.tsx:22-26 | with single-line values, the prompt splits into exactly its five lines, in order |
| Prompt.LinesAfterPreambleAreBullets | App.tsx:23-26 | the aspect, lighting, camera and closing lines each start with "- " |
| Prompt.FourBulletLines | App.tsx:22-26 | the prompt has five lines: the preamble, which is not a bullet, followed by exactly four "- " bullet lines |
| Prompt.Layout | App.tsx:22-26 | the length of the prompt and the position of each of its five lines |
| Prompt.PromptFrame | App.tsx:22-26 | the prompt starts with the preamble and ends with "The final output must be just the image, with no text or other annotations." |
| Prompt.SelectionsInOrder | App.tsx:22-25 | the aspect ratio, lighting and camera values occur after the preamble, in that order and without overlapping |
| Prompt.StyleSentenceIffStyleImage | App.tsx:21-26 | for ids from the option lists, the style-reference sentence occurs in the prompt if and only if a style image is present |
| Prompt.StyleSentenceWithStyleImage | App.tsx:21-26 | with a style image the prompt contains the style-reference sentence |
| Prompt.NoStyleSentenceWithoutStyleImage | App.tsx:21-26 | without a style image the prompt does not contain the style-reference sentence, for values of bounded length |
| Prompt.ReadSelectionInvertsBuildPrompt | App.tsx:20-28 | the four inputs can be read back from the prompt built from them |
| Prompt.BuildPromptInvertsReadSelection | App.tsx:20-28 | every string that reads back as a selection is the prompt of that selection, and that selection is single-line |
| Prompt.PromptIsInjective | App.tsx:20-28 | different inputs give different prompts: the prompt depends on all four inputs |
| GeminiService.Base64Payload | services/geminiService.ts:7 | the payload taken from a data URL holds no comma |
| GeminiService.FileToPart | services/geminiService.ts:4-16 | the part is inline data carrying the file's MIME type unchanged and a comma-free payload |
| GeminiService.PayloadFollowsFirstComma | services/geminiService.ts:7 | the payload is the text after the first comma, up to the next comma; it is all of that text when there is no second comma |
| GeminiService.DataUriDeterminesPart | services/geminiService.ts:53 | the data URI built from an inline part (`GeminiService.DataUri`) determines that part's MIME type and base64 data |
| GeminiService.PayloadOfDataUri | services/geminiService.ts:53 | splitting a data URI built as the service builds it recovers the base64 data |
| GeminiService.FileToPartOfDataUri | services/geminiService.ts:4-16 | a file whose data URL is `data:<mime>;base64,<data>` becomes the part with that MIME type and data |
| GeminiService.RequestParts | services/geminiService.ts:28-39 | the request has two parts without a style image and four with one; exactly the first part, and the third when there is a style image, carry inline data |
| GeminiService.RequestShape | services/geminiService.ts:28-39 | without a style image the parts are exactly [product, prompt]; with one they are exactly [product, style instruction, style image, prompt] |
| GeminiService.ProductFirstPromptLast | services/geminiService.ts:30-39 | the product part is first, the prompt text is last, and the style instruction comes before the prompt exactly when there is a style image |
| GeminiService.FirstInlineData | services/geminiService.ts:50-51 | the index found holds inline data, and no earlier part does |
| GeminiService.FirstText | services/geminiService.ts:57-58 | the index found holds non-empty text, and no earlier part does |
| GeminiService.FirstImageWins | services/geminiService.ts:49-55 | the first inline-data part of candidate 0 gives `data:<mime>;base64,<data>`; later parts and later candidates are ignored |
| GeminiService.FirstTextReported | services/geminiService.ts:57-61 | without inline data, the first non-empty text is reported as "API returned text instead of an image: " followed by that text |
| GeminiService.ResolvedIffImage | services/geminiService.ts:49-55 | the service resolves if and only if candidate 0 has an inline-data part, and then with that part's data URI |
| GeminiService.NoImageIffNothingUsable | services/geminiService.ts:49-64 | "No image data found in the API response." is the outcome if and only if there is no candidate, or candidate 0 has neither inline data nor non-empty text |
| GeminiService.ScanOutcome | services/geminiService.ts:49-64 | a resolved scan returns the data URI of an inline-data part of candidate 0; a rejected scan always throws an `Error`, whose message is "No image data found in the API response." or the text-only prefix followed by the non-empty text of a part of candidate 0 |
| GeminiService.ScanResponse | services/geminiService.ts:49-64 | the two loops over the parts of candidate 0 compute the specified outcome |
| GeminiService.GenerateImage | services/geminiService.ts:23-64 | a request is issued if and only if the key is set and non-empty; the request is exactly the assembled parts; the outcome follows from the key and the reply |
| GeminiService.ServiceOutcome | services/geminiService.ts:23-64 | the service resolves only with a non-empty key and a response; a thrown non-`Error` value can only come from the SDK call |
| GeminiService.OnlyKeyPresenceMatters | services/geminiService.ts:23 | `!process.env.API_KEY` (`GeminiService.HasKey`): an empty key counts as missing, and otherwise the key's value never changes the outcome |
| GeminiService.MissingKeyFirst | services/geminiService.ts:23-25 | a missing or empty key rejects with "API_KEY environment variable not set" whatever the reply; a scanned response never rejects with that message |
| App.ShownPanes | App.tsx:104-119 | the three guarded blocks of the output pane yield exactly one block |
| App.ExactlyOnePane | App.tsx:104-119 | exactly one output block is shown: loading while loading, otherwise the image when it is set, otherwise the placeholder |
| App.ErrorMessagesAreDistinct | App.tsx:43 | the messages shown (`App.ErrorMessage`) for a missing product, a missing key, an empty response, a text-only response and a non-`Error` throw are pairwise different |
| App.ServiceErrorMessages | App.tsx:42-44 | a missing key shows its message; a thrown non-`Error` value shows "An unknown error occurred."; every rejection of a scanned response is an `Error` |
| App.AppState.constructor | App.tsx:10-18 | the initial state: first option of each list, no files, no output, not loading, no error, prompt built from the defaults |
| App.AppState.GenerateEnabled | App.tsx:90 | the button is enabled exactly when a product image is present and the loading block is not shown |
| App.AppState.ShownError | App.tsx:96 | the error line is shown exactly when the error is set and non-empty, and then shows that error |
| App.AppState.StyleSentenceShownIffStyleImage | App.tsx:20-28 | in a state where the prompt is in sync (`App.AppState.Valid`) and the selections come from the option lists, the displayed prompt carries the style-reference sentence if and only if a style image is uploaded |
| App.AppState.SetProductImage | App.tsx:10 | replaces the product image and changes nothing else |
| App.AppState.SetStyleImage | App.tsx:20-28 | replaces the style image and rebuilds the prompt |
| App.AppState.SetAspectRatio | App.tsx:20-28 | replaces the aspect ratio and rebuilds the prompt |
| App.AppState.SetLightingStyle | App.tsx:20-28 | replaces the lighting style and rebuilds the prompt |
| App.AppState.SetCameraPerspective | App.tsx:20-28 | replaces the camera perspective and rebuilds the prompt |
| App.AppState.BeginGenerate | App.tsx:30-37 | without a product image: only the error is set, and no call is made. Otherwise: loading starts, the error and output are cleared, and the call carries the current prompt and files. When the button is enabled (`GenerateEnabled`, the rule at App.tsx line 90), the guard never fires. Once started, the button is disabled, the error line is hidden and the loading pane shows |
| App.AppState.FinishGenerate | App.tsx:39-48 | success stores the result; failure stores the thrown message or "An unknown error occurred."; loading is cleared in every case |
| App.AppState.HandleGenerate | App.tsx:30-49 | a whole attempt: no service call without a product image. Otherwise loading is off afterwards and the button is enabled again. On success the output is the result and no error line is shown; on failure there is no output, the error is the message and the placeholder shows |

## Left out

- The SDK call is not modelled: the `GoogleGenAI` client, the model name and the response modalities (services/geminiService.ts:26, 41-47). The reply is an input value (`Reply`): either candidates or a thrown value.
- Reading `process.env.API_KEY` is an input (`Option<string>`).
- `FileReader.readAsDataURL` is not modelled: the byte-to-base64 encoding is a browser API. A file carries the data URL the browser produces for it (`Upload.dataUrl`).
- GeminiService.FileToPart: only files whose data URL holds a comma are modelled (the subset type `File`). A data URL without a comma (for example the bare `"data:"` some browsers give for an empty file) is not modelled; `split(',')[1]` would be `undefined` there.
- App.AppState.HandleGenerate: a `FileReader` failure is not modelled. Then `reader.result` is null, `split` throws inside `onloadend` (services/geminiService.ts:7), and the promise at services/geminiService.ts:5-9 never settles. The attempt stays pending, `finally` never runs, `isLoading` stays true and the button stays disabled. The model gives every service call an outcome, which excludes this case.
- A response whose candidate has no `content` or no `parts` field (a JavaScript `TypeError`) is not modelled. A candidate always has a list of parts. A part holding both inline data and text is modelled as inline data, which is how the first pass treats it.
- React scheduling is not modelled. The `useEffect` dependency tracking is replaced by each setter rebuilding the prompt itself. State batching and the asynchronous suspension at `await` are not modelled either; the attempt is split into `BeginGenerate` and `FinishGenerate` instead.
- The empty `generatedPrompt` of the very first render, before the effect has run, is not modelled. The constructor is the state after the first effect.
- App.AppState.BeginGenerate and App.AppState.FinishGenerate do not mention `Valid`. They leave the selections, the style image and the prompt unchanged, so the prompt stays in sync; `HandleGenerate` states this.
- `console.error` is not modelled.
- The components `ImageUploader` and `ControlPanel` (file input, previews, buttons) are not part of this model. Nor are the JSX layout, styling and icons.
- Prompt.PromptLinesInOrder, Prompt.FourBulletLines, Prompt.ReadSelectionInvertsBuildPrompt and Prompt.PromptIsInjective hold only for selected values without line breaks. The option ids have none (`StyleOptions.IdsAreShortLines`).
- Prompt.NoStyleSentenceWithoutStyleImage needs the selected values to be short (at most 38, 54 and 40 characters). Prompt.StyleSentenceIffStyleImage therefore holds for ids from the option lists. A value long enough to contain the style sentence itself would make the sentence appear without a style image.
- App.AppState.StyleSentenceShownIffStyleImage requires the selections to come from the option lists (`FromOptionLists`), for the same reason. The UI offers only those ids.
