# Stable Diffusion UI front-end: verified model of its sequential core

This project models the logic of a browser front-end for an AUTOMATIC1111-compatible
image-generation server. The model covers:

- **History store** (`useImageHistory`, module `ImageHistory`). This is a most-recent-first
  list of image records. It offers add, remove-by-id, clear, lookup by id and
  statistics. The list is mirrored in full into one browser-storage slot,
  `stable-diffusion-image-history`. Storage is an abstract map from slot name to
  stored text (`Blob`). A failed read or write is a supplied boolean, and the model
  swallows it as the hook does. The hook is the class `HistoryStore`, with fields
  `images`, `loading` and `storage`. Its methods assign pure sequence functions.
- **Record conversion and text helpers** (`imageUtils`, module `ImageUtils`). This module
  maps a generation response to records with a `data:image/png;base64,` url. It also
  builds the text copied for a prompt and computes the integer size estimate, which
  is proved equal to `Math.round` of the source's real-valued formula.
- **Generation controller** (`ImageGenerator`, module `ImageGenerator`). The class
  `Generator` holds `isGenerating`, `status`, `error` and `progress`. `handleGenerate` is
  modelled as `BeginGenerate` (validation, reset, request construction) and
  `FinishGenerate` (what happens after the awaited call), split at its `await`.
  `HandleGenerate` composes the two. The success path hands each record to
  `addImage` in turn, in a loop. Its invariant shows that the history gains the
  batch **reversed**. The interrupt handler and one poll tick are methods too.
- **Recent-images strip** (`App.handleImageGenerated`, module `RecentImages`). This
  prepends the batch in its own order and keeps the first six entries.
- JavaScript built-ins the core relies on: `trim` and the decimal rendering of a count
  in a template literal (module `JsText`), and an array's `slice(0, n)` (module `JsArray`).

Outside inputs are parameters:

- The generation, progress and interrupt calls are abstract outcomes (`GenerateOutcome`,
  `PollOutcome`, a boolean).
- `generateImageId()` and `Date.now()` are the functions `newId(i)` and `now(i)`, the
  values returned while record `i` is built.

Behaviour worth knowing:

- A failed call whose response carries no data (an empty body, as from a bare gateway
  error) is reported with the connection-error text, not the API-error text, because
  the interceptor tests for response data rather than for a response
  (src/services/stableDiffusionApi.ts:34).
- A poll reply updates the status only when it carries a `state` object as well as a
  non-empty `textinfo` (src/components/ImageGenerator.tsx:263-267). A reply with the text
  alone leaves the status unchanged.
- A failed interrupt call sets only `error`. It leaves `status` and `isGenerating` as
  they were (src/components/ImageGenerator.tsx:343-345). Nothing marks the session
  as interrupted.
- Record ids are not guaranteed unique, so no uniqueness is proved. `RemoveById`
  removes every record carrying the id.
- Records always carry the form's negative-prompt text, even when it is empty
  (`Some("")`). The copied prompt text treats an empty one as absent.
- The history gains a batch reversed: its first image sits directly above the previous
  head and its last image ends up at the very top.

## Model

| member | source | states |
|---|---|---|
| `ImageHistory.HistoryStore.constructor` | src/hooks/useImageHistory.ts:7-8 | a mounted store starts with an empty list, still loading |
| `ImageHistory.HistoryStore.LoadEffect` | src/hooks/useImageHistory.ts:11-23 | the list becomes `LoadedImages(storage, old list, readOk)`; `loading` is false afterwards in every case |
| `ImageHistory.HistoryStore.SaveEffect` | src/hooks/useImageHistory.ts:26-34 | storage becomes `SavedStorage(...)`: the whole list under the key when not loading and the write succeeds, otherwise unchanged; the list and `loading` are untouched |
| `ImageHistory.SaveThenLoad` | src/hooks/useImageHistory.ts:13-29 | loading after a successful save outside loading yields exactly the saved sequence, whatever was in memory; no other storage slot changes |
| `ImageHistory.SaveSkipped` | src/hooks/useImageHistory.ts:26-32 | a save while loading, or one whose write throws, leaves storage (and what a later load sees) unchanged |
| `ImageHistory.ReopenAfterSave` | src/hooks/useImageHistory.ts:11-34 | save, then mount and load a second store over the same storage: the second store holds the first store's list, in order, and has finished loading |
| `ImageHistory.HistoryStore.AddImage` | src/hooks/useImageHistory.ts:37-39 | the list becomes `[image] + old`; no other field changes |
| `ImageHistory.HistoryStore.RemoveImage` | src/hooks/useImageHistory.ts:42-44 | the list becomes `RemoveById(old, id)`; no other field changes |
| `ImageHistory.RemoveByIdKeeps` | src/hooks/useImageHistory.ts:43 | the filtered list holds every record whose id differs, with the same multiplicity, and no record carrying the id (so duplicates are all removed); it is no longer than the original |
| `ImageHistory.RemoveByIdConcat` | src/hooks/useImageHistory.ts:43 | filtering distributes over concatenation, so kept records keep their relative order |
| `ImageHistory.RemoveAbsentId` | src/hooks/useImageHistory.ts:43 | removing an id no record carries leaves the list unchanged |
| `ImageHistory.RemoveIdempotent` | src/hooks/useImageHistory.ts:43 | removing the same id twice equals removing it once |
| `ImageHistory.HistoryStore.ClearHistory` | src/hooks/useImageHistory.ts:47-49 | the list becomes empty, and its statistics report zero records and no oldest or newest timestamp |
| `ImageHistory.FindById` | src/hooks/useImageHistory.ts:53 | nothing is found exactly when no record carries the id; otherwise the result is the record at the first index carrying it |
| `ImageHistory.HistoryStore.GetImageById` | src/hooks/useImageHistory.ts:52-54 | a read-only query returning `FindById` of the current list: a member of the list with the requested id |
| `ImageHistory.OldestTimestamp` | src/hooks/useImageHistory.ts:61 | for a non-empty list: a timestamp that occurs in it and is at most every timestamp in it |
| `ImageHistory.NewestTimestamp` | src/hooks/useImageHistory.ts:62 | for a non-empty list: a timestamp that occurs in it and is at least every timestamp in it |
| `ImageHistory.StatsOf` | src/hooks/useImageHistory.ts:57-64 | count equals the length, size estimate equals 0.5 times the length, oldest and newest are the minimum and maximum timestamps, each absent exactly when the list is empty, and oldest <= newest |
| `ImageHistory.HistoryStore.GetStats` | src/hooks/useImageHistory.ts:57-64 | a read-only query returning `StatsOf` of the current list |
| `ImageHistory.ReverseAt` | src/components/ImageGenerator.tsx:316 | position `k` of a reversed batch of length `n` holds the batch's element `n - 1 - k`, and reversal keeps the length |
| `ImageUtils.ConvertToGeneratedImage` | src/utils/imageUtils.ts:17-35 | no images gives no records; otherwise one record per payload, where record `i` has id `newId(i)`, timestamp `now(i)`, the url `data:image/png;base64,` followed by payload `i`, and the given prompt and negative prompt and the response's parameters and info |
| `ImageUtils.PayloadOfDataUrl` | src/utils/imageUtils.ts:28 | a record url gives back exactly the payload it was built from, and only that url does |
| `ImageUtils.PromptTextShape` | src/utils/imageUtils.ts:102-104 | the copied text starts with the prompt; it is longer than the prompt exactly when the negative prompt is non-empty, and then the rest is `"\n\nNegative prompt: "` followed by it |
| `ImageUtils.EstimateImageSize` | src/utils/imageUtils.ts:173-177 | the integer result equals `Math.round((length * 3 / 4) / 1024)` computed over the reals |
| `ImageUtils.RoundOfQuotient` | src/utils/imageUtils.ts:176 | rounding `a / 4096` half upwards equals `(a + 2048) div 4096` |
| `ImageUtils.EstimateMonotone` | src/utils/imageUtils.ts:173-177 | the estimate is 0 for the empty payload and never decreases as the payload gets longer |
| `ApiTypes.InterceptorError` | src/services/stableDiffusionApi.ts:34-37 | a failed call always throws an `Error` with a non-empty message: the server's own message when it sent a non-empty one, else `'Erro na API'` when it answered with a non-empty body, else (no answer, or an answer with an empty body) the connection-error text |
| `ImageGenerator.InterceptedRejectionText` | src/components/ImageGenerator.tsx:325-326 | a rejected generation shows the prefix followed by the message thrown by the response interceptor, which is never empty; the unknown-error text appears only when the server sent exactly that text |
| `JsText.TrimSplitsInput` | src/components/ImageGenerator.tsx:283 | `trim` splits its input into whitespace, the result and whitespace; the result is empty exactly when the input is all whitespace, and otherwise starts and ends with non-whitespace |
| `JsText.TrimIdempotent` | src/components/ImageGenerator.tsx:295 | trimming twice equals trimming once |
| `JsText.NatToString` | src/components/ImageGenerator.tsx:322 | a count renders as a non-empty string of decimal digits whose first digit is `0` only for zero |
| `JsText.DecimalRoundTrip` | src/components/ImageGenerator.tsx:322 | reading the rendered digits back gives the count that was rendered |
| `ImageGenerator.RequestFromForm` | src/components/ImageGenerator.tsx:294-309 | the request's prompt is the form prompt with surrounding whitespace cut away; it is non-empty exactly when the prompt is not blank; the negative prompt is present exactly when the form's has a non-whitespace character, and then it is trimmed and non-empty; width, height, steps, cfg scale, sampler, seed and batch size are copied; `n_iter = 1`, no face restoration, no tiling, images sent, nothing saved |
| `ImageGenerator.SuccessStatusReportsCount` | src/components/ImageGenerator.tsx:322 | the success status is the decimal count followed by the fixed suffix, the count reads back from it, and different counts give different statuses |
| `ImageGenerator.Generator.constructor` | src/components/ImageGenerator.tsx:194-208 | the default form (512x512, 20 steps, cfg 7, no seed, batch 1, `Euler`); not generating, empty status and error, progress 0 |
| `ImageGenerator.Generator.BeginGenerate` | src/components/ImageGenerator.tsx:282-309 | a blank prompt sets `error` to `'Por favor, insira um prompt'`, issues no request and leaves `isGenerating`, `status` and `progress` alone; otherwise `isGenerating` is true, `error` is empty, `status` is `'Iniciando geração...'`, `progress` is 0, and the request is `BuildRequest(form)` |
| `ImageGenerator.Generator.FinishGenerate` | src/components/ImageGenerator.tsx:311-329 | success: the records come from the untrimmed prompts, history becomes `Reverse(batch) + old`, `onImageGenerated` receives the batch, the status reports the count, and progress becomes 100; failure: `error` becomes `'Erro ao gerar imagem: '` plus the message (or `'Erro desconhecido'`), status becomes empty, and history and progress are untouched; `isGenerating` is false either way |
| `ImageGenerator.Generator.HandleGenerate` | src/components/ImageGenerator.tsx:282-329 | the whole handler with no poll tick in between: a blank prompt gives no request and no history change; otherwise the request built from the form, and then the success or failure state above |
| `ImageGenerator.Generator.HandleInterrupt` | src/components/ImageGenerator.tsx:339-346 | success sets `status` to `'Geração interrompida'`; failure sets `error` to `'Erro ao interromper geração'`; `isGenerating` is never touched |
| `ImageGenerator.Generator.PollTick` | src/components/ImageGenerator.tsx:259-271 | a reply sets `progress` to fraction times 100 and replaces `status` only when both `state` and a non-empty `textinfo` are present; a failed poll changes nothing |
| `RecentImages.RecentShape` | src/App.tsx:138 | the strip has min(6, batch + previous) entries: a prefix of `batch + prev`, equal to the batch's first six followed by the newest previous entries; previous entry `k` survives, at position `n + k` for a batch of length `n`, exactly when `n + k < 6` |
| `RecentImages.RecentEmptyBatch` | src/App.tsx:138 | an empty batch leaves a strip of at most six entries unchanged |
| `RecentImages.HistoryAndRecentOrder` | src/components/ImageGenerator.tsx:314-320 | for a batch of one to six records, the strip starts with the batch in its own order while the history starts with it reversed: the strip's head is the batch's first record, the history's head its last |
| `RecentImages.App.constructor` | src/App.tsx:134 | the strip starts empty |
| `RecentImages.App.HandleImageGenerated` | src/App.tsx:136-139 | the strip becomes `Recent(images, old)` and keeps at most six entries |
| `RecentImages.App.RenderedRecent` | src/App.tsx:164 | since the strip never exceeds six entries, the render-time `slice(0, 6)` is the stored list itself |
| `RecentImages.App.OnGenerate` | src/App.tsx:136-149 | one generate press wired to the strip: on success the history gains the batch reversed and the strip gains it in order; a blank prompt or a failure changes neither |

## Left out

- HTTP client (`src/services/stableDiffusionApi.ts`) beyond the interceptor's message choice: calls are abstract outcomes, with no network, timeout or proxy (`src/setupProxy.js`) model.
- Timers are asynchronous scheduling and are not modelled. This covers arming and clearing the poll interval (src/components/ImageGenerator.tsx:254-280) and the 3-second reset in `handleGenerate` (its check of a stale captured `error`).
- Interleaving: a poll tick may run between `BeginGenerate` and `FinishGenerate`, and a tick already in flight may complete after the interval is cleared. `HandleGenerate` covers only the run with no tick in between.
- The sampler and model loading effects (src/components/ImageGenerator.tsx:226-251) are left out, because they are network calls that only fill selection lists.
- `resizeImage` is left out (canvas and DOM work with floating-point division). So is `formatTimestamp` (locale formatting). `downloadImage`, `copyTextToClipboard` and `copyImageToClipboard` are left out as DOM and clipboard access. Only the text composed by `copyPromptToClipboard` is modelled.
- `generateImageId` and `Date.now()` are parameters (randomness and clock). Id uniqueness is not claimed, because the code does not guarantee it.
- React semantics are not modelled. The save effect runs after every change of `images` or `loading` in the source. Here it is a separate method that a caller invokes.
- The two independent `useImageHistory` instances (src/components/ImageGenerator.tsx:191, src/components/ImageHistory.tsx:254) share state only through storage. The model has one store.
- JSON serialisation is abstract: stored text is one of empty, a parsed list of records, or unparseable. A payload that parses to something other than a list of records is not distinguished.
- Floating point is left out. `progress * 100`, `cfgScale` and the 0.5 MB size estimate are exact reals. `EstimateImageSize` matches the double computation while `3 * length` is below 2^53 and while the text's length in code points equals its JavaScript `.length` in UTF-16 code units, which holds for base64 text.
- `Math.min`/`Math.max` over a spread of a very long list can throw a `RangeError` in JavaScript. The model has no such limit.
- `getStats` wraps the timestamps in `Date` objects. The model keeps the epoch milliseconds.
- The form's input handlers are left out. They parse the input text (`parseInt` for steps,
  batch size and a non-empty seed, `parseFloat` for the CFG scale, `split('x').map(Number)`
  for a size preset) into the `form` field. A cleared or non-numeric field gives `NaN` there,
  which the model's integer and real form fields cannot hold; it is not modelled.
- An absent `onImageGenerated` callback is not modelled, because the application always supplies one.
