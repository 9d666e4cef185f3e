# album-aura-ai gallery core, in Dafny

The model covers the logic of the photo gallery that labels images in the browser:

- the gallery state (`PhotoGallery.tsx`): the photo list, the selected category, the
  `isProcessing` flag, the upload loop, deletion, and the two derived views
  `filteredPhotos` and `allCategories`;
- the classification hook (`useImageClassification.ts`): `classifyImage` with its
  WebGPU-then-CPU pipeline construction, a new pipeline on every call, the object URL it
  creates and always revokes, the top-three truncation, the `[{unknown, 0.5}]` fallback,
  and the `isLoading` bracket;
- the label helpers of the category filter (`CategoryFilter.tsx`) and the photo grid
  (`PhotoGrid.tsx`): `formatCategoryName`, button highlighting and click values, card
  badges with the "+n" overflow, comma-prefix badge text, the confidence colours, the
  rounded percentage, and the delete callback's argument;
- the drag-and-drop state machine of `UploadDropzone.tsx`: `dragCounter`, `isDragOver`
  and what reaches `onFilesDropped`.

Modules: `Options`, `Text` (`startsWith`, `split(',')[0]`, `trim`, ASCII `toLowerCase`,
`includes`), `Sorting` (the default string order, on code points, and `Array.from(new Set(..)).sort()`),
`Lists` (`filter`, `some`), `Classification`, `Gallery`, `CategoryFilter`, `PhotoGrid`,
`UploadDropzone`.

Outside effects are data. The hook and the gallery each keep an event log of what they do
(loading flag changes, pipeline constructions, object URLs created, used and revoked,
toasts, photo-list commits). What the browser and the machine-learning library do on a
given call is a parameter: a `Run` says whether each pipeline construction succeeds and
what inference returns or whether it throws, and a `FileEnv` gives a file's read outcome,
its `Run` and the timestamp. `crypto.randomUUID` is a counter that never repeats an id,
and `URL.createObjectURL` is a counter of URL tokens.

The model follows the code as written; in particular:

- the hook caches no classifier, so every call builds a pipeline;
- a selected category is never validated and never reset, even by deletion;
- the filter matches full labels, not the part before the comma;
- a failed file read drops that file's photo instead of degrading it;
- a classification failure becomes `unknown`/0.5 inside the hook, so the gallery's `catch`
  only sees read failures.

## Model

| member | source | states |
|---|---|---|
| Classification.TopThree | src/hooks/useImageClassification.ts:46-49 | the first min(3, n) results, in their original order, label and score unchanged |
| Classification.Classify | src/hooks/useImageClassification.ts:16-61 | the call never throws; its result has at most 3 entries; it is the top three when a pipeline was built and inference returned; it is exactly `[{unknown, 0.5}]` when both constructions threw or inference threw |
| Classification.CallBracketedByLoading | src/hooks/useImageClassification.ts:17-60 | every call sets `isLoading` true first and false last, on every path, and touches it nowhere in between |
| Classification.CpuOnlyAfterWebGpuFails | src/hooks/useImageClassification.ts:21-35 | the WebGPU pipeline is always tried; the CPU pipeline is built exactly when the WebGPU construction threw |
| Classification.OneWebGpuBuildPerCall | src/hooks/useImageClassification.ts:21-28 | each call constructs the WebGPU pipeline exactly once |
| Classification.NewPipelinePerCall | src/hooks/useImageClassification.ts:21-35 | no classifier is cached: n calls construct n WebGPU pipelines |
| Classification.UrlLifecycle | src/hooks/useImageClassification.ts:38-53 | a call creates its object URL once and revokes it once when a pipeline was built, whether inference succeeds or throws, and creates none when both constructions failed |
| Classification.UrlUsedWhileAlive | src/hooks/useImageClassification.ts:38-53 | the classifier is invoked on the URL right after it is created, and it is revoked right after that |
| Classification.OnlyOwnUrl | src/hooks/useImageClassification.ts:38-52 | a call creates and revokes no URL other than its own |
| Classification.CallKeepsUrlsBalanced | src/hooks/useImageClassification.ts:38-53 | one more call keeps every created URL revoked exactly once and creates none above the counter |
| Classification.TracesBalanced | src/hooks/useImageClassification.ts:38-53 | over any sequence of calls, every URL created is revoked exactly once and no URL is created twice |
| Classification.CallTrace | src/hooks/useImageClassification.ts:17-60 | one call creates an object URL, and invokes the classifier on one, exactly when a pipeline was built, and then only the URL it was handed |
| Classification.UrlAfter | src/hooks/useImageClassification.ts:38 | each call built with a pipeline uses up one new URL: after n calls the counter has moved by at most n, and by exactly n when every call built a pipeline |
| Classification.Traces | src/hooks/useImageClassification.ts:17-60 | over consecutive calls, every URL created lies between the first URL handed out and the next free one |
| Classification.ImageClassifier.constructor | src/hooks/useImageClassification.ts:14 | the hook starts not loading, with an empty log |
| Classification.ImageClassifier.ClassifyImage | src/hooks/useImageClassification.ts:16-61 | returns `Classify(run)`; appends exactly that call's events to the log; consumes one URL token exactly when a pipeline was built; leaves `isLoading` false; keeps the log equal to the events of all calls made so far |
| Classification.ImageClassifier.BuildPipeline | src/hooks/useImageClassification.ts:21-35 | a classifier exists exactly when one of the two constructions succeeds; the CPU construction is tried only after WebGPU threw |
| Classification.ImageClassifier.RunOnObjectUrl | src/hooks/useImageClassification.ts:37-53 | creates a fresh URL, invokes the classifier on it, always revokes it, and returns the top three, or the fallback if inference threw |
| Gallery.Labels | src/components/PhotoGallery.tsx:68 | the labels of the classification, in rank order |
| Gallery.IsImage | src/components/PhotoGallery.tsx:43 | a file is accepted exactly when its MIME type is "image/" followed by something |
| Text.StartsWith | src/components/PhotoGallery.tsx:43 | true exactly when the string is the prefix followed by some rest |
| Gallery.TopLabel | src/components/PhotoGallery.tsx:77 | the label named in the "Photo categorized!" toast: absent exactly for an empty classification, otherwise the first label |
| Gallery.NewPhoto | src/components/PhotoGallery.tsx:64-71 | the new photo has the fresh id, the data URL, the file name, the labels in rank order and the read timestamp; its confidence is the first score, or 0 when the classification is empty |
| Gallery.NoteFor | src/components/PhotoGallery.tsx:42-86 | a file gets "Invalid file type" exactly when its type does not start with "image/", "Error processing image" exactly when it is an image whose read failed, and otherwise "Photo categorized!" with the top label |
| Gallery.Kept | src/components/PhotoGallery.tsx:42-86 | the positions that yield a photo are exactly the image-typed files that were read, in increasing order |
| Gallery.Step | src/components/PhotoGallery.tsx:42-87 | one loop iteration always adds the file's toast; an image that was read adds exactly one photo with the next id, its classifier call and one id; any other file adds no photo, no call and no id |
| Gallery.IngestCounts | src/components/PhotoGallery.tsx:42-87 | over the whole loop (`Ingest`): one toast per file, and photos, classifier calls and ids consumed grow by the same number, at most one per file |
| Gallery.NotesOf | src/components/PhotoGallery.tsx:42-86 | the toast of each file, one per file, in input order |
| Gallery.IngestNotes | src/components/PhotoGallery.tsx:42-86 | the loop raises exactly one toast per file, in input order, and moves on after an invalid or unreadable file |
| Gallery.IngestPhotos | src/components/PhotoGallery.tsx:64-73 | the new photos are one per kept file, in input order; the j-th gets the j-th fresh id and is built from the j-th kept file and its classification |
| Gallery.IngestCalls | src/components/PhotoGallery.tsx:52-62 | exactly the kept files reach the classifier, in input order; non-images and failed reads never do |
| Gallery.KeptAtMostImages | src/components/PhotoGallery.tsx:52-86 | an upload adds at most one photo per image-typed file |
| Gallery.DeleteById | src/components/PhotoGallery.tsx:30-31 | a photo stays exactly when its id differs from the one deleted |
| Gallery.DeleteKeepsOthers | src/components/PhotoGallery.tsx:31 | deletion removes every photo with that id and keeps each other photo as often as before |
| Gallery.DeleteAppend | src/components/PhotoGallery.tsx:31 | deletion keeps the remaining photos in their original order: deleting from a concatenation deletes from each part |
| Gallery.DeleteIdempotent | src/components/PhotoGallery.tsx:31 | deleting the same id twice gives the same list as deleting it once |
| Gallery.DeleteAbsent | src/components/PhotoGallery.tsx:31 | deleting an id no photo has changes nothing |
| Gallery.DeleteKeepsFreshIds | src/components/PhotoGallery.tsx:31 | after a deletion the remaining ids are still distinct and below the id counter |
| Gallery.UploadKeepsFreshIds | src/components/PhotoGallery.tsx:65 | the photos of an upload get ids distinct from each other and from every photo already present |
| Gallery.FilteredPhotos | src/components/PhotoGallery.tsx:104-110 | with 'all' the whole list; otherwise exactly the photos with a label whose lower-cased form contains the lower-cased selection |
| Gallery.MatchesSelection | src/components/PhotoGallery.tsx:107-109 | a photo matches exactly when one of its labels, lower-cased, contains the lower-cased selection |
| Lists.Any | src/components/PhotoGallery.tsx:107 | `some`, scanning in order: true exactly when some element of the list passes the test |
| Lists.AnyAt | src/components/PhotoGallery.tsx:107 | `some` by position: true exactly when the element at some index passes the test |
| Lists.Filter | src/components/PhotoGallery.tsx:31 | `filter`: no longer than the input, and holding exactly the input's elements that pass the test |
| Gallery.FilteredKeepsOrder | src/components/PhotoGallery.tsx:106-110 | the filtered list is a subsequence: matching photos keep their order and multiplicity, others are gone |
| Gallery.AllLabels | src/components/PhotoGallery.tsx:113 | the flattened labels are exactly the labels of some photo |
| Gallery.AllCategories | src/components/PhotoGallery.tsx:112-114 | strictly ascending, so free of duplicates, and containing exactly the labels found on some photo |
| Gallery.AllCategoriesOrderFree | src/components/PhotoGallery.tsx:112-114 | the category list depends only on which photos are present, not on their order or repetition |
| Gallery.PhotoGallery.constructor | src/components/PhotoGallery.tsx:23-25 | no photos, selection 'all', not processing |
| Gallery.PhotoGallery.HandleDeletePhoto | src/components/PhotoGallery.tsx:30-36 | the list becomes the filtered list and a "Photo deleted" toast follows; the selection is not reset; ids stay fresh |
| Gallery.PhotoGallery.SelectCategory | src/components/PhotoGallery.tsx:192 | any string becomes the selection, unvalidated; nothing else changes |
| Gallery.PhotoGallery.HandleFileUpload | src/components/PhotoGallery.tsx:38-91 | `isProcessing` goes on, the toasts of the loop follow, the new photos are appended after the old list unchanged in one commit, then `isProcessing` goes off; the classifier receives exactly the kept files' calls |
| Gallery.PhotoGallery.ProcessFiles | src/components/PhotoGallery.tsx:42-87 | the loop's photos, toasts, ids and classifier calls are those of `Ingest` over all files |
| Gallery.PhotoGallery.ProcessFile | src/components/PhotoGallery.tsx:43-86 | one iteration: a non-image gets only its toast; an image that was read is classified once and yields a photo with the next id; a read failure yields no photo and no classifier call |
| Gallery.PhotoGallery.HandleFileInputChange | src/components/PhotoGallery.tsx:97-102 | an empty selection changes nothing, neither the gallery nor the classifier; a non-empty one does exactly what `HandleFileUpload` does: `isProcessing` on, the loop's toasts, the new photos appended in one commit, `isProcessing` off, the kept files' classifier calls, and the selection kept |
| Text.BeforeFirstComma | src/components/CategoryFilter.tsx:14 | the longest comma-free prefix: a prefix without a comma, followed by a comma or by the end |
| Text.Trim | src/components/CategoryFilter.tsx:14 | the result has no whitespace at either end and is what remains of the input after whitespace is removed from both ends |
| Text.TrimOfTrimmed | src/components/CategoryFilter.tsx:14 | trimming a string without whitespace at its ends returns it unchanged |
| Text.LowerChar | src/components/PhotoGallery.tsx:108 | an ASCII capital becomes its own small letter, 32 code points on; any other character is kept |
| Text.ToLower | src/components/PhotoGallery.tsx:108 | same length; every ASCII capital becomes its small letter and every other character is kept |
| Text.Includes | src/components/PhotoGallery.tsx:108 | true exactly when the second string occurs in the first at some position |
| Sorting.SortedDistinct | src/components/PhotoGallery.tsx:112-114 | strictly ascending under the default string order and containing exactly the input's strings |
| Sorting.AscendingUnique | src/components/PhotoGallery.tsx:112-114 | two strictly ascending lists with the same elements are equal |
| Sorting.SortedDistinctOrderFree | src/components/PhotoGallery.tsx:112-114 | the sorted distinct list depends only on which strings occur |
| Sorting.LessIsLexicographic | src/components/PhotoGallery.tsx:114 | the order `sort()` uses (`Less`): a proper prefix comes first, otherwise the string with the smaller character at the first difference |
| Lists.FilterIdempotent | src/components/PhotoGallery.tsx:31 | filtering twice with the same test is filtering once |
| CategoryFilter.FormatCategoryName | src/components/CategoryFilter.tsx:13-15 | the result has no comma and no surrounding whitespace; it is the text before the first comma, with only whitespace removed around it; a label without a comma is just trimmed |
| CategoryFilter.FormatIdempotent | src/components/CategoryFilter.tsx:13-15 | formatting a formatted name changes nothing |
| CategoryFilter.CategoryButton | src/components/CategoryFilter.tsx:39-52 | a category button shows the formatted name, sends the full label on click, and is highlighted exactly when the selection equals the full label |
| CategoryFilter.Buttons | src/components/CategoryFilter.tsx:26-52 | "All Photos" first, sending 'all' and highlighted exactly when the selection is 'all', then one button per category in the given order |
| CategoryFilter.CategoryButtons | src/components/CategoryFilter.tsx:39-52 | one category button per label, in the given order |
| CategoryFilter.AtMostOneCategoryHighlighted | src/components/CategoryFilter.tsx:41 | with distinct categories, no two category buttons are highlighted together |
| CategoryFilter.HighlightUsesFullLabel | src/components/CategoryFilter.tsx:40-41 | when a label has a comma, selecting the name its button shows does not highlight it |
| CategoryFilter.ClickShowsLabelledPhotos | src/components/CategoryFilter.tsx:48 | after clicking a category button every photo carrying that label is visible |
| PhotoGrid.ConfidenceTone | src/components/PhotoGrid.tsx:27-31 | green exactly from 0.8, yellow exactly from 0.6 below 0.8, red exactly below 0.6 |
| PhotoGrid.ToneMonotone | src/components/PhotoGrid.tsx:27-31 | a higher confidence never gets a worse colour |
| PhotoGrid.Percent | src/components/PhotoGrid.tsx:70 | the nearest integer to confidence × 100, halves rounded up |
| PhotoGrid.PercentInRange | src/components/PhotoGrid.tsx:70 | a confidence between 0 and 1 shows between 0% and 100% |
| PhotoGrid.BadgeText | src/components/PhotoGrid.tsx:51 | the label up to its first comma, untrimmed |
| PhotoGrid.BadgeMatchesButton | src/components/PhotoGrid.tsx:51 | a badge shows the same text as the category filter's button exactly when the text before the comma has no surrounding whitespace |
| PhotoGrid.Take | src/components/PhotoGrid.tsx:49 | the first min(n, length) elements |
| PhotoGrid.CardFor | src/components/PhotoGrid.tsx:37-77 | the card stands for the photo's id and name, shows the badge text of at most the first two labels in order, a "+n" badge exactly when there are more than two, and the colour and percentage of the confidence |
| PhotoGrid.CardAccountsForAllLabels | src/components/PhotoGrid.tsx:49-58 | the card's badges are the first badges of the dialog, and the "+n" badge counts exactly the rest |
| PhotoGrid.DialogBadges | src/components/PhotoGrid.tsx:105-113 | the dialog lists the badge text of every label, in order |
| PhotoGrid.Cards | src/components/PhotoGrid.tsx:35-36 | one card per photo, in input order |
| PhotoGrid.CardKeysDistinct | src/components/PhotoGrid.tsx:36 | with the gallery's fresh ids, no two cards share a key |
| PhotoGrid.DeleteFromCard | src/components/PhotoGrid.tsx:141 | the delete button of card k passes photo k's id, which removes exactly photo k and keeps the others in order |
| PhotoGrid.DeleteFromFilteredCard | src/components/PhotoGallery.tsx:196 | the grid is shown the filtered list while deletion filters the full list: card k's button removes exactly the gallery photo that card shows and keeps every other photo in order |
| UploadDropzone.Next | src/components/UploadDropzone.tsx:14-48 | enter adds 1 and highlights only when items are present; leave subtracts 1 and clears the highlight exactly when the counter reaches 0; drop resets both; drag-over changes nothing; only a non-empty drop delivers files |
| UploadDropzone.CounterCountsCrossings | src/components/UploadDropzone.tsx:19-35 | between drops the counter is its start value plus enters minus leaves, with no lower bound |
| UploadDropzone.RunDelivers | src/components/UploadDropzone.tsx:43-47 | `onFilesDropped` receives every non-empty drop once, in order, and nothing else |
| UploadDropzone.Run | src/components/UploadDropzone.tsx:14-48 | handling events in order never takes back a delivered file list, and a final drop leaves the counter at 0 and the zone unhighlighted |
| UploadDropzone.Dropped | src/components/UploadDropzone.tsx:43-47 | at most one file list per event, and none of them empty |
| UploadDropzone.HighlightClearsOnlyAtZero | src/components/UploadDropzone.tsx:28-41 | the highlight goes off only on a leave that brings the counter to 0 or on a drop |
| UploadDropzone.NestedStaysConsistent | src/components/UploadDropzone.tsx:19-35 | under well-nested events (enters carry items, no leave at 0) the zone is highlighted exactly while the counter is positive |
| UploadDropzone.StrayLeaveKeepsHighlight | src/components/UploadDropzone.tsx:31-34 | a leave without a matching enter drives the counter to -1, and a following enter and leave leave the zone highlighted |
| UploadDropzone.Dropzone.constructor | src/components/UploadDropzone.tsx:11-12 | counter 0, not highlighted, nothing delivered |
| UploadDropzone.Dropzone.HandleDrag | src/components/UploadDropzone.tsx:14-17 | drag-over changes no state |
| UploadDropzone.Dropzone.HandleDragIn | src/components/UploadDropzone.tsx:19-26 | the counter goes up by 1; the highlight is set when items are present and otherwise left as it was |
| UploadDropzone.Dropzone.HandleDragOut | src/components/UploadDropzone.tsx:28-35 | the counter goes down by 1; the highlight is cleared exactly when it reaches 0 and otherwise left as it was |
| UploadDropzone.Dropzone.HandleDrop | src/components/UploadDropzone.tsx:37-48 | counter 0 and no highlight, whatever came before; the files are handed over once, in order, exactly when there are any |

## Left out

- Rendering: JSX, CSS classes, icons, the scroll area, the dialog component and how toasts
  look. Toasts are events in the gallery's log.
- `FileReader` and base64 encoding: a read is a given outcome, a data URL or a failure.
- The transformers.js `pipeline`, its `env` settings and the model id: each construction
  is a given success or failure, and inference a given result list or failure.
- `URL.createObjectURL` and `URL.revokeObjectURL` internals: URLs are numbered tokens.
- `crypto.randomUUID`: ids come from a counter, which is what makes them distinct.
  `new Date()` is an opaque timestamp, and `formatDate` (the locale date text) is not
  modelled.
- `getCategoryCount` returns a random number and is not modelled.
- `console.log`, `console.warn` and `console.error` calls are not modelled.
- Concurrency: one upload and one classification run at a time, and each `await` is a
  sequential step. Overlapping uploads, drops arriving during processing, and the
  `isLoading` flag shared between concurrent calls are not modelled.
- Strings are sequences of Unicode code points, not JavaScript's UTF-16 code units, so
  `sort()` and `startsWith` compare code points; strings with characters outside the Basic
  Multilingual Plane can sort differently.
- `toLowerCase` lower-cases ASCII letters only; the rest of Unicode case mapping is not
  modelled.
- Scores and confidences are reals, not IEEE doubles. Rounding error, NaN and the case
  where `|| 0` replaces a first score of NaN are not modelled.
- The confidence bar's width style and `e.dataTransfer.clearData()` are not modelled.
- Classification.ImageClassifier.ClassifyImage: requires that no other call is in progress,
  because overlapping calls are not modelled; the source does not check this.
- Gallery.PhotoGallery.HandleFileUpload, Gallery.PhotoGallery.HandleFileInputChange,
  Gallery.PhotoGallery.HandleDeletePhoto and
  Gallery.PhotoGallery.SelectCategory: require the state between handlers (no upload in
  progress), because interleaving a handler with an upload's awaits is not modelled.
- Gallery.PhotoGallery.Valid: does not include the classifier's own log consistency.
  `Classification.ImageClassifier.ClassifyImage` preserves that consistency itself, but
  Gallery.PhotoGallery.HandleFileUpload, Gallery.PhotoGallery.ProcessFiles and
  Gallery.PhotoGallery.ProcessFile do not restate that it survives an upload.
- Gallery.IngestPhotos: stated for a batch that starts with no photos, as every upload does.
- Gallery.IngestCalls: stated for a batch that starts with no classifier calls, as every
  upload does.
