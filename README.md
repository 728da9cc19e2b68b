# Omnivore PDF reader: highlights and reading progress

This project models the core of the Android PDF reader's view-model in Omnivore (`PDFReaderViewModel`). The core covers four things:

- **Reading progress.** A page change becomes a percentage clamped to 0–100. The view-model keeps the highest value seen. It reports a new value only when that value is higher.
- **Overlap detection.** The existing annotations whose highlight rectangles intersect a newly drawn annotation are found, kept in their original order.
- **Create versus merge.** A new highlight receives fresh ids and `omnivoreHighlight` metadata. It is then sent to the server as a create request, or as a merge request when it overlaps existing highlights.
- **Metadata.** The highlight id and the note are read back from the annotation's metadata. A locally edited note takes precedence over the note fetched from the server.

Modules:

- `Prelude`: Kotlin's nullable values (`Option`) and its 32-bit `Int` (`int32`).
- `Geometry`: rectangles and the RectF intersection test.
- `Annotations`: the annotation object. Its kind and rectangles are fixed. Its custom data is a JSON object that the view-model overwrites in place.
- `Identity`: the short id derived from a UUID string.
- `Metadata`: the `omnivoreHighlight` map. This covers `pluckHighlightID` and `pluckExistingNote`, plus the pure effect of `updateHighlightNote`.
- `Progress`: the page percentage and the high-water mark, as functions.
- `Overlap`: what the overlap query answers, stated over values.
- `Requests`: the network requests, as records.
- `Reader`: the class `PDFReaderViewModel`. Its methods change the progress field, the annotation's custom data and an outbox of requests. Its overlap query uses loops, as the source does.

Behaviour of the code worth knowing:

- An org.json `JSONObject.get` on a missing key throws. The model represents this as the result `JSONException(key)`, with nothing changed. This affects three operations:
  - `pluckHighlightID` and `updateHighlightNote` throw when custom data exists but has no `omnivoreHighlight` key.
  - `pluckHighlightID` throws when that object has no `id`.
  - `pluckExistingNote` throws when there is neither an edited note nor a `shortId`.
- With `totalPages == 0`, the double division gives +infinity, -infinity or NaN. The clamp turns the infinities into 100 and 0. NaN survives the clamp and fails every comparison, so nothing is reported. The model follows these rules, so every page count is accepted. `currentPageIndex + 1` wraps at `Int.MAX_VALUE`.
- The view-model keeps no sync state per annotation and raises no errors of its own. The only exceptions are org.json's, listed above.
- Without a loaded document, `syncHighlightUpdates` returns silently. It does not fail.
- The ids of the overlapping highlights are supplied by the caller. `syncHighlightUpdates` does not compute them itself.
- `updateHighlightNote` rewrites the custom data so that `omnivoreHighlight` is its only top-level key.

## Model

| member | source | states |
|---|---|---|
| Reader.PDFReaderViewModel.constructor | android/Omnivore/app/src/main/java/app/omnivore/omnivore/ui/reader/PDFReaderViewModel.kt:41-43 | a new view-model has no document, progress 0 and nothing sent |
| Reader.PDFReaderViewModel.SessionLoaded | android/Omnivore/app/src/main/java/app/omnivore/omnivore/ui/reader/PDFReaderViewModel.kt:72-73 | a completed load sets the stored progress to the item's progress and posts the document |
| Reader.PDFReaderViewModel.Reset | android/Omnivore/app/src/main/java/app/omnivore/omnivore/ui/reader/PDFReaderViewModel.kt:83-85 | reset clears the loaded document |
| Reader.PDFReaderViewModel.SyncPageChange | android/Omnivore/app/src/main/java/app/omnivore/omnivore/ui/reader/PDFReaderViewModel.kt:87-101 | the new progress and outbox are the progress step of the old progress. An update carrying exactly the new percent, the page index as anchor and the item id (null without a document) is sent only when the percent went up. Otherwise nothing changes |
| Progress.PageNumber | android/Omnivore/app/src/main/java/app/omnivore/omnivore/ui/reader/PDFReaderViewModel.kt:88 | `index + 1` stays a 32-bit value. It is the true successor below `Int.MAX_VALUE` and wraps to `Int.MIN_VALUE` at it |
| Progress.Clamp | android/Omnivore/app/src/main/java/app/omnivore/omnivore/ui/reader/PDFReaderViewModel.kt:89 | the clamped value lies in [0, 100], is the input when the input already lies there, and is the nearer bound otherwise |
| Progress.PagePercent | android/Omnivore/app/src/main/java/app/omnivore/omnivore/ui/reader/PDFReaderViewModel.kt:88-89 | the percent always lies in [0, 100]. For an existing page it is `(index + 1) / totalPages * 100`. For a positive page count it is 100 past the last page and 0 at a page number of 0 or less. For a negative page count it is that same ratio, clamped. With 0 pages it is 100 for a positive page number (+infinity), 0 for a negative one (-infinity), and NaN (`None`) exactly when the page number is 0 |
| Progress.ProgressStep | android/Omnivore/app/src/main/java/app/omnivore/omnivore/ui/reader/PDFReaderViewModel.kt:90-91 | the progress never goes down. It is replaced, and the percent is reported, iff the percent is defined and greater than the stored progress. Otherwise it is unchanged. Progress in [0, 100] stays there |
| Progress.ProgressRunNeverDecreases | android/Omnivore/app/src/main/java/app/omnivore/omnivore/ui/reader/PDFReaderViewModel.kt:90-91 | over any series of page changes the progress never decreases, and it is unchanged when nothing is reported |
| Progress.ProgressRunReportsWithinBounds | android/Omnivore/app/src/main/java/app/omnivore/omnivore/ui/reader/PDFReaderViewModel.kt:90-99 | every reported percent lies above the starting progress and at most the final progress, and the last one reported equals the final progress |
| Progress.ProgressRunReportsIncreasing | android/Omnivore/app/src/main/java/app/omnivore/omnivore/ui/reader/PDFReaderViewModel.kt:90-99 | over any series of page changes the reported percents are strictly increasing |
| Progress.ProgressExample | android/Omnivore/app/src/main/java/app/omnivore/omnivore/ui/reader/PDFReaderViewModel.kt:90-99 | from 0: page 4 of 10 reports 50, page 2 of 10 reports nothing, page 9 of 10 reports 100 |
| Reader.PDFReaderViewModel.SyncHighlightUpdates | android/Omnivore/app/src/main/java/app/omnivore/omnivore/ui/reader/PDFReaderViewModel.kt:103-144 | without a document, neither the annotation nor the outbox changes. Otherwise the annotation's custom data becomes the highlight metadata and exactly one request is appended: the create-or-merge record carrying the same id, short id and quote |
| Identity.ShortIdOf | android/Omnivore/app/src/main/java/app/omnivore/omnivore/ui/reader/PDFReaderViewModel.kt:106 | the short id of a UUID string is 8 hex digits, namely the UUID's first 8 characters |
| Identity.RemoveDashes | android/Omnivore/app/src/main/java/app/omnivore/omnivore/ui/reader/PDFReaderViewModel.kt:106 | `replace("-", "")` leaves no dash and never lengthens the string. That a dash-free prefix survives is proved by RemoveDashesKeepsPrefix |
| Identity.UuidWithoutDashes | android/Omnivore/app/src/main/java/app/omnivore/omnivore/ui/reader/PDFReaderViewModel.kt:106 | removing the dashes of a UUID string leaves at least 8 characters, the first 8 unchanged |
| Identity.RemoveDashesKeepsPrefix | android/Omnivore/app/src/main/java/app/omnivore/omnivore/ui/reader/PDFReaderViewModel.kt:106 | removing dashes keeps a dash-free prefix in front, unchanged |
| Identity.RemoveDashesAppend | android/Omnivore/app/src/main/java/app/omnivore/omnivore/ui/reader/PDFReaderViewModel.kt:106 | dash removal distributes over concatenation. With RemoveDashes's contract for a single character, this determines `replace("-", "")` on every string: each non-dash character is kept, in order |
| Metadata.HighlightMetadataRoundTrip | android/Omnivore/app/src/main/java/app/omnivore/omnivore/ui/reader/PDFReaderViewModel.kt:108-114 | metadata written for a new highlight holds exactly the keys id, shortId, quote and articleId, has no edited note, and reads back the short id, quote, article id and (via pluckHighlightID) the id |
| Metadata.HighlightCustomData | android/Omnivore/app/src/main/java/app/omnivore/omnivore/ui/reader/PDFReaderViewModel.kt:108-114 | the written custom data has omnivoreHighlight as its only key. Its object holds exactly id, shortId, quote and articleId, each reading back the given string |
| Metadata.HighlightObject | android/Omnivore/app/src/main/java/app/omnivore/omnivore/ui/reader/PDFReaderViewModel.kt:185 | the highlight object is present exactly when custom data exists and its omnivoreHighlight value is a JSON object, and is then that object |
| Annotations.ToInstantJson | android/Omnivore/app/src/main/java/app/omnivore/omnivore/ui/reader/PDFReaderViewModel.kt:122 | the patch is a snapshot of the annotation's kind, rectangles and custom data at the time of the call (SyncHighlightUpdates takes it after writing the metadata, as lines 122 and 135 do) |
| Requests.HighlightRequest | android/Omnivore/app/src/main/java/app/omnivore/omnivore/ui/reader/PDFReaderViewModel.kt:116-143 | the record is a merge iff the overlap ids are non-empty, and then carries them unchanged. Otherwise it is a create. Both carry the given id, short id, quote, article id and patch, and no note |
| Requests.HighlightIdentityRoundTrip | android/Omnivore/app/src/main/java/app/omnivore/omnivore/ui/reader/PDFReaderViewModel.kt:159-165 | for a new highlight, pluckHighlightID returns the id sent in its create or merge record, and deleting it sends one delete of exactly that id |
| Reader.PDFReaderViewModel.UpdateHighlightNote | android/Omnivore/app/src/main/java/app/omnivore/omnivore/ui/reader/PDFReaderViewModel.kt:146-157 | the custom data becomes the note-updated metadata, or stays unchanged when reading it throws. Nothing is sent |
| Metadata.NoteUpdated | android/Omnivore/app/src/main/java/app/omnivore/omnivore/ui/reader/PDFReaderViewModel.kt:146-153 | with a highlight object, editedNote is set to the note and every other key is kept with its value. Without one, nothing changes. It throws only when custom data exists and lacks omnivoreHighlight |
| Metadata.NoteRoundTrip | android/Omnivore/app/src/main/java/app/omnivore/omnivore/ui/reader/PDFReaderViewModel.kt:146-153 | after a note update on an annotation with highlight metadata, pluckExistingNote returns that note and pluckHighlightID is unchanged |
| Reader.PDFReaderViewModel.DeleteHighlight | android/Omnivore/app/src/main/java/app/omnivore/omnivore/ui/reader/PDFReaderViewModel.kt:159-165 | the outbox grows by the delete requests of the annotation's id, or is unchanged when reading the id throws |
| Requests.DeleteRequests | android/Omnivore/app/src/main/java/app/omnivore/omnivore/ui/reader/PDFReaderViewModel.kt:159-165 | one delete of `[id]` when the annotation has a highlight id, nothing when it has none, and the exception of pluckHighlightID when that throws |
| Reader.PDFReaderViewModel.OverlappingAnnotations | android/Omnivore/app/src/main/java/app/omnivore/omnivore/ui/reader/PDFReaderViewModel.kt:167-177 | the result is the overlap filter of the existing annotations. It holds exactly the existing annotations that overlap the new one, as a subsequence of the input |
| Overlap.OverlapFilterMembers | android/Omnivore/app/src/main/java/app/omnivore/omnivore/ui/reader/PDFReaderViewModel.kt:167-177 | an annotation is in the filter's result iff it is one of the existing annotations and overlaps the candidate |
| Overlap.OverlapFilterIsSubsequence | android/Omnivore/app/src/main/java/app/omnivore/omnivore/ui/reader/PDFReaderViewModel.kt:167-177 | the filter's result is a subsequence of the existing annotations (their order is kept) |
| Overlap.OverlapFilterAppend | android/Omnivore/app/src/main/java/app/omnivore/omnivore/ui/reader/PDFReaderViewModel.kt:170-174 | one more existing annotation is appended to the result exactly when it overlaps |
| Overlap.NoRectsNoOverlaps | android/Omnivore/app/src/main/java/app/omnivore/omnivore/ui/reader/PDFReaderViewModel.kt:167-177 | a candidate with no highlight rectangles overlaps nothing |
| Metadata.ItemId | android/Omnivore/app/src/main/java/app/omnivore/omnivore/ui/reader/PDFReaderViewModel.kt:104 | the item id is present iff a document is loaded, and is then that document's item id |
| Metadata.PluckHighlightID | android/Omnivore/app/src/main/java/app/omnivore/omnivore/ui/reader/PDFReaderViewModel.kt:179-182 | no custom data gives null. Custom data without omnivoreHighlight throws on that key. A highlight object without id throws on id. Otherwise the result is the string id when the highlight object holds one, and null for a non-object value or a non-string id |
| Metadata.PluckExistingNote | android/Omnivore/app/src/main/java/app/omnivore/omnivore/ui/reader/PDFReaderViewModel.kt:184-198 | no highlight object gives null. A local edited note is returned when present. Without one it throws exactly when there is no shortId, and gives null for a shortId that is not a string |
| Metadata.FirstWithShortId | android/Omnivore/app/src/main/java/app/omnivore/omnivore/ui/reader/PDFReaderViewModel.kt:193 | the index found is the first highlight with that short id, and none is found iff no highlight has it |
| Metadata.NoteFallbackFirstMatch | android/Omnivore/app/src/main/java/app/omnivore/omnivore/ui/reader/PDFReaderViewModel.kt:190-195 | without an edited note, the note is that of the first fetched highlight with the annotation's short id |
| Metadata.NoteFallbackNoMatch | android/Omnivore/app/src/main/java/app/omnivore/omnivore/ui/reader/PDFReaderViewModel.kt:190-197 | without an edited note, the note is null when no document is loaded or no fetched highlight has the annotation's short id |
| Reader.PDFReaderViewModel.HasOverlaps | android/Omnivore/app/src/main/java/app/omnivore/omnivore/ui/reader/PDFReaderViewModel.kt:200-210 | true iff some rectangle of the right annotation intersects some rectangle of the left one. False when either has no highlight rectangles |
| Annotations.HighlightRects | android/Omnivore/app/src/main/java/app/omnivore/omnivore/ui/reader/PDFReaderViewModel.kt:201-202 | a highlight contributes its own rectangles, and an annotation that is not a highlight contributes none |
| Geometry.NoRectsNoOverlap | android/Omnivore/app/src/main/java/app/omnivore/omnivore/ui/reader/PDFReaderViewModel.kt:201-209 | two rectangle lists overlap only if both are non-empty |
| Geometry.Intersects | android/Omnivore/app/src/main/java/app/omnivore/omnivore/ui/reader/PDFReaderViewModel.kt:203 | RectF.intersect as a strict four-side test. It has no contract of its own and is characterised by IntersectsSymmetric, IntersectsIffCommonArea, TouchingRectsDoNotIntersect and UpwardRectsNeverIntersect |
| Geometry.IntersectsSymmetric | android/Omnivore/app/src/main/java/app/omnivore/omnivore/ui/reader/PDFReaderViewModel.kt:203 | the intersection test does not depend on which rectangle receives the call |
| Geometry.IntersectsIffCommonArea | android/Omnivore/app/src/main/java/app/omnivore/omnivore/ui/reader/PDFReaderViewModel.kt:203 | for rectangles with area, the test holds iff their common region has positive area |
| Geometry.TouchingRectsDoNotIntersect | android/Omnivore/app/src/main/java/app/omnivore/omnivore/ui/reader/PDFReaderViewModel.kt:203 | rectangles sharing only an edge or a corner do not intersect |
| Geometry.UpwardRectsNeverIntersect | android/Omnivore/app/src/main/java/app/omnivore/omnivore/ui/reader/PDFReaderViewModel.kt:203 | rectangles written with top above bottom never intersect under the test |
| Geometry.OverlapExamples | android/Omnivore/app/src/main/java/app/omnivore/omnivore/ui/reader/PDFReaderViewModel.kt:200-210 | (0,0)-(10,10) overlaps (5,5)-(15,15). It overlaps neither (100,100)-(110,110) nor the edge-touching (10,0)-(20,10) |

## Left out

- `loadItem`: the item fetch, the PDF download job and its callbacks, and LiveData posting are network and UI plumbing. Only the state a completed load leaves is modelled, as `SessionLoaded`.
- Network calls (`updateReadingProgress`, `createHighlight`, `mergeHighlights`, `deleteHighlights`) run as coroutines. Each becomes a record appended to `outbox` when it is launched. Transport, retries and their results are not modelled.
- `UUID.randomUUID()` is randomness. The two UUID strings are parameters of `SyncHighlightUpdates`, and the short-id UUID is assumed to have UUID text form.
- `toInstantJson()` is the PDF toolkit's serialisation. The patch is an opaque snapshot of the annotation's kind, rectangles and custom data, taken after the metadata is written.
- `RectF.intersect` shrinks its receiver when it answers true. That mutation is not modelled. `hasOverlaps` returns right after it, so the loop never sees a shrunk rectangle. The coordinate convention of the toolkit's rectangles is not part of this model.
- Doubles and RectF float coordinates are modelled as exact reals, so rounding is not modelled. The intersection test only compares coordinates, so what is lost there is NaN and infinite coordinates. NaN is modelled only where it arises in the progress formula: the page percent for 0 of 0 pages.
- `Log.d` calls are logging only.
- `annotationUnderNoteEdit` (line 41) is a UI-held reference that no core operation reads.
- The note is never sent to the server, as in the source: `updateHighlightNote` only records it locally, and create and merge requests send no note.
- packages/web/pages/_app.tsx, packages/api/src/redis_data_source.ts and packages/api/src/jobqueue.ts are UI composition and I/O wrappers with no stateable logic. They are not part of this model.
