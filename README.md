# Face-detection demo: session, overlay and store, modelled in Dafny

The demo overlays face-detection results on a live webcam feed or an uploaded
image. Its own logic is modelled here:

- the capture session of `components/WebcamFeed.tsx`, meaning the flags
  `streaming`, `paused` and `loading`, the upload (`uploadedFile`,
  `uploadedSrc`), the video's stream, the canvas overlay and the live object
  URLs. The handlers `start`, `stop`, `clearUploaded`, `handleFileUpload`,
  `handleDrop`, the pause toggle, one pass of the webcam detection loop and
  the end of `detectOnImage` are modelled (`session.dfy`);
- the pure computations inside that component:
  - the dominant emotion, i.e. a stable descending sort of the expression
    entries and its head (`emotion.dfy`);
  - the mirror flip, the letterbox fit with its centring and scaling
    (`geometry.dfy`);
  - the label `"<gender>, <age>y (<emotion>)"` (`label.dfy`);
  - the mapping of detector results to face records with the publish rule,
    the drawn overlay and the face cards (`detection.dfy`);
- the two store slices: the face list (`face_slice.dfy`) and the webcam flag
  (`webcam_slice.dfy`).

Geometry uses exact `real` arithmetic. `Math.round` is `Detection.Round`, i.e.
floor of `r + 0.5`, which is exact over the reals.

The store's reducers are functions from a state and an action to the next
state. The draft assignment `state.faces = …` in the source produces exactly
that next state.

The session is written twice:
- `Session.FeedState` is the whole state as a value, and one `*Step`
  function per handler gives the state that handler ends in. The lemmas are
  stated about these functions.
- `Session.WebcamFeed` keeps the same state in fields. Each of its methods
  updates those fields one by one, in the source's order, and is proved to
  end in its `*Step` function's state. The one departure is in the two
  upload handlers: they revoke the previous object URL, which the source
  does not (see "## Findings"). The source's own behaviour there is
  `Session.ShowUploadAsWritten`, `Session.FileUploadAsWrittenStep` and
  `Session.DropAsWrittenStep`.

The camera and model-loading outcome of `start` is a parameter
(`CameraOutcome`). So are the detector's results, the new object URL and the
chosen file.

Two behaviours of the code worth stating:
- A failed `start` does not leave the state unchanged. The upload is cleared
  before the camera is asked (`Session.StartClearsUploadFirst`).
- An image whose aspect ratio is wider than the display region's (width
  over 480) fills the region's width and is shorter than 480; a narrower one
  fills the height and is narrower than the region (`Geometry.Fit`, the last
  two ensures). An image wider in pixels than the region can still fill the
  height.

## Model

| member | source | states |
|---|---|---|
| `Geometry.Flip` | components/WebcamFeed.tsx:131 | the flipped box keeps y, width and height, and its right edge lies as far from the canvas edge as the original's left edge |
| `Geometry.FlipInvolutive` | components/WebcamFeed.tsx:131 | flipping twice gives back the box |
| `Geometry.FlipInside` | components/WebcamFeed.tsx:131 | a box lies inside [0, W] if and only if its flip does |
| `Geometry.Fit` | components/WebcamFeed.tsx:171-173 | for positive natural size: 0 <= dw <= maxW, 0 <= dh <= maxH, dw/dh is the natural aspect ratio, dw = maxW or dh = maxH, both positive for positive bounds; an image at least as wide in aspect ratio as the region fills the width (strictly wider: and is shorter than maxH), a narrower one fills the height and is narrower than maxW |
| `Geometry.Letterbox` | components/WebcamFeed.tsx:168-178 | the fit in a region of height 480, with offsets >= 0 that centre it (2*offsetX + dw = maxW, 2*offsetY + dh = 480) and equal x and y scales that take the natural size to the drawn size |
| `Geometry.ScaleBox` | components/WebcamFeed.tsx:203-206 | no contract of its own: offset plus natural coordinates times the scale; proved invertible in `UnscaleScaleBox` and in range in `ScaleBoxInside` |
| `Geometry.UnscaleScaleBox` | components/WebcamFeed.tsx:198-206 | with a positive scale, mapping a box onto the canvas can be undone exactly |
| `Geometry.ScaleBoxInside` | components/WebcamFeed.tsx:198-206 | a box inside the natural image maps inside the drawn rectangle [offsetX, offsetX+dw] x [offsetY, offsetY+dh] |
| `Emotion.Insert` | components/WebcamFeed.tsx:142-143 | inserting keeps the entries as a multiset, and the new head is the inserted entry exactly when it is at least the old head |
| `Emotion.SortByConfidence` | components/WebcamFeed.tsx:142-143 | the sort's output is a permutation of the entries |
| `Emotion.SortByConfidenceSorted` | components/WebcamFeed.tsx:142-143 | the sort's output is in descending order of confidence |
| `Emotion.FirstMaxIndex` | components/WebcamFeed.tsx:142-143 | the scan finds an entry whose confidence is at least every entry's and strictly above every earlier entry's |
| `Emotion.FirstMaxUnique` | components/WebcamFeed.tsx:142-143 | only one index is such a first maximum |
| `Emotion.SortHeadIsFirstMax` | components/WebcamFeed.tsx:142-143 | the head of the stable descending sort is the first maximum |
| `Emotion.DominantEmotion` | components/WebcamFeed.tsx:142-143 | no contract of its own: the name at the head of the stable descending sort, None for an empty record; proved to be the first maximum in `DominantEmotionIsFirstMax` |
| `Emotion.DominantEmotionIsFirstMax` | components/WebcamFeed.tsx:371-373 | the dominant emotion is undefined exactly for an empty record, and is otherwise the emotion of the first entry holding the maximum confidence |
| `Emotion.DominantHappy` | components/WebcamFeed.tsx:371-373 | `{happy: 0.9, neutral: 0.1}` gives "happy" |
| `Emotion.DominantTie` | components/WebcamFeed.tsx:217-218 | of two equal confidences the earlier entry wins |
| `Label.IntToString` | components/WebcamFeed.tsx:144 | no contract of its own: a minus sign for a negative integer, then `NatToString` of its magnitude; proved to read back in `ParseIntToString` |
| `Label.NatToString` | components/WebcamFeed.tsx:144 | the rendering of a natural number is a non-empty string of digits with no leading zero |
| `Label.NatToStringValue` | components/WebcamFeed.tsx:144 | the digits denote the number rendered |
| `Label.ParseIntToString` | components/WebcamFeed.tsx:144 | an integer rendered with its sign reads back as the same integer, however the text goes on after a non-digit |
| `Label.Label` | components/WebcamFeed.tsx:144 | no contract of its own: the template `"<gender>, <age>y (<emotion>)"`; proved to determine its parts in `LabelRoundTrip` |
| `Label.LabelRoundTrip` | components/WebcamFeed.tsx:219 | for a gender without a comma, the label determines its gender, age and emotion |
| `FaceSlice.InitialState` | features/face/faceSlice.ts:12-14 | the initial face list is empty |
| `FaceSlice.Reduce` | features/face/faceSlice.ts:16-21 | no contract of its own: the `setFaces` and `clearFaces` reducers; proved in `ReduceResult`, `ReduceIdempotent`, `SetEmptyIsClear` and `LastActionDecides` |
| `FaceSlice.ReduceResult` | features/face/faceSlice.ts:16-21 | `setFaces(p)` makes the list exactly p and `clearFaces` empties it, from any state |
| `FaceSlice.ReduceIdempotent` | features/face/faceSlice.ts:16-21 | either action applied twice equals it applied once |
| `FaceSlice.SetEmptyIsClear` | features/face/faceSlice.ts:16-21 | `setFaces([])` equals `clearFaces` |
| `FaceSlice.LastActionDecides` | features/face/faceSlice.ts:16-21 | after any non-empty run of actions the state is what the last action gives on its own |
| `WebcamSlice.InitialState` | features/webcam/webcamSlice.ts:5-7 | the initial flag is false |
| `WebcamSlice.Reduce` | features/webcam/webcamSlice.ts:9-14 | no contract of its own: the `startWebcam` and `stopWebcam` reducers; proved in `ReduceResult`, `ReduceIdempotent` and `LastActionDecides` |
| `WebcamSlice.ReduceResult` | features/webcam/webcamSlice.ts:9-14 | after an action the flag is true exactly when it was `startWebcam`, from any state |
| `WebcamSlice.ReduceIdempotent` | features/webcam/webcamSlice.ts:9-14 | both reducers are idempotent |
| `WebcamSlice.LastActionDecides` | features/webcam/webcamSlice.ts:9-14 | after any non-empty run of actions the flag says whether the last one was `startWebcam` |
| `Detection.Round` | components/WebcamFeed.tsx:122 | the rounded age is within one half of the age, halves going up |
| `Detection.ToFaceInfo` | components/WebcamFeed.tsx:122-124 | no contract of its own: the face record of one result, age rounded; proved in `PublishedFaces` |
| `Detection.ToFaces` | components/WebcamFeed.tsx:121-125 | no contract of its own: `results.map(...)`; proved one record per result, in order, in `PublishedFaces` |
| `Detection.PublishAction` | components/WebcamFeed.tsx:118-126 | no contract of its own: `clearFaces` on no results, else `setFaces` of the mapped list; proved in `PublishedFaces` and `PublishIsSetFaces` |
| `Detection.PublishedFaces` | components/WebcamFeed.tsx:118-126 | after publishing, the list holds one record per result, in order, with the same gender and expressions and the age rounded; no results leave it empty |
| `Detection.PublishIsSetFaces` | components/WebcamFeed.tsx:188-196 | the clear-on-empty branch changes nothing observable: publishing always equals setting the mapped list |
| `Detection.FaceLabel` | components/WebcamFeed.tsx:142-144 | a label exists exactly when the expression record is non-empty |
| `Detection.FaceLabelParts` | components/WebcamFeed.tsx:144 | a label reads back as the result's gender, its rounded age and the emotion of its first maximum |
| `Detection.LabelledPrefix` | components/WebcamFeed.tsx:129-146 | counts the leading results with a label: all before it have expressions, the one at it has none |
| `Detection.Place` | components/WebcamFeed.tsx:131 | no contract of its own: the mirror flip over the video (line 131) or the letterbox scaling over an image (lines 203-206); proved in `MirroredOverlaysInside` and `LetterboxedOverlaysInside` |
| `Detection.OverlayOf` | components/WebcamFeed.tsx:129-146 | no contract of its own: the placed box of one result and its label; proved in `OverlaysAt` and `OverlaysComplete` |
| `Detection.DrawnCount` | components/WebcamFeed.tsx:129-146 | no contract of its own: the labelled prefix plus the box of the first result whose label throws; proved in `OverlaysAt` |
| `Detection.Overlays` | components/WebcamFeed.tsx:129-146 | at most one overlay per result; the drawn order and the stop at the first throwing label are proved in `OverlaysAt` and `OverlaysComplete` |
| `Detection.OverlaysAt` | components/WebcamFeed.tsx:129-146 | a drawing pass draws every labelled result and stops right after the first one without a label |
| `Detection.OverlaysComplete` | components/WebcamFeed.tsx:129-146 | when every result has expressions, each result is drawn, in order, at its placed box and with a label |
| `Detection.MirroredOverlaysInside` | components/WebcamFeed.tsx:128-135 | over the video, every drawn box of a result inside the frame lies inside the canvas |
| `Detection.LetterboxedOverlaysInside` | components/WebcamFeed.tsx:201-210 | over an image, every drawn box of a result inside the image lies inside the drawn image rectangle |
| `Detection.Cards` | components/WebcamFeed.tsx:370-384 | the cards render exactly when every face has a non-empty expression record (otherwise picking an emotion throws and nothing renders), one card per face |
| `Detection.CardsAfterPublish` | components/WebcamFeed.tsx:370-384 | after a detection pass there is one card per result, in order, showing its index, rounded age, gender and the emotion of its first maximum |
| `Session.Valid` | components/WebcamFeed.tsx:21-25 | no contract of its own: the state between handler runs (webcam and upload exclusive, pause only while streaming, stream and flags in agreement); proved kept in `StepsPreserveValid` |
| `Session.ModeOf` | components/WebcamFeed.tsx:21-25 | no contract of its own: the mode the flags denote; proved to match the held resources in `ModeMatchesResources` |
| `Session.ClearUploadedStep` | components/WebcamFeed.tsx:34-43 | no contract of its own: the state `clearUploaded` ends in; proved in `ClearUploadedEndState`, `ClearUploadedIdempotent`, `StepsPreserveValid` and `StepsReleaseUrls` |
| `Session.StartStep` | components/WebcamFeed.tsx:46-63 | no contract of its own: the state `start` ends in for a camera outcome; proved in `StartClearsUploadFirst`, `StartOverImage` and `StepsPreserveValid` |
| `Session.StopStep` | components/WebcamFeed.tsx:66-85 | no contract of its own: the state `stop` ends in; proved in `StopEndState` and `StepsPreserveValid` |
| `Session.TogglePauseStep` | components/WebcamFeed.tsx:330 | no contract of its own: the guarded toggle; proved in `TogglePauseGuard` |
| `Session.ShowUpload` | components/WebcamFeed.tsx:246-248 | no contract of its own: records the new file and URL, revoking the previous URL (corrected); proved in `UploadReleasesPrevious` |
| `Session.FileUploadStep` | components/WebcamFeed.tsx:237-250 | no contract of its own: `handleFileUpload` with the correction; proved in `UploadStopsWebcamFirst`, `StepsPreserveValid` and `UploadReleasesPrevious` |
| `Session.DropStep` | components/WebcamFeed.tsx:252-267 | no contract of its own: `handleDrop` with the correction; proved in `DropWhileStreaming`, `StepsPreserveValid` and `UploadReleasesPrevious` |
| `Session.CycleStep` | components/WebcamFeed.tsx:103-149 | no contract of its own: the state one loop pass ends in; proved in `CycleClears` and `StepsPreserveValid` |
| `Session.CycleReschedules` | components/WebcamFeed.tsx:103-149 | no contract of its own: whether the pass reaches `setTimeout(loop, 100)`; proved in `CycleClears` |
| `Session.ImageDetectedStep` | components/WebcamFeed.tsx:180-221 | no contract of its own: the state the end of `detectOnImage` ends in; proved in `ImageDetectedPreservesValid` |
| `Session.ModeMatchesResources` | components/WebcamFeed.tsx:21-25 | in a valid state a stream is held exactly in the two webcam modes and an image exactly in image mode; idle holds neither |
| `Session.InitialState` | components/WebcamFeed.tsx:21-25 | the initial state is valid and idle, with an empty store and canvas |
| `Session.StepsPreserveValid` | components/WebcamFeed.tsx:34-267 | every handler, corrected and as written, keeps webcam and upload mutually exclusive, pause only while streaming, and stream, `streaming` and `isActive` in agreement |
| `Session.ImageDetectedPreservesValid` | components/WebcamFeed.tsx:188-221 | so does the end of image detection |
| `Session.StopEndState` | components/WebcamFeed.tsx:66-85 | from any state, stop leaves streaming, paused and stream off, no upload, webcam flag false, face list and canvas empty, mode idle; stopping again changes nothing |
| `Session.ClearUploadedEndState` | components/WebcamFeed.tsx:34-43 | from a valid state that is not streaming, clearing ends idle with no image and no pause, canvas and face list empty, the displayed image's URL revoked and the webcam untouched |
| `Session.ClearUploadedIdempotent` | components/WebcamFeed.tsx:34-43 | clearing the upload twice is clearing it once |
| `Session.TogglePauseGuard` | components/WebcamFeed.tsx:330 | the toggle changes nothing unless streaming, then only `paused`; toggling twice restores the state and the stream is never released |
| `Session.DropWhileStreaming` | components/WebcamFeed.tsx:254-257 | dropping a file while streaming changes nothing, corrected and as written |
| `Session.UploadStopsWebcamFirst` | components/WebcamFeed.tsx:241-248 | uploading while streaming equals stopping and then uploading (corrected and as written), and ends in image mode with the webcam off |
| `Session.StartClearsUploadFirst` | components/WebcamFeed.tsx:46-63 | start clears the upload and its URL whatever the camera does; streaming turns on only when a stream is obtained; a failed start from a non-streaming state ends idle |
| `Session.StartOverImage` | components/WebcamFeed.tsx:34-63 | starting the webcam over a loaded image ends in webcam mode with the webcam flag set, and revokes the displayed image's URL (other live URLs stay live); with the correction below, which keeps the displayed URL the only live one, no object URL is left live |
| `Session.CycleClears` | components/WebcamFeed.tsx:104-128 | without a stream a loop pass clears list and canvas and ends the loop; with a stream, zero detections clear them and the loop goes on |
| `Session.StepsReleaseUrls` | components/WebcamFeed.tsx:34-43 | with the correction below, which keeps the displayed image's URL the only live one: clearing and starting leave no live object URL, and every handler keeps only the displayed image's URL live (stop: when no image is shown) |
| `Session.UploadReleasesPrevious` | components/WebcamFeed.tsx:246-248 | with the correction below, after an upload or drop the new URL is the only live one |
| `Session.ShowUploadAsWritten` | components/WebcamFeed.tsx:246-248 | no contract of its own: records the new file and URL as the source does, without revoking the previous URL; proved in `UploadAsWrittenLeaks` |
| `Session.FileUploadAsWrittenStep` | components/WebcamFeed.tsx:237-250 | no contract of its own: `handleFileUpload` as written; proved in `StepsPreserveValid`, `UploadStopsWebcamFirst`, `AsWrittenDiffersOnlyInUrls` and `UploadAsWrittenLeaks` |
| `Session.DropAsWrittenStep` | components/WebcamFeed.tsx:252-267 | no contract of its own: `handleDrop` as written; proved in `StepsPreserveValid`, `DropWhileStreaming`, `AsWrittenDiffersOnlyInUrls` and `DropAsWrittenLeaks` |
| `Session.AsWrittenDiffersOnlyInUrls` | components/WebcamFeed.tsx:237-267 | the upload and drop handlers as written end in the corrected handlers' state except for the live URLs, of which they keep at least as many |
| `Session.UploadAsWrittenLeaks` | components/WebcamFeed.tsx:246-248 | as written, two uploads in a row leave the first URL live, though the state no longer refers to it |
| `Session.DropAsWrittenLeaks` | components/WebcamFeed.tsx:263-265 | the same for two drops |
| `Session.WebcamFeed.constructor` | components/WebcamFeed.tsx:21-25 | the component starts in the initial state |
| `Session.WebcamFeed.ClearCanvas` | components/WebcamFeed.tsx:227-234 | the canvas is left empty and nothing else changes |
| `Session.WebcamFeed.ClearUploaded` | components/WebcamFeed.tsx:34-43 | the field updates of `clearUploaded` end in `ClearUploadedStep` |
| `Session.WebcamFeed.Start` | components/WebcamFeed.tsx:46-63 | the updates of `start` for the given camera outcome end in `StartStep` |
| `Session.WebcamFeed.Stop` | components/WebcamFeed.tsx:66-85 | the updates of `stop`, including its nested `clearUploaded`, end in `StopStep` |
| `Session.WebcamFeed.TogglePause` | components/WebcamFeed.tsx:330 | ends in `TogglePauseStep` |
| `Session.WebcamFeed.RecordUpload` | components/WebcamFeed.tsx:246-248 | records the new file and URL, revoking the previous one (corrected: the source does not revoke it) |
| `Session.WebcamFeed.HandleFileUpload` | components/WebcamFeed.tsx:237-250 | ends in `FileUploadStep` (corrected: revokes the previous URL; the source as written is `FileUploadAsWrittenStep`) |
| `Session.WebcamFeed.HandleDrop` | components/WebcamFeed.tsx:252-267 | ends in `DropStep` (corrected: revokes the previous URL; the source as written is `DropAsWrittenStep`) |
| `Session.WebcamFeed.DrawResults` | components/WebcamFeed.tsx:201-221 | the `forEach` loop appends exactly `Overlays(t, results)` to the canvas, and completes exactly when no label throws |
| `Session.WebcamFeed.WebcamCycle` | components/WebcamFeed.tsx:103-149 | one loop pass ends in `CycleStep`, and reschedules exactly when `CycleReschedules` holds |
| `Session.WebcamFeed.ImageDetected` | components/WebcamFeed.tsx:164-221 | the end of `detectOnImage` ends in `ImageDetectedStep`: results published and drawn letterboxed |

## Left out

- Model loading and inference (`lib/faceApi.ts`, face-api.js) are not modelled. The detector's results are a parameter. "No results" stands for a detector that threw, as the loop treats one.
- Not modelled, because they are browser I/O: `getUserMedia`, stream tracks, video play/pause, the file input's value reset, the canvas's pixel size and every 2D drawing call. The canvas is modelled only as the list of boxes and labels drawn on it.
- The drawn image itself, the stroke widths and the font size are not modelled; the label's position therefore is not modelled either.
- Not modelled: the `setTimeout` scheduling of the loop (100 ms, 300 ms) and the interleaving of awaited results with other handlers. `WebcamCycle` and `ImageDetected` each model one pass, run at a moment of the caller's choosing.
- `useEffect` hooks are not modelled: the play/pause effect, the model-loading effect with its unmount cleanup, and the effect that clears on `!streaming && !uploadedSrc`. The handlers already clear in every case where that last effect would.
- The stale `clearUploaded` captured by `stop` is not modelled as a closure. `stop` sets `uploadedSrc` to null before calling it, so the model's `ClearUploaded` finds no URL to revoke, which is also what the stale copy does.
- Session.StepsReleaseUrls: does not claim `stop` releases an uploaded image's URL. Stop never revokes it; only the unmount cleanup can call stop while an image is shown.
- The video and canvas elements are assumed mounted. The early returns on a missing `videoRef`/`canvasRef` are not modelled.
- The object URL that `detectOnImage` creates for its own decode and revokes at its end is not modelled.
- A decode or model-loading failure in `detectOnImage` is not modelled: nothing would be published, which is the same as not calling `ImageDetected`.
- `Session.WebcamFeed.ImageDetected` requires a positive natural size, so an image with no intrinsic size is not modelled. The file input accepts any `image/*` type, and an SVG without intrinsic dimensions can report a natural width or height of 0. Lines 171-173 then divide by zero, and the drawing goes on with degenerate geometry. A zero width gives a ratio of 0, so `dh` is Infinity, drops to 480, and `dw` is 0. A zero height gives a ratio of Infinity, so `dh` is 0 and `dw` is the full width. Both zero give a ratio of NaN, so `dh` is NaN. In each case at least one scale of lines 198-199 is NaN (0 divided by 0), so the boxes are drawn at NaN positions.
- Array.prototype.sort is modelled by a stable insertion sort. Every stable sort with this comparator gives the same order, but only its head, the first maximum, is proved about here.
- IEEE-754 rounding is replaced by exact reals.
- `JSON.parse(JSON.stringify(...))` is modelled as the identity. The confidences are finite numbers.
- `components/FaceCard.tsx`, `app/`, `lib/store.ts` and `next.config.ts` are not modelled. They are presentation and configuration; `Detection.Cards` gives the data each card shows.

## Findings

| source | as written | input that shows it | evidently intended | confidence | as-written member | corrected member |
|---|---|---|---|---|---|---|
| components/WebcamFeed.tsx:246-248 | `handleFileUpload` stores a new object URL in `uploadedSrc` without revoking the one already there | upload an image, then upload a second one without pressing Clear Image: the first URL is never revoked | revoke the displayed image's URL when it is replaced, as `clearUploaded` does | medium, not executed; starting the webcam afterwards also leaves the first URL live | `Session.UploadAsWrittenLeaks` | `Session.UploadReleasesPrevious` |
| components/WebcamFeed.tsx:263-265 | `handleDrop` does the same | drop an image, then drop a second one | the same | medium, not executed | `Session.DropAsWrittenLeaks` | `Session.UploadReleasesPrevious` |
