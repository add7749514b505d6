/** The capture session of components/WebcamFeed.tsx: the component's flags,
    the two store slices it dispatches to, and what is drawn on its canvas.

    FeedState is the whole state as a value, and the *Step functions give the
    state each handler leaves behind; class WebcamFeed holds the same state in
    fields and its methods perform the handlers' updates one by one, each
    proved to end in its Step function's state. The camera request, the
    detector and `URL.createObjectURL` are outside the model: their outcomes
    arrive as parameters. */
module Session {
  import opened Wrappers
  import opened Geometry
  import FaceSlice
  import WebcamSlice
  import Detection

  /** An object URL returned by `URL.createObjectURL`. */
  type Url = nat

  /** A file chosen in the picker or dropped on the video area. */
  datatype File = File(name: string)

  /** How the awaited `loadModels()` and `getUserMedia` of `start` turn out. */
  datatype CameraOutcome = Granted | ModelLoadFailed | CameraFailed

  datatype Mode = Idle | WebcamActive | WebcamPaused | ImageLoaded

  datatype FeedState = FeedState(
    loading: bool,
    paused: bool,
    streaming: bool,
    uploadedFile: Option<File>,
    uploadedSrc: Option<Url>,
    hasStream: bool,                   // the video element holds a media stream
    face: FaceSlice.FaceState,
    webcam: WebcamSlice.WebcamState,
    overlay: seq<Detection.Overlay>,   // boxes and labels drawn on the canvas
    liveUrls: set<Url>)                // object URLs created and not yet revoked

  function UploadedUrls(s: FeedState): set<Url> {
    if s.uploadedSrc.Some? then {s.uploadedSrc.value} else {}
  }

  /** The state between handler runs: webcam and upload exclude each other,
      only a streaming webcam can be paused, and the stream, the `streaming`
      flag and the store's `isActive` agree. */
  predicate Valid(s: FeedState) {
    !s.loading &&
    (s.uploadedFile.Some? <==> s.uploadedSrc.Some?) &&
    (s.streaming ==> s.uploadedSrc.None?) &&
    (s.paused ==> s.streaming) &&
    (s.hasStream <==> s.streaming) &&
    (s.webcam.isActive <==> s.streaming)
  }

  /** Every live object URL is the one of the image on display. */
  predicate UrlsReleased(s: FeedState) {
    s.liveUrls <= UploadedUrls(s)
  }

  function ModeOf(s: FeedState): Mode {
    if s.streaming then (if s.paused then WebcamPaused else WebcamActive)
    else if s.uploadedSrc.Some? then ImageLoaded
    else Idle
  }

  /** In a valid state a stream is held exactly in the two webcam modes, an
      image exactly in ImageLoaded, and Idle holds neither. */
  lemma ModeMatchesResources(s: FeedState)
    requires Valid(s)
    ensures s.hasStream <==> ModeOf(s) == WebcamActive || ModeOf(s) == WebcamPaused
    ensures s.uploadedSrc.Some? <==> ModeOf(s) == ImageLoaded
    ensures ModeOf(s) == Idle <==> !s.hasStream && s.uploadedSrc.None?
  {
  }

  function InitialState(): (s: FeedState)
    ensures Valid(s) && UrlsReleased(s) && ModeOf(s) == Idle
    ensures s.face.faces == [] && !s.webcam.isActive && s.overlay == []
  {
    FeedState(false, false, false, None, None, false,
              FaceSlice.InitialState(), WebcamSlice.InitialState(), [], {})
  }

  // ---------------------------------------------------------------------
  // The state each handler leaves behind

  /** `clearUploaded`: the upload is revoked and forgotten, pause and loading
      reset, canvas and face list cleared. */
  function ClearUploadedStep(s: FeedState): FeedState {
    s.(uploadedSrc := None, uploadedFile := None, paused := false, loading := false,
       overlay := [], face := FaceSlice.Reduce(s.face, FaceSlice.ClearFaces),
       liveUrls := s.liveUrls - UploadedUrls(s))
  }

  /** `start`: the upload is cleared whatever the camera does; only an
      obtained stream turns streaming on. */
  function StartStep(s: FeedState, outcome: CameraOutcome): FeedState {
    var granted := outcome.Granted?;
    s.(uploadedSrc := None, uploadedFile := None, paused := false, loading := false,
       overlay := [], face := FaceSlice.Reduce(s.face, FaceSlice.ClearFaces),
       liveUrls := s.liveUrls - UploadedUrls(s),
       hasStream := s.hasStream || granted,
       streaming := s.streaming || granted,
       webcam := if granted then WebcamSlice.Reduce(s.webcam, WebcamSlice.StartWebcam) else s.webcam)
  }

  /** `stop`: every flag off, the upload forgotten, the stream released, and
      canvas, face list and webcam flag cleared. */
  function StopStep(s: FeedState): FeedState {
    s.(hasStream := false, streaming := false, paused := false, loading := false,
       uploadedFile := None, uploadedSrc := None, overlay := [],
       face := FaceSlice.Reduce(s.face, FaceSlice.ClearFaces),
       webcam := WebcamSlice.Reduce(s.webcam, WebcamSlice.StopWebcam))
  }

  /** The Pause/Resume button. */
  function TogglePauseStep(s: FeedState): FeedState {
    if s.streaming then s.(paused := !s.paused) else s
  }

  /** Shows a newly chosen file: canvas and face list cleared, the previous
      object URL revoked, the new one recorded. */
  function ShowUpload(s: FeedState, f: File, url: Url): FeedState {
    s.(overlay := [], face := FaceSlice.Reduce(s.face, FaceSlice.ClearFaces),
       liveUrls := (s.liveUrls - UploadedUrls(s)) + {url},
       uploadedSrc := Some(url), uploadedFile := Some(f))
  }

  /** `handleFileUpload`: nothing without a file; a streaming webcam is stopped first. */
  function FileUploadStep(s: FeedState, file: Option<File>, url: Url): FeedState {
    match file
    case None => s
    case Some(f) => ShowUpload(if s.streaming then StopStep(s) else s, f, url)
  }

  /** `handleDrop`: refused while streaming, nothing without a file. */
  function DropStep(s: FeedState, file: Option<File>, url: Url): FeedState {
    if s.streaming then s
    else match file
      case None => s
      case Some(f) => ShowUpload(s, f, url)
  }

  /** One pass of the webcam detection loop on the results the detector gave
      (none when it threw): without a stream the canvas and list are cleared;
      otherwise the results are published and drawn mirrored. */
  function CycleStep(s: FeedState, videoWidth: real, results: seq<Detection.Detection>): FeedState {
    if !s.hasStream then
      s.(overlay := [], face := FaceSlice.Reduce(s.face, FaceSlice.ClearFaces))
    else
      s.(face := FaceSlice.Reduce(s.face, Detection.PublishAction(results)),
         overlay := Detection.Overlays(Detection.Mirror(videoWidth), results))
  }

  /** Whether that pass schedules the next one: it needs a stream and a
      drawing pass in which no label throws. */
  function CycleReschedules(s: FeedState, results: seq<Detection.Detection>): bool {
    s.hasStream && Detection.LabelledPrefix(results) == |results|
  }

  /** The end of `detectOnImage`: publish the results and draw them over the
      letterboxed image. */
  function ImageDetectedStep(s: FeedState, naturalW: real, naturalH: real, maxW: real,
                             results: seq<Detection.Detection>): FeedState
    requires naturalW > 0.0 && naturalH > 0.0 && maxW >= 0.0
  {
    var p := Letterbox(naturalW, naturalH, maxW);
    s.(face := FaceSlice.Reduce(s.face, Detection.PublishAction(results)),
       overlay := Detection.Overlays(Detection.Letterboxed(p), results))
  }

  // ---------------------------------------------------------------------
  // Properties of the handlers

  /** Every handler keeps the state valid. */
  lemma StepsPreserveValid(s: FeedState, outcome: CameraOutcome, file: Option<File>, url: Url,
                           w: real, results: seq<Detection.Detection>)
    requires Valid(s)
    ensures Valid(ClearUploadedStep(s)) && Valid(StartStep(s, outcome)) && Valid(StopStep(s))
    ensures Valid(TogglePauseStep(s))
    ensures Valid(FileUploadStep(s, file, url)) && Valid(DropStep(s, file, url))
    ensures Valid(FileUploadAsWrittenStep(s, file, url)) && Valid(DropAsWrittenStep(s, file, url))
    ensures Valid(CycleStep(s, w, results))
  {
  }

  lemma ImageDetectedPreservesValid(s: FeedState, naturalW: real, naturalH: real, maxW: real,
                                    results: seq<Detection.Detection>)
    requires naturalW > 0.0 && naturalH > 0.0 && maxW >= 0.0
    requires Valid(s)
    ensures Valid(ImageDetectedStep(s, naturalW, naturalH, maxW, results))
  {
  }

  /** From any state, stop ends idle with nothing held and an empty store, and
      stopping again changes nothing. */
  lemma StopEndState(s: FeedState)
    ensures var t := StopStep(s);
            !t.streaming && !t.paused && !t.hasStream &&
            t.uploadedSrc.None? && t.uploadedFile.None? &&
            !t.webcam.isActive && t.face.faces == [] && t.overlay == [] &&
            ModeOf(t) == Idle
    ensures StopStep(StopStep(s)) == StopStep(s)
  {
  }

  /** From a valid state that is not streaming, clearing the upload ends idle
      with no image, no pause, an empty canvas and face list, and only the
      displayed image's URL revoked. */
  lemma ClearUploadedEndState(s: FeedState)
    requires Valid(s) && !s.streaming
    ensures var t := ClearUploadedStep(s);
            ModeOf(t) == Idle && t.uploadedFile.None? && t.uploadedSrc.None? && !t.paused &&
            t.face.faces == [] && t.overlay == [] &&
            t.liveUrls == s.liveUrls - UploadedUrls(s) &&
            t.streaming == s.streaming && t.hasStream == s.hasStream && t.webcam == s.webcam
  {
  }

  /** Clearing the upload is idempotent. */
  lemma ClearUploadedIdempotent(s: FeedState)
    ensures ClearUploadedStep(ClearUploadedStep(s)) == ClearUploadedStep(s)
  {
  }

  /** The pause toggle changes only `paused`, and only while streaming;
      pausing and resuming returns to the same state, stream still held. */
  lemma TogglePauseGuard(s: FeedState)
    ensures !s.streaming ==> TogglePauseStep(s) == s
    ensures s.streaming ==> TogglePauseStep(s) == s.(paused := !s.paused)
    ensures TogglePauseStep(TogglePauseStep(s)) == s
    ensures TogglePauseStep(s).hasStream == s.hasStream
  {
  }

  /** Dropping a file while streaming changes nothing. */
  lemma DropWhileStreaming(s: FeedState, file: Option<File>, url: Url)
    requires s.streaming
    ensures DropStep(s, file, url) == s
    ensures DropAsWrittenStep(s, file, url) == s
  {
  }

  /** Uploading a file while streaming is stopping the webcam and then uploading. */
  lemma UploadStopsWebcamFirst(s: FeedState, f: File, url: Url)
    requires s.streaming
    ensures FileUploadStep(s, Some(f), url) == FileUploadStep(StopStep(s), Some(f), url)
    ensures var t := FileUploadStep(s, Some(f), url);
            !t.streaming && !t.hasStream && !t.paused && !t.webcam.isActive &&
            t.uploadedSrc == Some(url) && t.uploadedFile == Some(f) && ModeOf(t) == ImageLoaded
    ensures FileUploadAsWrittenStep(s, Some(f), url) == FileUploadAsWrittenStep(StopStep(s), Some(f), url)
  {
  }

  /** Start clears the upload whatever the camera does, and streams only once
      a stream is obtained; a failed request from an idle state stays idle. */
  lemma StartClearsUploadFirst(s: FeedState, outcome: CameraOutcome)
    ensures var t := StartStep(s, outcome);
            t.uploadedSrc.None? && t.uploadedFile.None? && !t.paused && t.face.faces == [] &&
            t.liveUrls == s.liveUrls - UploadedUrls(s) &&
            (t.streaming <==> s.streaming || outcome.Granted?)
    ensures !s.streaming && !outcome.Granted? ==>
              !StartStep(s, outcome).streaming && ModeOf(StartStep(s, outcome)) == Idle
  {
  }

  /** Starting the webcam over a loaded image ends in webcam mode and revokes
      the displayed image's URL; when that was the only live one, as the
      corrected upload handlers keep it, no object URL is left live. */
  lemma StartOverImage(s: FeedState)
    requires Valid(s) && ModeOf(s) == ImageLoaded
    ensures var t := StartStep(s, Granted);
            ModeOf(t) == WebcamActive && t.webcam.isActive &&
            t.liveUrls == s.liveUrls - UploadedUrls(s)
    ensures UrlsReleased(s) ==> StartStep(s, Granted).liveUrls == {}
  {
  }

  /** With no stream the loop clears canvas and list and ends; zero detections
      with a stream clear them too and the loop goes on. */
  lemma CycleClears(s: FeedState, w: real, results: seq<Detection.Detection>)
    ensures !s.hasStream ==>
              CycleStep(s, w, results).face.faces == [] && CycleStep(s, w, results).overlay == [] &&
              !CycleReschedules(s, results)
    ensures s.hasStream && results == [] ==>
              CycleStep(s, w, results).face.faces == [] && CycleStep(s, w, results).overlay == [] &&
              CycleReschedules(s, results)
  {
  }

  /** The handlers release every object URL except that of the image on display. */
  lemma StepsReleaseUrls(s: FeedState, outcome: CameraOutcome, file: Option<File>, url: Url,
                         w: real, results: seq<Detection.Detection>)
    requires Valid(s) && UrlsReleased(s)
    ensures UrlsReleased(ClearUploadedStep(s)) && ClearUploadedStep(s).liveUrls == {}
    ensures UrlsReleased(StartStep(s, outcome)) && StartStep(s, outcome).liveUrls == {}
    ensures s.uploadedSrc.None? ==> UrlsReleased(StopStep(s))
    ensures UrlsReleased(TogglePauseStep(s))
    ensures UrlsReleased(FileUploadStep(s, file, url)) && UrlsReleased(DropStep(s, file, url))
    ensures UrlsReleased(CycleStep(s, w, results))
  {
  }

  // ---------------------------------------------------------------------
  // The upload handlers as written

  /** What `handleFileUpload` and `handleDrop` do with the object URL: the new
      one replaces `uploadedSrc` and the previous one is not revoked. */
  function ShowUploadAsWritten(s: FeedState, f: File, url: Url): FeedState {
    s.(overlay := [], face := FaceSlice.Reduce(s.face, FaceSlice.ClearFaces),
       liveUrls := s.liveUrls + {url},
       uploadedSrc := Some(url), uploadedFile := Some(f))
  }

  function FileUploadAsWrittenStep(s: FeedState, file: Option<File>, url: Url): FeedState {
    match file
    case None => s
    case Some(f) => ShowUploadAsWritten(if s.streaming then StopStep(s) else s, f, url)
  }

  function DropAsWrittenStep(s: FeedState, file: Option<File>, url: Url): FeedState {
    if s.streaming then s
    else match file
      case None => s
      case Some(f) => ShowUploadAsWritten(s, f, url)
  }

  /** The handlers as written differ from the corrected ones only in which
      object URLs are live, and they never keep fewer live than the corrected
      ones do; so every guard proved of the corrected handlers but URLs holds
      of the source's own. */
  lemma AsWrittenDiffersOnlyInUrls(s: FeedState, file: Option<File>, url: Url)
    ensures FileUploadAsWrittenStep(s, file, url).(liveUrls := FileUploadStep(s, file, url).liveUrls)
         == FileUploadStep(s, file, url)
    ensures DropAsWrittenStep(s, file, url).(liveUrls := DropStep(s, file, url).liveUrls)
         == DropStep(s, file, url)
    ensures FileUploadStep(s, file, url).liveUrls <= FileUploadAsWrittenStep(s, file, url).liveUrls
    ensures DropStep(s, file, url).liveUrls <= DropAsWrittenStep(s, file, url).liveUrls
  {
  }

  /** Uploading a second image without clearing the first leaves the first
      image's object URL live but no longer reachable from the state, and
      starting the webcam afterwards still leaves it live. */
  lemma UploadAsWrittenLeaks()
    ensures var s := FileUploadAsWrittenStep(InitialState(), Some(File("a.png")), 1);
            var t := FileUploadAsWrittenStep(s, Some(File("b.png")), 2);
            Valid(t) && t.uploadedSrc == Some(2) && 1 in t.liveUrls && !UrlsReleased(t) &&
            StartStep(t, Granted).liveUrls == {1}
  {
  }

  /** The same happens when the second image is dropped. */
  lemma DropAsWrittenLeaks()
    ensures var s := DropAsWrittenStep(InitialState(), Some(File("a.png")), 1);
            var t := DropAsWrittenStep(s, Some(File("b.png")), 2);
            Valid(t) && t.uploadedSrc == Some(2) && 1 in t.liveUrls && !UrlsReleased(t)
  {
  }

  /** Revoking the previous URL keeps only the displayed image's URL live,
      after any number of uploads and drops. */
  lemma UploadReleasesPrevious(s: FeedState, f: File, url: Url)
    requires Valid(s) && UrlsReleased(s)
    ensures ShowUpload(s, f, url).liveUrls == {url}
    ensures UrlsReleased(FileUploadStep(s, Some(f), url)) && UrlsReleased(DropStep(s, Some(f), url))
  {
  }

  // ---------------------------------------------------------------------
  // The component

  lemma PrefixStep<T>(s: seq<T>, i: nat)
    requires i < |s|
    ensures s[..i + 1] == s[..i] + [s[i]]
  {
  }

  class WebcamFeed {
    var loading: bool
    var paused: bool
    var streaming: bool
    var uploadedFile: Option<File>
    var uploadedSrc: Option<Url>
    var hasStream: bool
    var face: FaceSlice.FaceState
    var webcam: WebcamSlice.WebcamState
    var overlay: seq<Detection.Overlay>
    var liveUrls: set<Url>

    function State(): FeedState
      reads this
    {
      FeedState(loading, paused, streaming, uploadedFile, uploadedSrc, hasStream,
                face, webcam, overlay, liveUrls)
    }

    constructor ()
      ensures State() == InitialState()
    {
      loading, paused, streaming := false, false, false;
      uploadedFile, uploadedSrc, hasStream := None, None, false;
      face, webcam := FaceSlice.InitialState(), WebcamSlice.InitialState();
      overlay, liveUrls := [], {};
    }

    /** `clearCanvas`. */
    method ClearCanvas()
      modifies this`overlay
      ensures overlay == []
    {
      overlay := [];
    }

    method ClearUploaded()
      modifies this
      ensures State() == ClearUploadedStep(old(State()))
    {
      if uploadedSrc.Some? {
        liveUrls := liveUrls - {uploadedSrc.value};
      }
      uploadedSrc := None;
      uploadedFile := None;
      paused := false;
      loading := false;
      ClearCanvas();
      face := FaceSlice.Reduce(face, FaceSlice.ClearFaces);
    }

    method Start(outcome: CameraOutcome)
      modifies this
      ensures State() == StartStep(old(State()), outcome)
    {
      ClearUploaded();
      loading := true;
      if outcome.Granted? {
        hasStream := true;
        webcam := WebcamSlice.Reduce(webcam, WebcamSlice.StartWebcam);
        streaming := true;
      }
      loading := false;
    }

    method Stop()
      modifies this
      ensures State() == StopStep(old(State()))
    {
      if hasStream {
        hasStream := false;
      }
      webcam := WebcamSlice.Reduce(webcam, WebcamSlice.StopWebcam);
      face := FaceSlice.Reduce(face, FaceSlice.ClearFaces);
      streaming := false;
      paused := false;
      loading := false;
      uploadedFile := None;
      uploadedSrc := None;
      ClearCanvas();
      ClearUploaded();
    }

    method TogglePause()
      modifies this
      ensures State() == TogglePauseStep(old(State()))
    {
      if streaming {
        paused := !paused;
      }
    }

    /** Records the file just chosen under its new object URL `url`. */
    method RecordUpload(f: File, url: Url)
      modifies this
      ensures State() == old(State()).(liveUrls := (old(liveUrls) - UploadedUrls(old(State()))) + {url},
                                       uploadedSrc := Some(url), uploadedFile := Some(f))
    {
      if uploadedSrc.Some? {
        liveUrls := liveUrls - {uploadedSrc.value};
      }
      liveUrls := liveUrls + {url};
      uploadedSrc := Some(url);
      uploadedFile := Some(f);
    }

    method HandleFileUpload(file: Option<File>, url: Url)
      modifies this
      ensures State() == FileUploadStep(old(State()), file, url)
    {
      if file.None? {
        return;
      }
      if streaming {
        Stop();
      }
      ClearCanvas();
      face := FaceSlice.Reduce(face, FaceSlice.ClearFaces);
      RecordUpload(file.value, url);
    }

    method HandleDrop(file: Option<File>, url: Url)
      modifies this
      ensures State() == DropStep(old(State()), file, url)
    {
      if streaming {
        return;
      }
      if file.None? {
        return;
      }
      ClearCanvas();
      face := FaceSlice.Reduce(face, FaceSlice.ClearFaces);
      RecordUpload(file.value, url);
    }

    /** The `forEach` drawing pass: appends each result's box and label in
      order, and stops after a result whose label throws. */
    method DrawResults(t: Detection.Transform, results: seq<Detection.Detection>)
      returns (completed: bool)
      modifies this`overlay
      ensures overlay == old(overlay) + Detection.Overlays(t, results)
      ensures completed <==> Detection.LabelledPrefix(results) == |results|
    {
      ghost var all := Detection.Overlays(t, results);
      var drawn: seq<Detection.Overlay> := [];
      var i := 0;
      completed := true;
      while i < |results|
        invariant 0 <= i <= |results| && i <= Detection.LabelledPrefix(results)
        invariant drawn == all[..i] && overlay == old(overlay)
      {
        var o := Detection.OverlayOf(t, results[i]);
        Detection.OverlaysAt(t, results, i);
        PrefixStep(all, i);
        drawn := drawn + [o];
        if o.caption.None? {
          assert drawn == all;
          completed := false;
          break;
        }
        i := i + 1;
      }
      assert drawn == all;
      overlay := overlay + drawn;
    }

    /** One pass of the detection loop's body; `rescheduled` says whether it
      sets the timer for the next pass. */
    method WebcamCycle(videoWidth: real, results: seq<Detection.Detection>)
      returns (rescheduled: bool)
      modifies this
      ensures State() == CycleStep(old(State()), videoWidth, results)
      ensures rescheduled == CycleReschedules(old(State()), results)
    {
      if !hasStream {
        ClearCanvas();
        face := FaceSlice.Reduce(face, FaceSlice.ClearFaces);
        return false;
      }
      face := FaceSlice.Reduce(face, Detection.PublishAction(results));
      ClearCanvas();
      rescheduled := DrawResults(Detection.Mirror(videoWidth), results);
      assert overlay == Detection.Overlays(Detection.Mirror(videoWidth), results);
    }

    /** The part of `detectOnImage` after the detector has answered, for an
      image of natural size `naturalW` x `naturalH` in a container `maxW` wide. */
    method ImageDetected(naturalW: real, naturalH: real, maxW: real,
                         results: seq<Detection.Detection>)
      requires naturalW > 0.0 && naturalH > 0.0 && maxW >= 0.0
      modifies this
      ensures State() == ImageDetectedStep(old(State()), naturalW, naturalH, maxW, results)
    {
      var p := Letterbox(naturalW, naturalH, maxW);
      ClearCanvas();
      face := FaceSlice.Reduce(face, Detection.PublishAction(results));
      var _ := DrawResults(Detection.Letterboxed(p), results);
      assert overlay == Detection.Overlays(Detection.Letterboxed(p), results);
    }
  }
}
