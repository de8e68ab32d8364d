/**
 * App.tsx: the session state of the page and `handleGenerate`, which runs the
 * whole pipeline (sample the reference video, analyse the motion, generate the
 * video) once, reports failures, and always clears the busy state afterwards.
 * The credential provider of the hosting page, the analysis model and the video
 * service are inputs; React's state hooks become plain fields.
 */
module App {
  import opened Wrappers
  import opened Strings
  import opened Media
  import opened GeminiService

  const FrameCount: nat := 10

  const SelectKeyFirstMessage := "Please select an API key before generating a video."
  const AnalyzingMessage := "Analyzing reference video animation..."
  const MetadataFailedMessage := "Failed to load video metadata."
  const FromReferenceVideo := " from the reference video."
  const NoFramesMessage := "Could not extract frames" + FromReferenceVideo
  const NoStyleMessage := "Could not determine animation style" + FromReferenceVideo
  const InvalidKeyMarker := "Requested entity was not found"
  const InvalidKeyMessage := "API key is invalid or expired. Please select a new key."
  const ErrorPrefix := "An error occurred: "

  function CommandMessage(command: string): string
  {
    "AI Command: \"" + command + "\". Generating video..."
  }

  /** The values `loadingMessage` takes while `handleGenerate` runs: the analysis
      notice, the command, the steps the video service reports, and the final
      clearing. */
  datatype Notice = Analyzing | Command(command: string) | Reporting(stage: Stage) | Cleared
  {
    /** The text on screen. */
    function Text(): string
    {
      match this
      case Analyzing => AnalyzingMessage
      case Command(command) => CommandMessage(command)
      case Reporting(stage) => stage.Message()
      case Cleared => ""
    }
  }

  /** The service's reports as notices, in order. */
  function AsNotices(stages: seq<Stage>): (notices: seq<Notice>)
    ensures |notices| == |stages|
    ensures forall k :: 0 <= k < |stages| ==> notices[k] == Reporting(stages[k])
  {
    if stages == [] then [] else [Reporting(stages[0])] + AsNotices(stages[1..])
  }

  /** The uploaded reference video: its duration once the metadata has loaded
      (None when loading fails) and the encoded frame shown at each time. */
  datatype ReferenceVideo = ReferenceVideo(duration: Option<real>, frameAt: real -> string)

  /** The page's credential provider, `window.aistudio`, when it is there, with
      the answer of `hasSelectedApiKey()`. */
  datatype KeyProvider = NoProvider | Provider(hasSelectedApiKey: bool)

  /** The remote collaborators: the configured key (empty when unset), the
      analysis model, the video service. */
  datatype Services = Services(apiKey: string,
                               generateContent: ContentRequest -> Result<string, string>,
                               video: VideoService)

  /** What the `try` block of `handleGenerate` can throw: the errors it raises
      itself, and whatever the two service calls threw. */
  datatype PipelineError = MetadataFailed | NoFrames | NoStyle | Service(error: ServiceError)
  {
    /** The error's `message`. */
    function Message(): string
    {
      match this
      case MetadataFailed => MetadataFailedMessage
      case NoFrames => NoFramesMessage
      case NoStyle => NoStyleMessage
      case Service(error) => error.Message()
    }

    /** An error the SDK threw rather than one of the source's own. */
    predicate IsRemote()
    {
      Service? && error.Remote?
    }
  }

  /** A result of the video service, with its error seen as the pipeline's. */
  function FromService(result: Result<string, ServiceError>): (r: Result<string, PipelineError>)
    ensures r.Success? <==> result.Success?
    ensures r.Success? ==> r.value == result.value
    ensures r.Failure? ==> r.error == Service(result.error)
  {
    match result
    case Success(url) => Success(url)
    case Failure(e) => Failure(Service(e))
  }

  /** The service calls `handleGenerate` makes, in order. */
  datatype Call =
    | CheckKey
    | OpenSelectKey
    | ExtractFrames(frameCount: nat)
    | Analyze(frames: seq<string>)
    | Generate(image: string, command: string, aspectRatio: AspectRatio)

  /** The credential flag after `checkApiKey`: the provider's answer, or the old
      flag when there is no provider. */
  function KeyAfterCheck(selected: bool, provider: KeyProvider): bool
  {
    if provider.Provider? then provider.hasSelectedApiKey else selected
  }

  /** The user-visible message of a failure, and whether it reveals a rejected key. */
  datatype Classified = Classified(message: string, keyRejected: bool)

  /** The `catch` of `handleGenerate`: a message mentioning the missing entity
      means the key was rejected; any other message is shown with a prefix. */
  function ClassifyError(e: PipelineError): Classified
  {
    if Contains(e.Message(), InvalidKeyMarker) then Classified(InvalidKeyMessage, true)
    else Classified(ErrorPrefix + e.Message(), false)
  }

  /** Any error of the SDK whose text carries the marker, wherever, rejects the key. */
  lemma ClassifyRejectedKey(before: string, after: string)
    ensures ClassifyError(Service(Remote(before + InvalidKeyMarker + after)))
            == Classified(InvalidKeyMessage, true)
  {
    ContainsInfix(before, InvalidKeyMarker, after);
  }

  /** The marker has a `q`, so a text without one cannot contain it. */
  lemma NoMarkerWithoutQ(s: string)
    requires 'q' !in s
    ensures !Contains(s, InvalidKeyMarker)
  {
    forall i | 0 <= i <= |s| - |InvalidKeyMarker|
      ensures !StartsWith(s[i..], InvalidKeyMarker)
    {
      MarkerHasQ(s, i);
      assert s[i + 2] in s;
    }
  }

  /** The third letter of the marker is a `q`. */
  lemma MarkerHasQ(s: string, i: nat)
    requires i <= |s| - |InvalidKeyMarker|
    ensures StartsWith(s[i..], InvalidKeyMarker) ==> s[i + 2] == 'q'
  {
    assert InvalidKeyMarker[2] == 'q';
    assert |InvalidKeyMarker| <= |s[i..]| ==> s[i..][..|InvalidKeyMarker|][2] == s[i + 2];
  }

  lemma OwnMessagesHaveNoQ(e: PipelineError)
    requires !e.IsRemote()
    ensures 'q' !in e.Message()
  {
    match e
    case MetadataFailed =>
      MetadataFailedHasNoQ();
    case NoFrames =>
      NoFramesHasNoQ();
    case NoStyle =>
      NoStyleHasNoQ();
    case Service(error) =>
      match error
      case ApiKeyMissing =>
        ApiKeyMissingHasNoQ();
      case StatusFailed =>
        StatusFailedHasNoQ();
      case NoVideoUri =>
        NoVideoUriHasNoQ();
      case DownloadFailed(status) =>
        DownloadFailedHasNoQ(status);
  }

  // One message per lemma keeps each literal in a small proof.
  lemma MetadataFailedHasNoQ()
    ensures 'q' !in MetadataFailedMessage
  {
  }

  lemma NoFramesHasNoQ()
    ensures 'q' !in NoFramesMessage
  {
    assert 'q' !in FromReferenceVideo;
  }

  lemma NoStyleHasNoQ()
    ensures 'q' !in NoStyleMessage
  {
    assert 'q' !in FromReferenceVideo;
  }

  lemma DownloadFailedHasNoQ(status: nat)
    ensures 'q' !in DownloadFailed(status).Message()
  {
    var digits := NatToString(status);
    assert 'q' !in DownloadFailedPrefix;
    assert 'q' !in digits;
  }

  lemma ApiKeyMissingHasNoQ()
    ensures 'q' !in ApiKeyMissingMessage
  {
  }

  lemma StatusFailedHasNoQ()
    ensures 'q' !in StatusFailedMessage
  {
  }

  lemma NoVideoUriHasNoQ()
    ensures 'q' !in NoVideoUriMessage
  {
  }

  /** The source's own errors never reject the key: only an error that comes from
      the SDK can. */
  lemma ClassifyOwnFailures(e: PipelineError)
    requires !e.IsRemote()
    ensures ClassifyError(e) == Classified(ErrorPrefix + e.Message(), false)
  {
    OwnMessagesHaveNoQ(e);
    NoMarkerWithoutQ(e.Message());
  }

  // ---------------------------------------------------------------- the pipeline

  /** What one run of the pipeline gave, the calls it made, and the progress
      notices it showed. */
  datatype Run = Run(outcome: Result<string, PipelineError>, calls: seq<Call>, notices: seq<Notice>)

  /** The reference definition of the `try` block of `handleGenerate`. */
  function PipelineRun(video: ReferenceVideo, image: string, aspectRatio: AspectRatio,
                       services: Services): Run
    requires AlwaysSettles(services.video)
  {
    var extracting := [ExtractFrames(FrameCount)];
    if video.duration.None? then Run(Failure(MetadataFailed), extracting, [Analyzing])
    else
      var frames := SampledFrames(video.duration.value, FrameCount, video.frameAt);
      if frames == [] then Run(Failure(NoFrames), extracting, [Analyzing])
      else
        var rest := AnalysisStage(frames, image, aspectRatio, services);
        Run(rest.outcome, extracting + rest.calls, [Analyzing] + rest.notices)
  }

  /** The pipeline once frames are in hand: analyse, check the command, generate. */
  function AnalysisStage(frames: seq<string>, image: string, aspectRatio: AspectRatio,
                         services: Services): Run
    requires AlwaysSettles(services.video)
  {
    match AnalyzeVideoAnimation(services.apiKey, frames, services.generateContent)
    case Failure(e) => Run(Failure(Service(e)), [Analyze(frames)], [])
    case Success(command) =>
      if command == "" then Run(Failure(NoStyle), [Analyze(frames)], [])
      else
        var g := GenerationRun(services.apiKey, image, command, aspectRatio, services.video);
        Run(FromService(g.result), [Analyze(frames), Generate(image, command, aspectRatio)],
            [Command(command)] + AsNotices(Reports(g.trace)))
  }

  /** A reference video of non-positive duration yields no frames, and the run
      stops with the extraction error before any analysis. */
  lemma PipelineNoFrames(video: ReferenceVideo, image: string, aspectRatio: AspectRatio, services: Services)
    requires AlwaysSettles(services.video)
    requires video.duration.Some? && video.duration.value <= 0.0
    ensures PipelineRun(video, image, aspectRatio, services)
            == Run(Failure(NoFrames), [ExtractFrames(FrameCount)], [Analyzing])
  {
    SampleTimesCount(video.duration.value, FrameCount);
  }

  /** A reference video whose metadata fails to load ends the run with "Failed to
      load video metadata." before any analysis, and the failure is shown with
      the prefix and keeps the key. */
  lemma PipelineMetadataFailed(video: ReferenceVideo, image: string, aspectRatio: AspectRatio,
                               services: Services)
    requires AlwaysSettles(services.video)
    requires video.duration.None?
    ensures var run := PipelineRun(video, image, aspectRatio, services);
      && run == Run(Failure(MetadataFailed), [ExtractFrames(FrameCount)], [Analyzing])
      && ClassifyError(run.outcome.error) == Classified(ErrorPrefix + MetadataFailedMessage, false)
  {
    ClassifyOwnFailures(MetadataFailed);
  }

  /** After sampling: the analysis comes first, generation follows exactly when the
      analysis gave a non-empty command and uses that command, and a video comes
      back only after the ready report. */
  lemma AnalysisStageShape(frames: seq<string>, image: string, aspectRatio: AspectRatio,
                           services: Services)
    requires AlwaysSettles(services.video)
    ensures var run := AnalysisStage(frames, image, aspectRatio, services);
      var analysis := AnalyzeVideoAnimation(services.apiKey, frames, services.generateContent);
      && 1 <= |run.calls| <= 2 && run.calls[0] == Analyze(frames)
      && (|run.calls| == 2 <==> analysis.Success? && analysis.value != "")
      && (|run.calls| == 2 ==> run.calls[1] == Generate(image, analysis.value, aspectRatio))
      && (run.outcome.Success? ==>
            |run.calls| == 2 && |run.notices| > 0 && run.notices[|run.notices| - 1] == Reporting(Ready))
  {
    var analysis := AnalyzeVideoAnimation(services.apiKey, frames, services.generateContent);
    if analysis.Success? && analysis.value != "" {
      GenerationReportsInOrder(services.apiKey, image, analysis.value, aspectRatio, services.video);
    }
  }

  /** A playable reference video is analysed on exactly ten frames: the frames
      sampled at tenths of its duration, in order (see `SampledFramesAt`). */
  lemma PipelineAnalysesTenFrames(video: ReferenceVideo, image: string, aspectRatio: AspectRatio,
                                  services: Services)
    requires AlwaysSettles(services.video)
    requires video.duration.Some? && video.duration.value > 0.0
    ensures var run := PipelineRun(video, image, aspectRatio, services);
      var frames := SampledFrames(video.duration.value, FrameCount, video.frameAt);
      && |frames| == FrameCount
      && |run.calls| >= 2 && run.calls[1] == Analyze(frames)
  {
    var frames := SampledFrames(video.duration.value, FrameCount, video.frameAt);
    SampleTimesCount(video.duration.value, FrameCount);
    PipelineRunAfterSampling(video, image, aspectRatio, services);
    AnalysisStageShape(frames, image, aspectRatio, services);
  }

  /** Analysis comes before generation, and generation is asked for only with a
      non-empty command that the analysis of the sampled frames produced. */
  lemma PipelineOrder(video: ReferenceVideo, image: string, aspectRatio: AspectRatio, services: Services)
    requires AlwaysSettles(services.video)
    ensures var run := PipelineRun(video, image, aspectRatio, services);
      && 1 <= |run.calls| <= 3 && run.calls[0] == ExtractFrames(FrameCount)
      && (|run.calls| >= 2 ==> run.calls[1].Analyze? && run.calls[1].frames != [])
      && (forall i :: 0 <= i < |run.calls| && run.calls[i].Generate? ==> i == 2)
      && (|run.calls| == 3 ==>
            && run.calls[2].Generate? && run.calls[2].command != ""
            && run.calls[2].image == image && run.calls[2].aspectRatio == aspectRatio
            && AnalyzeVideoAnimation(services.apiKey, run.calls[1].frames, services.generateContent)
               == Success(run.calls[2].command))
  {
    if video.duration.Some? {
      var frames := SampledFrames(video.duration.value, FrameCount, video.frameAt);
      if frames != [] {
        PipelineRunAfterSampling(video, image, aspectRatio, services);
        AnalysisStageShape(frames, image, aspectRatio, services);
      }
    }
  }

  /** Once frames are in hand, the run is the analysis stage behind the extraction. */
  lemma PipelineRunAfterSampling(video: ReferenceVideo, image: string, aspectRatio: AspectRatio,
                                 services: Services)
    requires AlwaysSettles(services.video)
    requires video.duration.Some?
    requires SampledFrames(video.duration.value, FrameCount, video.frameAt) != []
    ensures var rest := AnalysisStage(SampledFrames(video.duration.value, FrameCount, video.frameAt),
                                      image, aspectRatio, services);
      PipelineRun(video, image, aspectRatio, services)
      == Run(rest.outcome, [ExtractFrames(FrameCount)] + rest.calls, [Analyzing] + rest.notices)
  {
  }

  /** A video comes back only from a run that went through all three stages. */
  lemma PipelineSuccess(video: ReferenceVideo, image: string, aspectRatio: AspectRatio, services: Services)
    requires AlwaysSettles(services.video)
    requires PipelineRun(video, image, aspectRatio, services).outcome.Success?
    ensures var run := PipelineRun(video, image, aspectRatio, services);
      |run.calls| == 3 && run.calls[2].Generate?
  {
    var frames := SampledFrames(video.duration.value, FrameCount, video.frameAt);
    PipelineRunAfterSampling(video, image, aspectRatio, services);
    AnalysisStageShape(frames, image, aspectRatio, services);
  }

  /** A run that gives back a video has last reported that the video is ready. */
  lemma PipelineSuccessReportsReady(video: ReferenceVideo, image: string, aspectRatio: AspectRatio,
                                    services: Services)
    requires AlwaysSettles(services.video)
    requires PipelineRun(video, image, aspectRatio, services).outcome.Success?
    ensures var shown := PipelineRun(video, image, aspectRatio, services).notices;
      |shown| > 0 && shown[|shown| - 1] == Reporting(Ready)
  {
    var frames := SampledFrames(video.duration.value, FrameCount, video.frameAt);
    PipelineRunAfterSampling(video, image, aspectRatio, services);
    AnalysisStageShape(frames, image, aspectRatio, services);
  }

  /**
   * The `try` block of `handleGenerate`: sample ten frames of the reference
   * video, stop if there are none, analyse them, stop if the command is empty,
   * then generate.  The first failure ends the run.
   */
  method RunPipeline(video: ReferenceVideo, image: string, aspectRatio: AspectRatio, services: Services)
    returns (outcome: Result<string, PipelineError>, calls: seq<Call>, shown: seq<Notice>)
    requires AlwaysSettles(services.video)
    ensures Run(outcome, calls, shown) == PipelineRun(video, image, aspectRatio, services)
  {
    shown := [Analyzing];
    calls := [ExtractFrames(FrameCount)];
    if video.duration.None? {
      return Failure(MetadataFailed), calls, shown;
    }
    var frames, _ := ExtractVideoFrames(video.duration.value, FrameCount, video.frameAt);
    if |frames| == 0 {
      return Failure(NoFrames), calls, shown;
    }
    var later, more;
    outcome, later, more := AnalyzeThenGenerate(frames, image, aspectRatio, services);
    calls := calls + later;
    shown := shown + more;
  }

  /** The part of the `try` block after sampling: analyse the frames, stop on an
      empty command, generate with the command. */
  method AnalyzeThenGenerate(frames: seq<string>, image: string, aspectRatio: AspectRatio, services: Services)
    returns (outcome: Result<string, PipelineError>, calls: seq<Call>, shown: seq<Notice>)
    requires AlwaysSettles(services.video)
    ensures Run(outcome, calls, shown) == AnalysisStage(frames, image, aspectRatio, services)
  {
    calls, shown := [Analyze(frames)], [];
    var analysis := AnalyzeVideoAnimation(services.apiKey, frames, services.generateContent);
    if analysis.Failure? {
      return Failure(Service(analysis.error)), calls, shown;
    }
    var command := analysis.value;
    if command == "" {
      return Failure(NoStyle), calls, shown;
    }
    shown := [Command(command)];
    calls := calls + [Generate(image, command, aspectRatio)];
    var result, trace := GenerateVideo(services.apiKey, image, command, aspectRatio, services.video);
    outcome := FromService(result);
    // the service reports its progress through `setLoadingMessage`
    shown := shown + AsNotices(Reports(trace));
  }

  // ---------------------------------------------------------------- the session

  /** `!contentBase64`: no payload yet, or an empty one (an empty string is
      falsy). */
  predicate NoPayload(payload: Option<string>)
  {
    payload.None? || payload.value == ""
  }

  /** An empty file reads as a data URL with nothing after the comma: its
      payload is empty, so it does not count as content. */
  lemma EmptyDataUrlHasNoPayload(header: string)
    requires ',' !in header
    ensures DataUrlPayload(header + ",") == Some("")
    ensures NoPayload(DataUrlPayload(header + ","))
  {
    DataUrlPayloadOfDataUrl(header, "");
    assert header + "," + "" == header + ",";
  }

  /** What the user uploaded as content: an image read as a data URL with its
      pixel size, or a video whose first frame was, perhaps, captured as a
      JPEG data URL with its size. */
  datatype Still = Still(dataUrl: string, width: nat, height: nat)
  datatype ContentUpload = ImageUpload(image: Still) | VideoUpload(firstFrame: Option<Still>)

  /** The state `App` keeps between renders. */
  class Session {
    var contentBase64: Option<string>
    var aspectRatio: AspectRatio
    var referenceVideo: Option<ReferenceVideo>
    var isLoading: bool
    var loadingMessage: string
    var generatedVideoUrl: Option<string>
    var error: Option<string>
    var apiKeySelected: bool

    constructor ()
      ensures contentBase64 == None && aspectRatio == Landscape && referenceVideo.None?
      ensures !isLoading && loadingMessage == "" && generatedVideoUrl == None && error == None
      ensures !apiKeySelected
    {
      contentBase64 := None;
      aspectRatio := Landscape;
      referenceVideo := None;
      isLoading := false;
      loadingMessage := "";
      generatedVideoUrl := None;
      error := None;
      apiKeySelected := false;
    }

    /** `checkApiKey`: adopt the provider's answer when there is a provider. */
    method CheckApiKey(provider: KeyProvider)
      modifies this`apiKeySelected
      ensures apiKeySelected == KeyAfterCheck(old(apiKeySelected), provider)
    {
      if provider.Provider? {
        apiKeySelected := provider.hasSelectedApiKey;
      }
    }

    /** `handleSelectKey`: after the provider's selection dialog, assume a key was
        chosen and clear the error; without a provider nothing happens. */
    method HandleSelectKey(provider: KeyProvider)
      modifies this`apiKeySelected, this`error
      ensures provider.Provider? ==> apiKeySelected && error == None
      ensures provider.NoProvider? ==> apiKeySelected == old(apiKeySelected) && error == old(error)
    {
      if provider.Provider? {
        apiKeySelected := true;
        error := None;
      }
    }

    /** `handleContentUpload`: forget the last result and error, keep the payload
        of the data URL and the shape of the picture.  A video whose first frame
        could not be captured leaves the previous payload and shape in place. */
    method HandleContentUpload(upload: ContentUpload)
      modifies this`contentBase64, this`aspectRatio, this`generatedVideoUrl, this`error
      ensures generatedVideoUrl == None && error == None
      ensures upload.ImageUpload? ==>
        contentBase64 == DataUrlPayload(upload.image.dataUrl)
        && aspectRatio == AspectOf(upload.image.width, upload.image.height)
      ensures upload.VideoUpload? && upload.firstFrame.Some? ==>
        contentBase64 == DataUrlPayload(upload.firstFrame.value.dataUrl)
        && aspectRatio == AspectOf(upload.firstFrame.value.width, upload.firstFrame.value.height)
      ensures upload.VideoUpload? && upload.firstFrame.None? ==>
        contentBase64 == old(contentBase64) && aspectRatio == old(aspectRatio)
    {
      generatedVideoUrl := None;
      error := None;
      var still := if upload.ImageUpload? then Some(upload.image) else upload.firstFrame;
      if still.Some? {
        contentBase64 := DataUrlPayload(still.value.dataUrl);
        aspectRatio := AspectOf(still.value.width, still.value.height);
      }
    }

    /** `handleReferenceVideoUpload` */
    method HandleReferenceVideoUpload(video: ReferenceVideo)
      modifies this`referenceVideo
      ensures referenceVideo.Some? && referenceVideo.value == video
    {
      referenceVideo := Some(video);
    }

    /**
     * `handleGenerate`.  Does nothing without content (or with an empty
     * payload), without a reference video,
     * or while a run is in flight.  Otherwise asks the provider about the key; with
     * no key it reports so, opens the selection dialog and stops.  With a key it
     * marks the session busy, runs the pipeline, records the video or the
     * classified failure, and in every case clears the busy flag and the message.
     * `calls` are the service calls made; `shown` the values `loadingMessage` took.
     */
    method HandleGenerate(provider: KeyProvider, services: Services) returns (calls: seq<Call>, shown: seq<Notice>)
      requires AlwaysSettles(services.video)
      modifies this`isLoading, this`loadingMessage, this`error, this`apiKeySelected, this`generatedVideoUrl
      ensures old(NoPayload(contentBase64) || referenceVideo.None? || isLoading) ==>
        calls == [] && shown == [] && unchanged(this)
      ensures !old(NoPayload(contentBase64) || referenceVideo.None? || isLoading)
              && !KeyAfterCheck(old(apiKeySelected), provider) ==>
        && calls == [CheckKey] + (if provider.Provider? then [OpenSelectKey] else [])
        && shown == [] && error == Some(SelectKeyFirstMessage) && !apiKeySelected
        && isLoading == old(isLoading) && loadingMessage == old(loadingMessage)
        && generatedVideoUrl == old(generatedVideoUrl)
      ensures !old(NoPayload(contentBase64) || referenceVideo.None? || isLoading)
              && KeyAfterCheck(old(apiKeySelected), provider) ==>
        var run := PipelineRun(referenceVideo.value, contentBase64.value, aspectRatio, services);
        && calls == [CheckKey] + run.calls
        && shown == run.notices + [Cleared]
        && !isLoading && loadingMessage == ""
        && (run.outcome.Success? ==>
              generatedVideoUrl == Some(run.outcome.value) && error == None && apiKeySelected)
        && (run.outcome.Failure? ==>
              && generatedVideoUrl == None
              && error == Some(ClassifyError(run.outcome.error).message)
              && apiKeySelected == !ClassifyError(run.outcome.error).keyRejected)
    {
      calls, shown := [], [];
      if NoPayload(contentBase64) || referenceVideo.None? || isLoading {
        return;
      }
      calls := [CheckKey];
      CheckApiKey(provider);
      if !apiKeySelected {
        error := Some(SelectKeyFirstMessage);
        if provider.Provider? {
          calls := calls + [OpenSelectKey];
        }
        return;
      }
      isLoading := true;
      error := None;
      generatedVideoUrl := None;

      // try
      loadingMessage := AnalyzingMessage;
      var outcome, run, progress := RunPipeline(referenceVideo.value, contentBase64.value, aspectRatio, services);
      calls := calls + run;
      shown := progress;

      // catch
      if outcome.Success? {
        generatedVideoUrl := Some(outcome.value);
      } else {
        var classified := ClassifyError(outcome.error);
        error := Some(classified.message);
        if classified.keyRejected {
          apiKeySelected := false;
        }
      }

      // finally
      isLoading := false;
      loadingMessage := "";
      shown := shown + [Cleared];
    }
  }
}
