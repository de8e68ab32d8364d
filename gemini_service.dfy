/**
 * services/geminiService.ts: the two calls to the remote model.
 *
 * `AnalyzeVideoAnimation` builds one request out of a fixed instruction and the
 * sampled frames and cleans up the single-sentence reply.  `GenerateVideo`
 * submits the generation job, polls it until it is done, and downloads the
 * result, reporting progress on the way.  The SDK and the network are scripted:
 * the analysis model is a function from the request to its reply, and the video
 * service is a reply to the submission, the successive replies to the status
 * polls, and a function from a download URL to the response.
 */
module GeminiService {
  import opened Wrappers
  import opened Strings
  import opened Media

  const ApiKeyMissingMessage := "API key is not configured."
  const StatusFailedMessage := "Failed to get video generation status."
  const NoVideoUriMessage := "Video generation failed or returned no URI."
  const DownloadFailedPrefix := "Failed to download video. Status: "

  /** The errors this service throws, and an error the SDK threw, which passes
      through with its own message. */
  datatype ServiceError = ApiKeyMissing | StatusFailed | NoVideoUri | DownloadFailed(status: nat)
                        | Remote(message: string)
  {
    /** The error's `message`. */
    function Message(): string
    {
      match this
      case ApiKeyMissing => ApiKeyMissingMessage
      case StatusFailed => StatusFailedMessage
      case NoVideoUri => NoVideoUriMessage
      case DownloadFailed(status) => DownloadFailedPrefix + NatToString(status)
      case Remote(message) => message
    }
  }

  /** The fixed instruction that precedes the frames in the analysis request.
      The request carries it by name, so its text only enters a proof that asks
      for it. */
  datatype Instruction = MotionAnalysis
  {
    /** The text sent, five lines long, spelled out in short pieces, which the
        verifier handles far more cheaply than one long literal. */
    function Text(): string
    {
      "You are an expert " + "motion analyst. " + "Your task is to " + "analyze the " +
      "following sequence " + "of video frames and " + "generate a highly " + "specific, technical " +
      "prompt for a " + "text-to-video AI. " + "The goal is to " + "replicate the " +
      "animation *exactly* " + "as seen in the " + "frames, without any " + "creative " +
      "interpretation.\n" +
      "Describe the " + "camera's motion " + "path, speed, easing " + "(e.g., ease-in, " +
      "ease-out, linear), " + "and any effects " + "like shake, blur, " + "or glitch. Be " +
      "precise.\n" +
      "For example, " + "instead of 'a fast " + "zoom', describe it " + "as 'a rapid dolly " +
      "zoom-in, starting " + "from a medium shot " + "and ending on a " + "close-up, with a " +
      "sharp ease-out to a " + "sudden stop.'\n" +
      "Another example: 'A " + "smooth, slow, " + "linear pan from " + "left to right " +
      "across the entire " + "frame.'\n" +
      "Do not describe the " + "content of the " + "images, only the " + "motion and effects " +
      "applied to the " + "camera. Output only " + "the final, " + "single-sentence " +
      "prompt."
    }
  }

  const JpegType := "image/jpeg"

  /** One part of a multi-part model request: the instruction text, or an inline image. */
  datatype Part = Prompt(instruction: Instruction) | InlineData(mimeType: string, data: string)

  /** `frames.map(frame => ({ inlineData: { mimeType: 'image/jpeg', data: frame } }))` */
  function ImageParts(frames: seq<string>): (parts: seq<Part>)
    ensures |parts| == |frames|
    ensures forall k :: 0 <= k < |frames| ==> parts[k] == InlineData(JpegType, frames[k])
  {
    if frames == [] then [] else [InlineData(JpegType, frames[0])] + ImageParts(frames[1..])
  }

  const AnalysisModel := "gemini-2.5-pro"
  const AnalysisTemperature := 0.1

  /** A `generateContent` request: the model, the parts of the one content, and
      the sampling temperature. */
  datatype ContentRequest = ContentRequest(model: string, parts: seq<Part>, temperature: real)

  /** The analysis request: the analysis model at a low temperature, with the
      instruction first, then the frames in input order. */
  function AnalysisRequest(frames: seq<string>): (request: ContentRequest)
    ensures request.model == AnalysisModel && request.temperature == AnalysisTemperature
    ensures |request.parts| == |frames| + 1
    ensures request.parts[0] == Prompt(MotionAnalysis)
    ensures forall k :: 0 <= k < |frames| ==> request.parts[k + 1] == InlineData(JpegType, frames[k])
  {
    ContentRequest(AnalysisModel, [Prompt(MotionAnalysis)] + ImageParts(frames), AnalysisTemperature)
  }

  /** Drops one enclosing pair of double quotes.  A lone `"` starts and ends with
      a quote, but `substring(1, 0)` swaps its arguments and keeps it whole. */
  function StripQuotes(s: string): string
  {
    if StartsWith(s, "\"") && EndsWith(s, "\"") then Substring(s, 1, |s| - 1) else s
  }

  /** The post-processing of the model's reply: trim, then strip one pair of quotes. */
  function CleanDescription(reply: string): string
  {
    StripQuotes(Trim(reply))
  }

  /** A reply that is a quoted text with white space around it loses the white
      space and exactly one pair of quotes; the quoted text is kept as it is. */
  lemma CleanDescriptionQuoted(before: string, t: string, after: string)
    requires AllSpace(before) && AllSpace(after)
    ensures CleanDescription(before + "\"" + t + "\"" + after) == t
  {
    var quoted := "\"" + t + "\"";
    calc {
      before + "\"" + t + "\"" + after;
      { AppendAssociative(before + "\"", t, "\""); AppendAssociative(before, "\"", t + "\"");
        AppendAssociative(before, "\"" + t, "\""); }
      before + quoted + after;
    }
    QuotedTrimmed(t);
    TrimPadded(before, quoted, after);
    StripQuotesQuoted(t);
  }

  lemma QuotedTrimmed(t: string)
    ensures var quoted := "\"" + t + "\""; !IsSpace(quoted[0]) && !IsSpace(quoted[|quoted| - 1])
  {
  }

  /** Exactly one pair of enclosing quotes is dropped. */
  lemma StripQuotesQuoted(t: string)
    ensures StripQuotes("\"" + t + "\"") == t
  {
    var quoted := "\"" + t + "\"";
    assert quoted[..1] == "\"" && quoted[|quoted| - 1..] == "\"";
    assert quoted[1..|quoted| - 1] == t;
  }

  /** A reply that is not wrapped in quotes once trimmed is only trimmed, and
      cleaning it again changes nothing. */
  lemma CleanDescriptionUnquoted(reply: string)
    requires var t := Trim(reply); !(StartsWith(t, "\"") && EndsWith(t, "\""))
    ensures CleanDescription(reply) == Trim(reply)
    ensures CleanDescription(CleanDescription(reply)) == CleanDescription(reply)
  {
    TrimIdempotent(reply);
  }

  /** A reply that trims to the lone quote character keeps that quote:
      `substring(1, 0)` swaps its arguments and takes the whole text. */
  lemma CleanDescriptionLoneQuote(reply: string)
    requires Trim(reply) == "\""
    ensures CleanDescription(reply) == "\""
  {
  }

  /**
   * `analyzeVideoAnimation`: fails with "API key is not configured." when no key
   * is set (the empty string stands for an unset variable: both fail the test), before any request is made; otherwise sends the instruction and the
   * frames to the model and cleans up its reply.  An error of the model call
   * propagates unchanged.
   */
  function AnalyzeVideoAnimation(apiKey: string, frames: seq<string>,
                                 generateContent: ContentRequest -> Result<string, string>)
    : (r: Result<string, ServiceError>)
    ensures apiKey == "" ==> r == Failure(ApiKeyMissing)
    ensures apiKey != "" ==> r.Failure? == generateContent(AnalysisRequest(frames)).Failure?
    ensures apiKey != "" && r.Failure? ==> r == Failure(Remote(generateContent(AnalysisRequest(frames)).error))
    ensures apiKey != "" && r.Success? ==> r.value == CleanDescription(generateContent(AnalysisRequest(frames)).value)
  {
    if apiKey == "" then Failure(ApiKeyMissing)
    else
      match generateContent(AnalysisRequest(frames))
      case Failure(e) => Failure(Remote(e))
      case Success(reply) => Success(CleanDescription(reply))
  }

  /** A reply that is one quoted sentence padded with white space comes back
      as the bare sentence. */
  lemma AnalysisUnquotesReply(apiKey: string, frames: seq<string>,
                              generateContent: ContentRequest -> Result<string, string>,
                              before: string, sentence: string, after: string)
    requires apiKey != "" && AllSpace(before) && AllSpace(after)
    requires generateContent(AnalysisRequest(frames)) == Success(before + "\"" + sentence + "\"" + after)
    ensures AnalyzeVideoAnimation(apiKey, frames, generateContent) == Success(sentence)
  {
    CleanDescriptionQuoted(before, sentence, after);
  }

  // ---------------------------------------------------------------- video generation

  const VideoModel := "veo-3.1-fast-generate-preview"
  const VideoPromptPrefix := "Strictly and precisely replicate the following animation without any creative deviation: "
  /** The generation request: model, prompt, source image and configuration. */
  datatype VideoRequest = VideoRequest(model: string, prompt: string, imageBytes: string, mimeType: string,
                                       numberOfVideos: nat, resolution: string, aspectRatio: string)

  /** A remote job as a poll reports it: whether it is done and
      `response?.generatedVideos?.[0]?.video?.uri`. */
  datatype Operation = Operation(done: bool, videoUri: Option<string>)

  /** What one status poll gives: the refreshed job, or a thrown error. */
  datatype PollReply = Polled(operation: Operation) | PollThrew

  /** The outcome of the download: a response with `ok`, `status` and the object
      URL made from its body, or the error with which `fetch` or reading the body
      rejected. */
  datatype Download = Response(ok: bool, status: nat, objectUrl: string) | Rejected(message: string)

  /** The scripted video service. */
  datatype VideoService = VideoService(submit: VideoRequest -> Result<Operation, string>,
                                       polls: seq<PollReply>,
                                       fetch: string -> Download)

  /** The steps `generateVideo` reports through `setLoadingMessage`, in the
      order it reports them. */
  datatype Stage = Generating | Rendering | Downloading | Ready
  {
    /** The message shown for the step. */
    function Message(): string
    {
      match this
      case Generating => "Generating video with AI..."
      case Rendering => "AI is rendering your video. This may take several minutes..."
      case Downloading => "Downloading generated video..."
      case Ready => "Your video is ready!"
    }
  }

  /** What the client does, in order: progress reports, the submission, the status
      polls (each after the fixed wait) and the download. */
  datatype Event = Progress(stage: Stage) | Submit(request: VideoRequest) | Poll | Fetch(url: string)

  function VideoRequestFor(imageBase64: string, command: string, aspectRatio: AspectRatio): VideoRequest
  {
    VideoRequest(VideoModel, VideoPromptPrefix + command, imageBase64, JpegType, 1, "720p", aspectRatio.Label())
  }

  /** A poll reply after which the loop polls no more. */
  predicate Stops(reply: PollReply)
  {
    reply.PollThrew? || reply.operation.done
  }

  /** The job is done already, or some scripted poll ends the polling.  The source
      polls without bound, so only services that settle are modelled. */
  predicate Settles(operation: Operation, polls: seq<PollReply>)
  {
    operation.done || exists k :: 0 <= k < |polls| && Stops(polls[k])
  }

  ghost predicate AlwaysSettles(service: VideoService)
  {
    forall request :: service.submit(request).Success? ==> Settles(service.submit(request).value, service.polls)
  }

  /** How polling ends: with a done job after some polls, or with a poll that threw. */
  datatype PollEnd = Finished(operation: Operation, polls: nat) | Aborted(polls: nat)
  {
    function Later(n: nat): PollEnd
    {
      match this
      case Finished(operation, k) => Finished(operation, k + n)
      case Aborted(k) => Aborted(k + n)
    }
  }

  /** The reference definition of the polling: poll while not done, one scripted
      reply per poll; a throwing poll ends it. */
  function PollUntilDone(operation: Operation, polls: seq<PollReply>): PollEnd
    requires Settles(operation, polls)
    decreases |polls|
  {
    if operation.done then Finished(operation, 0)
    else
      match polls[0]
      case PollThrew => Aborted(1)
      case Polled(next) =>
        assert Settles(next, polls[1..]) by {
          if !next.done {
            var k :| 0 <= k < |polls| && Stops(polls[k]);
            assert Stops(polls[1..][k - 1]);
          }
        }
        PollUntilDone(next, polls[1..]).Later(1)
  }

  /** A job that is done when submitted is never polled. */
  lemma PollUntilDoneDone(operation: Operation, polls: seq<PollReply>)
    requires operation.done
    ensures PollUntilDone(operation, polls) == Finished(operation, 0)
  {
  }

  /** A job still running is polled exactly up to and including the first reply
      that stops the loop; a throwing poll is the last one. */
  lemma {:induction false} PollUntilDoneCount(operation: Operation, polls: seq<PollReply>, j: nat)
    requires !operation.done
    requires j < |polls| && Stops(polls[j])
    requires forall k :: 0 <= k < j ==> !Stops(polls[k])
    ensures Settles(operation, polls)
    decreases j
    ensures PollUntilDone(operation, polls)
            == if polls[j].PollThrew? then Aborted(j + 1) else Finished(polls[j].operation, j + 1)
  {
    if j > 0 {
      assert !Stops(polls[0]);
      var next := polls[0].operation;
      assert Stops(polls[1..][j - 1]);
      PollUntilDoneCount(next, polls[1..], j - 1);
    }
  }

  function Polls(n: nat): (events: seq<Event>)
    ensures |events| == n && forall k :: 0 <= k < n ==> events[k] == Poll
  {
    seq(n, _ => Poll)
  }

  /** What `generateVideo` returns and what it did. */
  datatype Generation = Generation(result: Result<string, ServiceError>, trace: seq<Event>)

  /** The reference definition of `generateVideo`. */
  function GenerationRun(apiKey: string, imageBase64: string, command: string,
                         aspectRatio: AspectRatio, service: VideoService): Generation
    requires AlwaysSettles(service)
  {
    if apiKey == "" then Generation(Failure(ApiKeyMissing), [])
    else
      var request := VideoRequestFor(imageBase64, command, aspectRatio);
      var started := [Progress(Generating), Submit(request)];
      match service.submit(request)
      case Failure(e) => Generation(Failure(Remote(e)), started)
      case Success(operation) =>
        var end := PollUntilDone(operation, service.polls);
        var polled := started + [Progress(Rendering)] + Polls(end.polls);
        match end
        case Aborted(_) => Generation(Failure(StatusFailed), polled)
        case Finished(final, _) => AfterPolling(apiKey, final, polled, service.fetch)
  }

  /** The end of `generateVideo` once the job is done: take its URI, download it
      with the key appended, and hand back the object URL. */
  function AfterPolling(apiKey: string, final: Operation, polled: seq<Event>, fetch: string -> Download): Generation
  {
    if final.videoUri.None? || final.videoUri.value == "" then Generation(Failure(NoVideoUri), polled)
    else
      var url := final.videoUri.value + "&key=" + apiKey;
      var fetched := polled + [Progress(Downloading), Fetch(url)];
      var response := fetch(url);
      if response.Rejected? then Generation(Failure(Remote(response.message)), fetched)
      else if !response.ok then Generation(Failure(DownloadFailed(response.status)), fetched)
      else Generation(Success(response.objectUrl), fetched + [Progress(Ready)])
  }

  /**
   * `generateVideo`: checks the key (unset or empty fails), reports progress, submits the job, polls it
   * while it is not done (a throwing poll ends everything with "Failed to get
   * video generation status."), takes the video URI of the done job, downloads
   * it with the key appended, and returns the object URL of the body.
   */
  method GenerateVideo(apiKey: string, imageBase64: string, command: string,
                       aspectRatio: AspectRatio, service: VideoService)
    returns (result: Result<string, ServiceError>, trace: seq<Event>)
    requires AlwaysSettles(service)
    ensures apiKey == "" ==> result == Failure(ApiKeyMissing) && trace == []
    ensures Generation(result, trace) == GenerationRun(apiKey, imageBase64, command, aspectRatio, service)
  {
    if apiKey == "" {
      return Failure(ApiKeyMissing), [];
    }
    trace := [Progress(Generating)];
    var request := VideoRequestFor(imageBase64, command, aspectRatio);
    trace := trace + [Submit(request)];
    var submitted := service.submit(request);
    if submitted.Failure? {
      return Failure(Remote(submitted.error)), trace;
    }
    trace := trace + [Progress(Rendering)];
    assert Settles(submitted.value, service.polls);
    var end := AwaitOperation(submitted.value, service.polls);
    trace := trace + Polls(end.polls);
    assert trace == [Progress(Generating), Submit(request)] + [Progress(Rendering)] + Polls(end.polls);
    if end.Aborted? {
      return Failure(StatusFailed), trace;
    }
    result, trace := DownloadVideo(apiKey, end.operation, trace, service.fetch);
  }

  /** The polling loop of `generateVideo`: while the job is not done, wait, then
      poll; a poll that throws ends the loop. */
  method AwaitOperation(operation: Operation, polls: seq<PollReply>) returns (end: PollEnd)
    requires Settles(operation, polls)
    ensures end == PollUntilDone(operation, polls)
  {
    var current := operation;
    var next := 0;
    while !current.done
      invariant next <= |polls|
      invariant Settles(current, polls[next..])
      invariant PollUntilDone(operation, polls) == PollUntilDone(current, polls[next..]).Later(next)
      decreases |polls| - next
    {
      ghost var k :| 0 <= k < |polls[next..]| && Stops(polls[next..][k]);
      // the fixed wait, then one status poll
      var reply := polls[next];
      assert polls[next..][1..] == polls[next + 1..];
      next := next + 1;
      match reply
      case PollThrew =>
        return Aborted(next);
      case Polled(op) =>
        current := op;
    }
    end := Finished(current, next);
  }

  /** The end of `generateVideo`: take the done job's URI, download it with the
      key appended, and hand back the object URL of the body. */
  method DownloadVideo(apiKey: string, final: Operation, polled: seq<Event>, fetch: string -> Download)
    returns (result: Result<string, ServiceError>, trace: seq<Event>)
    ensures Generation(result, trace) == AfterPolling(apiKey, final, polled, fetch)
  {
    trace := polled;
    var uri := final.videoUri;
    if uri.None? || uri.value == "" {
      return Failure(NoVideoUri), trace;
    }
    trace := trace + [Progress(Downloading)];
    var url := uri.value + "&key=" + apiKey;
    trace := trace + [Fetch(url)];
    var response := fetch(url);
    if response.Rejected? {
      return Failure(Remote(response.message)), trace;
    }
    if !response.ok {
      return Failure(DownloadFailed(response.status)), trace;
    }
    trace := trace + [Progress(Ready)];
    result := Success(response.objectUrl);
  }

  // ---------------------------------------------------------------- properties of generation

  /** Different steps show different messages, so the steps stand for the texts. */
  lemma StageMessagesDistinct(a: Stage, b: Stage)
    ensures a.Message() == b.Message() ==> a == b
  {
    assert |Generating.Message()| == 27 && |Rendering.Message()| == 60;
    assert |Downloading.Message()| == 30 && |Ready.Message()| == 20;
  }

  /** The steps reported, in order. */
  function Reports(trace: seq<Event>): seq<Stage>
  {
    if trace == [] then []
    else (if trace[0].Progress? then [trace[0].stage] else []) + Reports(trace[1..])
  }

  lemma {:induction false} ReportsAppend(a: seq<Event>, b: seq<Event>)
    ensures Reports(a + b) == Reports(a) + Reports(b)
  {
    if a == [] {
      assert a + b == b;
    } else {
      assert (a + b)[0] == a[0];
      assert (a + b)[1..] == a[1..] + b;
      ReportsAppend(a[1..], b);
    }
  }

  lemma ReportsOne(e: Event)
    ensures Reports([e]) == if e.Progress? then [e.stage] else []
  {
    assert [e][1..] == [];
  }

  lemma {:induction false} ReportsPolls(n: nat)
    ensures Reports(Polls(n)) == []
  {
    if n > 0 {
      assert Polls(n)[1..] == Polls(n - 1);
      ReportsPolls(n - 1);
    }
  }

  lemma {:induction false} PollsCounted(n: nat)
    ensures multiset(Polls(n))[Poll] == n
  {
    if n > 0 {
      assert Polls(n) == Polls(n - 1) + [Poll];
      PollsCounted(n - 1);
    }
  }

  const AllStages := [Generating, Rendering, Downloading, Ready]

  /** Progress is reported in the fixed order generating, rendering, downloading,
      ready, stopping early when a step fails; a returned video saw all four. */
  lemma GenerationReportsInOrder(apiKey: string, imageBase64: string, command: string,
                                 aspectRatio: AspectRatio, service: VideoService)
    requires AlwaysSettles(service)
    ensures var g := GenerationRun(apiKey, imageBase64, command, aspectRatio, service);
      var shown := Reports(g.trace);
      |shown| <= 4 && shown == AllStages[..|shown|]
      && (g.result.Success? ==> shown == AllStages)
  {
    var g := GenerationRun(apiKey, imageBase64, command, aspectRatio, service);
    if apiKey == "" {
      StagesUpTo(Reports(g.trace), 0, false);
    } else {
      var request := VideoRequestFor(imageBase64, command, aspectRatio);
      var started := [Progress(Generating), Submit(request)];
      StartedReports(request);
      if service.submit(request).Failure? {
        StagesUpTo(Reports(g.trace), 1, false);
      } else {
        var end := PollUntilDone(service.submit(request).value, service.polls);
        var polled := started + [Progress(Rendering)] + Polls(end.polls);
        PolledReports(started, end.polls);
        if end.Aborted? {
          StagesUpTo(Reports(g.trace), 2, false);
        } else {
          AfterPollingReports(apiKey, end.operation, polled, service.fetch);
          StagesAfterPolling(Reports(g.trace), g.result.Success?);
        }
      }
    }
  }

  /** The first `n` steps, in order. */
  lemma StagesUpTo(shown: seq<Stage>, n: nat, success: bool)
    requires n <= 4 && shown == AllStages[..n] && (success ==> n == 4)
    ensures |shown| <= 4 && shown == AllStages[..|shown|] && (success ==> shown == AllStages)
  {
  }

  lemma StagesAfterPolling(shown: seq<Stage>, success: bool)
    requires || shown == [Generating, Rendering] || shown == [Generating, Rendering] + [Downloading]
             || shown == [Generating, Rendering] + [Downloading, Ready]
    requires success ==> shown == [Generating, Rendering] + [Downloading, Ready]
    ensures |shown| <= 4 && shown == AllStages[..|shown|] && (success ==> shown == AllStages)
  {
  }

  lemma StartedReports(request: VideoRequest)
    ensures Reports([Progress(Generating), Submit(request)]) == [Generating]
  {
    ReportsAppend([Progress(Generating)], [Submit(request)]);
    ReportsOne(Progress(Generating));
    ReportsOne(Submit(request));
  }

  lemma PolledReports(started: seq<Event>, n: nat)
    requires Reports(started) == [Generating]
    ensures Reports(started + [Progress(Rendering)] + Polls(n)) == [Generating, Rendering]
  {
    ReportsAppend(started + [Progress(Rendering)], Polls(n));
    ReportsAppend(started, [Progress(Rendering)]);
    ReportsOne(Progress(Rendering));
    ReportsPolls(n);
  }

  /** Once polling is over, the download is reported, then the ready video. */
  lemma AfterPollingReports(apiKey: string, final: Operation, polled: seq<Event>, fetch: string -> Download)
    ensures var g := AfterPolling(apiKey, final, polled, fetch);
      var before := Reports(polled);
      && (Reports(g.trace) == before || Reports(g.trace) == before + [Downloading]
          || Reports(g.trace) == before + [Downloading, Ready])
      && (g.result.Success? ==> Reports(g.trace) == before + [Downloading, Ready])
  {
    if final.videoUri.Some? && final.videoUri.value != "" {
      var url := final.videoUri.value + "&key=" + apiKey;
      DownloadReports(polled, url);
    }
  }

  lemma DownloadReports(polled: seq<Event>, url: string)
    ensures Reports(polled + [Progress(Downloading), Fetch(url)]) == Reports(polled) + [Downloading]
    ensures Reports(polled + [Progress(Downloading), Fetch(url)] + [Progress(Ready)])
            == Reports(polled) + [Downloading, Ready]
  {
    var fetched := polled + [Progress(Downloading), Fetch(url)];
    FetchReports(url);
    ReportsAppend(polled, [Progress(Downloading), Fetch(url)]);
    ReportsAppend(fetched, [Progress(Ready)]);
    ReportsOne(Progress(Ready));
    AppendAssociative(Reports(polled), [Downloading], [Ready]);
  }

  lemma FetchReports(url: string)
    ensures Reports([Progress(Downloading), Fetch(url)]) == [Downloading]
  {
    ReportsAppend([Progress(Downloading)], [Fetch(url)]);
    ReportsOne(Progress(Downloading));
    ReportsOne(Fetch(url));
  }

  /** The prompt sent for generation is the fixed prefix followed by the command,
      with the source image as JPEG, one video, 720p and the requested shape. */
  lemma GenerationSubmitsCommand(apiKey: string, imageBase64: string, command: string,
                                 aspectRatio: AspectRatio, service: VideoService)
    requires AlwaysSettles(service) && apiKey != ""
    ensures var g := GenerationRun(apiKey, imageBase64, command, aspectRatio, service);
      |g.trace| >= 2 && g.trace[1].Submit?
      && g.trace[1].request.prompt == VideoPromptPrefix + command
      && g.trace[1].request.imageBytes == imageBase64 && g.trace[1].request.mimeType == JpegType
      && g.trace[1].request.model == VideoModel && g.trace[1].request.resolution == "720p"
      && g.trace[1].request.numberOfVideos == 1 && g.trace[1].request.aspectRatio == aspectRatio.Label()
  {
  }

  /** A job that is done when submitted is never polled. */
  lemma GenerationDoneAtOnce(apiKey: string, imageBase64: string, command: string,
                             aspectRatio: AspectRatio, service: VideoService)
    requires AlwaysSettles(service) && apiKey != ""
    requires var s := service.submit(VideoRequestFor(imageBase64, command, aspectRatio));
      s.Success? && s.value.done
    ensures multiset(GenerationRun(apiKey, imageBase64, command, aspectRatio, service).trace)[Poll] == 0
  {
    var request := VideoRequestFor(imageBase64, command, aspectRatio);
    var operation := service.submit(request).value;
    PollUntilDoneDone(operation, service.polls);
    StartedThenPolls(request, 0);
    AfterPollingKeepsCount(apiKey, operation,
      [Progress(Generating), Submit(request)] + [Progress(Rendering)] + Polls(0), service.fetch);
  }

  /** Before and after submission no poll is reported: the polls in a trace are
      the ones of the polling loop. */
  lemma StartedThenPolls(request: VideoRequest, n: nat)
    ensures multiset([Progress(Generating), Submit(request)] + [Progress(Rendering)] + Polls(n))[Poll] == n
  {
    PollsCounted(n);
    assert multiset([Progress(Generating), Submit(request)] + [Progress(Rendering)])[Poll] == 0;
  }

  /** A job still running at submission is polled once per reply up to and
      including the first reply that is done or throws; a throwing poll fails the
      generation with the status error and is the last thing that happens. */
  lemma GenerationPollCount(apiKey: string, imageBase64: string, command: string,
                            aspectRatio: AspectRatio, service: VideoService, j: nat)
    requires AlwaysSettles(service) && apiKey != ""
    requires var s := service.submit(VideoRequestFor(imageBase64, command, aspectRatio));
      s.Success? && !s.value.done
    requires j < |service.polls| && Stops(service.polls[j])
    requires forall k :: 0 <= k < j ==> !Stops(service.polls[k])
    ensures var g := GenerationRun(apiKey, imageBase64, command, aspectRatio, service);
      && multiset(g.trace)[Poll] == j + 1
      && (g.result == Failure(StatusFailed) <==> service.polls[j].PollThrew?)
      && (service.polls[j].PollThrew? ==> g.trace[|g.trace| - 1] == Poll)
  {
    var request := VideoRequestFor(imageBase64, command, aspectRatio);
    var operation := service.submit(request).value;
    PollUntilDoneCount(operation, service.polls, j);
    var polled := [Progress(Generating), Submit(request)] + [Progress(Rendering)] + Polls(j + 1);
    StartedThenPolls(request, j + 1);
    if !service.polls[j].PollThrew? {
      AfterPollingKeepsCount(apiKey, service.polls[j].operation, polled, service.fetch);
    }
  }

  /** What follows a finished polling adds no poll and never fails with the status error. */
  lemma AfterPollingKeepsCount(apiKey: string, final: Operation, polled: seq<Event>, fetch: string -> Download)
    ensures var g := AfterPolling(apiKey, final, polled, fetch);
      multiset(g.trace)[Poll] == multiset(polled)[Poll] && g.result != Failure(StatusFailed)
  {
  }

  /** A returned video is the object URL of a successful download of the video
      URI of the operation that ended the polling, with the key appended; a
      failed download names its HTTP status, and a rejected one passes its
      error on. */
  lemma GenerationDownload(apiKey: string, imageBase64: string, command: string,
                           aspectRatio: AspectRatio, service: VideoService)
    requires AlwaysSettles(service)
    ensures var g := GenerationRun(apiKey, imageBase64, command, aspectRatio, service);
      g.result.Success? ==>
        && apiKey != "" && |g.trace| >= 2 && g.trace[|g.trace| - 2].Fetch?
        && var url := g.trace[|g.trace| - 2].url;
        && var s := service.submit(VideoRequestFor(imageBase64, command, aspectRatio));
        && s.Success? && PollUntilDone(s.value, service.polls).Finished?
        && var final := PollUntilDone(s.value, service.polls).operation;
        && final.videoUri.Some? && final.videoUri.value != ""
        && url == final.videoUri.value + "&key=" + apiKey
        && service.fetch(url).Response? && service.fetch(url).ok
        && g.result.value == service.fetch(url).objectUrl
    ensures var g := GenerationRun(apiKey, imageBase64, command, aspectRatio, service);
      g.result.Failure? && g.trace != [] && g.trace[|g.trace| - 1].Fetch? ==>
        var response := service.fetch(g.trace[|g.trace| - 1].url);
        g.result.error == if response.Rejected? then Remote(response.message) else DownloadFailed(response.status)
  {
  }

  /** A rejected submission ends the generation with the SDK's error, after the
      first report and the submission: nothing is polled or fetched. */
  lemma GenerationSubmitRejected(apiKey: string, imageBase64: string, command: string,
                                 aspectRatio: AspectRatio, service: VideoService)
    requires AlwaysSettles(service) && apiKey != ""
    requires service.submit(VideoRequestFor(imageBase64, command, aspectRatio)).Failure?
    ensures var request := VideoRequestFor(imageBase64, command, aspectRatio);
      GenerationRun(apiKey, imageBase64, command, aspectRatio, service)
      == Generation(Failure(Remote(service.submit(request).error)), [Progress(Generating), Submit(request)])
  {
  }

  /** A finished job without a video URI, or with an empty one, fails with "Video
      generation failed or returned no URI." and nothing is fetched. */
  lemma GenerationNoUri(apiKey: string, imageBase64: string, command: string,
                        aspectRatio: AspectRatio, service: VideoService)
    requires AlwaysSettles(service) && apiKey != ""
    requires var s := service.submit(VideoRequestFor(imageBase64, command, aspectRatio));
      && s.Success?
      && var end := PollUntilDone(s.value, service.polls);
      && end.Finished? && (end.operation.videoUri.None? || end.operation.videoUri.value == "")
    ensures var g := GenerationRun(apiKey, imageBase64, command, aspectRatio, service);
      && g.result == Failure(NoVideoUri)
      && forall k :: 0 <= k < |g.trace| ==> !g.trace[k].Fetch?
  {
    var request := VideoRequestFor(imageBase64, command, aspectRatio);
    var end := PollUntilDone(service.submit(request).value, service.polls);
    NoFetchBeforeDownload(request, end.polls);
  }

  lemma NoFetchBeforeDownload(request: VideoRequest, n: nat)
    ensures var polled := [Progress(Generating), Submit(request)] + [Progress(Rendering)] + Polls(n);
      forall k :: 0 <= k < |polled| ==> !polled[k].Fetch?
  {
  }

  /** A failed download's message names the HTTP status. */
  lemma DownloadFailedNamesStatus(status: nat)
    ensures Contains(DownloadFailed(status).Message(), NatToString(status))
  {
    ContainsInfix(DownloadFailedPrefix, NatToString(status), "");
    assert DownloadFailedPrefix + NatToString(status) + "" == DownloadFailed(status).Message();
  }
}
