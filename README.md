# Motion transfer studio, modelled in Dafny

The application takes a source picture (an image, or the first frame of a
video) and a reference video. It samples ten frames of the reference video and
asks a multimodal model for one sentence that describes the camera motion in
those frames. It then asks a video model to animate the source picture with
that motion, polls the generation job until it is done, and downloads the
result. While this runs, a progress panel shows the service's reports or, when
there are none, rotates through seven stock messages.

The model covers the page's orchestration (`App.tsx`), the two service calls
(`services/geminiService.ts`), the upload drop zone
(`components/VideoUploader.tsx`) and the progress panel
(`components/Loader.tsx`). Modules:

- `Wrappers`: `Option` and `Result`.
- `Strings`: the JavaScript string operations the program relies on:
  - `trim`, `indexOf`, `split`/`join` on one character, `substring`;
  - `replace(/\s/g, '')` and `replace(/\s+/g, sep)`;
  - the decimal rendering of a status code.

  They are stated with ECMAScript's white-space set and proved about
  (split/join round trips, idempotent trim).
- `Media`: the image-shape rule, the payload of a data URL, and the seek
  schedule of the frame sampler. The sampler is a loop proved equal to a
  closed-form schedule.
- `GeminiService`: the motion analysis request and reply cleaning, and video
  generation with its polling loop and download.
  - The remote services are scripted inputs: a reply to the submission, the
    successive poll replies, and a download function.
  - Each operation is a method proved equal to a reference function. Lemmas
    about that function cover the order of progress reports, the poll count,
    the error that ends each failure, and the download URL.
- `App`: the pipeline of `handleGenerate`, the error classification, and the
  page's state as a `Session` class whose handlers change its fields.
- `VideoUploader`: the acceptance test for dropped files and the input id.
- `Loader`: the message rotation, as a `Panel` class with `SetMessage` and
  `Tick`, and the pure next-message function they rely on.

Where the code and its description disagree, the model follows the code:

- Without a credential provider, `checkApiKey` leaves the key flag as it was
  (`App.KeyAfterCheck`). It does not force the flag to "no key".
- `handleSelectKey` does nothing without a provider.
- A reply that trims to a single `"` keeps that quote: `substring(1, 0)`
  swaps its arguments.
- The environment's API key fails the configuration check when it is empty as
  well as when it is unset. The model represents an unset key as the empty
  string.

## Model

| member | source | states |
|---|---|---|
| Strings.ContainsInfix | App.tsx:197 | a text containing the marker anywhere between two other texts `includes` it |
| Strings.TrimShape | services/geminiService.ts:32 | `trim` keeps exactly the piece between the leading and trailing white space, and what it drops is all white space |
| Strings.TrimEnds | services/geminiService.ts:32 | a trimmed text neither starts nor ends with white space |
| Strings.TrimPadded | services/geminiService.ts:32 | a text without white space at its ends, padded with white space, trims back to itself |
| Strings.TrimIdempotent | services/geminiService.ts:32 | trimming twice is trimming once |
| Strings.TrimBounds | components/VideoUploader.tsx:25 | the trimmed piece starts after the leading white space and ends before the trailing white space |
| Strings.Trim | services/geminiService.ts:32 | `trim`; its properties are stated by `Strings.TrimShape`, `TrimEnds`, `TrimPadded` and `TrimIdempotent` |
| Strings.LeadingSpaces | components/VideoUploader.tsx:25 | the count is the length of the maximal white-space prefix |
| Strings.TrailingSpaces | components/VideoUploader.tsx:25 | the count is the length of the maximal white-space suffix |
| Strings.IndexOf | components/Loader.tsx:27 | `indexOf`: -1 exactly when the element is absent; otherwise the position of its first occurrence |
| Strings.IndexOfAppend | components/Loader.tsx:27 | the first occurrence in a concatenation is found in the first part, or shifted into the second, or nowhere |
| Strings.Split | App.tsx:48 | `split` on one character: at least one piece; its properties are stated by `Strings.SplitPieces`, `SplitAppend`, `SplitJoin` and `JoinSplit` |
| Strings.SplitPieces | App.tsx:48 | no piece of `split(',')` contains a comma, and there is one piece exactly when there is no comma |
| Strings.SplitAppend | App.tsx:48 | splitting `a + sep + b` gives the pieces of `a` followed by the pieces of `b` |
| Strings.SplitJoin | components/VideoUploader.tsx:25 | joining comma-free entries and splitting again gives the entries back |
| Strings.JoinSplit | components/VideoUploader.tsx:25 | splitting and joining again gives the text back |
| Strings.Substring | services/geminiService.ts:35 | `substring` of indices within the string is the slice between them, in either order; indices covering the whole string give it back; the result is never longer than the string |
| Strings.SubstringSwap | services/geminiService.ts:35 | swapping the two indices gives the same result |
| Strings.SubstringClamps | services/geminiService.ts:35 | an index outside the string acts as the nearest end |
| Strings.RemoveSpaces | components/VideoUploader.tsx:28 | the result has no white space and is no longer than the input |
| Strings.RemoveSpacesAppend | components/VideoUploader.tsx:28 | removing white space distributes over concatenation |
| Strings.RemoveSpacesOfNoSpace | components/VideoUploader.tsx:28 | a text without white space is unchanged |
| Strings.RemoveSpacesOfSpace | components/VideoUploader.tsx:28 | a text made only of white space becomes empty |
| Strings.RemoveSpacesTrim | components/VideoUploader.tsx:25-28 | removing all white space makes the earlier `trim` irrelevant |
| Strings.ReplaceSpaceRuns | components/VideoUploader.tsx:58 | `replace(/\s+/g, sep)`; its properties are stated by the `Strings.ReplaceSpaceRuns…` lemmas below |
| Strings.ReplaceSpaceRunsNoSpace | components/VideoUploader.tsx:58 | with a separator free of white space, the result has no white space |
| Strings.ReplaceSpaceRunsIdentity | components/VideoUploader.tsx:58 | a text without white space is unchanged |
| Strings.ReplaceSpaceRunsShorter | components/VideoUploader.tsx:58 | with a separator of at most one character, the result is no longer than the input |
| Strings.ReplaceSpaceRunsRun | components/VideoUploader.tsx:58 | one maximal run of white space becomes exactly one separator |
| Strings.ReplaceSpaceRunsEmpty | components/VideoUploader.tsx:58 | replacing runs with nothing is removing all white space |
| Strings.NatToString | services/geminiService.ts:93 | a status code is rendered as decimal digits |
| Strings.ParseNatToString | services/geminiService.ts:93 | reading the rendered digits back gives the status code |
| Media.AspectOf | App.tsx:52 | landscape exactly when width ≥ height; with a zero height, landscape exactly when the width is positive (Infinity compares as wide, NaN as tall) |
| Media.DataUrlPayload | App.tsx:48 | `split(',')[1]` is undefined exactly when there is no comma, and otherwise contains no comma |
| Media.DataUrlPayloadOfDataUrl | App.tsx:48 | a data URL `header,data` gives back exactly its data |
| Media.SampleTimes | App.tsx:100-115 | the seek schedule of the sampler; stated by `Media.SampleTimesCount`, `SampleTimesOrdered` and `SampleTimesWithin` |
| Media.SampledFrames | App.tsx:108-111 | the frames at the seek schedule; stated by `Media.SampledFramesAt` and `Media.ExtractVideoFrames` |
| Media.SampleTimesCount | App.tsx:96-115 | no samples for a non-positive duration; exactly `frameCount` samples for a positive duration and count; one sample at 0 for a zero count |
| Media.SampleTimesOrdered | App.tsx:101-115 | sampling starts at 0 and rises strictly, staying below the duration |
| Media.SampleTimesWithin | App.tsx:113-115 | every seek position lies in `[0, duration)` |
| Media.StepsWithin | App.tsx:100-115 | k steps of `duration / n` stay within the duration, and strictly so before the n-th step |
| Media.SampledFramesAt | App.tsx:100-113 | frame k is the frame at k/frameCount of the duration |
| Media.ExtractVideoFrames | App.tsx:92-127 | the capture loop seeks exactly the closed-form schedule and returns the frame at each position, in order |
| GeminiService.ImageParts | services/geminiService.ts:17-22 | one inline JPEG part per frame, in frame order |
| GeminiService.AnalysisRequest | services/geminiService.ts:24-30 | the analysis model at temperature 0.1; the instruction part, then the frames in order |
| GeminiService.StripQuotes | services/geminiService.ts:34-36 | drops one enclosing pair of quotes; stated by `GeminiService.StripQuotesQuoted` and `CleanDescriptionLoneQuote` |
| GeminiService.CleanDescription | services/geminiService.ts:32-36 | trim, then strip one pair of quotes; stated by `GeminiService.CleanDescriptionQuoted` and `CleanDescriptionUnquoted` |
| GeminiService.AnalyzeVideoAnimation | services/geminiService.ts:3-39 | with no key (unset or empty), the configuration error before any request; otherwise it fails exactly when the model call fails, with that call's error, and succeeds with the cleaned reply |
| GeminiService.AnalysisUnquotesReply | services/geminiService.ts:24-38 | a reply that is one quoted sentence padded with white space comes back as the bare sentence |
| GeminiService.CleanDescriptionQuoted | services/geminiService.ts:32-36 | cleaning drops the surrounding white space and exactly one pair of quotes, and keeps the quoted text unchanged |
| GeminiService.StripQuotesQuoted | services/geminiService.ts:34-36 | exactly one enclosing pair of quotes is removed |
| GeminiService.CleanDescriptionUnquoted | services/geminiService.ts:32-36 | a reply not wrapped in quotes after trimming is only trimmed, and cleaning it again changes nothing |
| GeminiService.CleanDescriptionLoneQuote | services/geminiService.ts:32-35 | every reply that trims to a lone `"` is cleaned to that quote, because `substring(1, 0)` swaps its indices |
| GeminiService.PollUntilDone | services/geminiService.ts:71-79 | the reference polling; stated by `GeminiService.PollUntilDoneDone` and `PollUntilDoneCount`, and implemented by `AwaitOperation` |
| GeminiService.PollUntilDoneDone | services/geminiService.ts:71 | a job that is done at submission is never polled |
| GeminiService.PollUntilDoneCount | services/geminiService.ts:71-79 | a running job is polled up to and including the first reply that is done or throws; a throwing reply aborts |
| GeminiService.AwaitOperation | services/geminiService.ts:71-79 | the polling loop ends as the reference polling says, with the same count |
| GeminiService.DownloadVideo | services/geminiService.ts:81-101 | the download step behaves as the reference definition (`AfterPolling`) |
| GeminiService.GenerateVideo | services/geminiService.ts:41-102 | with no key, the configuration error before any request; otherwise the method's result and trace equal the reference generation |
| GeminiService.GenerationRun | services/geminiService.ts:41-102 | the reference generation; stated by the `GeminiService.Generation…` lemmas below |
| GeminiService.AfterPolling | services/geminiService.ts:81-101 | the reference download step; stated by `GeminiService.AfterPollingReports`, `AfterPollingKeepsCount`, `GenerationDownload` (the fetched URL is the done job's `videoUri` with `&key=` and the key) and `GenerationNoUri` |
| GeminiService.StageMessagesDistinct | services/geminiService.ts:53-99 | the four progress messages are pairwise different |
| GeminiService.GenerationReportsInOrder | services/geminiService.ts:53-99 | progress is reported as a prefix of generating, rendering, downloading, ready; a returned video saw all four |
| GeminiService.AfterPollingReports | services/geminiService.ts:81-99 | after polling, at most the downloading and ready reports follow; a success reports both |
| GeminiService.GenerationSubmitsCommand | services/geminiService.ts:55-67 | the submission is the second event and carries the video model, the fixed prefix plus the command, the image as JPEG, one video at `720p`, and the requested shape as its label `16:9` or `9:16` |
| GeminiService.GenerationDoneAtOnce | services/geminiService.ts:71 | a job done at submission produces no poll |
| GeminiService.GenerationPollCount | services/geminiService.ts:71-79 | a running job is polled j+1 times for the first stopping reply j; the status error arises exactly when that reply threw, and that poll is the last event |
| GeminiService.AfterPollingKeepsCount | services/geminiService.ts:81-101 | the download step adds no poll and never fails with the status error |
| GeminiService.GenerationDownload | services/geminiService.ts:81-101 | a returned video is the object URL of a successful fetch of the non-empty `videoUri` of the operation that ended the polling, with `&key=` and the key appended; a failed response fails with its HTTP status, and a rejected fetch or body read with its own error |
| GeminiService.GenerationSubmitRejected | services/geminiService.ts:55-67 | a rejected submission ends the generation with the SDK's own error, after the first report and the submission, with nothing polled or fetched |
| GeminiService.GenerationNoUri | services/geminiService.ts:81-85 | a finished job without a video URI, or with an empty one, fails with the no-URI error, and nothing is fetched |
| GeminiService.DownloadFailedNamesStatus | services/geminiService.ts:93 | the download error message contains the status code |
| App.ClassifyRejectedKey | App.tsx:197-199 | any remote error whose text contains the marker is classified as a rejected key, with the select-a-new-key message |
| App.NoMarkerWithoutQ | App.tsx:197 | a text without the letter `q` cannot contain the marker |
| App.OwnMessagesHaveNoQ | App.tsx:184-189 | none of the program's own error messages contains a `q` |
| App.ClassifyOwnFailures | App.tsx:197-202 | the program's own errors never reject the key; they are shown with the prefix |
| App.ClassifyError | App.tsx:197-202 | the `catch` classification; stated by `App.ClassifyRejectedKey` and `App.ClassifyOwnFailures` |
| App.PipelineNoFrames | App.tsx:182-185 | a non-positive duration yields no frames, and the run stops with the extraction error before any analysis |
| App.PipelineMetadataFailed | App.tsx:128 | a metadata failure ends the run with its error before any analysis, and it is shown with the prefix without dropping the key |
| App.PipelineAnalysesTenFrames | App.tsx:182-186 | a playable video is analysed on exactly ten frames, sampled by the sampler |
| App.AnalysisStageShape | App.tsx:186-194 | analysis comes first; generation follows exactly when the command is non-empty, and uses that command; a video comes back only after the ready report |
| App.PipelineOrder | App.tsx:180-194 | extraction, then analysis of non-empty frames, then generation only at the third step and only with the analysis's non-empty command |
| App.PipelineRunAfterSampling | App.tsx:182-194 | once frames are in hand, the run is extraction followed by the analysis stage |
| App.PipelineSuccess | App.tsx:180-194 | a video comes back only from a run that went through all three stages |
| App.PipelineSuccessReportsReady | App.tsx:193-194 | a run that returns a video last showed the ready message |
| App.RunPipeline | App.tsx:180-194 | the `try` block gives the outcome, calls and notices of the reference pipeline |
| App.AnalyzeThenGenerate | App.tsx:186-194 | the steps after sampling give the outcome, calls and notices of the reference analysis stage |
| App.PipelineRun | App.tsx:180-194 | the reference `try` block; stated by the `App.Pipeline…` lemmas and implemented by `App.RunPipeline` |
| App.AnalysisStage | App.tsx:186-194 | the reference pipeline after sampling; stated by `App.AnalysisStageShape` and implemented by `App.AnalyzeThenGenerate` |
| App.KeyAfterCheck | App.tsx:26-31 | the key flag after `checkApiKey`; used by `App.Session.CheckApiKey` and `HandleGenerate` |
| App.EmptyDataUrlHasNoPayload | App.tsx:48 | an empty file reads as a data URL with an empty payload, which does not count as content |
| App.Session.constructor | App.tsx:11-24 | the initial state: no content, landscape, no reference video, idle, no message, no result, no error, no key |
| App.Session.CheckApiKey | App.tsx:26-31 | the key flag becomes the provider's answer, and is unchanged without a provider |
| App.Session.HandleSelectKey | App.tsx:209-215 | with a provider, the key is assumed selected and the error cleared; without one, nothing changes |
| App.Session.HandleContentUpload | App.tsx:37-71 | clears the result and the error; keeps the data-URL payload and the shape of the image or captured frame; a video without a captured frame leaves both as they were |
| App.Session.HandleReferenceVideoUpload | App.tsx:73-77 | the reference video is the uploaded one |
| App.Session.HandleGenerate | App.tsx:164-207 | no-op without content (no payload or an empty one) or reference video, or while busy. Without a key: the select-key error, the dialog opened when there is a provider, no service call. Otherwise: the reference pipeline's calls and notices, then the cleared message and an idle session. A success records the video; a failure records the classified message and drops the key flag exactly on a rejected key |
| VideoUploader.AcceptedTypes | components/VideoUploader.tsx:25 | one entry per comma-separated piece of `accept` |
| VideoUploader.TrimAll | components/VideoUploader.tsx:25 | entry k is the trim of piece k, and there are as many entries as pieces |
| VideoUploader.AnyMatchesSome | components/VideoUploader.tsx:27-33 | `some` holds exactly when one entry matches |
| VideoUploader.EntryIgnoresSpaces | components/VideoUploader.tsx:25-28 | white space in an entry, and its trimming, make no difference to a match |
| VideoUploader.WildcardEntry | components/VideoUploader.tsx:29-30 | `major/*` matches exactly the types that start with `major/` |
| VideoUploader.ExactEntry | components/VideoUploader.tsx:32 | any other entry matches only the type equal to it |
| VideoUploader.AcceptedByEntries | components/VideoUploader.tsx:25-33 | a list of entries joined by commas accepts a type exactly when one of its entries matches it |
| VideoUploader.DefaultAcceptsVideo | components/VideoUploader.tsx:10 | the default list accepts exactly the types starting with `video/` |
| VideoUploader.DefaultAcceptExamples | components/VideoUploader.tsx:10 | the default list takes `video/mp4` and refuses `videos` |
| VideoUploader.DropForwardsAccepted | components/VideoUploader.tsx:19-39 | a drop forwards the first file exactly when it is accepted, and only that file; with the default list, exactly a first file of a `video/` type |
| VideoUploader.FileChangeForwardsFirst | components/VideoUploader.tsx:13-17 | the file dialog forwards the first chosen file, and nothing when none was chosen |
| VideoUploader.EntryMatches | components/VideoUploader.tsx:28-32 | one entry against a file type; stated by `VideoUploader.WildcardEntry`, `ExactEntry` and `EntryIgnoresSpaces` |
| VideoUploader.IsAccepted | components/VideoUploader.tsx:25-33 | the acceptance test; stated by `VideoUploader.AcceptedByEntries` and `DefaultAcceptsVideo` |
| VideoUploader.HandleDrop | components/VideoUploader.tsx:19-39 | the drop handler; stated by `VideoUploader.DropForwardsAccepted` |
| VideoUploader.HandleFileChange | components/VideoUploader.tsx:13-17 | the dialog handler; stated by `VideoUploader.FileChangeForwardsFirst` |
| VideoUploader.UploaderId | components/VideoUploader.tsx:58 | the input id; stated by `VideoUploader.UploaderIdShape` and `UploaderIdJoinsWords` |
| VideoUploader.UploaderIdShape | components/VideoUploader.tsx:58 | the input id has no white space; a title without white space is used as it is |
| VideoUploader.UploaderIdJoinsWords | components/VideoUploader.tsx:58 | each run of white space in the title becomes a single `-` |
| Loader.NextIndex | components/Loader.tsx:28 | the next index is in range; it advances by one, and wraps from the last position to 0 |
| Loader.NextIn | components/Loader.tsx:26-29 | a tick always shows an entry of the list |
| Loader.NextMessage | components/Loader.tsx:26-29 | a tick shows one of the seven messages; after a message from outside the list it restarts at the first |
| Loader.MessagesDistinct | components/Loader.tsx:4-12 | seven pairwise different messages, each found at its own position |
| Loader.NextInFollows | components/Loader.tsx:27-28 | in a list without repetitions, a tick moves to the next index |
| Loader.NextMessageFollows | components/Loader.tsx:26-29 | a tick from message i shows message (i + 1) mod 7 |
| Loader.NextMessageWraps | components/Loader.tsx:28 | a tick from the last message shows the first |
| Loader.AfterTicksInRotates | components/Loader.tsx:25-31 | n ticks from an entry follow n steps of the next-index rule |
| Loader.IndexAfterTicksModulo | components/Loader.tsx:28 | n steps from position i over seven positions land on (i + n) mod 7 |
| Loader.RotationAdvances | components/Loader.tsx:25-31 | n ticks from message i show message (i + n) mod 7 |
| Loader.RotationCycles | components/Loader.tsx:25-31 | seven ticks bring any message of the list back |
| Loader.Panel.constructor | components/Loader.tsx:19-24 | mounting shows a given message and does not rotate; with none, it shows the first stock message and rotates |
| Loader.Panel.SetMessage | components/Loader.tsx:21-34 | a non-empty message is shown as given and stops the rotation; an empty one keeps the screen and starts it |
| Loader.Panel.Tick | components/Loader.tsx:25-31 | while rotating, a tick shows the next message of the rotation; otherwise nothing changes |

## Left out

- The browser media pipeline is replaced by inputs. This covers video
  elements, canvases, JPEG encoding and object URLs.
  - A reference video is a duration, absent when metadata fails to load, plus
    the encoded frame at each time.
  - An uploaded picture is a data URL with its pixel size.
  - The first-frame capture of a video upload is an optional still.
- The "Failed to get canvas context" rejection of both capture helpers is not
  modelled, because a drawing context is always taken to exist.
- A rejected `video.play()` in the frame sampler is not modelled. In the
  source it rejects the sampling promise, and the `catch` of `handleGenerate`
  shows it with the "An error occurred: " prefix. The model's reference video
  either fails to load its metadata or plays.
- The first-frame capture of a video upload is modelled only when it returns a
  frame or none. Its rejections (a failed `play()`, "Failed to load video.")
  escape the upload handler as unhandled promise rejections, after the result
  and error have been cleared.
- Media.SampleTimes: uses exact real arithmetic, so the floating-point
  rounding of the accumulated `currentTime` is not modelled.
- Media.AspectOf: uses exact real arithmetic for `width / height`.
- App.Session.HandleContentUpload: the caller says whether the upload is an
  image or a video, so the `file.type.startsWith('image/')` test is not
  modelled. An image always arrives with its pixel size: an image that fails
  to decode, whose `onload` never fires and whose shape therefore stays as it
  was, is not modelled.
- The remote SDK, `fetch`, timers and `console.error` are replaced by
  scripted inputs or dropped.
  - The 10-second wait between polls is not modelled.
  - The 3-second rotation interval becomes explicit `Tick` calls.
  - The response body read for logging a failed download is not modelled.
  - A download whose `fetch` or body read rejects is scripted as
    `Download.Rejected`, and fails with that error unchanged (`Remote`).
  - The SDK's answer `response.text` is taken to be a string. A missing text,
    which would make `trim` throw, is not modelled.
- GeminiService.GenerationRun: only services that settle are modelled, because
  the source polls without bound. Settling means the job is done at submission,
  or some scripted poll reply is done or throws.
- App.Session.HandleGenerate: reads the key flag as `checkApiKey` just set it.
  In the component, the callback still sees the value from its last render (a
  stale closure of React state), so a fresh answer only takes effect on the
  next click.
- App.Session.HandleGenerate: runs to completion before any other handler runs.
  In the source the busy flag is only set after `await checkApiKey()`, so a
  second click during that await passes the guard and starts a second run.
  The model does not capture such overlapping runs or any other interleaving
  between awaits.
- App.Session.HandleGenerate and App.RunPipeline: require on every path that
  the scripted video service settles, including paths that never reach the
  video service. This restricts only the scripted service, not the page's
  inputs.
- Presentational state and components are not part of this model:
  - the content file, its object URL and content type;
  - the reference video URL;
  - the drag highlight of the drop zone, and `preventDefault`/`stopPropagation`;
  - the header, the video display grid, the key selector card and the Loader's
    markup.
- The helper that turns a blob into a data URL (`utils/blobToBase64`) is not
  part of this model. Its output is taken to be a data URL.
- The analysis instruction is carried by name (`Instruction.MotionAnalysis`),
  and its text is spelled out in `Instruction.Text`. Proofs never need the
  words, only that the instruction is the first part.
