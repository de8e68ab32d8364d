/**
 * The media arithmetic of App.tsx: the aspect-ratio class of an uploaded
 * image, the payload half of a data URL, and the seek schedule of the frame
 * sampler that feeds the motion analysis.  The browser's decoders, canvases
 * and JPEG encoder are replaced by abstract inputs: a duration, pixel sizes,
 * and a function from a seek position to the encoded frame captured there.
 */
module Media {
  import opened Wrappers
  import opened Strings

  /** The two output shapes the generator is asked for; `Label` is the string the
      request carries. */
  datatype AspectRatio = Landscape | Portrait
  {
    function Label(): string
    {
      if Landscape? then "16:9" else "9:16"
    }
  }

  /** `img.width / img.height >= 1 ? '16:9' : '9:16'`.  A zero height makes the
      quotient Infinity (wide) or, for 0/0, NaN, which fails every comparison (tall). */
  function AspectOf(width: nat, height: nat): (a: AspectRatio)
    ensures height > 0 ==> (a == Landscape <==> width >= height)
    ensures height == 0 ==> (a == Landscape <==> width > 0)
  {
    if height == 0 then (if width > 0 then Landscape else Portrait)
    else if width as real / height as real >= 1.0 then Landscape else Portrait
  }

  /** `dataUrl.split(',')[1]`: the piece after the first comma, up to a second
      comma if there is one; JavaScript's `undefined` when there is no comma. */
  function DataUrlPayload(dataUrl: string): (payload: Option<string>)
    ensures payload.None? <==> ',' !in dataUrl
    ensures payload.Some? ==> ',' !in payload.value
  {
    SplitPieces(dataUrl, ',');
    var parts := Split(dataUrl, ',');
    if |parts| >= 2 then Some(parts[1]) else None
  }

  /** A data URL `data:<media type>;base64,<data>` (section 3 of RFC 2397) gives
      back exactly its data part. */
  lemma DataUrlPayloadOfDataUrl(header: string, data: string)
    requires ',' !in header && ',' !in data
    ensures DataUrlPayload(header + "," + data) == Some(data)
  {
    SplitAppend(header, data, ',');
    assert IndexOf(header, ',') == -1 && IndexOf(data, ',') == -1;
    assert Split(header, ',') == [header] && Split(data, ',') == [data];
  }

  // ---------------------------------------------------------------- frame sampling

  /** How many frames the sampler captures: none for a non-positive duration,
      otherwise `frameCount`, except that a count of zero still captures the
      frame at time 0 because the count is only tested after a capture. */
  function SampleCount(duration: real, frameCount: nat): nat
  {
    if duration <= 0.0 then 0 else if frameCount == 0 then 1 else frameCount
  }

  /** `duration / frameCount`.  For a zero count JavaScript gives Infinity; the
      sampler then stops after its first capture, so the step is never used and
      0 stands in for it. */
  function Step(duration: real, frameCount: nat): real
  {
    if frameCount == 0 then 0.0 else duration / frameCount as real
  }

  /** The seek positions of the sampler in the order it visits them:
      0, interval, 2·interval, … */
  function SampleTimes(duration: real, frameCount: nat): seq<real>
  {
    seq(SampleCount(duration, frameCount), k => k as real * Step(duration, frameCount))
  }

  /** The encoded frames at the sample times, in capture order. */
  function SampledFrames(duration: real, frameCount: nat, frameAt: real -> string): seq<string>
  {
    var times := SampleTimes(duration, frameCount);
    seq(|times|, k requires 0 <= k < |times| => frameAt(times[k]))
  }

  /** For a positive duration and count, frame `k` is the one at `k / frameCount`
      of the duration. */
  lemma SampledFramesAt(duration: real, frameCount: nat, frameAt: real -> string)
    requires duration > 0.0 && frameCount >= 1
    ensures var frames := SampledFrames(duration, frameCount, frameAt);
      && |frames| == frameCount
      && forall k :: 0 <= k < frameCount ==>
           frames[k] == frameAt(k as real * (duration / frameCount as real))
  {
    var times := SampleTimes(duration, frameCount);
    assert |times| == frameCount;
    assert forall k :: 0 <= k < frameCount ==> times[k] == k as real * (duration / frameCount as real);
  }

  /** `k` steps of `duration / n` stay within the duration, strictly so before the n-th. */
  lemma StepsWithin(k: nat, n: nat, duration: real)
    requires 0 < n && 0.0 < duration
    ensures k <= n ==> k as real * (duration / n as real) <= duration
    ensures k < n ==> k as real * (duration / n as real) < duration
  {
    var step := duration / n as real;
    assert step * n as real == duration;
    assert 0.0 < step;
    if k <= n {
      assert k as real * step <= n as real * step;
    }
    if k < n {
      assert k as real * step < n as real * step;
    }
  }

  /** A positive duration and count give exactly `frameCount` samples; a
      non-positive duration gives none, which is not an error. */
  lemma SampleTimesCount(duration: real, frameCount: nat)
    ensures duration <= 0.0 ==> SampleTimes(duration, frameCount) == []
    ensures duration > 0.0 && frameCount >= 1 ==> |SampleTimes(duration, frameCount)| == frameCount
    ensures duration > 0.0 && frameCount == 0 ==> SampleTimes(duration, frameCount) == [0.0]
  {
  }

  /** The samples start at 0, rise strictly, and stay below the duration. */
  lemma {:induction false} SampleTimesOrdered(duration: real, frameCount: nat, i: nat, j: nat)
    requires i < j < |SampleTimes(duration, frameCount)|
    ensures SampleTimes(duration, frameCount)[0] == 0.0
    ensures 0.0 <= SampleTimes(duration, frameCount)[i] < SampleTimes(duration, frameCount)[j] < duration
  {
    var times := SampleTimes(duration, frameCount);
    var step := Step(duration, frameCount);
    assert frameCount >= 2;
    assert step == duration / frameCount as real && 0.0 < step;
    assert times[i] == i as real * step && times[j] == j as real * step;
    assert i as real * step < j as real * step;
    StepsWithin(j, frameCount, duration);
  }

  /** Every sample lies in `[0, duration)`. */
  lemma SampleTimesWithin(duration: real, frameCount: nat, k: nat)
    requires k < |SampleTimes(duration, frameCount)|
    ensures 0.0 <= SampleTimes(duration, frameCount)[k] < duration
  {
    if frameCount > 0 {
      StepsWithin(k, frameCount, duration);
    }
  }

  /**
   * `extractVideoFrames`: seek to 0, interval, 2·interval, …; after each seek
   * capture and encode the frame, count it, advance the time, and stop once
   * `frameCount` frames are captured or the next time passes the duration.
   * `frameAt(t)` is the encoded payload of the frame shown at time `t`;
   * `times` are the seek positions in the order they were issued.
   */
  method ExtractVideoFrames(duration: real, frameCount: nat, frameAt: real -> string)
    returns (frames: seq<string>, times: seq<real>)
    ensures times == SampleTimes(duration, frameCount)
    ensures |frames| == |times|
    ensures forall k :: 0 <= k < |times| ==> frames[k] == frameAt(times[k])
    ensures frames == SampledFrames(duration, frameCount, frameAt)
  {
    frames, times := [], [];
    if duration <= 0.0 {
      return;
    }
    var interval := Step(duration, frameCount);
    ghost var total := SampleCount(duration, frameCount);
    ghost var schedule := SampleTimes(duration, frameCount);
    var currentTime := 0.0;
    var capturedFrames := 0;
    var finished := false;
    while !finished
      invariant 0 <= capturedFrames <= total
      invariant finished <==> capturedFrames == total
      invariant currentTime == capturedFrames as real * interval
      invariant times == schedule[..capturedFrames]
      invariant |frames| == capturedFrames
      invariant forall k :: 0 <= k < capturedFrames ==> frames[k] == frameAt(times[k])
      decreases total - capturedFrames
    {
      // the seek to `currentTime` completes; the frame shown there is captured
      assert schedule[capturedFrames] == currentTime;
      assert schedule[..capturedFrames + 1] == schedule[..capturedFrames] + [currentTime];
      times := times + [currentTime];
      frames := frames + [frameAt(currentTime)];
      capturedFrames := capturedFrames + 1;
      currentTime := currentTime + interval;
      if frameCount > 0 {
        StepsWithin(capturedFrames, frameCount, duration);
      }
      if capturedFrames >= frameCount || currentTime > duration {
        finished := true;
      }
    }
  }
}
