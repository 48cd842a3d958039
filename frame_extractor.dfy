/** The frame sampler of the OCR pipeline
    (`engine/transcript_service/ocr_service/frame_extractor.py`): a video is
    read frame by frame and every `interval`-th frame is kept with its
    timestamp in seconds. The decoded video is a parameter: whether the file
    exists, whether it opens, the frame rate it reports and the frames that
    successive reads return. */
module FrameExtractor {

  /** A kept frame: `(timestamp, frame)`. */
  datatype Sample<T> = Sample(timestamp: real, image: T)

  /** The two errors `extract_frames` raises before reading. */
  datatype Failure = FileNotFound | CannotOpen

  /** A call that raised, or its result. */
  datatype Outcome<R> = Raised(failure: Failure) | Done(value: R)

  /** The video as the capture sees it. */
  datatype Video<T> = Video(exists_: bool, opens: bool, reportedFps: real, images: seq<T>)

  const DefaultFps := 30.0

  /** A non-positive reported frame rate is replaced by 30. */
  function Fps(reported: real): (r: real)
    ensures r > 0.0
    ensures reported > 0.0 ==> r == reported
  {
    if reported <= 0.0 then DefaultFps else reported
  }

  /** Python's `int(x)` on a float: truncation toward zero. */
  function Trunc(x: real): (r: int)
    ensures x >= 0.0 ==> r as real <= x < r as real + 1.0
    ensures x < 0.0 ==> r as real - 1.0 < x <= r as real
  {
    if x >= 0.0 then x.Floor else -((-x).Floor)
  }

  /** `int(fps * sample_rate)`, replaced by 1 when it is 0. */
  function Interval(fps: real, sampleRate: int): (r: int)
    requires fps > 0.0
    ensures r != 0
    ensures sampleRate >= 0 ==> r >= 1
    ensures fps * sampleRate as real >= 1.0 ==> r == Trunc(fps * sampleRate as real)
  {
    var t := Trunc(fps * sampleRate as real);
    if t == 0 then 1 else t
  }

  /** The indices among the first `n` frames that the interval test keeps.
      Python's `k % interval == 0` and Dafny's agree for a negative interval
      too: both hold exactly when `interval` divides `k`. */
  function Picked(n: nat, interval: int): (r: seq<nat>)
    requires interval != 0
    ensures |r| <= n
  {
    if n == 0 then []
    else Picked(n - 1, interval) + (if (n - 1) % interval == 0 then [n - 1] else [])
  }

  /** The frames kept from `images`, in stream order. */
  function Sampled<T>(images: seq<T>, fps: real, interval: int): (r: seq<Sample<T>>)
    requires fps > 0.0 && interval != 0
    ensures |r| == |Picked(|images|, interval)|
  {
    if images == [] then []
    else
      var n := |images| - 1;
      Sampled(images[..n], fps, interval)
      + (if n % interval == 0 then [Sample(n as real / fps, images[n])] else [])
  }

  /** The outcome `extract_frames` leads to for a video. */
  function Extract<T>(v: Video<T>, sampleRate: int): Outcome<seq<Sample<T>>> {
    if !v.exists_ then Raised(FileNotFound)
    else if !v.opens then Raised(CannotOpen)
    else
      var fps := Fps(v.reportedFps);
      Done(Sampled(v.images, fps, Interval(fps, sampleRate)))
  }

  /** `extract_frames(video_path)`, with the generator's yields collected. */
  method ExtractFrames<T>(v: Video<T>, sampleRate: int) returns (r: Outcome<seq<Sample<T>>>)
    ensures r == Extract(v, sampleRate)
  {
    if !v.exists_ {
      return Raised(FileNotFound);
    }
    if !v.opens {
      return Raised(CannotOpen);
    }
    var fps := Fps(v.reportedFps);
    var interval := Interval(fps, sampleRate);
    var samples := ReadLoop(v.images, fps, interval);
    return Done(samples);
  }

  /** The `while True` read loop: every frame whose index the interval
      divides is yielded with its timestamp. */
  method ReadLoop<T>(images: seq<T>, fps: real, interval: int) returns (samples: seq<Sample<T>>)
    requires fps > 0.0 && interval != 0
    ensures samples == Sampled(images, fps, interval)
  {
    samples := [];
    var frameCount := 0;
    var extractedCount := 0;
    while frameCount < |images|
      invariant frameCount <= |images|
      invariant samples == Sampled(images[..frameCount], fps, interval)
      invariant extractedCount == |samples|
    {
      assert images[..frameCount + 1][..frameCount] == images[..frameCount];
      var frame := images[frameCount];
      if frameCount % interval == 0 {
        samples := samples + [Sample(frameCount as real / fps, frame)];
        extractedCount := extractedCount + 1;
      }
      frameCount := frameCount + 1;
    }
    assert images[..frameCount] == images;
  }

  /** `extract_to_dir`: the number of frames written, or the error the
      extraction raised. */
  method ExtractToDir<T>(v: Video<T>, sampleRate: int) returns (r: Outcome<nat>)
    ensures Extract(v, sampleRate).Raised? ==> r == Raised(Extract(v, sampleRate).failure)
    ensures Extract(v, sampleRate).Done? ==> r == Done(|Extract(v, sampleRate).value|)
  {
    var frames := ExtractFrames(v, sampleRate);
    if frames.Raised? {
      return Raised(frames.failure);
    }
    var count := 0;
    for k := 0 to |frames.value|
      invariant count == k
    {
      count := count + 1;
    }
    return Done(count);
  }

  /** A frame index is kept exactly when it is below the frame count and
      the interval divides it. */
  lemma {:induction false} PickedIff(n: nat, interval: int, k: nat)
    requires interval != 0
    ensures k in Picked(n, interval) <==> k < n && k % interval == 0
  {
    if n > 0 {
      PickedIff(n - 1, interval, k);
    }
  }

  /** Kept indices are below the frame count and strictly increasing. */
  lemma {:induction false} PickedIncreasing(n: nat, interval: int)
    requires interval != 0
    ensures forall j :: 0 <= j < |Picked(n, interval)| ==> Picked(n, interval)[j] < n
    ensures forall i, j :: 0 <= i < j < |Picked(n, interval)| ==> Picked(n, interval)[i] < Picked(n, interval)[j]
  {
    if n > 0 {
      PickedIncreasing(n - 1, interval);
    }
  }

  /** The first frame is always kept. */
  lemma {:induction false} PickedFirst(n: nat, interval: int)
    requires interval != 0 && n > 0
    ensures |Picked(n, interval)| > 0 && Picked(n, interval)[0] == 0
  {
    if n > 1 {
      PickedFirst(n - 1, interval);
    }
  }

  /** The `j`-th yielded pair is frame `Picked[j]` of the stream, stamped
      with its index divided by the frame rate. */
  lemma {:induction false} SampledAt<T>(images: seq<T>, fps: real, interval: int)
    requires fps > 0.0 && interval != 0
    ensures var p := Picked(|images|, interval);
            forall j :: 0 <= j < |p| ==>
              p[j] < |images| && Sampled(images, fps, interval)[j] == Sample(p[j] as real / fps, images[p[j]])
  {
    PickedIncreasing(|images|, interval);
    if images != [] {
      var n := |images| - 1;
      var init := images[..n];
      SampledAt(init, fps, interval);
      var p := Picked(|images|, interval);
      var s := Sampled(images, fps, interval);
      forall j | 0 <= j < |p|
        ensures s[j] == Sample(p[j] as real / fps, images[p[j]])
      {
        if j < |Picked(n, interval)| {
          assert p[j] == Picked(n, interval)[j];
          assert s[j] == Sampled(init, fps, interval)[j];
          assert images[p[j]] == init[p[j]];
        }
      }
    }
  }

  lemma DivideMonotone(a: real, b: real, fps: real)
    requires fps > 0.0 && a < b
    ensures a / fps < b / fps
  {
    assert (b - a) / fps > 0.0;
    assert b / fps - a / fps == (b - a) / fps;
  }

  /** The yielded timestamps are strictly increasing, and the first frame
      of a non-empty stream is yielded first with timestamp 0. */
  lemma SampledOrdered<T>(images: seq<T>, fps: real, interval: int)
    requires fps > 0.0 && interval != 0
    ensures var s := Sampled(images, fps, interval);
            forall i, j :: 0 <= i < j < |s| ==> s[i].timestamp < s[j].timestamp
    ensures images != [] ==>
              |Sampled(images, fps, interval)| > 0 && Sampled(images, fps, interval)[0] == Sample(0.0, images[0])
  {
    var s := Sampled(images, fps, interval);
    var p := Picked(|images|, interval);
    SampledAt(images, fps, interval);
    PickedIncreasing(|images|, interval);
    forall i, j | 0 <= i < j < |s|
      ensures s[i].timestamp < s[j].timestamp
    {
      DivideMonotone(p[i] as real, p[j] as real, fps);
    }
    if images != [] {
      PickedFirst(|images|, interval);
    }
  }

  /** With the sample rate the OCR service uses (2 seconds) and a 30 fps
      video, every 60th frame is kept. */
  lemma ServiceInterval()
    ensures Interval(Fps(30.0), 2) == 60
    ensures Interval(Fps(0.0), 2) == 60
  {
  }
}
