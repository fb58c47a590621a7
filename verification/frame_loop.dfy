/**
 * The frame-loop bookkeeping shared by the three front-ends (app.py,
 * advanced_app.py, modern_app.py): camera reads, the success counter, the
 * skip stride that decides which frames reach the detector, and the
 * sidebar's choice of detector configuration.
 */
module FrameLoop {
  import opened Outcomes
  import Text
  import EmotionDetection

  /** The outcome of one `cap.read()`. */
  datatype CameraRead = ReadFailed | Captured(frame: EmotionDetection.Frame)

  /** The frames of the successful reads, in order; `frame_count` is their number. */
  function SuccessFrames(attempts: seq<CameraRead>): (frames: seq<EmotionDetection.Frame>)
    ensures |frames| <= |attempts|
  {
    if attempts == [] then []
    else
      var init := SuccessFrames(attempts[..|attempts| - 1]);
      match attempts[|attempts| - 1]
      case ReadFailed => init
      case Captured(f) => init + [f]
  }

  /**
   * The frames handed to `detector.detect` by a loop that counts successful
   * reads and classifies a frame when `frame_count % skip == 0`, defined
   * read by read as the loop runs.
   */
  function ClassifiedFrames(attempts: seq<CameraRead>, skip: int): (frames: seq<EmotionDetection.Frame>)
    requires skip >= 1
  {
    if attempts == [] then []
    else
      var init := attempts[..|attempts| - 1];
      match attempts[|attempts| - 1]
      case ReadFailed => ClassifiedFrames(init, skip)
      case Captured(f) =>
        if (|SuccessFrames(init)| + 1) % skip == 0 then ClassifiedFrames(init, skip) + [f]
        else ClassifiedFrames(init, skip)
  }

  lemma MulMono(a: int, b: int, k: int)
    requires a <= b && k >= 0
    ensures a * k <= b * k
  {
    assert b * k - a * k == (b - a) * k;
  }

  /** The 0-based position of the (i+1)-th multiple of `k` among `n` elements. */
  function StridePos(i: nat, k: int, n: nat): (p: nat)
    requires k >= 1 && i < n / k
    ensures p < n
  {
    MulMono(i + 1, n / k, k);
    (i + 1) * k - 1
  }

  /** Every `k`-th element of `s`: the elements at 1-based positions k, 2k, 3k, ... */
  function Strided<T>(s: seq<T>, k: int): (r: seq<T>)
    requires k >= 1
    ensures |r| == |s| / k
    ensures forall i :: 0 <= i < |r| ==> r[i] == s[StridePos(i, k, |s|)]
  {
    seq(|s| / k, i requires 0 <= i < |s| / k => s[StridePos(i, k, |s|)])
  }

  /** How `n / k` and `n % k` move when `n` grows by one. */
  lemma DivStep(n: nat, k: int)
    requires k >= 1
    ensures (n + 1) % k == 0 ==> (n + 1) / k == n / k + 1 && (n / k + 1) * k - 1 == n
    ensures (n + 1) % k != 0 ==> (n + 1) / k == n / k
  {
    var q, r := n / k, n % k;
    assert n == q * k + r && 0 <= r < k;
    if r + 1 == k {
      assert n + 1 == (q + 1) * k;
      DivUnique(n + 1, k, q + 1, 0);
    } else {
      assert n + 1 == q * k + (r + 1);
      DivUnique(n + 1, k, q, r + 1);
    }
  }

  /** Division and remainder are determined by `n == q * k + r` with `0 <= r < k`. */
  lemma DivUnique(n: int, k: int, q: int, r: int)
    requires k >= 1 && n == q * k + r && 0 <= r < k
    ensures n / k == q && n % k == r
  {
    var q', r' := n / k, n % k;
    assert n == q' * k + r' && 0 <= r' < k;
    assert (q + 1) * k == q * k + k && (q' + 1) * k == q' * k + k;
    if q' > q {
      MulMono(q + 1, q', k);
      assert false;
    } else if q' < q {
      MulMono(q' + 1, q, k);
      assert false;
    }
  }

  lemma StridedSnoc<T>(s: seq<T>, x: T, k: int)
    requires k >= 1
    ensures Strided(s + [x], k) == Strided(s, k) + (if (|s| + 1) % k == 0 then [x] else [])
  {
    var n := |s|;
    DivStep(n, k);
    var a, b := Strided(s + [x], k), Strided(s, k) + (if (n + 1) % k == 0 then [x] else []);
    assert |a| == |b|;
    forall i | 0 <= i < |a| ensures a[i] == b[i] {
      if i < |Strided(s, k)| {
        assert StridePos(i, k, n + 1) == StridePos(i, k, n);
      } else {
        assert StridePos(i, k, n + 1) == n;
      }
    }
  }

  /**
   * After the reads, the detector has seen exactly the successful frames
   * whose 1-based count is a multiple of `skip`: the i-th classified frame
   * is the ((i+1)*skip)-th successful read, and there are
   * `successes / skip` of them. Failed reads do not advance the count.
   */
  lemma {:induction false} ClassifiedIsStrided(attempts: seq<CameraRead>, skip: int)
    requires skip >= 1
    ensures ClassifiedFrames(attempts, skip) == Strided(SuccessFrames(attempts), skip)
    ensures |ClassifiedFrames(attempts, skip)| == |SuccessFrames(attempts)| / skip
  {
    if attempts != [] {
      var init := attempts[..|attempts| - 1];
      ClassifiedIsStrided(init, skip);
      match attempts[|attempts| - 1]
      case ReadFailed =>
      case Captured(f) =>
        StridedSnoc(SuccessFrames(init), f, skip);
    }
  }

  /** With a stride of 3, nine good reads reach the detector at reads 3, 6 and 9. */
  lemma SkipThreeScenario(fs: seq<EmotionDetection.Frame>)
    requires |fs| == 9
    ensures ClassifiedFrames(seq(9, i requires 0 <= i < 9 => Captured(fs[i])), 3) == [fs[2], fs[5], fs[8]]
  {
    var attempts := seq(9, i requires 0 <= i < 9 => Captured(fs[i]));
    ClassifiedIsStrided(attempts, 3);
    SuccessOfCaptured(attempts, fs);
  }

  lemma {:induction false} SuccessOfCaptured(attempts: seq<CameraRead>, fs: seq<EmotionDetection.Frame>)
    requires |attempts| == |fs| && forall i :: 0 <= i < |attempts| ==> attempts[i] == Captured(fs[i])
    ensures SuccessFrames(attempts) == fs
  {
    if attempts != [] {
      SuccessOfCaptured(attempts[..|attempts| - 1], fs[..|fs| - 1]);
    }
  }

  /** What one more read adds to the counter and to the classified frames. */
  lemma ClassifiedStep(attempts: seq<CameraRead>, i: nat, skip: int)
    requires skip >= 1 && i < |attempts|
    ensures attempts[i].ReadFailed? ==>
      && SuccessFrames(attempts[..i + 1]) == SuccessFrames(attempts[..i])
      && ClassifiedFrames(attempts[..i + 1], skip) == ClassifiedFrames(attempts[..i], skip)
    ensures attempts[i].Captured? ==>
      && |SuccessFrames(attempts[..i + 1])| == |SuccessFrames(attempts[..i])| + 1
      && SuccessFrames(attempts[..i + 1]) == SuccessFrames(attempts[..i]) + [attempts[i].frame]
    ensures attempts[i].Captured? && (|SuccessFrames(attempts[..i])| + 1) % skip == 0 ==>
      ClassifiedFrames(attempts[..i + 1], skip) == ClassifiedFrames(attempts[..i], skip) + [attempts[i].frame]
    ensures attempts[i].Captured? && (|SuccessFrames(attempts[..i])| + 1) % skip != 0 ==>
      ClassifiedFrames(attempts[..i + 1], skip) == ClassifiedFrames(attempts[..i], skip)
  {
    assert attempts[..i + 1][..i] == attempts[..i];
  }

  /** The detector applied to each frame, in order. */
  function DetectAll(d: EmotionDetection.EmotionDetector, frames: seq<EmotionDetection.Frame>): seq<EmotionDetection.Detection>
  {
    if frames == [] then []
    else DetectAll(d, frames[..|frames| - 1]) + [EmotionDetection.Detect(d, frames[|frames| - 1])]
  }

  lemma DetectAllSnoc(d: EmotionDetection.EmotionDetector, fs: seq<EmotionDetection.Frame>, f: EmotionDetection.Frame)
    ensures DetectAll(d, fs + [f]) == DetectAll(d, fs) + [EmotionDetection.Detect(d, f)]
  {
    assert (fs + [f])[..|fs|] == fs;
  }

  /** Good read `i`, the `skip`-th since the last classified one, is detected and published. */
  lemma DetectedAt(d: EmotionDetection.EmotionDetector, attempts: seq<CameraRead>, i: nat, skip: int)
    requires skip >= 1 && i < |attempts| && attempts[i].Captured?
    requires (|SuccessFrames(attempts[..i])| + 1) % skip == 0
    ensures |SuccessFrames(attempts[..i + 1])| == |SuccessFrames(attempts[..i])| + 1
    ensures DetectAll(d, ClassifiedFrames(attempts[..i + 1], skip))
         == DetectAll(d, ClassifiedFrames(attempts[..i], skip)) + [EmotionDetection.Detect(d, attempts[i].frame)]
  {
    ClassifiedStep(attempts, i, skip);
    DetectAllSnoc(d, ClassifiedFrames(attempts[..i], skip), attempts[i].frame);
  }

  /** Good read `i`, when it is not the `skip`-th, publishes nothing. */
  lemma SkippedAt(attempts: seq<CameraRead>, i: nat, skip: int)
    requires skip >= 1 && i < |attempts| && attempts[i].Captured?
    requires (|SuccessFrames(attempts[..i])| + 1) % skip != 0
    ensures |SuccessFrames(attempts[..i + 1])| == |SuccessFrames(attempts[..i])| + 1
    ensures ClassifiedFrames(attempts[..i + 1], skip) == ClassifiedFrames(attempts[..i], skip)
  {
    ClassifiedStep(attempts, i, skip);
  }

  /** The reads a loop that breaks on the first failed read consumes. */
  function UntilFailure(attempts: seq<CameraRead>): (r: seq<CameraRead>)
    ensures |r| <= |attempts| && r == attempts[..|r|]
    ensures forall i :: 0 <= i < |r| ==> r[i].Captured?
    ensures |r| < |attempts| ==> attempts[|r|].ReadFailed?
  {
    if attempts == [] || attempts[0].ReadFailed? then []
    else [attempts[0]] + UntilFailure(attempts[1..])
  }

  /** A loop that stops at read `i` consumed exactly `attempts[..i]`. */
  lemma {:induction false} UntilFailureAt(attempts: seq<CameraRead>, i: nat)
    requires i <= |attempts|
    requires forall j :: 0 <= j < i ==> attempts[j].Captured?
    requires i < |attempts| ==> attempts[i].ReadFailed?
    ensures UntilFailure(attempts) == attempts[..i]
  {
    if i > 0 {
      UntilFailureAt(attempts[1..], i - 1);
      assert attempts[..i] == [attempts[0]] + attempts[1..][..i - 1];
    }
  }

  /**
   * The sidebar choice: "keras" exactly when the selection text starts with
   * "keras", and the model path is passed only then.
   */
  function SelectDetectorConfig(selection: string, modelPath: string): (c: (string, Option<string>))
    ensures c.0 == "keras" || c.0 == "mediapipe"
    ensures c.0 == "keras" <==> Text.StartsWith(selection, "keras")
    ensures c.1.Some? <==> Text.StartsWith(selection, "keras")
    ensures c.1.Some? ==> c.1.value == modelPath
  {
    if Text.StartsWith(selection, "keras") then ("keras", Some(modelPath)) else ("mediapipe", None)
  }

  /** Whatever the sidebar says, building the detector never raises. */
  lemma SelectedConfigAccepted(selection: string, modelPath: string, store: EmotionDetection.ModelStore)
    ensures var c := SelectDetectorConfig(selection, modelPath);
      EmotionDetection.NewDetector(c.0, c.1, store).Ok?
  {
  }

  /** The detector the page builds from its sidebar (`EmotionDetector(mode=..., keras_model_path=...)`). */
  function ConfiguredDetector(selection: string, modelPath: string, store: EmotionDetection.ModelStore)
    : (d: EmotionDetection.EmotionDetector)
    ensures d.KerasDetector? <==> Text.StartsWith(selection, "keras")
    ensures d.KerasDetector? ==> d.model == EmotionDetection.NewKerasModel(Some(modelPath), EmotionDetection.Emotions, store)
  {
    var c := SelectDetectorConfig(selection, modelPath);
    SelectedConfigAccepted(selection, modelPath, store);
    EmotionDetection.NewDetector(c.0, c.1, store).value
  }
}
