/**
 * app.py: the single-threaded page. Start sets the session's running flag
 * and runs the webcam loop inline; the loop counts good reads, classifies
 * every `skip_frames`-th frame, keeps the last 20 labels, shows the 10
 * newest first and renders the recommendations as a markdown list. A
 * failed read ends the loop.
 */
module App {
  import opened Outcomes
  import opened EmotionDetection
  import FrameLoop
  import Recommendations
  import Panels

  /** The number of labels the loop remembers. */
  const HistorySize: nat := 20
  /** The number of labels the page shows. */
  const ShownSize: nat := 10
  const MaxResults: int := 5
  const NoRecsMessage: string := "No recommendations (provide YouTube API key or use offline mode)."

  /** The page's placeholders as the loop fills them. */
  datatype Placeholders = Placeholders(
    published: seq<Detection>,          // the detector's results, in order
    history: seq<string>,
    recent: seq<string>,                // the history placeholder
    recPanel: Option<Panels.RecPanel>)  // the recommendation placeholder

  /** The state `run_webcam` leaves behind. */
  datatype WebcamRun = WebcamRun(
    frameCount: nat,        // good reads counted
    endedOnFailure: bool,   // the loop left because a read failed
    view: Placeholders)

  /** The recommendation panel shown after a detection with this label. */
  function PanelFor(emotion: string, apiKey: string,
                    search: Recommendations.SearchRequest -> Recommendations.RemoteOutcome): (p: Panels.RecPanel)
    ensures p.MarkdownPanel? && p.md != ""
  {
    Panels.MarkdownPanel(Panels.MarkdownList(Recommendations.Recommend(emotion, apiKey, MaxResults, search)))
  }

  /**
   * The placeholders after the loop has consumed the good reads `ok`: one
   * count per read, one detection per classified frame, the last 20 labels,
   * the 10 newest of them first, and the recommendations for the latest.
   */
  ghost predicate Reflects(view: Placeholders, ok: seq<FrameLoop.CameraRead>, skipFrames: int,
                           d: EmotionDetector, apiKey: string,
                           search: Recommendations.SearchRequest -> Recommendations.RemoteOutcome)
    requires skipFrames >= 1
  {
    && view.published == FrameLoop.DetectAll(d, FrameLoop.ClassifiedFrames(ok, skipFrames))
    && view.history == Panels.Trimmed(Panels.Labels(view.published), HistorySize)
    && view.recent == Panels.NewestFirst(view.history, ShownSize)
    && view.recPanel == (if view.published == [] then None
                         else Some(PanelFor(view.published[|view.published| - 1].emotion, apiKey, search)))
  }

  /**
   * What `run_webcam` does with the reads the camera delivers: the loop
   * consumes the reads up to the first failure and stops there, and its
   * placeholders reflect those reads. An unopened camera leaves them empty.
   */
  ghost predicate IsWebcamRun(run: WebcamRun, cameraOpen: bool, attempts: seq<FrameLoop.CameraRead>,
                              skipFrames: int, d: EmotionDetector, apiKey: string,
                              search: Recommendations.SearchRequest -> Recommendations.RemoteOutcome)
    requires skipFrames >= 1
  {
    if !cameraOpen then run == WebcamRun(0, false, Placeholders([], [], [], None))
    else
      var ok := FrameLoop.UntilFailure(attempts);
      && run.frameCount == |ok|
      && run.endedOnFailure == (|ok| < |attempts|)
      && Reflects(run.view, ok, skipFrames, d, apiKey, search)
  }

  /** A loop that left at read `i`, after `i` good reads, has run as `run_webcam` does. */
  lemma EndOfRun(run: WebcamRun, attempts: seq<FrameLoop.CameraRead>, i: nat, skipFrames: int,
                 d: EmotionDetector, apiKey: string,
                 search: Recommendations.SearchRequest -> Recommendations.RemoteOutcome)
    requires skipFrames >= 1 && i <= |attempts|
    requires forall j :: 0 <= j < i ==> attempts[j].Captured?
    requires i < |attempts| ==> attempts[i].ReadFailed?
    requires run.frameCount == i && run.endedOnFailure == (i < |attempts|)
    requires Reflects(run.view, attempts[..i], skipFrames, d, apiKey, search)
    ensures IsWebcamRun(run, true, attempts, skipFrames, d, apiKey, search)
  {
    FrameLoop.UntilFailureAt(attempts, i);
  }

  /**
   * `recs = get_youtube_recommendations(label, ...)` and the recommendation
   * placeholder: the resolver never returns an empty list, so the
   * "No recommendations" message is never the result.
   */
  method ShowRecommendations(emotion: string, apiKey: string,
                             search: Recommendations.SearchRequest -> Recommendations.RemoteOutcome)
    returns (panel: Panels.RecPanel)
    ensures panel == PanelFor(emotion, apiKey, search) && panel.MarkdownPanel?
  {
    var recs := Recommendations.GetYoutubeRecommendations(emotion, apiKey, MaxResults, search);
    Recommendations.RecommendNeverEmpty(emotion, apiKey, MaxResults, search);
    panel := Panels.ShowRecs(recs, NoRecsMessage);
  }

  /**
   * The part of the loop body after `detector.detect`: append the label and
   * keep the last 20, show the 10 newest first, and show the
   * recommendations.
   */
  method ShowDetection(det: Detection, history: seq<string>, apiKey: string,
                       search: Recommendations.SearchRequest -> Recommendations.RemoteOutcome)
    returns (newHistory: seq<string>, recent: seq<string>, panel: Panels.RecPanel)
    ensures newHistory == Panels.Trimmed(history + [det.emotion], HistorySize)
    ensures |newHistory| <= HistorySize && newHistory[|newHistory| - 1] == det.emotion
    ensures recent == Panels.NewestFirst(newHistory, ShownSize)
    ensures |recent| <= ShownSize && recent[0] == det.emotion
    ensures panel == PanelFor(det.emotion, apiKey, search) && panel.MarkdownPanel?
  {
    newHistory := history + [det.emotion];
    if |newHistory| > HistorySize {
      newHistory := newHistory[|newHistory| - HistorySize..];
    }
    recent := Panels.NewestFirst(newHistory, ShownSize);
    panel := ShowRecommendations(det.emotion, apiKey, search);
  }

  /**
   * One pass of the loop body after a good read of `frame`, the
   * `frame_count`-th: on every `skip_frames`-th frame, detect and update the
   * placeholders.
   */
  method WebcamStep(view: Placeholders, frameCount: nat, frame: Frame,
                    ghost attempts: seq<FrameLoop.CameraRead>, ghost i: nat,
                    skipFrames: int, d: EmotionDetector, apiKey: string,
                    search: Recommendations.SearchRequest -> Recommendations.RemoteOutcome)
    returns (next: Placeholders)
    requires skipFrames >= 1 && i < |attempts| && attempts[i] == FrameLoop.Captured(frame)
    requires frameCount == |FrameLoop.SuccessFrames(attempts[..i])| + 1
    requires Reflects(view, attempts[..i], skipFrames, d, apiKey, search)
    ensures |FrameLoop.SuccessFrames(attempts[..i + 1])| == frameCount
    ensures Reflects(next, attempts[..i + 1], skipFrames, d, apiKey, search)
  {
    next := view;
    if frameCount % skipFrames == 0 {
      var det := Detect(d, frame);
      FrameLoop.DetectedAt(d, attempts, i, skipFrames);
      Panels.LabelsSnoc(view.published, det);
      Panels.TrimmedAppend(Panels.Labels(view.published), det.emotion, HistorySize);
      var history, recent, panel := ShowDetection(det, view.history, apiKey, search);
      next := Placeholders(view.published + [det], history, recent, Some(panel));
      assert Reflects(next, attempts[..i + 1], skipFrames, d, apiKey, search);
    } else {
      FrameLoop.SkippedAt(attempts, i, skipFrames);
      assert Reflects(next, attempts[..i + 1], skipFrames, d, apiKey, search);
    }
  }

  /** `run_webcam`. */
  method RunWebcam(cameraOpen: bool, attempts: seq<FrameLoop.CameraRead>, skipFrames: int,
                   d: EmotionDetector, apiKey: string,
                   search: Recommendations.SearchRequest -> Recommendations.RemoteOutcome)
    returns (run: WebcamRun)
    requires skipFrames >= 1
    ensures IsWebcamRun(run, cameraOpen, attempts, skipFrames, d, apiKey, search)
  {
    var view := Placeholders([], [], [], None);
    if !cameraOpen {
      // st.error("Could not open webcam. ...")
      return WebcamRun(0, false, view);
    }
    var frameCount: nat := 0;
    var failed := false;
    var i := 0;
    while i < |attempts|
      invariant 0 <= i <= |attempts|
      invariant forall j :: 0 <= j < i ==> attempts[j].Captured?
      invariant frameCount == i == |FrameLoop.SuccessFrames(attempts[..i])| && !failed
      invariant Reflects(view, attempts[..i], skipFrames, d, apiKey, search)
    {
      if attempts[i].ReadFailed? {
        // st.write("Failed to read from webcam."); break
        failed := true;
        break;
      }
      frameCount := frameCount + 1;
      view := WebcamStep(view, frameCount, attempts[i].frame, attempts, i,
                         skipFrames, d, apiKey, search);
      assert forall j :: 0 <= j < i + 1 ==> attempts[j].Captured? by {
        assert attempts[i].Captured?;
      }
      i := i + 1;
    }
    run := WebcamRun(frameCount, failed, view);
    EndOfRun(run, attempts, i, skipFrames, d, apiKey, search);
  }

  /** The page's persistent state: `st.session_state['running']`. */
  class AppSession {
    var running: bool

    constructor()
      ensures !running
    {
      running := false;
    }

    /**
     * One run of the page script: the detector is built from the sidebar,
     * Start sets the flag and runs the webcam loop inline, and Stop, handled
     * after the loop has returned, clears it.
     */
    method Rerun(start: bool, stop: bool, selection: string, modelPath: string,
                 store: ModelStore, cameraOpen: bool, attempts: seq<FrameLoop.CameraRead>,
                 skipFrames: int, apiKey: string,
                 search: Recommendations.SearchRequest -> Recommendations.RemoteOutcome)
      returns (run: Option<WebcamRun>)
      requires skipFrames >= 1
      modifies this
      ensures running == (!stop && (start || old(running)))
      ensures run.Some? <==> start
      ensures start ==> IsWebcamRun(run.value, cameraOpen, attempts, skipFrames,
                                    FrameLoop.ConfiguredDetector(selection, modelPath, store), apiKey, search)
    {
      var detector := FrameLoop.ConfiguredDetector(selection, modelPath, store);
      run := None;
      if start {
        running := true;
        var r := RunWebcam(cameraOpen, attempts, skipFrames, detector, apiKey, search);
        run := Some(r);
      }
      if stop {
        running := false;
      }
    }
  }
}
