/**
 * modern_app.py: the styled page. The running flag and the label history
 * live in the session and survive reruns. While running, the page reads the
 * camera until a read fails, classifies every second good frame with the
 * landmark heuristic, shows an emoji badge, the last 15 labels and the
 * fallback table's entry for the label as HTML cards.
 */
module ModernApp {
  import opened Outcomes
  import opened EmotionDetection
  import Text
  import FrameLoop
  import Recommendations
  import Panels

  /** Every `Skip`-th good frame is classified. */
  const Skip: int := 2
  /** The number of labels the history box shows. */
  const ShownSize: nat := 15

  const EmojiMap: map<string, string> := map[
    "happy" := "\U{1F60A}",
    "sad" := "\U{1F622}",
    "angry" := "\U{1F621}",
    "neutral" := "\U{1F610}",
    "surprise" := "\U{1F62F}"
  ]
  /** The badge's emoji for a label the map does not know. */
  const DefaultEmoji: string := "\U{1F642}"

  /** `emoji_map.get(label.lower(), ...)`. */
  function EmojiFor(emotion: string): (e: string)
    ensures |e| == 1
  {
    var key := Text.ToLower(emotion);
    if key in EmojiMap then EmojiMap[key] else DefaultEmoji
  }

  /**
   * Every label the detector produces has its own emoji, none of them the
   * default one; labels that differ only in letter case share an emoji.
   */
  lemma EmojiTable(e1: string, e2: string)
    ensures e1 in Emotions ==> EmojiFor(e1) != DefaultEmoji
    ensures e1 in Emotions && e2 in Emotions ==> (EmojiFor(e1) == EmojiFor(e2) <==> e1 == e2)
    ensures Text.ToLower(e1) == Text.ToLower(e2) ==> EmojiFor(e1) == EmojiFor(e2)
    ensures Text.ToLower(e1) !in Emotions ==> EmojiFor(e1) == DefaultEmoji
  {
    if e1 in Emotions {
      Text.ToLowerOfLower(e1);
    }
    if e2 in Emotions {
      Text.ToLowerOfLower(e2);
    }
  }

  const PlaceholderLink: string := "https://www.youtube.com/watch?v=dQw4w9WgXcQ"

  /** The table the page defines itself when importing utils fails. */
  const LocalFallback: map<string, seq<Recommendations.Rec>> := map[
    "happy" := [("Upbeat Pop Mix", PlaceholderLink)],
    "sad" := [("Chill Vibes", PlaceholderLink)],
    "angry" := [("Aggressive Beats", PlaceholderLink)],
    "surprise" := [("Surprise Mix", PlaceholderLink)],
    "neutral" := [("Chill Vibes", PlaceholderLink)]
  ]

  /** The table in use: utils' table when its import succeeds, else the local one. */
  function RecTable(utilsImported: bool): (t: map<string, seq<Recommendations.Rec>>)
    ensures "neutral" in t
  {
    if utilsImported then Recommendations.Fallback else LocalFallback
  }

  /** `table.get(label, table["neutral"])`: no lower-casing here. */
  function Lookup(table: map<string, seq<Recommendations.Rec>>, emotion: string): seq<Recommendations.Rec>
    requires "neutral" in table
  {
    if emotion in table then table[emotion] else table["neutral"]
  }

  /** `FALLBACK.get(label, FALLBACK["neutral"])` on the table in use. */
  function RecsFor(emotion: string, utilsImported: bool): (r: seq<Recommendations.Rec>)
    ensures |r| == 1
    ensures !utilsImported ==> r[0].1 == PlaceholderLink
  {
    Lookup(RecTable(utilsImported), emotion)
  }

  /**
   * For the detector's own labels the page shows the same entry as utils'
   * `get_fallback`; a label in another letter case falls to the neutral
   * entry here, while `get_fallback` lower-cases it first.
   */
  lemma RecsMatchUtilsOnLabels(emotion: string)
    ensures emotion in Emotions ==> RecsFor(emotion, true) == Recommendations.FallbackFor(emotion)
    ensures RecsFor("HAPPY", true) == Recommendations.Fallback["neutral"]
    ensures Recommendations.FallbackFor("HAPPY") == Recommendations.Fallback["happy"]
    ensures RecsFor("HAPPY", true) != Recommendations.FallbackFor("HAPPY")
  {
    if emotion in Emotions {
      Text.ToLowerOfLower(emotion);
    }
    Text.ToLowerOfLower("happy");
    assert Text.ToLower("HAPPY") == "happy";
  }

  /**
   * With the landmark detector the badge always has a label's own emoji,
   * and the cards are utils' fallback entry for the label.
   */
  lemma MediapipeColumn(f: Frame)
    ensures var det := Detect(MediapipeDetector, f);
      && EmojiFor(det.emotion) != DefaultEmoji
      && RecsFor(det.emotion, true) == Recommendations.FallbackFor(det.emotion)
  {
    var det := Detect(MediapipeDetector, f);
    DetectLabelKnown(MediapipeDetector, f);
    EmojiTable(det.emotion, det.emotion);
    RecsMatchUtilsOnLabels(det.emotion);
  }

  /** The local table has the same labels as utils' table but only one link. */
  lemma LocalTableShape(e: string)
    ensures e in LocalFallback <==> e in Recommendations.Fallback
    ensures e in LocalFallback ==> |LocalFallback[e]| == 1 && LocalFallback[e][0].1 == PlaceholderLink
  {
  }

  /** What the right-hand column shows after a classified frame. */
  datatype Shown = Shown(
    detection: Detection,     // the badge's label and confidence, and the box drawn
    recent: seq<string>,      // the history box
    html: string)             // the recommendation cards

  /** The column after the detection `det`, with `history` already extended by it. */
  function ShownFor(det: Detection, history: seq<string>, table: map<string, seq<Recommendations.Rec>>): Shown
    requires "neutral" in table
  {
    Shown(det, Panels.Trimmed(history, ShownSize), Panels.CardList(Lookup(table, det.emotion)))
  }

  /**
   * The right-hand column after a detection: the badge's emoji, the last 15
   * labels of the history and one card per entry of the table for the label
   * (MediapipeColumn shows these are utils' entries when utils imports).
   */
  method ShowColumn(det: Detection, history: seq<string>, table: map<string, seq<Recommendations.Rec>>)
    returns (column: Shown, emoji: string)
    requires "neutral" in table
    ensures column == ShownFor(det, history, table)
    ensures emoji == EmojiFor(det.emotion) && |emoji| == 1
    ensures column.detection == det
    ensures |column.recent| <= ShownSize && column.recent == history[|history| - |column.recent|..]
  {
    emoji := EmojiFor(det.emotion);
    var recent := history;
    if |recent| > ShownSize {
      recent := recent[|recent| - ShownSize..];
    }
    var recs := Lookup(table, det.emotion);
    var html := Panels.RenderCards(recs);
    column := Shown(det, recent, html);
  }

  /** The page after one run of its loop. */
  datatype ModernRun = CameraUnavailable | Ran(frameCount: nat, shown: Option<Shown>)

  /**
   * Starting from the history `h0`, the detections `dets` have been shown:
   * the history has gained their labels, and the column shows the latest.
   */
  ghost predicate Shows(history: seq<string>, shown: Option<Shown>, h0: seq<string>,
                        dets: seq<Detection>, table: map<string, seq<Recommendations.Rec>>)
  {
    && "neutral" in table
    && history == h0 + Panels.Labels(dets)
    && shown == (if dets == [] then None else Some(ShownFor(dets[|dets| - 1], history, table)))
  }

  /** The loop has consumed the good reads `ok`: the classified frames among them have been shown. */
  ghost predicate Reflects(history: seq<string>, shown: Option<Shown>, h0: seq<string>,
                           ok: seq<FrameLoop.CameraRead>, table: map<string, seq<Recommendations.Rec>>)
  {
    Shows(history, shown, h0, FrameLoop.DetectAll(MediapipeDetector, FrameLoop.ClassifiedFrames(ok, Skip)), table)
  }

  /** Showing one more detection appends its label and makes the column show it. */
  lemma ShowsOneMore(history: seq<string>, shown: Option<Shown>, h0: seq<string>,
                     dets: seq<Detection>, det: Detection, table: map<string, seq<Recommendations.Rec>>)
    requires Shows(history, shown, h0, dets, table)
    ensures Shows(history + [det.emotion], Some(ShownFor(det, history + [det.emotion], table)),
                  h0, dets + [det], table)
  {
    Panels.LabelsSnoc(dets, det);
    assert history + [det.emotion] == h0 + Panels.Labels(dets + [det]);
  }

  /**
   * The loop body after good read `i`, the `frame_count`-th: on every second
   * frame detect, append the label to the history and refresh the column.
   */
  method ModernStep(history: seq<string>, shown: Option<Shown>, frameCount: nat,
                    frame: Frame, table: map<string, seq<Recommendations.Rec>>,
                    ghost attempts: seq<FrameLoop.CameraRead>, ghost i: nat,
                    ghost h0: seq<string>, ghost dets: seq<Detection>)
    returns (newHistory: seq<string>, newShown: Option<Shown>, ghost dets': seq<Detection>)
    requires i < |attempts| && attempts[i] == FrameLoop.Captured(frame)
    requires frameCount == |FrameLoop.SuccessFrames(attempts[..i])| + 1
    requires dets == FrameLoop.DetectAll(MediapipeDetector, FrameLoop.ClassifiedFrames(attempts[..i], Skip))
    requires Shows(history, shown, h0, dets, table)
    ensures frameCount == |FrameLoop.SuccessFrames(attempts[..i + 1])|
    ensures dets' == FrameLoop.DetectAll(MediapipeDetector, FrameLoop.ClassifiedFrames(attempts[..i + 1], Skip))
    ensures Shows(newHistory, newShown, h0, dets', table)
  {
    newHistory, newShown, dets' := history, shown, dets;
    if frameCount % Skip == 0 {
      var det := Detect(MediapipeDetector, frame);
      newHistory := history + [det.emotion];
      // the badge placeholder shows `emoji`; a later detection overwrites it
      var column, emoji := ShowColumn(det, newHistory, table);
      newShown := Some(column);
      ShowsOneMore(history, shown, h0, dets, det, table);
      FrameLoop.DetectedAt(MediapipeDetector, attempts, i, Skip);
      dets' := dets + [det];
    } else {
      FrameLoop.SkippedAt(attempts, i, Skip);
    }
  }

  /**
   * The `while` loop of the webcam section: read until a read fails,
   * appending every second frame's label to the history `h0` and refreshing
   * the column from `table`.
   */
  method ReadUntilFailure(attempts: seq<FrameLoop.CameraRead>, h0: seq<string>,
                          table: map<string, seq<Recommendations.Rec>>)
    returns (hist: seq<string>, shown: Option<Shown>, frameCount: nat)
    requires "neutral" in table
    ensures frameCount == |FrameLoop.UntilFailure(attempts)|
    ensures Reflects(hist, shown, h0, FrameLoop.UntilFailure(attempts), table)
  {
    ghost var dets: seq<Detection> := [];
    hist, shown, frameCount := h0, None, 0;
    var i := 0;
    while i < |attempts|
      invariant 0 <= i <= |attempts|
      invariant forall j :: 0 <= j < i ==> attempts[j].Captured?
      invariant frameCount == i == |FrameLoop.SuccessFrames(attempts[..i])|
      invariant dets == FrameLoop.DetectAll(MediapipeDetector, FrameLoop.ClassifiedFrames(attempts[..i], Skip))
      invariant Shows(hist, shown, h0, dets, table)
    {
      if attempts[i].ReadFailed? {
        break;
      }
      frameCount := frameCount + 1;
      hist, shown, dets := ModernStep(hist, shown, frameCount, attempts[i].frame, table,
                                      attempts, i, h0, dets);
      assert forall j :: 0 <= j < i + 1 ==> attempts[j].Captured? by {
        assert attempts[i].Captured?;
      }
      i := i + 1;
    }
    FrameLoop.UntilFailureAt(attempts, i);
  }

  /** The page's persistent state: `st.session_state.running` and `.history`. */
  class ModernSession {
    var running: bool
    var history: seq<string>
    /** The fallback table the page bound at import. */
    const recTable: map<string, seq<Recommendations.Rec>>

    constructor(utilsImported: bool)
      ensures !running && history == [] && recTable == RecTable(utilsImported)
      ensures "neutral" in recTable
    {
      running := false;
      history := [];
      recTable := RecTable(utilsImported);
    }

    /** The Start and Stop buttons of one rerun; Stop is handled last and wins. */
    method PressButtons(start: bool, stop: bool)
      modifies this
      ensures running == (!stop && (start || old(running)))
      ensures history == old(history)
    {
      if start {
        running := true;
      }
      if stop {
        running := false;
      }
    }

    /**
     * The webcam section of one rerun: nothing when not running; otherwise
     * the loop reads until a read fails, appending to the session history
     * (which is never trimmed) and refreshing the column.
     */
    method RunLoop(cameraOpen: bool, attempts: seq<FrameLoop.CameraRead>)
      returns (run: Option<ModernRun>)
      requires "neutral" in recTable
      modifies this
      ensures running == old(running)
      ensures run.Some? <==> running
      ensures !running || !cameraOpen ==> history == old(history)
      ensures running && !cameraOpen ==> run == Some(CameraUnavailable)
      ensures running && cameraOpen ==>
        var ok := FrameLoop.UntilFailure(attempts);
        && run.Some? && run.value.Ran?
        && run.value.frameCount == |ok|
        && Reflects(history, run.value.shown, old(history), ok, recTable)
    {
      if !running {
        return None;
      }
      if !cameraOpen {
        // st.error("Camera not available.")
        return Some(CameraUnavailable);
      }
      var hist, shown, frameCount := ReadUntilFailure(attempts, history, recTable);
      history := hist;
      run := Some(Ran(frameCount, shown));
    }
  }

  /** Two good reads classify exactly the second frame. */
  lemma TwoReadsScenario(f1: Frame, f2: Frame)
    ensures FrameLoop.ClassifiedFrames([FrameLoop.Captured(f1), FrameLoop.Captured(f2)], Skip) == [f2]
  {
    var attempts := [FrameLoop.Captured(f1), FrameLoop.Captured(f2)];
    FrameLoop.ClassifiedIsStrided(attempts, Skip);
    FrameLoop.SuccessOfCaptured(attempts, [f1, f2]);
  }
}
