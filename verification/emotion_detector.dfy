/**
 * The per-frame classification pipeline of emotion_detector.py: the
 * landmark heuristic, the trained-model classifier and the detector facade
 * that chooses between them.
 *
 * The face mesh, the Haar cascade and the Keras network are foreign; their
 * outputs enter the model as data (MeshResult, a list of Boxes, a prediction
 * vector).
 */
module EmotionDetection {
  import opened Outcomes
  import Text

  /** The label table, in the trained model's class order. */
  const Emotions: seq<string> := ["neutral", "happy", "sad", "surprise", "angry"]

  /** A (label, confidence) pair as the two classifiers return it. */
  datatype Prediction = Prediction(emotion: string, confidence: real)

  /**
   * What the face mesh reports for a frame: no face, or the three ratios
   * computed from the first face's landmarks (lip gap and eye-lid gap over
   * the frame height, brow span over the frame width).
   */
  datatype MeshResult = NoFace | Face(mouthOpen: real, eyeOpen: real, browDist: real)

  /** Ratios of distances are never negative. */
  predicate NonNegativeRatios(m: MeshResult)
  {
    m.Face? ==> m.mouthOpen >= 0.0 && m.eyeOpen >= 0.0 && m.browDist >= 0.0
  }

  // ---------------------------------------------------------------------
  // Landmark heuristic
  // ---------------------------------------------------------------------

  /** `MediapipeHeuristic.predict`: ordered threshold rules, first match wins. */
  function HeuristicPredict(mesh: MeshResult): (p: Prediction)
    ensures p.emotion in Emotions
    ensures mesh.NoFace? ==> p == Prediction("neutral", 0.0)
  {
    match mesh
    case NoFace => Prediction("neutral", 0.0)
    case Face(mouth, eye, brow) =>
      if mouth > 0.035 then Prediction("surprise", mouth)
      else if eye < 0.007 && brow > 0.02 then Prediction("angry", 1.0 - eye)
      else if mouth > 0.02 && eye > 0.008 then Prediction("happy", mouth)
      else Prediction("neutral", 0.35)
  }

  /**
   * The rule chain as a decision table: for a detected face, each label is
   * characterised by a condition on the ratios alone, without reference to
   * the order of the rules. In particular "happy" and "angry" never compete
   * (an eye ratio above 0.008 is not below 0.007), and a wide-open mouth
   * decides "surprise" whatever the eyes and brows do.
   */
  lemma HeuristicDecisionTable(mouth: real, eye: real, brow: real)
    ensures var p := HeuristicPredict(Face(mouth, eye, brow));
      && (p.emotion == "surprise" <==> mouth > 0.035)
      && (p.emotion == "angry" <==> mouth <= 0.035 && eye < 0.007 && brow > 0.02)
      && (p.emotion == "happy" <==> 0.02 < mouth <= 0.035 && eye > 0.008)
      && (p.emotion == "neutral" <==>
            mouth <= 0.035 && !(eye < 0.007 && brow > 0.02) && !(mouth > 0.02 && eye > 0.008))
      && (p.emotion == "surprise" ==> p.confidence == mouth)
      && (p.emotion == "angry" ==> p.confidence == 1.0 - eye)
      && (p.emotion == "happy" ==> p.confidence == mouth)
      && (p.emotion == "neutral" ==> p.confidence == 0.35)
      && p.emotion != "sad"
  {
  }

  /**
   * The heuristic's confidence is a ratio reused as a score: for a detected
   * face it is always positive, and each label's confidence lies in a band
   * fixed by the thresholds that chose the label.
   */
  lemma HeuristicConfidenceBands(mesh: MeshResult)
    requires mesh.Face? && NonNegativeRatios(mesh)
    ensures var p := HeuristicPredict(mesh);
      && p.confidence > 0.0
      && (p.emotion == "surprise" ==> p.confidence > 0.035)
      && (p.emotion == "angry" ==> 0.993 < p.confidence <= 1.0)
      && (p.emotion == "happy" ==> 0.02 < p.confidence <= 0.035)
  {
  }

  // ---------------------------------------------------------------------
  // Trained-model classifier
  // ---------------------------------------------------------------------

  /** A prediction vector as the network returns it: one score per class. */
  type Probs = s: seq<real> | |s| > 0 witness [0.0]

  /** `k` is the first position of a largest element of `s` (numpy's argmax). */
  predicate IsFirstMax(s: seq<real>, k: nat)
  {
    && k < |s|
    && (forall j :: 0 <= j < |s| ==> s[j] <= s[k])
    && (forall j :: 0 <= j < k ==> s[j] < s[k])
  }

  /** `np.argmax`: the first index holding the maximum. */
  function ArgMax(s: seq<real>): (k: nat)
    requires |s| > 0
    ensures IsFirstMax(s, k)
    decreases |s|
  {
    if |s| == 1 then 0
    else
      var k := ArgMax(s[..|s| - 1]);
      if s[|s| - 1] > s[k] then |s| - 1 else k
  }

  /** The first maximum is unique, so ArgMax is the only choice. */
  lemma FirstMaxUnique(s: seq<real>, k1: nat, k2: nat)
    requires IsFirstMax(s, k1) && IsFirstMax(s, k2)
    ensures k1 == k2
  {
    assert s[k1] == s[k2];
  }

  /** Every first-maximum index is the one ArgMax computes. */
  lemma ArgMaxIsTheFirstMax(s: seq<real>)
    requires |s| > 0
    ensures forall k: nat :: IsFirstMax(s, k) ==> k == ArgMax(s)
  {
    forall k: nat | IsFirstMax(s, k) ensures k == ArgMax(s) {
      FirstMaxUnique(s, k, ArgMax(s));
    }
  }

  /** Where the model file would come from, and whether loading works. */
  datatype ModelStore = ModelStore(tensorflowAvailable: bool, existing: set<string>, loadable: set<string>)

  /** A KerasEmotionModel after construction; `loaded` is `self.model is not None`. */
  datatype KerasEmotionModel = KerasEmotionModel(labels: seq<string>, loaded: bool)

  /**
   * `KerasEmotionModel.__init__`: the network is loaded only when TensorFlow
   * imports, a non-empty path is given, the file exists and loading it does
   * not raise; in every other case the instance is degraded, never raising.
   */
  function NewKerasModel(modelPath: Option<string>, labels: seq<string>, store: ModelStore): (m: KerasEmotionModel)
    ensures m.labels == labels
    ensures m.loaded ==> modelPath.Some? && modelPath.value != "" && modelPath.value in store.existing
    ensures m.loaded <==>
      store.tensorflowAvailable && modelPath.Some? && modelPath.value in store.existing * store.loadable - {""}
  {
    if !store.tensorflowAvailable then KerasEmotionModel(labels, false)
    else if modelPath.Some? && modelPath.value != "" && modelPath.value in store.existing then
      KerasEmotionModel(labels, modelPath.value in store.loadable)
    else KerasEmotionModel(labels, false)
  }

  /** `self.labels[idx] if idx < len(self.labels) else str(idx)`. */
  function LabelAt(labels: seq<string>, idx: nat): (name: string)
    ensures idx < |labels| ==> name == labels[idx]
    ensures idx >= |labels| ==>
      (forall i :: 0 <= i < |name| ==> Text.IsDigit(name[i])) && Text.DecimalValue(name) == idx
    ensures idx >= |labels| ==> name == Text.DecimalString(idx)
  {
    if idx < |labels| then labels[idx]
    else Text.DecimalRoundTrip(idx); Text.DecimalString(idx)
  }

  /** An index outside the table yields a string of digits, never a label of the table. */
  lemma FallbackLabelIsNotAnEmotion(idx: nat)
    requires idx >= |Emotions|
    ensures LabelAt(Emotions, idx) !in Emotions
  {
    var s := LabelAt(Emotions, idx);
    assert Text.IsDigit(s[0]);
  }

  /** `KerasEmotionModel.predict` on the network's output for the face crop. */
  function KerasPredict(m: KerasEmotionModel, preds: Probs): (p: Prediction)
    ensures !m.loaded ==> p == Prediction("neutral", 0.0)
    ensures m.loaded ==> forall k: nat :: IsFirstMax(preds, k) ==>
      p == Prediction(LabelAt(m.labels, k), preds[k])
  {
    if !m.loaded then Prediction("neutral", 0.0)
    else
      var idx := ArgMax(preds);
      ArgMaxIsTheFirstMax(preds);
      Prediction(LabelAt(m.labels, idx), preds[idx])
  }

  /**
   * With the default label table and one score per class, the loaded model's
   * label is one of the five emotions and its confidence is the top score.
   */
  lemma KerasLabelKnown(preds: Probs)
    requires |preds| <= |Emotions|
    ensures var p := KerasPredict(KerasEmotionModel(Emotions, true), preds);
      p.emotion in Emotions && forall j :: 0 <= j < |preds| ==> preds[j] <= p.confidence
  {
    var k := ArgMax(preds);
    assert IsFirstMax(preds, k);
  }

  // ---------------------------------------------------------------------
  // Face selection and the detector facade
  // ---------------------------------------------------------------------

  /** A face rectangle (x, y, w, h) in pixels. */
  datatype Box = Box(x: int, y: int, w: int, h: int)

  function Area(b: Box): int { b.w * b.h }

  function Areas(faces: seq<Box>): (a: seq<real>)
    ensures |a| == |faces|
    ensures forall i :: 0 <= i < |faces| ==> a[i] == Area(faces[i]) as real
  {
    seq(|faces|, i requires 0 <= i < |faces| => Area(faces[i]) as real)
  }

  /**
   * `sorted(faces, key=w*h, reverse=True)[0]`: Python's sort is stable, so
   * the chosen box is the earliest candidate of largest area.
   */
  function LargestFace(faces: seq<Box>): (k: nat)
    requires |faces| > 0
    ensures k < |faces|
    ensures forall j :: 0 <= j < |faces| ==> Area(faces[j]) <= Area(faces[k])
    ensures forall j :: 0 <= j < k ==> Area(faces[j]) < Area(faces[k])
  {
    var k := ArgMax(Areas(faces));
    assert forall j :: 0 <= j < |faces| ==> Areas(faces)[j] <= Areas(faces)[k];
    k
  }

  /** The configured classifier: the heuristic, or the (possibly degraded) network. */
  datatype EmotionDetector = MediapipeDetector | KerasDetector(model: KerasEmotionModel)

  /** `EmotionDetector.__init__`: any mode other than the two known ones is a ValueError. */
  function NewDetector(mode: string, kerasModelPath: Option<string>, store: ModelStore): (r: Result<EmotionDetector, string>)
    ensures r.Ok? <==> mode == "mediapipe" || mode == "keras"
    ensures r.Ok? ==> (r.value.MediapipeDetector? <==> mode == "mediapipe")
    ensures r.Ok? && r.value.KerasDetector? ==> r.value.model == NewKerasModel(kerasModelPath, Emotions, store)
  {
    if mode == "mediapipe" then Ok(MediapipeDetector)
    else if mode == "keras" then Ok(KerasDetector(NewKerasModel(kerasModelPath, Emotions, store)))
    else Err("mode must be 'mediapipe' or 'keras'")
  }

  /**
   * One frame as the foreign libraries see it: the face-mesh result, the
   * cascade's candidate boxes, and the network's output for the crop of the
   * box the detector selects.
   */
  datatype Frame = Frame(mesh: MeshResult, faces: seq<Box>, preds: Probs)

  /** The normalised output: label, confidence and the face box, if any. */
  datatype Detection = Detection(emotion: string, confidence: real, bbox: Option<Box>)

  /** `EmotionDetector.detect`. */
  function Detect(d: EmotionDetector, f: Frame): (r: Detection)
    ensures d.MediapipeDetector? ==>
      r.bbox == None && Prediction(r.emotion, r.confidence) == HeuristicPredict(f.mesh)
    ensures d.KerasDetector? && f.faces == [] ==> r == Detection("neutral", 0.0, None)
    ensures d.KerasDetector? && f.faces != [] ==>
      r.bbox == Some(f.faces[LargestFace(f.faces)]) &&
      Prediction(r.emotion, r.confidence) == KerasPredict(d.model, f.preds)
  {
    match d
    case MediapipeDetector =>
      var p := HeuristicPredict(f.mesh);
      Detection(p.emotion, p.confidence, None)
    case KerasDetector(model) =>
      if |f.faces| == 0 then Detection("neutral", 0.0, None)
      else
        var k := LargestFace(f.faces);
        var p := KerasPredict(model, f.preds);
        Detection(p.emotion, p.confidence, Some(f.faces[k]))
  }

  /**
   * In keras mode with at least one candidate, the reported box is a
   * candidate of largest area, and no earlier candidate has that area.
   */
  lemma DetectPicksLargestFace(m: KerasEmotionModel, f: Frame)
    requires f.faces != []
    ensures var r := Detect(KerasDetector(m), f);
      exists k :: 0 <= k < |f.faces| && r.bbox == Some(f.faces[k]) &&
        (forall j :: 0 <= j < |f.faces| ==> Area(f.faces[j]) <= Area(f.faces[k])) &&
        (forall j :: 0 <= j < k ==> Area(f.faces[j]) < Area(f.faces[k]))
  {
    var k := LargestFace(f.faces);
    assert Detect(KerasDetector(m), f).bbox == Some(f.faces[k]);
  }

  /**
   * The detector's label is always one of the five emotions, except when a
   * loaded network has more outputs than the table has labels.
   */
  lemma DetectLabelKnown(d: EmotionDetector, f: Frame)
    requires d.KerasDetector? ==> d.model.labels == Emotions && |f.preds| <= |Emotions|
    ensures Detect(d, f).emotion in Emotions
  {
    if d.KerasDetector? && f.faces != [] && d.model.loaded {
      KerasLabelKnown(f.preds);
    }
  }

  /** A frame in which the mesh finds no face is reported as neutral with confidence 0 and no box. */
  lemma HeuristicNoFaceScenario(f: Frame)
    requires f.mesh.NoFace?
    ensures Detect(MediapipeDetector, f) == Detection("neutral", 0.0, None)
  {
  }

  /**
   * One located face and a network that puts 0.82 on class 1 give
   * ("happy", 0.82, that box).
   */
  lemma KerasHappyScenario(b: Box)
    ensures Detect(KerasDetector(KerasEmotionModel(Emotions, true)),
                   Frame(NoFace, [b], [0.03, 0.82, 0.05, 0.06, 0.04]))
         == Detection("happy", 0.82, Some(b))
  {
    var preds: Probs := [0.03, 0.82, 0.05, 0.06, 0.04];
    assert IsFirstMax(preds, 1);
    FirstMaxUnique(preds, 1, ArgMax(preds));
  }
}
