# TUNE TRAP emotion-aware music recommender, modelled in Dafny

TUNE TRAP reads webcam frames and classifies the face in every `skip`-th
good frame as one of five emotions (neutral, happy, sad, surprise, angry).
It does this with a landmark heuristic or with an optional Keras model. It
keeps a short history of labels and shows music recommendations for the
latest label. The recommendations come from a live video search when an API
key is given, and from a fixed offline table otherwise. Three pages share
this core:

- `app.py`: single-threaded. It stops at the first failed read.
- `advanced_app.py`: a capture thread feeds a two-slot drop-oldest queue to
  a consumer loop.
- `modern_app.py`: a styled page with emoji badges and HTML recommendation
  cards.

The model, module by module:

- `Outcomes`: Option and Result.
- `Text`: ASCII lower-casing, `startswith`, decimal rendering of an index,
  and character counting.
- `EmotionDetection` (`emotion_detector.py`):
  - the heuristic thresholds;
  - the Keras wrapper's arg-max with its `str(idx)` fallback label;
  - model loading as a function of what exists and what loads;
  - the detector's mode check;
  - the keras path's largest-face choice.
- `Recommendations` (`utils.py`):
  - the query table and the fallback table;
  - the resolver, as the specification function `Recommend` and the method
    `GetYoutubeRecommendations` with its loop over the response items.
- `FrameLoop`:
  - the frame counter and skip stride shared by the three pages, proved
    equal to a strided selection;
  - reading until the first failure;
  - the sidebar's detector selection.
- `Panels`:
  - the history window (`history[-n:]`) and the newest-first view
    (`history[::-1][:k]`);
  - the markdown list and HTML card rendering loops;
  - the recommendation placeholder.
- `AdvancedApp`:
  - the queue as a class;
  - the capture loop, proved against the strided selection;
  - the consumer (`Dashboard`) with its Start/Stop, poll and loop;
  - one run of the page script (`RunPage`): fresh queue and event, Start's capture thread, then the consumer loop.
- `App`: `run_webcam` and the page's Start/Stop session.
- `ModernApp`:
  - the emoji table and the page's own fallback table;
  - the per-frame column;
  - the persistent session with its loop.

Camera reads, face meshes, cascade detections, network predictions and the
video search are inputs:

- A read is `ReadFailed` or `Captured(frame)`.
- A frame carries the mesh ratios the heuristic measures, the cascade's
  boxes and the prediction vector the network would return.
- The model store says whether TensorFlow imports, which paths exist and
  which load.
- The search service is a function from the request the code builds to an
  exception or a list of items.

## Model

| member | source | states |
|---|---|---|
| Text.ToLower | utils.py:20 | lower-casing keeps the length, maps each upper-case letter 'A'..'Z' to its lower-case partner 32 code points up, and keeps every other character |
| Text.ToLowerIdempotent | utils.py:20 | lower-casing twice is lower-casing once |
| Text.DecimalString | emotion_detector.py:82 | `str(idx)` is a non-empty digit string without a leading zero |
| Text.DecimalRoundTrip | emotion_detector.py:82 | reading `str(idx)` back as a number gives `idx` |
| EmotionDetection.HeuristicPredict | emotion_detector.py:15-47 | the heuristic only produces labels from the five emotions; no face gives ("neutral", 0.0) |
| EmotionDetection.HeuristicDecisionTable | emotion_detector.py:40-47 | each label holds exactly under its threshold condition, with the earlier tests taking priority; the confidence is mouth opening, 1 − eye opening, mouth opening or 0.35; "sad" is never produced |
| EmotionDetection.HeuristicConfidenceBands | emotion_detector.py:40-47 | for non-negative ratios the confidence is positive, above 0.035 for surprise, in (0.993, 1] for angry and in (0.02, 0.035] for happy |
| EmotionDetection.ArgMax | emotion_detector.py:80-81 | the index holds the maximum of the predictions and no earlier index does |
| EmotionDetection.FirstMaxUnique | emotion_detector.py:80-81 | the first maximal index is unique |
| EmotionDetection.ArgMaxIsTheFirstMax | emotion_detector.py:80-81 | any first maximal index is the one arg-max returns |
| EmotionDetection.NewKerasModel | emotion_detector.py:50-64 | the model is loaded iff TensorFlow imports and a non-empty path is given, exists and loads; the labels are kept |
| EmotionDetection.LabelAt | emotion_detector.py:82 | an index within the labels gives that label; beyond them, exactly the decimal string of the index: digits only, whose value is the index |
| EmotionDetection.FallbackLabelIsNotAnEmotion | emotion_detector.py:82 | an index beyond the five emotions yields a label outside them |
| EmotionDetection.KerasPredict | emotion_detector.py:75-83 | no model gives ("neutral", 0.0); otherwise the label at the first maximal index with the maximum as confidence |
| EmotionDetection.KerasLabelKnown | emotion_detector.py:79-83 | with at most five outputs the label is one of the emotions |
| EmotionDetection.Areas | emotion_detector.py:106 | one area w·h per box, in order |
| EmotionDetection.LargestFace | emotion_detector.py:106-107 | the chosen box has the largest area, and every earlier box has a strictly smaller one (the stable descending sort keeps the first of equal boxes) |
| EmotionDetection.NewDetector | emotion_detector.py:86-93 | construction succeeds iff the mode is "mediapipe" or "keras"; the variant follows the mode; keras builds its model from the given path and the five labels; otherwise it fails with the ValueError message |
| EmotionDetection.Detect | emotion_detector.py:97-110 | mediapipe returns the heuristic's result with no box; keras with no face returns ("neutral", 0.0, None); otherwise the model's prediction with the largest face's box |
| EmotionDetection.DetectPicksLargestFace | emotion_detector.py:103-110 | the returned box is one of the detected faces, none larger, and the first among equals |
| EmotionDetection.DetectLabelKnown | emotion_detector.py:97-110 | with the five labels and at most five outputs, every detection carries one of the emotions |
| EmotionDetection.HeuristicNoFaceScenario | emotion_detector.py:19-20 | a frame without a face mesh is reported as ("neutral", 0.0, None) |
| EmotionDetection.KerasHappyScenario | emotion_detector.py:104-110 | the prediction vector [0.03, 0.82, 0.05, 0.06, 0.04] on one face gives ("happy", 0.82) and that face's box |
| Recommendations.TablesCoverEmotions | utils.py:4-19 | both tables are keyed by exactly the five emotions |
| Recommendations.EmotionToQuery | utils.py:12-20 | a known label in any case maps to its query; any other label maps to "<label> mood songs" |
| Recommendations.QueryIgnoresCase | utils.py:20 | labels equal up to letter case get the same query |
| Recommendations.UnknownLabelQuery | utils.py:20 | an unknown label's query is the label itself followed by " mood songs" |
| Recommendations.FallbackFor | utils.py:25 | one entry from the table: the lower-cased label's, else neutral's |
| Recommendations.FallbackDistinguishesLabels | utils.py:4-10 | two emotions share a fallback entry only if they are the same emotion |
| Recommendations.VideoLinks | utils.py:31-35 | one (title, watch URL + video id) per item, in order |
| Recommendations.Recommend | utils.py:22-41 | what `get_youtube_recommendations` returns: no key → the fallback; a raise, a malformed item or no items → the fallback; otherwise one watch link per item; never an empty list |
| Recommendations.GetYoutubeRecommendations | utils.py:22-41 | the method's result equals the resolver specification: no key → fallback; exception, malformed item or no items → fallback; otherwise the video links |
| Recommendations.NoKeyNoRemoteCall | utils.py:23-25 | without a key the result does not depend on the search service and is the fallback entry |
| Recommendations.RecommendNeverEmpty | utils.py:22-41 | the resolver never returns an empty list |
| Recommendations.FailuresFallBack | utils.py:36-41 | a raising call, a malformed item or an empty response gives the fallback entry |
| Recommendations.LiveResultsInOrder | utils.py:31-38 | a non-empty well-formed response gives one watch link per item, in the response's order |
| FrameLoop.SuccessFrames | app.py:45-52 | the frames of the successful reads in order, the reads `frame_count` counts; at most one per read |
| FrameLoop.ClassifiedFrames | app.py:52-54 | the frames the read-by-read loop hands to the detector: a good read whose new count is a multiple of `skip`; its closed form is stated by ClassifiedIsStrided |
| FrameLoop.ClassifiedIsStrided | app.py:52-55 | the classified frames are exactly every `skip`-th good frame, ⌊good/skip⌋ of them |
| FrameLoop.SkipThreeScenario | app.py:52-55 | nine good reads with skip 3 classify the 3rd, 6th and 9th frames |
| FrameLoop.ClassifiedStep | advanced_app.py:40-47 | a failed read adds nothing; a good read adds one to the count, and a frame to the classified ones exactly when the new count is a multiple of `skip` |
| FrameLoop.DetectedAt | modern_app.py:179-183 | good read i, the `skip`-th since the last classified one, is counted and adds its detection to the published ones |
| FrameLoop.SkippedAt | modern_app.py:179-181 | any other good read is counted and classifies nothing |
| FrameLoop.UntilFailure | app.py:47-51 | the reads consumed form a prefix of good reads, and the next read, if any, failed |
| FrameLoop.UntilFailureAt | app.py:47-51 | a loop that stops at read i, having seen only good reads before it, consumed exactly the first i reads |
| FrameLoop.SelectDetectorConfig | app.py:37 | "keras" and the model path iff the selection starts with "keras"; otherwise "mediapipe" and no path |
| FrameLoop.SelectedConfigAccepted | app.py:37 | the page's selection always yields a detector; the ValueError cannot occur |
| FrameLoop.ConfiguredDetector | advanced_app.py:21 | the sidebar gives a keras detector iff the selection starts with "keras", loading its model from the given path |
| Panels.Trimmed | app.py:65-66 | the last `cap` entries, or all of them when there are fewer |
| Panels.TrimmedAppend | advanced_app.py:82-84 | trimming after every append equals trimming once after all appends |
| Panels.NewestFirst | app.py:67 | the `k` newest entries, newest first |
| Panels.RenderMarkdown | app.py:73-77 | the loop builds the markdown list of all recommendations, in order |
| Panels.MarkdownOneLinePerRec | app.py:74-76 | the markdown has one line break per recommendation |
| Panels.RenderCards | modern_app.py:211-218 | the loop builds one HTML card per recommendation, in order |
| Panels.OneCardPerRec | modern_app.py:212-218 | the HTML has exactly one play button per recommendation |
| Panels.ShowRecs | app.py:73-79 | no recommendations shows the info message; otherwise the markdown list |
| AdvancedApp.DropOldestQueue.constructor | advanced_app.py:29 | an empty queue of the given capacity |
| AdvancedApp.DropOldestQueue.PutDropOldest | advanced_app.py:53-58 | the oldest entry is dropped when the queue is full; the queue is the last `maxsize` entries of the old contents plus the new one |
| AdvancedApp.DropOldestQueue.TryGet | advanced_app.py:78-79 | the oldest entry is removed and returned, or nothing when the queue is empty |
| AdvancedApp.DropOldestScenario | advanced_app.py:53-56 | after putting a, b, c into a two-slot queue the consumer gets b, then c, then nothing |
| AdvancedApp.PublishStep | advanced_app.py:53-56 | publishing one more detection moves the queue's window by that entry |
| AdvancedApp.CaptureStep | advanced_app.py:40-58 | a failed read changes nothing; a good read is counted; every `skip`-th one is detected and put with drop-oldest |
| AdvancedApp.CaptureNext | advanced_app.py:40-58 | after the `i`-th read of a run, the count is the number of good reads so far, the published detections are the detector applied to every `skip`-th good frame among them, and the queue is the window over its old entries plus those |
| AdvancedApp.CaptureLoop | advanced_app.py:32-61 | the count is the number of good reads; the published detections are the detector applied to every `skip`-th good frame; the queue is the last two of its old entries plus those; an unopened camera changes nothing |
| AdvancedApp.QueueBounded | advanced_app.py:53-56 | the queue holds at most two entries, the newest of them the latest detection |
| AdvancedApp.ConsumeStep | advanced_app.py:82-84 | taking one more entry moves the 30-label window by that entry's label |
| AdvancedApp.PanelFor | advanced_app.py:86-96 | the recommendation placeholder for a label: the key prompt exactly when no key is given, otherwise a non-empty markdown list |
| AdvancedApp.ShowRecommendations | advanced_app.py:86-96 | the resolver's markdown list when a key is given, the key prompt exactly when none is |
| AdvancedApp.Dashboard.constructor | advanced_app.py:63-64 | an empty history and empty placeholders, with the running event, created fresh and clear at line 29 |
| AdvancedApp.Dashboard.PressButtons | advanced_app.py:66-74 | Start sets the running event and Stop clears it, Stop winning |
| AdvancedApp.Dashboard.Poll | advanced_app.py:78-98 | the oldest entry is taken when there is one; its label joins the 30-entry history; the 8 newest labels are shown; the panel is the key prompt iff no key is given, else the resolver's markdown |
| AdvancedApp.Dashboard.ConsumeNext | advanced_app.py:77-98 | one poll takes the next entry if any and keeps ShowsTaken: the 30-label window over the labels taken, the 8 newest of them and the panel for the last one |
| AdvancedApp.Dashboard.ConsumerLoop | advanced_app.py:76-104 | entries are consumed oldest first, one per pass, as many as the passes allow; the queue keeps the rest; the history is the trimmed old history plus their labels; when any was taken, the 8 newest labels are shown and the panel is the one for the last label taken, otherwise both placeholders are unchanged (ShowsTaken); the running event is clear at the end |
| AdvancedApp.StartCapture | advanced_app.py:66-70 | with Start, the capture loop's count and detections on the fresh queue, which then holds the last two of them; without Start, nothing |
| AdvancedApp.RunPage | advanced_app.py:28-104 | one run of the page: a fresh queue of capacity 2 and a fresh clear event; the count and detections of the capture thread when Start is pressed, with the sidebar's detector; the consumer takes from that window as many entries as its passes allow (all passes while running, one after Stop) and shows the labels and panel of ShowsTaken; the event is clear at the end |
| App.PanelFor | app.py:73-79 | the recommendation placeholder for a label is always a non-empty markdown list, never the info message |
| App.ShowRecommendations | app.py:68-79 | the panel is the resolver's markdown list for the label, never the "No recommendations" message |
| App.ShowDetection | app.py:64-79 | the label joins the 20-entry history and heads the 10 shown; the panel is the resolver's markdown for it |
| App.WebcamStep | app.py:52-79 | one more good read keeps the placeholders equal to what the consumed reads determine |
| App.RunWebcam | app.py:39-82 | the loop consumes the reads up to the first failure; it counts them, detects every `skip`-th frame, and shows the trimmed history, the newest ten labels and the latest recommendations; an unopened camera leaves everything empty |
| App.AppSession.constructor | app.py:34-35 | the session starts not running |
| App.AppSession.Rerun | app.py:37-91 | Start sets running and runs the webcam with the sidebar's detector; Stop, handled afterwards, clears it |
| ModernApp.EmojiFor | modern_app.py:199-200 | the badge's emoji is a single character |
| ModernApp.EmojiTable | modern_app.py:199-200 | each emotion has its own non-default emoji; labels equal up to case share one; anything else gets the default |
| ModernApp.RecsFor | modern_app.py:210 | one entry; with the local table, the placeholder link |
| ModernApp.RecsMatchUtilsOnLabels | modern_app.py:210 | for the five labels the page shows utils' fallback entry; "HAPPY" gets neutral's entry here but happy's from utils |
| ModernApp.MediapipeColumn | modern_app.py:183-210 | with the landmark detector the badge has a label's own emoji and the cards are utils' entry for the label |
| ModernApp.LocalTableShape | modern_app.py:10-17 | the local table has the same keys as utils' table, one entry each, all with the placeholder link |
| ModernApp.RecTable | modern_app.py:8-17 | whichever table the page binds has a neutral entry, so the lookup's default exists |
| ModernApp.ShowColumn | modern_app.py:199-219 | the badge's emoji is the label's, one character; the column shows the detection, the last 15 labels (a suffix of the history) and one card per entry of the table for the label |
| ModernApp.ShowsOneMore | modern_app.py:207-219 | showing one more detection appends its label to the history and makes the column show it |
| ModernApp.ModernStep | modern_app.py:179-219 | one good read is counted; every second one appends its label and refreshes the column, so history and column stay what the consumed reads determine |
| ModernApp.ModernSession.constructor | modern_app.py:8-17 | not running, empty history, and the table bound at import: utils' when its import succeeds, else the page's own |
| ModernApp.ModernSession.PressButtons | modern_app.py:104-107 | Start sets running and Stop clears it, Stop winning; the history is untouched |
| ModernApp.ReadUntilFailure | modern_app.py:171-219 | the loop consumes the reads up to the first failure and counts them; every second one's label is appended to the given history, and the column shows the latest detection from the table |
| ModernApp.ModernSession.RunLoop | modern_app.py:165-223 | nothing happens when not running; an unopened camera changes nothing; otherwise the reads up to the first failure are consumed; every second frame's label is appended to the untrimmed session history; the column shows the latest detection, the last 15 labels and its cards from the session's table |
| ModernApp.TwoReadsScenario | modern_app.py:171-181 | two good reads classify only the second frame |

## Left out

- Camera I/O, colour conversion, rectangle and text drawing, image display, and all page layout and CSS are not modelled. The frames are opaque inputs.
- The face mesh and the Haar cascade are foreign calls. They are modelled as the ratios and boxes they produce. Landmark pixel rounding and the norm computation happen inside the ratios.
- The network's preprocessing (resize, scaling) and `target_size` are not modelled. Its prediction vector is an input. NaN predictions are not modelled.
- Floating-point arithmetic is modelled with reals, and `{conf:.2f}` formatting is not modelled.
- `str.lower` and `str.upper` are modelled for ASCII letters only.
- The `", ".join` rendering of the history is not modelled. The model keeps the list that is shown.
- `time.sleep`, `st.success`, `st.warning`, `st.error` and `st.write` have no observable state in the model.
- The video search is a fixed function of the request. Repeated calls cannot return different answers.
- App.ShowDetection: the `except Exception` around `get_youtube_recommendations` in app.py is not modelled. The resolver catches every failure itself, so that branch cannot be reached in the model.
- ModernApp.ModernSession.RunLoop: the badge's emoji is rendered at each detection (ShowColumn states it), but the run's result does not keep it. It is EmojiFor of the shown detection's label.
- AdvancedApp.Dashboard.ConsumerLoop: the interleaving of the capture thread and the consumer is not modelled. The two loops are modelled separately over the shared queue. `iterations` stands for the rerun that interrupts the loop.
- AdvancedApp.RunPage: each rerun builds a fresh queue and event, and RunPage builds a fresh `DropOldestQueue` and `Dashboard` in the same way. The capture thread is run to completion before the consumer loop starts, which is one interleaving of the two threads. `attempts` are the reads it makes while the event is set, so the effect of Stop on the thread is in the caller's choice of reads. A capture thread surviving a rerun is not modelled.
- App.AppSession.Rerun and ModernApp.ModernSession.RunLoop: the loop condition on the running flag cannot change during a run in a single-threaded script. A button press that interrupts a running script is not modelled.
- train_emotion.py is not part of this model.
