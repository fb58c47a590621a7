/**
 * advanced_app.py: a capture thread classifies every `skip`-th good frame
 * and publishes (label, confidence) into a queue of capacity 2 that drops
 * its oldest entry when full; the page's consumer takes entries in order,
 * keeps the last 30 labels and shows the 8 newest.
 *
 * The two threads are modelled separately, each as sequential code on the
 * shared queue; every operation keeps the queue's invariant, so it holds
 * under any interleaving of whole operations. `RunPage` composes one run
 * of the page, with the capture thread finishing before the consumer.
 */
module AdvancedApp {
  import opened Outcomes
  import opened EmotionDetection
  import FrameLoop
  import Recommendations
  import Panels

  /** The size the page gives its result queue. */
  const QueueSize: nat := 2
  /** The number of labels the consumer remembers. */
  const HistorySize: nat := 30
  /** The number of labels the consumer shows. */
  const ShownSize: nat := 8
  const NoKeyMessage: string := "Provide YouTube API key for live recommendations."

  /** `queue.Queue(maxsize)` used only through `full`, `get_nowait` and `put_nowait`. */
  class DropOldestQueue<T> {
    const maxsize: nat
    var items: seq<T>

    predicate Valid()
      reads this
    {
      1 <= maxsize && |items| <= maxsize
    }

    constructor(maxsize: nat)
      requires maxsize >= 1
      ensures Valid() && this.maxsize == maxsize && items == []
    {
      this.maxsize := maxsize;
      items := [];
    }

    /** `if q.full(): q.get_nowait()` then `q.put_nowait(x)`. */
    method PutDropOldest(x: T)
      requires Valid()
      modifies this
      ensures Valid()
      ensures items == (if |old(items)| >= maxsize then old(items)[1..] else old(items)) + [x]
      ensures items == Panels.Trimmed(old(items) + [x], maxsize)
    {
      if |items| >= maxsize {
        items := items[1..];
      }
      items := items + [x];
      assert items == (old(items) + [x])[|old(items)| + 1 - |items|..];
    }

    /** `if not q.empty(): q.get_nowait()`: the oldest entry, if there is one. */
    method TryGet() returns (x: Option<T>)
      requires Valid()
      modifies this
      ensures Valid()
      ensures old(items) == [] ==> x == None && items == []
      ensures old(items) != [] ==> x == Some(old(items)[0]) && items == old(items)[1..]
    {
      if items == [] {
        x := None;
      } else {
        x := Some(items[0]);
        items := items[1..];
      }
    }
  }

  /**
   * A full queue loses its oldest entry: after putting a, b and c into a
   * queue of capacity 2, the consumer gets b, then c, then nothing.
   */
  method DropOldestScenario(a: Prediction, b: Prediction, c: Prediction)
    returns (first: Option<Prediction>, second: Option<Prediction>, third: Option<Prediction>)
    ensures first == Some(b) && second == Some(c) && third == None
  {
    var q := new DropOldestQueue<Prediction>(QueueSize);
    q.PutDropOldest(a);
    q.PutDropOldest(b);
    q.PutDropOldest(c);
    first := q.TryGet();
    second := q.TryGet();
    third := q.TryGet();
  }

  /** The (label, confidence) entries a list of detections publishes. */
  function Entries(ds: seq<Detection>): seq<Prediction>
  {
    if ds == [] then [] else Entries(ds[..|ds| - 1]) + [Prediction(ds[|ds| - 1].emotion, ds[|ds| - 1].confidence)]
  }

  lemma EntriesSnoc(ds: seq<Detection>, x: Detection)
    ensures Entries(ds + [x]) == Entries(ds) + [Prediction(x.emotion, x.confidence)]
  {
    assert (ds + [x])[..|ds|] == ds;
  }

  /** Publishing one more detection moves the queue's window by one entry. */
  lemma PublishStep(items0: seq<Prediction>, published: seq<Detection>, det: Detection, cap: nat)
    ensures Panels.Trimmed(Panels.Trimmed(items0 + Entries(published), cap) + [Prediction(det.emotion, det.confidence)], cap)
         == Panels.Trimmed(items0 + Entries(published + [det]), cap)
  {
    var es, entry := Entries(published), Prediction(det.emotion, det.confidence);
    EntriesSnoc(published, det);
    Panels.TrimmedAppend(items0 + es, entry, cap);
    assert items0 + (es + [entry]) == (items0 + es) + [entry];
  }

  /**
   * One pass of `capture_loop`'s body: a failed read changes nothing; a
   * good read is counted, and every `skip`-th one is classified and
   * published with drop-oldest.
   */
  method CaptureStep(read: FrameLoop.CameraRead, frameCount: nat, skip: int,
                     d: EmotionDetector, q: DropOldestQueue<Prediction>)
    returns (count: nat, det: Option<Detection>)
    requires skip >= 1
    requires q.Valid()
    modifies q
    ensures q.Valid()
    ensures read.ReadFailed? ==> count == frameCount && det == None && q.items == old(q.items)
    ensures read.Captured? ==> count == frameCount + 1
    ensures read.Captured? && count % skip != 0 ==> det == None && q.items == old(q.items)
    ensures read.Captured? && count % skip == 0 ==>
      && det == Some(Detect(d, read.frame))
      && q.items == Panels.Trimmed(old(q.items) + [Prediction(det.value.emotion, det.value.confidence)], q.maxsize)
  {
    count, det := frameCount, None;
    match read {
      case ReadFailed =>
        // time.sleep(0.05); continue
      case Captured(frame) =>
        count := count + 1;
        if count % skip == 0 {
          var r := Detect(d, frame);
          q.PutDropOldest(Prediction(r.emotion, r.confidence));
          det := Some(r);
        }
    }
  }

  /**
   * One pass of `capture_loop` placed in the run: after the `i`-th read,
   * the count, the published detections and the queue's window describe
   * the reads up to and including it.
   */
  method CaptureNext(attempts: seq<FrameLoop.CameraRead>, i: nat, frameCount: nat, skip: int,
                     d: EmotionDetector, q: DropOldestQueue<Prediction>,
                     published: seq<Detection>, ghost items0: seq<Prediction>)
    returns (count: nat, published': seq<Detection>)
    requires skip >= 1 && i < |attempts|
    requires q.Valid()
    requires frameCount == |FrameLoop.SuccessFrames(attempts[..i])|
    requires published == FrameLoop.DetectAll(d, FrameLoop.ClassifiedFrames(attempts[..i], skip))
    requires q.items == Panels.Trimmed(items0 + Entries(published), q.maxsize)
    modifies q
    ensures q.Valid()
    ensures count == |FrameLoop.SuccessFrames(attempts[..i + 1])|
    ensures published' == FrameLoop.DetectAll(d, FrameLoop.ClassifiedFrames(attempts[..i + 1], skip))
    ensures q.items == Panels.Trimmed(items0 + Entries(published'), q.maxsize)
  {
    var det;
    count, det := CaptureStep(attempts[i], frameCount, skip, d, q);
    published' := published;
    if det.Some? {
      FrameLoop.DetectedAt(d, attempts, i, skip);
      PublishStep(items0, published, det.value, q.maxsize);
      published' := published + [det.value];
    } else if attempts[i].Captured? {
      FrameLoop.SkippedAt(attempts, i, skip);
    } else {
      FrameLoop.ClassifiedStep(attempts, i, skip);
    }
  }

  /**
   * `capture_loop` over the reads made while the running event stays set.
   * A failed read is skipped without counting; every `skip`-th good frame
   * is classified and published with drop-oldest. An unopened camera ends
   * the thread at once.
   */
  method CaptureLoop(cameraOpen: bool, attempts: seq<FrameLoop.CameraRead>, skip: int,
                     d: EmotionDetector, q: DropOldestQueue<Prediction>)
    returns (frameCount: nat, published: seq<Detection>)
    requires skip >= 1
    requires q.Valid()
    modifies q
    ensures q.Valid()
    ensures !cameraOpen ==> frameCount == 0 && published == [] && q.items == old(q.items)
    ensures cameraOpen ==> frameCount == |FrameLoop.SuccessFrames(attempts)|
    ensures cameraOpen ==> published == FrameLoop.DetectAll(d, FrameLoop.ClassifiedFrames(attempts, skip))
    ensures cameraOpen ==> q.items == Panels.Trimmed(old(q.items) + Entries(published), q.maxsize)
  {
    frameCount, published := 0, [];
    if !cameraOpen {
      return;
    }
    ghost var items0 := q.items;
    var i := 0;
    while i < |attempts|
      invariant 0 <= i <= |attempts|
      invariant q.Valid()
      invariant frameCount == |FrameLoop.SuccessFrames(attempts[..i])|
      invariant published == FrameLoop.DetectAll(d, FrameLoop.ClassifiedFrames(attempts[..i], skip))
      invariant q.items == Panels.Trimmed(items0 + Entries(published), q.maxsize)
    {
      frameCount, published := CaptureNext(attempts, i, frameCount, skip, d, q, published, items0);
      i := i + 1;
    }
    assert attempts[..i] == attempts;
  }

  /** The queue of the page never holds more than two results. */
  lemma QueueBounded(items: seq<Prediction>, published: seq<Detection>)
    requires |items| <= QueueSize
    ensures |Panels.Trimmed(items + Entries(published), QueueSize)| <= QueueSize
    ensures published != [] ==>
      var t := Panels.Trimmed(items + Entries(published), QueueSize);
      t[|t| - 1] == Prediction(published[|published| - 1].emotion, published[|published| - 1].confidence)
  {
  }

  /** The labels of queue entries, in order. */
  function EntryLabels(es: seq<Prediction>): seq<string>
  {
    if es == [] then [] else EntryLabels(es[..|es| - 1]) + [es[|es| - 1].emotion]
  }

  /** Taking one more entry moves the label window by that entry's label. */
  lemma ConsumeStep(h: seq<string>, items: seq<Prediction>, t: nat)
    requires t < |items|
    ensures Panels.Trimmed(Panels.Trimmed(h + EntryLabels(items[..t]), HistorySize) + [items[t].emotion], HistorySize)
         == Panels.Trimmed(h + EntryLabels(items[..t + 1]), HistorySize)
  {
    assert items[..t + 1] == items[..t] + [items[t]];
    Panels.TrimmedAppend(h + EntryLabels(items[..t]), items[t].emotion, HistorySize);
    assert h + EntryLabels(items[..t + 1]) == (h + EntryLabels(items[..t])) + [items[t].emotion];
  }

  /**
   * The recommendation placeholder after an entry with this label: the
   * resolver's list, or the key prompt when no API key is given.
   */
  function PanelFor(emotion: string, apiKey: string,
                    search: Recommendations.SearchRequest -> Recommendations.RemoteOutcome): (p: Panels.RecPanel)
    ensures p.Info? <==> apiKey == ""
    ensures p.Info? ==> p.message == NoKeyMessage
    ensures p.MarkdownPanel? ==> p.md != ""
  {
    if apiKey == "" then Panels.Info(NoKeyMessage)
    else Panels.MarkdownPanel(Panels.MarkdownList(Recommendations.Recommend(emotion, apiKey, 5, search)))
  }

  /** The recommendations are looked up only when an API key is given. */
  method ShowRecommendations(emotion: string, apiKey: string,
                             search: Recommendations.SearchRequest -> Recommendations.RemoteOutcome)
    returns (panel: Panels.RecPanel)
    ensures panel == PanelFor(emotion, apiKey, search)
    ensures panel.Info? <==> apiKey == ""
  {
    var recs: seq<Recommendations.Rec>;
    if apiKey != "" {
      recs := Recommendations.GetYoutubeRecommendations(emotion, apiKey, 5, search);
      Recommendations.RecommendNeverEmpty(emotion, apiKey, 5, search);
    } else {
      recs := [];
    }
    panel := Panels.ShowRecs(recs, NoKeyMessage);
  }

  /** The consumer side of the page: the running event and the right-hand column. */
  class Dashboard {
    var running: bool
    var history: seq<string>
    var recent: seq<string>
    var recPanel: Option<Panels.RecPanel>

    constructor()
      ensures !running && history == [] && recent == [] && recPanel == None
    {
      running, history, recent, recPanel := false, [], [], None;
    }

    /** Start sets the event, then Stop clears it: Stop wins when both are pressed. */
    method PressButtons(start: bool, stop: bool)
      modifies this`running
      ensures running == (!stop && (start || old(running)))
    {
      if start {
        running := true;
      }
      if stop {
        running := false;
      }
    }

    /**
     * One pass of the consumer loop: take the oldest result, if any, append
     * its label to the 30-entry history, show the 8 newest labels and the
     * recommendations, which are looked up only when an API key is given.
     */
    method Poll(q: DropOldestQueue<Prediction>, apiKey: string,
                search: Recommendations.SearchRequest -> Recommendations.RemoteOutcome)
      returns (took: bool)
      requires q.Valid()
      requires q != this as object
      modifies this, q
      ensures q.Valid() && running == old(running)
      ensures took == (old(q.items) != [])
      ensures !took ==>
        q.items == old(q.items) && history == old(history) && recent == old(recent) && recPanel == old(recPanel)
      ensures took ==>
        var e := old(q.items)[0];
        && q.items == old(q.items)[1..]
        && history == Panels.Trimmed(old(history) + [e.emotion], HistorySize)
        && recent == Panels.NewestFirst(history, ShownSize)
        && recPanel == Some(PanelFor(e.emotion, apiKey, search))
      ensures took ==> (recPanel.value.Info? <==> apiKey == "")
    {
      var entry := q.TryGet();
      took := entry.Some?;
      if entry.None? {
        // time.sleep(0.05)
        return;
      }
      var e := entry.value;
      history := history + [e.emotion];
      if |history| > HistorySize {
        history := history[|history| - HistorySize..];
      }
      recent := Panels.NewestFirst(history, ShownSize);
      var p := ShowRecommendations(e.emotion, apiKey, search);
      recPanel := Some(p);
    }

    /**
     * The right-hand column after the first `taken` entries of `items0` have
     * been consumed from the state `h0`, `r0`, `p0`: the window of the last
     * 30 labels, and, once an entry was taken, the 8 newest of them and the
     * panel for the last label taken.
     */
    ghost predicate ShowsTaken(items0: seq<Prediction>, taken: nat, h0: seq<string>, r0: seq<string>,
                               p0: Option<Panels.RecPanel>, apiKey: string,
                               search: Recommendations.SearchRequest -> Recommendations.RemoteOutcome)
      reads this`history, this`recent, this`recPanel
      requires taken <= |items0|
    {
      && history == Panels.Trimmed(h0 + EntryLabels(items0[..taken]), HistorySize)
      && (taken == 0 ==> recent == r0 && recPanel == p0)
      && (taken > 0 ==>
            && recent == Panels.NewestFirst(history, ShownSize)
            && recPanel == Some(PanelFor(items0[taken - 1].emotion, apiKey, search)))
    }

    /** One `Poll` of the consumer loop, placed among the entries `items0` it consumes. */
    method ConsumeNext(q: DropOldestQueue<Prediction>, apiKey: string,
                       search: Recommendations.SearchRequest -> Recommendations.RemoteOutcome,
                       taken: nat, ghost items0: seq<Prediction>, ghost h0: seq<string>,
                       ghost r0: seq<string>, ghost p0: Option<Panels.RecPanel>)
      returns (taken': nat)
      requires q.Valid() && q != this as object
      requires taken <= |items0| && q.items == items0[taken..]
      requires ShowsTaken(items0, taken, h0, r0, p0, apiKey, search)
      modifies this, q
      ensures q.Valid() && running == old(running)
      ensures taken' == if taken < |items0| then taken + 1 else taken
      ensures q.items == items0[taken'..]
      ensures ShowsTaken(items0, taken', h0, r0, p0, apiKey, search)
    {
      var took := Poll(q, apiKey, search);
      taken' := taken;
      if took {
        ConsumeStep(h0, items0, taken);
        taken' := taken + 1;
      }
    }

    /**
     * The consumer loop: poll, then leave once the running event is clear;
     * `iterations` is how many passes run before the page is interrupted.
     * Entries are taken oldest first, and the running event is clear on exit.
     */
    method ConsumerLoop(q: DropOldestQueue<Prediction>, apiKey: string,
                        search: Recommendations.SearchRequest -> Recommendations.RemoteOutcome,
                        iterations: nat)
      returns (taken: nat)
      requires q.Valid() && iterations >= 1
      requires |history| <= HistorySize
      requires q != this as object
      modifies this, q
      ensures q.Valid() && !running
      ensures var passes := if old(running) then iterations else 1;
        taken == if passes < |old(q.items)| then passes else |old(q.items)|
      ensures q.items == old(q.items)[taken..]
      ensures taken <= |old(q.items)|
      ensures ShowsTaken(old(q.items), taken, old(history), old(recent), old(recPanel), apiKey, search)
    {
      taken := 0;
      var i := 0;
      assert old(history) + EntryLabels(old(q.items)[..0]) == history;
      while true
        invariant q.Valid() && running == old(running)
        invariant 0 <= i < iterations && (!old(running) ==> i == 0)
        invariant taken == if i < |old(q.items)| then i else |old(q.items)|
        invariant q.items == old(q.items)[taken..]
        invariant ShowsTaken(old(q.items), taken, old(history), old(recent), old(recPanel), apiKey, search)
        decreases iterations - i
      {
        taken := ConsumeNext(q, apiKey, search, taken, old(q.items), old(history), old(recent), old(recPanel));
        if !running || i + 1 == iterations {
          break;
        }
        i := i + 1;
      }
      running := false;
    }
  }

  /**
   * Start's capture thread on a fresh queue, or nothing when Start was not
   * pressed.
   */
  method StartCapture(start: bool, cameraOpen: bool, attempts: seq<FrameLoop.CameraRead>, skip: int,
                      d: EmotionDetector, q: DropOldestQueue<Prediction>)
    returns (frameCount: nat, published: seq<Detection>)
    requires skip >= 1
    requires q.Valid() && q.items == []
    modifies q
    ensures q.Valid()
    ensures frameCount == (if start && cameraOpen then |FrameLoop.SuccessFrames(attempts)| else 0)
    ensures published == (if start && cameraOpen then FrameLoop.DetectAll(d, FrameLoop.ClassifiedFrames(attempts, skip)) else [])
    ensures q.items == Panels.Trimmed(Entries(published), q.maxsize)
  {
    frameCount, published := 0, [];
    if start {
      frameCount, published := CaptureLoop(cameraOpen, attempts, skip, d, q);
      assert [] + Entries(published) == Entries(published);
    }
  }

  /**
   * One run of the page script: a fresh queue of capacity 2, a fresh
   * running event and an empty history; Start sets the event and starts the
   * capture thread with the sidebar's detector, Stop clears the event, and
   * the consumer loop then takes what the capture thread published.
   * `attempts` are the reads the capture thread makes while the event is
   * set; the capture thread is taken to finish before the consumer starts.
   */
  method RunPage(start: bool, stop: bool, selection: string, modelPath: string,
                 store: ModelStore, skip: int, cameraOpen: bool,
                 attempts: seq<FrameLoop.CameraRead>, apiKey: string,
                 search: Recommendations.SearchRequest -> Recommendations.RemoteOutcome,
                 iterations: nat)
    returns (q: DropOldestQueue<Prediction>, dash: Dashboard, frameCount: nat,
             published: seq<Detection>, taken: nat)
    requires skip >= 1 && iterations >= 1
    ensures fresh(q) && fresh(dash)
    ensures q.Valid() && q.maxsize == QueueSize && !dash.running
    ensures var d := FrameLoop.ConfiguredDetector(selection, modelPath, store);
      && frameCount == (if start && cameraOpen then |FrameLoop.SuccessFrames(attempts)| else 0)
      && published == (if start && cameraOpen then FrameLoop.DetectAll(d, FrameLoop.ClassifiedFrames(attempts, skip)) else [])
    ensures var window := Panels.Trimmed(Entries(published), QueueSize);
      var passes := if start && !stop then iterations else 1;
      && taken == (if passes < |window| then passes else |window|)
      && q.items == window[taken..]
      && dash.ShowsTaken(window, taken, [], [], None, apiKey, search)
  {
    var detector := FrameLoop.ConfiguredDetector(selection, modelPath, store);
    q := new DropOldestQueue<Prediction>(QueueSize);
    dash := new Dashboard();
    dash.PressButtons(start, stop);
    assert dash.running == (start && !stop) && dash.history == [] && dash.recent == [] && dash.recPanel == None;
    frameCount, published := StartCapture(start, cameraOpen, attempts, skip, detector, q);
    assert dash.running == (start && !stop) && dash.history == [] && dash.recent == [] && dash.recPanel == None;
    taken := dash.ConsumerLoop(q, apiKey, search, iterations);
  }
}
