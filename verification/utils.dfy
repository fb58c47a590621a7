/**
 * utils.py: the label-to-query mapping, the offline fallback table and the
 * recommendation resolver that prefers a live video search and falls back
 * to the table.
 *
 * The search service is a parameter: a function from the request the code
 * builds to what the call would produce (an exception, or the response's
 * items).
 */
module Recommendations {
  import opened Outcomes
  import Text
  import EmotionDetection

  /** A recommendation: (title, link). */
  type Rec = (string, string)

  /** Every offline link is a search-results page. */
  const ResultsPrefix: string := "https://www.youtube.com/results?search_query="

  /** The offline table, one entry per emotion label. */
  const Fallback: map<string, seq<Rec>> := map[
    "happy" := [("Upbeat Pop Mix", ResultsPrefix + "upbeat+happy+songs")],
    "sad" := [("Sad Songs Collection", ResultsPrefix + "sad+songs")],
    "angry" := [("Calming Music", ResultsPrefix + "calming+music")],
    "surprise" := [("Energetic Playlist", ResultsPrefix + "energetic+songs")],
    "neutral" := [("Chill Vibes", ResultsPrefix + "chill+vibes+playlist")]
  ]

  /** The search query used for each known label. */
  const QueryFor: map<string, string> := map[
    "happy" := "upbeat happy songs playlist",
    "sad" := "emotional sad songs playlist",
    "angry" := "calming music for anger playlist",
    "surprise" := "energetic music playlist",
    "neutral" := "chill vibes playlist"
  ]

  /** Both tables are keyed by exactly the detector's five labels. */
  lemma TablesCoverEmotions()
    ensures forall e :: e in EmotionDetection.Emotions <==> e in Fallback
    ensures forall e :: e in EmotionDetection.Emotions <==> e in QueryFor
  {
  }

  /** `emotion_to_query`: known labels in any letter case, else "<label> mood songs". */
  function EmotionToQuery(emotion: string): (q: string)
    ensures Text.ToLower(emotion) in QueryFor ==> q == QueryFor[Text.ToLower(emotion)]
    ensures Text.ToLower(emotion) !in QueryFor ==> q == emotion + " mood songs"
  {
    var key := Text.ToLower(emotion);
    if key in QueryFor then QueryFor[key] else emotion + " mood songs"
  }

  /** Labels that differ only in letter case get the same query. */
  lemma QueryIgnoresCase(e1: string, e2: string)
    requires Text.ToLower(e1) == Text.ToLower(e2)
    requires Text.ToLower(e1) in QueryFor
    ensures EmotionToQuery(e1) == EmotionToQuery(e2)
  {
  }

  /** An unknown label keeps its original case in the query. */
  lemma UnknownLabelQuery(emotion: string)
    requires Text.ToLower(emotion) !in QueryFor
    ensures Text.StartsWith(EmotionToQuery(emotion), emotion)
    ensures EmotionToQuery(emotion)[|emotion|..] == " mood songs"
  {
  }

  /** `FALLBACK.get(emotion.lower(), FALLBACK["neutral"])`. */
  function FallbackFor(emotion: string): (r: seq<Rec>)
    ensures |r| == 1
    ensures r in Fallback.Values
    ensures Text.ToLower(emotion) in Fallback ==> r == Fallback[Text.ToLower(emotion)]
    ensures Text.ToLower(emotion) !in Fallback ==> r == Fallback["neutral"]
  {
    var key := Text.ToLower(emotion);
    if key in Fallback then Fallback[key] else Fallback["neutral"]
  }

  /** Each label's fallback is its own entry and differs from every other label's. */
  lemma FallbackDistinguishesLabels(e1: string, e2: string)
    requires e1 in EmotionDetection.Emotions && e2 in EmotionDetection.Emotions
    ensures FallbackFor(e1) == FallbackFor(e2) <==> e1 == e2
  {
    Text.ToLowerOfLower(e1);
    Text.ToLowerOfLower(e2);
  }

  /** The parameters the resolver passes to the search call. */
  datatype SearchRequest = SearchRequest(apiKey: string, query: string, maxResults: int)

  /** One response item; a missing field raises KeyError when read. */
  datatype SearchItem = SearchItem(title: Option<string>, videoId: Option<string>)

  /** What building, sending and executing the search produces. */
  datatype RemoteOutcome = Raised | Response(items: seq<SearchItem>)

  const WatchPrefix: string := "https://www.youtube.com/watch?v="

  predicate WellFormed(items: seq<SearchItem>)
  {
    forall i :: 0 <= i < |items| ==> items[i].title.Some? && items[i].videoId.Some?
  }

  /** One (title, watch link) pair per item, in item order. */
  function VideoLinks(items: seq<SearchItem>): (videos: seq<Rec>)
    requires WellFormed(items)
    ensures |videos| == |items|
    ensures forall i :: 0 <= i < |items| ==>
      videos[i] == (items[i].title.value, WatchPrefix + items[i].videoId.value)
  {
    if items == [] then []
    else VideoLinks(items[..|items| - 1]) +
           [(items[|items| - 1].title.value, WatchPrefix + items[|items| - 1].videoId.value)]
  }

  /** What `get_youtube_recommendations` returns. */
  function Recommend(emotion: string, apiKey: string, maxResults: int,
                     search: SearchRequest -> RemoteOutcome): (r: seq<Rec>)
    ensures r != []
  {
    if apiKey == "" then FallbackFor(emotion)
    else
      match search(SearchRequest(apiKey, EmotionToQuery(emotion), maxResults))
      case Raised => FallbackFor(emotion)
      case Response(items) =>
        if !WellFormed(items) || items == [] then FallbackFor(emotion)
        else VideoLinks(items)
  }

  /**
   * `get_youtube_recommendations`: the video list is built item by item; a
   * missing field, an exception from the client or an empty result all end
   * in the fallback for the label.
   */
  method GetYoutubeRecommendations(emotion: string, apiKey: string, maxResults: int,
                                   search: SearchRequest -> RemoteOutcome)
    returns (recs: seq<Rec>)
    ensures recs == Recommend(emotion, apiKey, maxResults, search)
  {
    if apiKey == "" {
      return FallbackFor(emotion);
    }
    var q := EmotionToQuery(emotion);
    var res := search(SearchRequest(apiKey, q, maxResults));
    if res.Raised? {
      return FallbackFor(emotion);
    }
    var items := res.items;
    var videos: seq<Rec> := [];
    var i := 0;
    while i < |items|
      invariant 0 <= i <= |items|
      invariant WellFormed(items[..i])
      invariant videos == VideoLinks(items[..i])
    {
      var item := items[i];
      if item.title.None? || item.videoId.None? {
        // KeyError inside the try block: the handler returns the fallback.
        assert !WellFormed(items);
        return FallbackFor(emotion);
      }
      videos := videos + [(item.title.value, WatchPrefix + item.videoId.value)];
      assert items[..i + 1][..i] == items[..i];
      i := i + 1;
    }
    assert items[..i] == items;
    if videos == [] {
      return FallbackFor(emotion);
    }
    return videos;
  }

  /** With no API key the search service is never consulted. */
  lemma NoKeyNoRemoteCall(emotion: string, maxResults: int,
                          s1: SearchRequest -> RemoteOutcome, s2: SearchRequest -> RemoteOutcome)
    ensures Recommend(emotion, "", maxResults, s1) == Recommend(emotion, "", maxResults, s2)
    ensures Recommend(emotion, "", maxResults, s1) == FallbackFor(emotion)
  {
  }

  /** The resolver never returns an empty list. */
  lemma RecommendNeverEmpty(emotion: string, apiKey: string, maxResults: int,
                            search: SearchRequest -> RemoteOutcome)
    ensures |Recommend(emotion, apiKey, maxResults, search)| >= 1
  {
  }

  /** Every way the live search can fail yields the label's fallback. */
  lemma FailuresFallBack(emotion: string, apiKey: string, maxResults: int,
                         search: SearchRequest -> RemoteOutcome)
    requires apiKey != ""
    requires var out := search(SearchRequest(apiKey, EmotionToQuery(emotion), maxResults));
      out.Raised? || out.items == [] || !WellFormed(out.items)
    ensures Recommend(emotion, apiKey, maxResults, search) == FallbackFor(emotion)
  {
  }

  /** A successful search yields one watch link per item, in order. */
  lemma LiveResultsInOrder(emotion: string, apiKey: string, maxResults: int,
                           search: SearchRequest -> RemoteOutcome, items: seq<SearchItem>)
    requires apiKey != ""
    requires search(SearchRequest(apiKey, EmotionToQuery(emotion), maxResults)) == Response(items)
    requires items != [] && WellFormed(items)
    ensures var r := Recommend(emotion, apiKey, maxResults, search);
      |r| == |items| &&
      forall i :: 0 <= i < |items| ==>
        r[i].0 == items[i].title.value && Text.StartsWith(r[i].1, WatchPrefix) &&
        r[i].1[|WatchPrefix|..] == items[i].videoId.value
  {
  }
}
