/**
 * What the front-ends keep and show besides the camera image: the recent
 * history window, and the recommendation panel built by accumulating one
 * markdown line (app.py, advanced_app.py) or one HTML card (modern_app.py)
 * per recommendation.
 */
module Panels {
  import Text
  import EmotionDetection
  import Recommendations

  // ---------------------------------------------------------------------
  // History windows
  // ---------------------------------------------------------------------

  /** `h[-cap:]` after `if len(h) > cap`: the newest `cap` entries, oldest first. */
  function Trimmed<T>(h: seq<T>, cap: nat): (r: seq<T>)
    ensures |r| == if |h| > cap then cap else |h|
    ensures r == h[|h| - |r|..]
  {
    if |h| > cap then h[|h| - cap..] else h
  }

  /** Trimming after every append keeps the same window as trimming once at the end. */
  lemma TrimmedAppend<T>(h: seq<T>, x: T, cap: nat)
    ensures Trimmed(Trimmed(h, cap) + [x], cap) == Trimmed(h + [x], cap)
  {
    var t := Trimmed(h, cap);
    assert t + [x] == (h + [x])[|h| - |t|..];
  }

  /** The labels of a sequence of detections, in order. */
  function Labels(ds: seq<EmotionDetection.Detection>): (ls: seq<string>)
    ensures |ls| == |ds|
    ensures forall i :: 0 <= i < |ds| ==> ls[i] == ds[i].emotion
  {
    if ds == [] then [] else Labels(ds[..|ds| - 1]) + [ds[|ds| - 1].emotion]
  }

  lemma LabelsSnoc(ds: seq<EmotionDetection.Detection>, d: EmotionDetection.Detection)
    ensures Labels(ds + [d]) == Labels(ds) + [d.emotion]
  {
    assert (ds + [d])[..|ds|] == ds;
  }

  /** `s[::-1]`. */
  function Reverse<T>(s: seq<T>): seq<T>
  {
    if s == [] then [] else [s[|s| - 1]] + Reverse(s[..|s| - 1])
  }

  lemma {:induction false} ReverseAt<T>(s: seq<T>)
    ensures |Reverse(s)| == |s|
    ensures forall i :: 0 <= i < |s| ==> Reverse(s)[i] == s[|s| - 1 - i]
  {
    if s != [] {
      ReverseAt(s[..|s| - 1]);
    }
  }

  /** `s[:k]`. */
  function Take<T>(s: seq<T>, k: nat): seq<T>
  {
    if |s| <= k then s else s[..k]
  }

  /** `h[::-1][:k]`: at most `k` entries, the newest first. */
  function NewestFirst<T>(h: seq<T>, k: nat): (r: seq<T>)
    ensures |r| == if |h| < k then |h| else k
    ensures forall i :: 0 <= i < |r| ==> r[i] == h[|h| - 1 - i]
  {
    ReverseAt(h);
    Take(Reverse(h), k)
  }

  // ---------------------------------------------------------------------
  // The recommendation panel
  // ---------------------------------------------------------------------

  /** `f"- [{title}]({link})  \n"`. */
  function MarkdownLine(r: Recommendations.Rec): string
  {
    "- [" + r.0 + "](" + r.1 + ")  " + "\n"
  }

  /** The markdown the loop `md += ...` accumulates, one line per recommendation. */
  function MarkdownList(recs: seq<Recommendations.Rec>): string
  {
    if recs == [] then "" else MarkdownList(recs[..|recs| - 1]) + MarkdownLine(recs[|recs| - 1])
  }

  /** `md = ""; for title, link in recs: md += ...`. */
  method RenderMarkdown(recs: seq<Recommendations.Rec>) returns (md: string)
    ensures md == MarkdownList(recs)
  {
    md := "";
    var i := 0;
    while i < |recs|
      invariant 0 <= i <= |recs|
      invariant md == MarkdownList(recs[..i])
    {
      assert recs[..i + 1][..i] == recs[..i];
      md := md + MarkdownLine(recs[i]);
      i := i + 1;
    }
    assert recs[..i] == recs;
  }

  predicate NoChar(recs: seq<Recommendations.Rec>, c: char)
  {
    forall i :: 0 <= i < |recs| ==> c !in recs[i].0 && c !in recs[i].1
  }

  lemma MarkdownLineBreaks(r: Recommendations.Rec)
    requires '\n' !in r.0 && '\n' !in r.1
    ensures Text.CountChar(MarkdownLine(r), '\n') == 1
  {
    Text.CountCharAbsent("- [" + r.0 + "](" + r.1 + ")  ", '\n');
    Text.CountCharSingle('\n');
    Text.CountCharAppend("- [" + r.0 + "](" + r.1 + ")  ", "\n", '\n');
  }

  /**
   * When no title or link contains a line break, the accumulated markdown
   * has exactly one line per recommendation.
   */
  lemma {:induction false} MarkdownOneLinePerRec(recs: seq<Recommendations.Rec>)
    requires NoChar(recs, '\n')
    ensures Text.CountChar(MarkdownList(recs), '\n') == |recs|
  {
    if recs != [] {
      var init := recs[..|recs| - 1];
      MarkdownOneLinePerRec(init);
      MarkdownLineBreaks(recs[|recs| - 1]);
      Text.CountCharAppend(MarkdownList(init), MarkdownLine(recs[|recs| - 1]), '\n');
    }
  }

  /** The play-button glyph of a recommendation card. */
  const PlayGlyph: char := '\U{25B6}'

  const Indent16: string := "                "
  const Indent20: string := "                    "

  /** Everything of a card before the play glyph. */
  function CardHead(r: Recommendations.Rec): string
  {
    "\n" + Indent16 + "<div class=\"rec-card\">\n"
      + Indent20 + "<b>" + r.0 + "</b><br>\n"
      + Indent20 + "<a class=\"btn-play\" href=\"" + r.1 + "\" target=\"_blank\">Play "
  }

  const CardTail: string := "</a>\n" + Indent16 + "</div>\n" + Indent16

  /** The f-string `html += ...` appends for one recommendation. */
  function HtmlCard(r: Recommendations.Rec): string
  {
    CardHead(r) + [PlayGlyph] + CardTail
  }

  /** The HTML the loop `html += ...` accumulates. */
  function CardList(recs: seq<Recommendations.Rec>): string
  {
    if recs == [] then "" else CardList(recs[..|recs| - 1]) + HtmlCard(recs[|recs| - 1])
  }

  /** `html = ""; for title, link in recs: html += ...`. */
  method RenderCards(recs: seq<Recommendations.Rec>) returns (html: string)
    ensures html == CardList(recs)
  {
    html := "";
    var i := 0;
    while i < |recs|
      invariant 0 <= i <= |recs|
      invariant html == CardList(recs[..i])
    {
      assert recs[..i + 1][..i] == recs[..i];
      html := html + HtmlCard(recs[i]);
      i := i + 1;
    }
    assert recs[..i] == recs;
  }

  lemma CardPlayButtons(r: Recommendations.Rec)
    requires PlayGlyph !in r.0 && PlayGlyph !in r.1
    ensures Text.CountChar(HtmlCard(r), PlayGlyph) == 1
  {
    Text.CountCharAbsent(CardHead(r), PlayGlyph);
    Text.CountCharAbsent(CardTail, PlayGlyph);
    Text.CountCharSingle(PlayGlyph);
    Text.CountCharAppend(CardHead(r), [PlayGlyph], PlayGlyph);
    Text.CountCharAppend(CardHead(r) + [PlayGlyph], CardTail, PlayGlyph);
  }

  /**
   * When no title or link contains the play glyph, the accumulated HTML has
   * exactly one play button, hence one card, per recommendation.
   */
  lemma {:induction false} OneCardPerRec(recs: seq<Recommendations.Rec>)
    requires NoChar(recs, PlayGlyph)
    ensures Text.CountChar(CardList(recs), PlayGlyph) == |recs|
  {
    if recs != [] {
      var init := recs[..|recs| - 1];
      OneCardPerRec(init);
      CardPlayButtons(recs[|recs| - 1]);
      Text.CountCharAppend(CardList(init), HtmlCard(recs[|recs| - 1]), PlayGlyph);
    }
  }

  /** The recommendation placeholder: an info message or a markdown list. */
  datatype RecPanel = Info(message: string) | MarkdownPanel(md: string)

  /** `if recs: markdown(md) else: info(message)`. */
  method ShowRecs(recs: seq<Recommendations.Rec>, message: string) returns (p: RecPanel)
    ensures recs == [] ==> p == Info(message)
    ensures recs != [] ==> p == MarkdownPanel(MarkdownList(recs))
  {
    if recs != [] {
      var md := RenderMarkdown(recs);
      p := MarkdownPanel(md);
    } else {
      p := Info(message);
    }
  }
}
