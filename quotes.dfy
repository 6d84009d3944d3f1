/**
 * Quoted phrases of the feedback: `"..."` pairs with non-empty contents are
 * collected (`extractQuotedPhrases`), pooled without repetition over the five
 * commented sections (`allPhrases`), and drawn as hoverable spans when a
 * section is rendered (`renderFeedbackWithClickableQuotes`); hovering one
 * sets the highlight word of the whole view.
 */
module Quotes {
  import opened Common
  import opened Text
  import opened Sections

  /**
   * The match of `/"([^"]+)"/` at the start of `s`, given by the index of its
   * closing quote: an opening quote, at least one other character, and the
   * next quote after it.
   */
  function QuoteClose(s: string): (r: Option<nat>)
    ensures r.Some? ==> 2 <= r.value < |s| && s[0] == '"' && s[r.value] == '"' && '"' !in s[1..r.value]
    ensures r.None? ==> s == [] || s[0] != '"' || |s| < 2 || s[1] == '"' || '"' !in s[1..]
  {
    if s == [] || s[0] != '"' then None
    else
      var k := IndexOfChar(s[1..], '"');
      if k >= 1 then
        assert s[1..][..k] == s[1..k + 1];
        Some(k + 1)
      else None
  }

  /**
   * `text.match(/"([^"]+)"/g)` with the quotes then removed from each match:
   * the contents of the pairs, left to right.
   */
  function ExtractQuotedPhrases(s: string): (phrases: seq<string>)
    ensures forall k :: 0 <= k < |phrases| ==> phrases[k] != [] && '"' !in phrases[k]
    decreases |s|
  {
    if s == [] then []
    else match QuoteClose(s)
      case Some(j) => [s[1..j]] + ExtractQuotedPhrases(s[j + 1..])
      case None => ExtractQuotedPhrases(s[1..])
  }

  /**
   * `text.split(/"([^"]+)"/g)`: the text between pairs at even positions, and
   * the captured contents of each pair at the odd positions.
   */
  function SplitQuotes(s: string): (parts: seq<string>)
    ensures |parts| % 2 == 1
    decreases |s|
  {
    if s == [] then [[]]
    else match QuoteClose(s)
      case Some(j) => [[], s[1..j]] + SplitQuotes(s[j + 1..])
      case None =>
        var r := SplitQuotes(s[1..]);
        [[s[0]] + r[0]] + r[1..]
  }

  /** The parts at odd positions. */
  function OddParts(parts: seq<string>): seq<string> {
    if |parts| < 2 then [] else [parts[1]] + OddParts(parts[2..])
  }

  /** Puts the parts back, each odd one between quotes. */
  function Rebuild(parts: seq<string>): string
    requires |parts| % 2 == 1
  {
    if |parts| == 1 then parts[0]
    else parts[0] + "\"" + parts[1] + "\"" + Rebuild(parts[2..])
  }

  /** The phrases are exactly the odd parts of the split on pairs. */
  lemma {:induction false} ExtractIsOddParts(s: string)
    ensures ExtractQuotedPhrases(s) == OddParts(SplitQuotes(s))
    decreases |s|
  {
    if s != [] {
      match QuoteClose(s)
      case Some(j) =>
        ExtractIsOddParts(s[j + 1..]);
        assert ([[], s[1..j]] + SplitQuotes(s[j + 1..]))[2..] == SplitQuotes(s[j + 1..]);
      case None =>
        ExtractIsOddParts(s[1..]);
        var r := SplitQuotes(s[1..]);
        var parts := [[s[0]] + r[0]] + r[1..];
        if |r| >= 2 {
          assert parts[1] == r[1] && parts[2..] == r[2..];
        }
    }
  }

  lemma {:induction false} RebuildHead(h: string, r: seq<string>)
    requires |r| % 2 == 1
    ensures Rebuild([h + r[0]] + r[1..]) == h + Rebuild(r)
  {
    var parts := [h + r[0]] + r[1..];
    if |r| > 1 {
      assert parts[1] == r[1] && parts[2..] == r[2..];
      var tail := "\"" + r[1] + "\"" + Rebuild(r[2..]);
      assert Rebuild(parts) == parts[0] + "\"" + parts[1] + "\"" + Rebuild(parts[2..]);
      assert Rebuild(parts) == (h + r[0]) + tail;
      assert Rebuild(r) == r[0] + tail;
    }
  }

  /** Putting the split back together, with the quotes, gives the text. */
  lemma {:induction false} RebuildSplitQuotes(s: string)
    ensures Rebuild(SplitQuotes(s)) == s
    decreases |s|
  {
    if s != [] {
      match QuoteClose(s)
      case Some(j) =>
        RebuildSplitQuotes(s[j + 1..]);
        RebuildPair(s, j, SplitQuotes(s[j + 1..]));
      case None =>
        RebuildSplitQuotes(s[1..]);
        RebuildHead([s[0]], SplitQuotes(s[1..]));
        assert s == [s[0]] + s[1..];
    }
  }

  lemma {:induction false} RebuildPair(s: string, j: nat, r: seq<string>)
    requires 2 <= j < |s| && s[0] == '"' && s[j] == '"'
    requires |r| % 2 == 1 && Rebuild(r) == s[j + 1..]
    ensures Rebuild([[], s[1..j]] + r) == s
  {
    var parts := [[], s[1..j]] + r;
    assert parts[2..] == r;
    assert s == [] + "\"" + s[1..j] + "\"" + s[j + 1..];
  }

  /** A text without any non-empty pair is one part and has no phrase. */
  lemma {:induction false} NoPairNoPhrase(s: string)
    requires '"' !in s
    ensures SplitQuotes(s) == [s] && ExtractQuotedPhrases(s) == []
    decreases |s|
  {
    if s != [] {
      assert s[1..] == s[1..|s|];
      NoPairNoPhrase(s[1..]);
      assert s == [s[0]] + s[1..];
    }
  }

  /** A phrase written between quotes inside a text is found. */
  lemma QuotedPhraseFound(pre: string, p: string, post: string)
    requires '"' !in pre && p != [] && '"' !in p
    ensures ExtractQuotedPhrases(pre + "\"" + p + "\"" + post)
      == [p] + ExtractQuotedPhrases(post)
    decreases |pre|
  {
    var s := pre + "\"" + p + "\"" + post;
    if pre == [] {
      assert s == "\"" + p + "\"" + post;
      assert s[1..][..|p|] == p && s[1..][|p|] == '"';
      assert IndexOfChar(s[1..], '"') == |p|;
      assert QuoteClose(s) == Some(|p| + 1);
      assert s[1..|p| + 1] == p && s[|p| + 2..] == post;
    } else {
      assert s[0] == pre[0] && s[1..] == pre[1..] + "\"" + p + "\"" + post;
      QuotedPhraseFound(pre[1..], p, post);
    }
  }

  /**
   * `allPhrases`: the phrases of summary, good, bad, recommend and learn, in
   * that order, each kept once at its first appearance. The example section
   * does not contribute.
   */
  function AllPhrases(f: Feedback6): seq<string> {
    Dedup(ExtractQuotedPhrases(f.summary) + ExtractQuotedPhrases(f.good) + ExtractQuotedPhrases(f.bad)
          + ExtractQuotedPhrases(f.recommend) + ExtractQuotedPhrases(f.learn))
  }

  /**
   * A phrase is pooled exactly when it is quoted in one of the five commented
   * sections; the pool has no repetition and does not depend on the example
   * section.
   */
  lemma AllPhrasesMembers(f: Feedback6, p: string)
    ensures p in AllPhrases(f) <==>
      p in ExtractQuotedPhrases(f.summary) || p in ExtractQuotedPhrases(f.good) || p in ExtractQuotedPhrases(f.bad)
      || p in ExtractQuotedPhrases(f.recommend) || p in ExtractQuotedPhrases(f.learn)
    ensures Distinct(AllPhrases(f))
    ensures forall x :: AllPhrases(f.(example := x)) == AllPhrases(f)
  {
    var all := ExtractQuotedPhrases(f.summary) + ExtractQuotedPhrases(f.good) + ExtractQuotedPhrases(f.bad)
      + ExtractQuotedPhrases(f.recommend) + ExtractQuotedPhrases(f.learn);
    var d := Dedup(all);
    if p in d {
      var i :| 0 <= i < |d| && d[i] == p;
    }
    if p in all {
      var i :| 0 <= i < |all| && all[i] == p;
    }
  }

  // ---------------------------------------------------------------------------
  // Rendering a section line with hoverable quotes

  /** A rendered piece: plain text, or a quoted phrase drawn highlighted with hover handlers. */
  datatype QuoteSpan = Plain(text: string) | Hoverable(phrase: string)

  /**
   * `renderFeedbackWithClickableQuotes(text, enableHighlight)`: an odd part
   * (a phrase) becomes hoverable when highlighting is enabled and the phrase
   * is pooled; every other part is shown as plain text, an odd one without
   * its quotes.
   */
  function RenderQuotes(text: string, enableHighlight: bool, phrases: seq<string>): (spans: seq<QuoteSpan>)
    ensures |spans| == |SplitQuotes(text)|
  {
    MarkQuoteParts(SplitQuotes(text), 0, enableHighlight, phrases)
  }

  function MarkQuoteParts(parts: seq<string>, idx: nat, enableHighlight: bool, phrases: seq<string>): (spans: seq<QuoteSpan>)
    ensures |spans| == |parts|
    ensures forall k :: 0 <= k < |parts| ==>
      spans[k] == if (idx + k) % 2 == 1 && parts[k] in phrases && enableHighlight
                  then Hoverable(parts[k]) else Plain(parts[k])
  {
    if parts == [] then []
    else
      var here := if idx % 2 == 1 && parts[0] in phrases && enableHighlight then Hoverable(parts[0]) else Plain(parts[0]);
      [here] + MarkQuoteParts(parts[1..], idx + 1, enableHighlight, phrases)
  }

  /** What a span shows on screen: a hoverable phrase is drawn between quotes. */
  function Shown(spans: seq<QuoteSpan>): string {
    if spans == [] then []
    else
      match spans[0]
      case Plain(t) => t + Shown(spans[1..])
      case Hoverable(p) => "\"" + p + "\"" + Shown(spans[1..])
  }

  /** The phrases of a text are the ones marked in its split: any hoverable span holds one of them. */
  lemma HoverablesArePhrases(text: string, enableHighlight: bool, phrases: seq<string>)
    ensures forall k :: 0 <= k < |RenderQuotes(text, enableHighlight, phrases)| ==>
      (RenderQuotes(text, enableHighlight, phrases)[k].Hoverable? <==>
        enableHighlight && k % 2 == 1 && SplitQuotes(text)[k] in phrases)
  {
  }

  lemma {:induction false} ShownOfAllHoverable(parts: seq<string>, phrases: seq<string>)
    requires |parts| % 2 == 1
    requires forall k :: 0 <= k < |parts| && k % 2 == 1 ==> parts[k] in phrases
    ensures Shown(MarkQuoteParts(parts, 0, true, phrases)) == Rebuild(parts)
    decreases |parts|
  {
    var spans := MarkQuoteParts(parts, 0, true, phrases);
    if |parts| > 1 {
      var rest := parts[2..];
      forall k | 0 <= k < |rest| && k % 2 == 1
        ensures rest[k] in phrases
      {
        assert rest[k] == parts[k + 2];
      }
      ShownOfAllHoverable(rest, phrases);
      assert spans[2..] == MarkQuoteParts(rest, 0, true, phrases);
      assert spans[0] == Plain(parts[0]) && spans[1] == Hoverable(parts[1]);
      assert Shown(spans) == parts[0] + Shown(spans[1..]);
      assert spans[1..][1..] == spans[2..];
    }
  }

  /**
   * When every phrase of the text is pooled and highlighting is on, the
   * rendering shows the text exactly, quotes included.
   */
  lemma RenderQuotesShowsText(text: string, phrases: seq<string>)
    requires forall p :: p in ExtractQuotedPhrases(text) ==> p in phrases
    ensures Shown(RenderQuotes(text, true, phrases)) == text
  {
    var parts := SplitQuotes(text);
    ExtractIsOddParts(text);
    forall k | 0 <= k < |parts| && k % 2 == 1
      ensures parts[k] in phrases
    {
      OddPartsMember(parts, k);
    }
    ShownOfAllHoverable(parts, phrases);
    RebuildSplitQuotes(text);
  }

  lemma {:induction false} OddPartsMember(parts: seq<string>, k: nat)
    requires k < |parts| && k % 2 == 1
    ensures parts[k] in OddParts(parts)
    decreases k
  {
    if k > 1 {
      OddPartsMember(parts[2..], k - 2);
    }
  }

  /**
   * Each section's phrases are pooled, so a section's text rendered in one
   * piece is shown unchanged, every quote in it kept.
   */
  lemma SectionShownWhole(f: Feedback6, k: nat)
    requires k < 5
    ensures Shown(RenderQuotes(f.Slot(k), true, AllPhrases(f))) == f.Slot(k)
  {
    forall p | p in ExtractQuotedPhrases(f.Slot(k))
      ensures p in AllPhrases(f)
    {
      AllPhrasesMembers(f, p);
    }
    RenderQuotesShowsText(f.Slot(k), AllPhrases(f));
  }

  /**
   * The highlight word after a hover event on a span: entering a hoverable
   * span sets it to the phrase and leaving clears it, when the view was given
   * a highlight callback; plain spans have no handlers.
   */
  function OnMouseEnter(span: QuoteSpan, hasCallback: bool, highlightWord: Option<string>): (r: Option<string>)
    ensures span.Hoverable? && hasCallback ==> r == Some(span.phrase)
    ensures !(span.Hoverable? && hasCallback) ==> r == highlightWord
  {
    if span.Hoverable? && hasCallback then Some(span.phrase) else highlightWord
  }

  function OnMouseLeave(span: QuoteSpan, hasCallback: bool, highlightWord: Option<string>): (r: Option<string>)
    ensures span.Hoverable? && hasCallback ==> r == None
    ensures !(span.Hoverable? && hasCallback) ==> r == highlightWord
  {
    if span.Hoverable? && hasCallback then None else highlightWord
  }
}
