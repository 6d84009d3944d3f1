/**
 * The six-way section splitter of the feedback view (`parseFeedback6`).
 *
 * The source finds its sections with the global, single-line regular
 * expression `\d[).-] ?[\s\S]*?(?=\n\d[).-]|$)`. Read as a scanner: the first
 * match starts at the first digit followed by `)`, `.` or `-` anywhere in the
 * text (also inside a preamble or mid-line); a match runs lazily up to the first
 * position, at least two characters in, that is either the end of the text or a
 * newline followed by another digit-and-punctuation marker; the next match
 * begins just after that newline. Slot k of the result takes the k-th match,
 * with a leading "k)", "k." or "k-" and one optional space removed, trimmed.
 */
module Sections {
  import opened Common
  import opened Text

  datatype Feedback6 = Feedback6(
    summary: string, good: string, bad: string,
    recommend: string, learn: string, example: string)
  {
    /** The slots in their fixed order: summary, good, bad, recommend, learn, example. */
    function Slot(k: nat): string
      requires k < 6
    {
      if k == 0 then summary else if k == 1 then good else if k == 2 then bad
      else if k == 3 then recommend else if k == 4 then learn else example
    }
  }

  /** The answer kept whole as the summary, every other slot empty. */
  function Fallback(feedback: string): Feedback6 {
    Feedback6(feedback, "", "", "", "", "")
  }

  const Empty6: Feedback6 := Feedback6("", "", "", "", "", "")

  predicate IsLabelPunct(c: char) {
    c == ')' || c == '.' || c == '-'
  }

  /** `\d[).-]` matches at position i. */
  predicate MarkerAt(s: string, i: nat) {
    i + 1 < |s| && IsDigit(s[i]) && IsLabelPunct(s[i + 1])
  }

  /** The lookahead `(?=\n\d[).-]|$)` holds at position j (no `m` flag: `$` is the end of the text). */
  predicate BoundaryAt(s: string, j: nat) {
    j == |s| || (j < |s| && s[j] == '\n' && MarkerAt(s, j + 1))
  }

  predicate HasMarker(s: string) {
    exists i :: 0 <= i < |s| && MarkerAt(s, i)
  }

  /** The first marker at or after `from`: where the scan for the next match succeeds. */
  function FirstMarker(s: string, from: nat): (r: Option<nat>)
    ensures r.Some? ==> from <= r.value < |s| && MarkerAt(s, r.value)
    ensures r.Some? ==> forall i :: from <= i < r.value ==> !MarkerAt(s, i)
    ensures r.None? ==> forall i :: from <= i < |s| ==> !MarkerAt(s, i)
    decreases |s| - from
  {
    if from >= |s| then None
    else if MarkerAt(s, from) then Some(from)
    else FirstMarker(s, from + 1)
  }

  /** Where the lazy body of a match stops: the first boundary at or after `j`. */
  function SectionEnd(s: string, j: nat): (e: nat)
    requires j <= |s|
    ensures j <= e <= |s| && BoundaryAt(s, e)
    ensures forall k :: j <= k < e ==> !BoundaryAt(s, k)
    decreases |s| - j
  {
    if BoundaryAt(s, j) then j else SectionEnd(s, j + 1)
  }

  /** The matches of the global regular expression, from a match that starts at marker `i` on. */
  function MatchesFrom(s: string, i: nat): seq<string>
    requires MarkerAt(s, i)
    decreases |s| - i
  {
    var e := SectionEnd(s, i + 2);
    if e == |s| then [s[i..]] else [s[i..e]] + MatchesFrom(s, e + 1)
  }

  /** `feedback.match(...) || []`. */
  function AllMatches(s: string): seq<string> {
    match FirstMarker(s, 0)
    case None => []
    case Some(i) => MatchesFrom(s, i)
  }

  /** `m.replace(/^n[).-] ?/, '')`: the label is removed only when the match begins with the digit of `n`. */
  function StripLabel(m: string, n: nat): string {
    if |m| >= 2 && m[0] as int == '0' as int + n && IsLabelPunct(m[1]) then
      if |m| >= 3 && m[2] == ' ' then m[3..] else m[2..]
    else m
  }

  /** What slot k (0-based) receives from the k-th match; '' without one. */
  function SlotText(matches: seq<string>, k: nat): string
    requires k < 6
  {
    if k < |matches| && matches[k] != [] then Trim(StripLabel(matches[k], k + 1)) else []
  }

  predicate Blank(v: string) {
    v == [] || Trim(v) == []
  }

  /** The slots filled from the matches, before the degenerate-output test. */
  function Split(matches: seq<string>): Feedback6 {
    Feedback6(SlotText(matches, 0), SlotText(matches, 1), SlotText(matches, 2),
              SlotText(matches, 3), SlotText(matches, 4), SlotText(matches, 5))
  }

  /** The two degenerate-output tests: every slot blank, or the summary longer than 0.8 of the input. */
  predicate Degenerate(split: Feedback6, feedback: string) {
    (Blank(split.summary) && Blank(split.good) && Blank(split.bad)
     && Blank(split.recommend) && Blank(split.learn) && Blank(split.example))
    || 5 * |split.summary| > 4 * |feedback|
  }

  /** The value `parseFeedback6` returns. */
  function Parsed(feedback: string): Feedback6 {
    var split := Split(AllMatches(feedback));
    if Degenerate(split, feedback) then Fallback(feedback) else split
  }

  /**
   * `parseFeedback6(feedback)`: fills the slots one by one from the matches,
   * then falls back to the whole answer as the summary when the split is
   * degenerate.
   */
  method ParseFeedback6(feedback: string) returns (r: Feedback6)
    ensures r == Parsed(feedback)
  {
    var matches := AllMatches(feedback);
    var sections := FillSlots(matches);
    var isEmpty := Blank(sections.summary) && Blank(sections.good) && Blank(sections.bad)
      && Blank(sections.recommend) && Blank(sections.learn) && Blank(sections.example);
    var summaryTooLong := 5 * |sections.summary| > 4 * |feedback|;
    if isEmpty || summaryTooLong {
      r := Fallback(feedback);
    } else {
      r := sections;
    }
  }

  /** The six `if (matches[k]) sections.<slot> = ...` assignments, in order. */
  method FillSlots(matches: seq<string>) returns (sections: Feedback6)
    ensures sections == Split(matches)
  {
    sections := Empty6;
    if |matches| > 0 && matches[0] != [] { sections := sections.(summary := Trim(StripLabel(matches[0], 1))); }
    if |matches| > 1 && matches[1] != [] { sections := sections.(good := Trim(StripLabel(matches[1], 2))); }
    if |matches| > 2 && matches[2] != [] { sections := sections.(bad := Trim(StripLabel(matches[2], 3))); }
    if |matches| > 3 && matches[3] != [] { sections := sections.(recommend := Trim(StripLabel(matches[3], 4))); }
    if |matches| > 4 && matches[4] != [] { sections := sections.(learn := Trim(StripLabel(matches[4], 5))); }
    if |matches| > 5 && matches[5] != [] { sections := sections.(example := Trim(StripLabel(matches[5], 6))); }
  }

  // ---------------------------------------------------------------------------
  // What the scanner finds

  /** Without any digit-and-punctuation marker there is no match at all. */
  lemma NoMarkerNoMatches(s: string)
    requires !HasMarker(s)
    ensures AllMatches(s) == []
  {
  }

  /** A marker anywhere yields at least one match, and the first one begins at the first marker. */
  lemma FirstMatchAtFirstMarker(s: string)
    requires HasMarker(s)
    ensures FirstMarker(s, 0).Some?
    ensures |AllMatches(s)| >= 1
    ensures var i := FirstMarker(s, 0).value; s[i..] == JoinWith(AllMatches(s), '\n')
  {
    var i :| 0 <= i < |s| && MarkerAt(s, i);
    assert FirstMarker(s, 0).Some?;
    MatchesRebuild(s, FirstMarker(s, 0).value);
  }

  /** Joining the matches with newlines gives back the text from the first match on: nothing is lost but the separating newlines. */
  lemma {:induction false} MatchesRebuild(s: string, i: nat)
    requires MarkerAt(s, i)
    ensures |MatchesFrom(s, i)| >= 1
    ensures JoinWith(MatchesFrom(s, i), '\n') == s[i..]
    decreases |s| - i
  {
    var e := SectionEnd(s, i + 2);
    if e < |s| {
      MatchesRebuild(s, e + 1);
      JoinAtNewline(s, i, e, MatchesFrom(s, e + 1));
    }
  }

  lemma JoinAtNewline(s: string, i: nat, e: nat, rest: seq<string>)
    requires i <= e < |s| && s[e] == '\n'
    requires |rest| >= 1 && JoinWith(rest, '\n') == s[e + 1..]
    ensures JoinWith([s[i..e]] + rest, '\n') == s[i..]
  {
    JoinCons(s[i..e], rest, '\n');
    SliceAround(s, i, e);
  }

  lemma SliceAround(s: string, i: nat, e: nat)
    requires i <= e < |s|
    ensures s[i..] == s[i..e] + [s[e]] + s[e + 1..]
  {
  }

  /** A match contains no newline that starts another section. */
  predicate NoInnerBoundary(m: string) {
    forall p :: 0 <= p < |m| ==> !(m[p] == '\n' && MarkerAt(m, p + 1))
  }

  /** Every match begins with a digit-and-punctuation marker and stops at the first section boundary. */
  lemma {:induction false} MatchesShape(s: string, i: nat)
    requires MarkerAt(s, i)
    ensures forall k :: 0 <= k < |MatchesFrom(s, i)| ==>
      MarkerAt(MatchesFrom(s, i)[k], 0) && NoInnerBoundary(MatchesFrom(s, i)[k])
    decreases |s| - i
  {
    var e := SectionEnd(s, i + 2);
    var m := s[i..e];
    assert m[0] == s[i] && m[1] == s[i + 1];
    forall p | 0 <= p < |m| && m[p] == '\n' && MarkerAt(m, p + 1)
      ensures false
    {
      assert s[i + p] == '\n' && MarkerAt(s, i + p + 1);
      assert BoundaryAt(s, i + p);
    }
    if e < |s| {
      MatchesShape(s, e + 1);
    } else {
      assert s[i..] == m;
    }
  }

  // ---------------------------------------------------------------------------
  // What the splitter returns

  /** An answer without any digit-and-punctuation marker is kept whole as the summary. */
  lemma ParsedWithoutMarker(feedback: string)
    requires !HasMarker(feedback)
    ensures Parsed(feedback) == Fallback(feedback)
  {
    NoMarkerNoMatches(feedback);
  }

  /** A summary longer than 0.8 of the answer discards the split. */
  lemma ParsedSummaryDominance(feedback: string)
    requires 5 * |SlotText(AllMatches(feedback), 0)| > 4 * |feedback|
    ensures Parsed(feedback) == Fallback(feedback)
  {
  }

  /**
   * When the split is kept, slot k holds exactly what the k-th match gives, the
   * summary is at most 0.8 of the answer, and some slot has text.
   */
  lemma ParsedKeepsSplit(feedback: string)
    requires Parsed(feedback) != Fallback(feedback)
    ensures Parsed(feedback) == Split(AllMatches(feedback))
    ensures 5 * |Parsed(feedback).summary| <= 4 * |feedback|
    ensures !(Blank(Parsed(feedback).summary) && Blank(Parsed(feedback).good) && Blank(Parsed(feedback).bad)
              && Blank(Parsed(feedback).recommend) && Blank(Parsed(feedback).learn) && Blank(Parsed(feedback).example))
  {
  }

  /** Slots past the number of matches stay empty, and matches past the sixth are never read. */
  lemma SlotsBeyondMatches(matches: seq<string>, extra: seq<string>, k: nat)
    requires k < 6 && |matches| >= 6
    ensures SlotText(matches + extra, k) == SlotText(matches, k)
    ensures SlotText(matches[..k], k) == []
  {
    assert (matches + extra)[k] == matches[k];
  }

  /** A label with the wrong number is not stripped: "2. ..." as the first match stays in the summary with its label. */
  lemma WrongLabelKept(m: string, n: nat)
    requires |m| >= 2 && IsDigit(m[0]) && IsLabelPunct(m[1]) && m[0] as int != '0' as int + n
    ensures StripLabel(m, n) == m
  {
  }

  /** The right label and one following space are removed, nothing more. */
  lemma RightLabelStripped(m: string, n: nat)
    requires |m| >= 3 && m[0] as int == '0' as int + n && IsLabelPunct(m[1]) && m[2] == ' '
    ensures StripLabel(m, n) == m[3..]
  {
  }
}
