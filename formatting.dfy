/**
 * Clean-up of one section's text before it is drawn: the section title the
 * model sometimes repeats at the start is removed (`cleanSectionText`,
 * `removeDuplicateSubtitle`), bullets `● ` are put on paragraphs of their own
 * and runs of blank lines are shortened (`formatSectionText`), and the text
 * is cut into bullet items and plain lines (`renderFormattedText`).
 */
module Formatting {
  import opened Common
  import opened Text
  import opened Bullets
  import opened Quotes
  import opened Highlight

  /**
   * A title is put into a regular expression as it is, under the `i` flag;
   * the titles the view passes have no regular-expression metacharacter and
   * no letter with a case, so they match themselves and nothing else.
   */
  predicate PlainTitle(title: string) {
    forall i :: 0 <= i < |title| ==> PlainTitleChar(title[i])
  }

  predicate PlainTitleChar(c: char) {
    !IsAsciiLetter(c) && !IsRegexMeta(c)
  }

  predicate IsAsciiLetter(c: char) {
    ('a' <= c && c <= 'z') || ('A' <= c && c <= 'Z')
  }

  /** Number of leading characters of `s` that satisfy `IsSpace`. */
  function SpaceRun(s: string): (n: nat)
    ensures n <= |s| && AllSpace(s[..n]) && (n < |s| ==> !IsSpace(s[n]))
  {
    |s| - |TrimStart(s)|
  }

  /** Number of leading `s` or `S` characters: what `s*` matches under the `i` flag. */
  function LetterSRun(s: string): (n: nat)
    ensures n <= |s|
    ensures forall i :: 0 <= i < n ==> s[i] == 's' || s[i] == 'S'
    ensures n < |s| ==> s[n] != 's' && s[n] != 'S'
  {
    if s != [] && (s[0] == 's' || s[0] == 'S') then 1 + LetterSRun(s[1..]) else 0
  }

  function SkipColon(s: string): (r: string)
    ensures r == s || (s != [] && s[0] == ':' && r == s[1..])
  {
    if s != [] && s[0] == ':' then s[1..] else s
  }

  /**
   * `cleanSectionText(text, title)` as written: the pattern is built from the
   * template literal `^${title}\s*:?`, in which `\s` is an unknown escape and
   * stands for the letter `s`; so after the title the pattern removes letters
   * `s`/`S` (the `i` flag) and one optional colon, and a space before the colon
   * stops the match.
   */
  function CleanSectionTextAsWritten(text: string, title: string): string
    requires PlainTitle(title)
  {
    if StartsWith(text, title) then
      var rest := text[|title|..];
      Trim(SkipColon(rest[LetterSRun(rest)..]))
    else Trim(text)
  }

  /** The evidently intended `^${title}\s*:?`: the title, any white space, and one optional colon. */
  function CleanSectionText(text: string, title: string): string
    requires PlainTitle(title)
  {
    if StartsWith(text, title) then
      var rest := text[|title|..];
      Trim(SkipColon(rest[SpaceRun(rest)..]))
    else Trim(text)
  }

  /** A title followed by white space and a colon is removed together with them. */
  lemma CleanSectionTextStripsLabel(title: string, gap: string, body: string)
    requires PlainTitle(title) && AllSpace(gap)
    ensures CleanSectionText(title + gap + ":" + body, title) == Trim(body)
  {
    var text := title + gap + ":" + body;
    assert text[..|title|] == title;
    var rest := text[|title|..];
    assert rest == gap + (":" + body);
    SpaceRunBefore(gap, ":" + body);
    assert rest[|gap|..] == ":" + body;
  }

  /** White space followed by something else: the run is exactly the white space. */
  lemma SpaceRunBefore(gap: string, x: string)
    requires AllSpace(gap) && x != [] && !IsSpace(x[0])
    ensures SpaceRun(gap + x) == |gap|
  {
    var s := gap + x;
    assert s[|gap|] == x[0];
    assert forall i :: 0 <= i < |gap| ==> s[i] == gap[i];
  }

  /** A text that does not begin with the title is only trimmed. */
  lemma CleanSectionTextOtherwise(text: string, title: string)
    requires PlainTitle(title) && !StartsWith(text, title)
    ensures CleanSectionText(text, title) == Trim(text)
    ensures CleanSectionTextAsWritten(text, title) == Trim(text)
  {
  }

  /** White space in front of a text does not change what `trim()` gives. */
  lemma {:induction false} TrimAfterSpace(gap: string, x: string)
    requires AllSpace(gap)
    ensures Trim(gap + x) == Trim(x)
    decreases |gap|
  {
    if gap != [] {
      assert (gap + x)[1..] == gap[1..] + x;
      assert AllSpace(gap[1..]) by {
        assert forall i :: 0 <= i < |gap| - 1 ==> gap[1..][i] == gap[i + 1];
      }
      TrimAfterSpace(gap[1..], x);
    } else {
      assert gap + x == x;
    }
  }

  /**
   * The discrepancy: with white space between the title and the colon, as in
   * `종합 평가 : 좋음`, the colon survives as written and heads the cleaned
   * text; the intended pattern removes it.
   */
  lemma CleanSectionTextKeepsColon(title: string, gap: string, body: string)
    requires PlainTitle(title) && gap != [] && AllSpace(gap)
    ensures CleanSectionTextAsWritten(title + gap + ":" + body, title) == Trim(":" + body)
    ensures Trim(":" + body) != [] && Trim(":" + body)[0] == ':'
    ensures CleanSectionText(title + gap + ":" + body, title) == Trim(body)
    ensures ':' !in body ==> CleanSectionTextAsWritten(title + gap + ":" + body, title) != CleanSectionText(title + gap + ":" + body, title)
  {
    var text := title + gap + ":" + body;
    assert text[..|title|] == title;
    var rest := text[|title|..];
    assert rest == gap + (":" + body);
    assert IsSpace(rest[0]);
    assert LetterSRun(rest) == 0;
    assert rest[0..] == rest;
    TrimAfterSpace(gap, ":" + body);
    var c := ":" + body;
    assert !IsSpace(c[0]);
    assert TrimStart(c) == c;
    assert TrimEnd(c)[0] == ':';
    CleanSectionTextStripsLabel(title, gap, body);
    if ':' !in body {
      TrimSlice(body);
    }
  }

  // ---------------------------------------------------------------------------
  // formatSectionText

  const LanguageTraitsLabel: string := "언어별 특성 고려:"
  const SplitPracticeLabel: string := "문장 분할 및 재조합 연습:"

  /** `t.replace(/(label)/g, '\n**$1**\n')`: each occurrence of the label is set in bold on a line of its own. */
  function Embolden(t: string, heading: string): string
    requires |heading| > 0
  {
    ReplaceAll(t, heading, "\n**" + heading + "**\n")
  }

  /**
   * `t.replace(/\s*● /g, '\n\n● ')`: a bullet `● ` together with the white
   * space before it becomes a paragraph break and the bullet. At each place
   * the longest white-space run is taken; when `● ` does not follow it there
   * is no match there and the scan moves one character on.
   */
  function BreakBeforeBullets(t: string): string
    decreases |t|
  {
    if t == [] then []
    else
      var n := SpaceRun(t);
      if n + 2 <= |t| && t[n] == '●' && t[n + 1] == ' ' then "\n\n● " + BreakBeforeBullets(t[n + 2..])
      else [t[0]] + BreakBeforeBullets(t[1..])
  }

  /** `t.replace(/^\n+/, '')`. */
  function StripLeadingNewlines(t: string): (r: string)
    ensures |r| <= |t| && r == t[|t| - |r|..]
    ensures r == [] || r[0] != '\n'
    ensures forall i :: 0 <= i < |t| - |r| ==> t[i] == '\n'
  {
    if t != [] && t[0] == '\n' then StripLeadingNewlines(t[1..]) else t
  }

  /** Number of leading `\n`. */
  function NewlineRun(t: string): (n: nat)
    ensures n <= |t| && (forall i :: 0 <= i < n ==> t[i] == '\n') && (n < |t| ==> t[n] != '\n')
  {
    if t != [] && t[0] == '\n' then 1 + NewlineRun(t[1..]) else 0
  }

  /** No three consecutive line feeds. */
  predicate NoTripleNewline(t: string) {
    forall i :: 0 <= i < |t| - 2 ==> !(t[i] == '\n' && t[i + 1] == '\n' && t[i + 2] == '\n')
  }

  /**
   * `t.replace(/\n{3,}/g, '\n\n')`: every run of three or more line feeds
   * becomes two; shorter runs are kept.
   */
  function CollapseNewlines(t: string): (r: string)
    ensures NoTripleNewline(r)
    ensures t == [] ==> r == []
    ensures t != [] && t[0] != '\n' ==> r != [] && r[0] == t[0]
    ensures t != [] && t[0] == '\n' ==> r != [] && r[0] == '\n'
    decreases |t|
  {
    if t == [] then []
    else if t[0] != '\n' then
      var rest := CollapseNewlines(t[1..]);
      NoTripleAfterChar(t[0], rest);
      [t[0]] + rest
    else
      var n := NewlineRun(t);
      var run := if n >= 3 then "\n\n" else t[..n];
      var rest := CollapseNewlines(t[n..]);
      NoTripleAfterShortRun(run, rest);
      run + rest
  }

  lemma NoTripleAfterChar(c: char, rest: string)
    requires c != '\n' && NoTripleNewline(rest)
    ensures NoTripleNewline([c] + rest)
  {
    var r := [c] + rest;
    forall i | 1 <= i < |r| - 2
      ensures !(r[i] == '\n' && r[i + 1] == '\n' && r[i + 2] == '\n')
    {
      assert r[i] == rest[i - 1] && r[i + 1] == rest[i] && r[i + 2] == rest[i + 1];
    }
  }

  lemma NoTripleAfterShortRun(run: string, rest: string)
    requires |run| <= 2 && NoTripleNewline(rest) && (rest == [] || rest[0] != '\n')
    ensures NoTripleNewline(run + rest)
  {
    var r := run + rest;
    forall i | 0 <= i < |r| - 2
      ensures !(r[i] == '\n' && r[i + 1] == '\n' && r[i + 2] == '\n')
    {
      if i >= |run| {
        assert r[i] == rest[i - |run|] && r[i + 1] == rest[i - |run| + 1] && r[i + 2] == rest[i - |run| + 2];
      } else if |run| - i == 1 {
        assert r[i + 1] == rest[0];
      } else {
        assert r[i + 2] == rest[0];
      }
    }
  }

  /** A text without a run of three line feeds is left as it is. */
  lemma {:induction false} CollapseKeepsShortRuns(t: string)
    requires NoTripleNewline(t)
    ensures CollapseNewlines(t) == t
    decreases |t|
  {
    if t != [] {
      if t[0] != '\n' {
        assert NoTripleNewline(t[1..]) by {
          assert forall i :: 0 <= i < |t| - 3 ==> t[1..][i] == t[i + 1];
        }
        CollapseKeepsShortRuns(t[1..]);
        assert t == [t[0]] + t[1..];
      } else {
        var n := NewlineRun(t);
        assert |t| >= 3 ==> !(t[0] == '\n' && t[1] == '\n' && t[2] == '\n');
        assert n < 3;
        assert NoTripleNewline(t[n..]) by {
          var u := t[n..];
          forall i | 0 <= i < |u| - 2
            ensures !(u[i] == '\n' && u[i + 1] == '\n' && u[i + 2] == '\n')
          {
            assert u[i] == t[i + n] && u[i + 1] == t[i + n + 1] && u[i + 2] == t[i + n + 2];
          }
        }
        CollapseKeepsShortRuns(t[n..]);
        assert t == t[..n] + t[n..];
      }
    }
  }

  /** Collapsing twice is collapsing once. */
  lemma CollapseIdempotent(t: string)
    ensures CollapseNewlines(CollapseNewlines(t)) == CollapseNewlines(t)
  {
    CollapseKeepsShortRuns(CollapseNewlines(t));
  }

  /**
   * `formatSectionText(text, sectionKey)`: the two labels of the learning
   * section set apart, bullets on paragraphs of their own, leading line feeds
   * removed and blank-line runs shortened.
   */
  function FormatSectionText(text: string, sectionKey: string): (r: string)
    ensures r == [] || r[0] != '\n'
    ensures NoTripleNewline(r)
  {
    var t := if sectionKey == "learn" then Embolden(Embolden(text, LanguageTraitsLabel), SplitPracticeLabel) else text;
    var t2 := BreakBeforeBullets(t);
    var t3 := StripLeadingNewlines(t2);
    CollapseNewlines(t3)
  }

  /** Formatting a text that is already formatted and has no `● ` bullet changes nothing outside the learning section. */
  lemma FormatPlainTextKept(text: string, sectionKey: string)
    requires sectionKey != "learn"
    requires text == [] || text[0] != '\n'
    requires NoTripleNewline(text)
    requires BreakBeforeBullets(text) == text
    ensures FormatSectionText(text, sectionKey) == text
  {
    CollapseKeepsShortRuns(text);
  }

  /** A text without the bullet glyph `●` passes the bullet rewrite unchanged. */
  lemma {:induction false} NoBulletNoBreak(t: string)
    requires '●' !in t
    ensures BreakBeforeBullets(t) == t
    decreases |t|
  {
    if t != [] {
      NoBreakHere(t);
      NoBulletNoBreak(t[1..]);
      assert t == [t[0]] + t[1..];
    }
  }

  /** Without `●` no match starts at the first character, and the rest has none either. */
  lemma NoBreakHere(t: string)
    requires t != [] && '●' !in t
    ensures BreakBeforeBullets(t) == [t[0]] + BreakBeforeBullets(t[1..])
    ensures '●' !in t[1..]
  {
    var n := SpaceRun(t);
    if n + 2 <= |t| {
      assert t[n] in t;
    }
    assert forall c :: c in t[1..] ==> c in t;
  }

  // ---------------------------------------------------------------------------
  // removeDuplicateSubtitle

  /**
   * Length of the match of `^([*]{2})?${title}([*]{2})?( 항목)?:?` at the start
   * of `text`, or 0 when there is none: an optional `**`, the title, then each
   * optional part taken when present.
   */
  function SubtitleLen(text: string, title: string): (n: nat)
    requires PlainTitle(title)
    ensures n <= |text|
  {
    var start := if StartsWith(text, "**" + title) then 2 + |title|
                 else if StartsWith(text, title) then |title| else -1;
    if start < 0 then 0
    else
      var p1 := if StartsWith(text[start..], "**") then start + 2 else start;
      var p2 := if StartsWith(text[p1..], " 항목") then p1 + 3 else p1;
      if StartsWith(text[p2..], ":") then p2 + 1 else p2
  }

  /** `removeDuplicateSubtitle(text, title)`. */
  function RemoveDuplicateSubtitle(text: string, title: string): string
    requires PlainTitle(title)
  {
    Trim(text[SubtitleLen(text, title)..])
  }

  /** The fully decorated subtitle `**title** 항목:` is removed. */
  lemma RemoveFullSubtitle(title: string, body: string)
    requires PlainTitle(title)
    ensures RemoveDuplicateSubtitle("**" + title + "** 항목:" + body, title) == Trim(body)
  {
    var text := "**" + title + "** 항목:" + body;
    assert text[..2 + |title|] == "**" + title;
    var s := 2 + |title|;
    assert text[s..] == "** 항목:" + body;
    assert text[s..][..2] == "**";
    assert text[s + 2..] == " 항목:" + body;
    assert text[s + 2..][..3] == " 항목";
    assert text[s + 5..] == ":" + body;
    assert text[s + 5..][..1] == ":";
    assert text[s + 6..] == body;
  }

  /** The bare title followed by a colon is removed. */
  lemma RemoveBareSubtitle(title: string, body: string)
    requires PlainTitle(title) && title != []
    ensures RemoveDuplicateSubtitle(title + ":" + body, title) == Trim(body)
  {
    var text := title + ":" + body;
    assert PlainTitleChar(title[0]) && text[0] == title[0];
    assert ("**" + title)[0] == '*';
    assert !StartsWith(text, "**" + title);
    assert text[..|title|] == title;
    var rest := text[|title|..];
    assert rest == ":" + body && rest[0] == ':';
    assert !StartsWith(rest, "**") && !StartsWith(rest, " 항목") && StartsWith(rest, ":");
    assert SubtitleLen(text, title) == |title| + 1;
    assert text[|title| + 1..] == body;
  }

  /** Text that does not begin with the title (bold or not) is only trimmed. */
  lemma RemoveSubtitleOtherwise(text: string, title: string)
    requires PlainTitle(title) && !StartsWith(text, title) && !StartsWith(text, "**" + title)
    ensures RemoveDuplicateSubtitle(text, title) == Trim(text)
  {
    assert text[0..] == text;
  }

  // ---------------------------------------------------------------------------
  // renderFormattedText

  /** Where `/\n\s*(?=[‧])/` matches at the start of `t`: the length of the separator, or 0. */
  function BulletSeparator(t: string): (n: nat)
    ensures n <= |t|
    ensures n > 0 ==> t[0] == '\n' && n < |t| && t[n] == Bullet && AllSpace(t[1..n])
  {
    if t != [] && t[0] == '\n' then
      var k := SpaceRun(t[1..]);
      if 1 + k < |t| && t[1 + k] == Bullet then
        assert t[1..][..k] == t[1..1 + k];
        1 + k
      else 0
    else 0
  }

  /** `t.split(/\n\s*(?=[‧])/)`: the text cut before every line that begins, after white space, with `‧`. */
  function SplitBeforeBullets(t: string): (parts: seq<string>)
    ensures |parts| >= 1
    ensures StartsWith(t, parts[0])
    ensures t != [] && t[0] != '\n' ==> parts[0] != []
    ensures BulletPieces(parts)
    decreases |t|
  {
    if t == [] then [[]]
    else
      var n := BulletSeparator(t);
      if n > 0 then
        var r := SplitBeforeBullets(t[n..]);
        PrependEmptyPiece(t[n..], r);
        [[]] + r
      else
        var r := SplitBeforeBullets(t[1..]);
        ExtendFirstPiece(t, r);
        [[t[0]] + r[0]] + r[1..]
  }

  /** Every part after the first is non-empty and begins with `‧`. */
  predicate BulletPieces(parts: seq<string>) {
    forall k :: 1 <= k < |parts| ==> parts[k] != [] && parts[k][0] == Bullet
  }

  lemma PrependEmptyPiece(u: string, r: seq<string>)
    requires u != [] && u[0] == Bullet
    requires |r| >= 1 && StartsWith(u, r[0]) && r[0] != [] && BulletPieces(r)
    ensures BulletPieces([[]] + r)
  {
    assert u[..|r[0]|] == r[0];
    assert forall k :: 1 <= k < |r| + 1 ==> ([[]] + r)[k] == r[k - 1];
  }

  lemma ExtendFirstPiece(t: string, r: seq<string>)
    requires t != [] && |r| >= 1 && StartsWith(t[1..], r[0]) && BulletPieces(r)
    ensures StartsWith(t, [t[0]] + r[0])
    ensures BulletPieces([[t[0]] + r[0]] + r[1..])
  {
    assert t[1..][..|r[0]|] == r[0];
    assert [t[0]] + r[0] == t[..|r[0]| + 1];
    assert forall k :: 1 <= k < |r| ==> ([[t[0]] + r[0]] + r[1..])[k] == r[k];
  }

  /** Count of `‧` in a text. */
  function BulletCount(t: string): nat {
    if t == [] then 0 else (if t[0] == Bullet then 1 else 0) + BulletCount(t[1..])
  }

  function BulletCountAll(parts: seq<string>): nat {
    if parts == [] then 0 else BulletCount(parts[0]) + BulletCountAll(parts[1..])
  }

  lemma {:induction false} BulletCountAppend(a: string, b: string)
    ensures BulletCount(a + b) == BulletCount(a) + BulletCount(b)
    decreases |a|
  {
    if a == [] {
      assert a + b == b;
    } else {
      assert (a + b)[1..] == a[1..] + b;
      BulletCountAppend(a[1..], b);
    }
  }

  lemma {:induction false} BulletCountNone(t: string)
    requires AllSpace(t)
    ensures BulletCount(t) == 0
    decreases |t|
  {
    if t != [] {
      assert !IsSpace(Bullet);
      assert AllSpace(t[1..]) by {
        assert forall i :: 0 <= i < |t| - 1 ==> t[1..][i] == t[i + 1];
      }
      BulletCountNone(t[1..]);
    }
  }

  /** The split drops only line feeds and white space: every `‧` of the text is kept in some part. */
  lemma {:induction false} SplitKeepsBullets(t: string)
    ensures BulletCountAll(SplitBeforeBullets(t)) == BulletCount(t)
    decreases |t|
  {
    if t != [] {
      var n := BulletSeparator(t);
      if n > 0 {
        SplitKeepsBullets(t[n..]);
        SeparatorHasNoBullet(t, n);
        assert ([[]] + SplitBeforeBullets(t[n..]))[1..] == SplitBeforeBullets(t[n..]);
      } else {
        SplitKeepsBullets(t[1..]);
        FirstPieceBullets(t, SplitBeforeBullets(t[1..]));
      }
    }
  }

  /** The separator itself, a line feed and white space, holds no `‧`. */
  lemma SeparatorHasNoBullet(t: string, n: nat)
    requires 0 < n <= |t| && t[0] == '\n' && AllSpace(t[1..n])
    ensures BulletCount(t) == BulletCount(t[n..])
  {
    assert t == t[..n] + t[n..];
    BulletCountAppend(t[..n], t[n..]);
    assert t[..n] == ['\n'] + t[1..n];
    BulletCountAppend(['\n'], t[1..n]);
    BulletCountNone(t[1..n]);
  }

  /** The first character joins the first part: the count grows by what it adds. */
  lemma FirstPieceBullets(t: string, r: seq<string>)
    requires t != [] && |r| >= 1 && BulletCountAll(r) == BulletCount(t[1..])
    ensures BulletCountAll([[t[0]] + r[0]] + r[1..]) == BulletCount(t)
  {
    var parts := [[t[0]] + r[0]] + r[1..];
    assert parts[1..] == r[1..];
    BulletCountAppend([t[0]], r[0]);
    assert r == [r[0]] + r[1..];
    assert BulletCountAll(r) == BulletCount(r[0]) + BulletCountAll(r[1..]);
  }

  /** The runs `/\n\s*(?=[‧])/` matched, in order: what the split removes between its parts. */
  function SplitSeparators(t: string): (seps: seq<string>)
    ensures |seps| == |SplitBeforeBullets(t)| - 1
    ensures forall k :: 0 <= k < |seps| ==> seps[k] != [] && seps[k][0] == '\n' && AllSpace(seps[k][1..])
    decreases |t|
  {
    if t == [] then []
    else
      var n := BulletSeparator(t);
      if n > 0 then [t[..n]] + SplitSeparators(t[n..]) else SplitSeparators(t[1..])
  }

  /** `parts[0] + seps[0] + parts[1] + ... + parts[|parts| - 1]`. */
  function Interleave(parts: seq<string>, seps: seq<string>): string
    requires |parts| == |seps| + 1
    decreases |seps|
  {
    if seps == [] then parts[0] else parts[0] + seps[0] + Interleave(parts[1..], seps[1..])
  }

  /** The split loses nothing: putting the removed runs back between the parts gives the text. */
  lemma {:induction false} SplitRebuilds(t: string)
    ensures Interleave(SplitBeforeBullets(t), SplitSeparators(t)) == t
    decreases |t|
  {
    if t != [] {
      var n := BulletSeparator(t);
      if n > 0 {
        SplitRebuilds(t[n..]);
        RebuildAtSeparator(t, n, SplitBeforeBullets(t[n..]), SplitSeparators(t[n..]));
      } else {
        SplitRebuilds(t[1..]);
        InterleaveFirst(t[0], SplitBeforeBullets(t[1..]), SplitSeparators(t[1..]));
        assert t == [t[0]] + t[1..];
      }
    }
  }

  /** A separator at the start adds an empty first part and the separator in front of the rest. */
  lemma RebuildAtSeparator(t: string, n: nat, r: seq<string>, q: seq<string>)
    requires 0 < n <= |t| && |r| == |q| + 1 && Interleave(r, q) == t[n..]
    ensures Interleave([[]] + r, [t[..n]] + q) == t
  {
    assert ([[]] + r)[1..] == r && ([t[..n]] + q)[1..] == q;
    assert t == t[..n] + t[n..];
  }

  /** A character put in front of the first part is put in front of the joined text. */
  lemma InterleaveFirst(c: char, r: seq<string>, q: seq<string>)
    requires |r| == |q| + 1
    ensures Interleave([[c] + r[0]] + r[1..], q) == [c] + Interleave(r, q)
  {
    var parts := [[c] + r[0]] + r[1..];
    if q != [] {
      assert parts[1..] == r[1..];
    }
  }

  /** No part holds a line feed that is followed, after white space, by `‧`: the split cut at every one. */
  predicate Uncut(p: string) {
    forall i :: 0 <= i < |p| ==> BulletSeparator(p[i..]) == 0
  }

  /** The split cuts at every boundary: no part holds a `\n`, white space and `‧` run inside it. */
  lemma {:induction false} SplitPartsUncut(t: string)
    ensures forall k :: 0 <= k < |SplitBeforeBullets(t)| ==> Uncut(SplitBeforeBullets(t)[k])
    decreases |t|
  {
    if t != [] {
      var n := BulletSeparator(t);
      if n > 0 {
        SplitPartsUncut(t[n..]);
        var r := SplitBeforeBullets(t[n..]);
        assert forall k :: 1 <= k < |r| + 1 ==> ([[]] + r)[k] == r[k - 1];
      } else {
        SplitPartsUncut(t[1..]);
        var r := SplitBeforeBullets(t[1..]);
        var p := [t[0]] + r[0];
        assert Uncut(r[0]);
        forall i | 0 <= i < |p|
          ensures BulletSeparator(p[i..]) == 0
        {
          if i == 0 {
            SeparatorOfPrefix(p, t);
          } else {
            assert p[i..] == r[0][i - 1..];
          }
        }
        assert forall k :: 1 <= k < |r| ==> ([p] + r[1..])[k] == r[k];
      }
    }
  }

  /** A separator found at the start of a prefix of `v` is found, the same, at the start of `v`. */
  lemma SeparatorOfPrefix(u: string, v: string)
    requires StartsWith(v, u)
    ensures BulletSeparator(u) > 0 ==> BulletSeparator(v) == BulletSeparator(u)
  {
    var n := BulletSeparator(u);
    if n > 0 {
      assert v[..|u|] == u;
      SpaceRunOfPrefix(u[1..], v[1..]);
    }
  }

  /** A run of white space that ends inside a prefix of `v` is the run `v` begins with. */
  lemma SpaceRunOfPrefix(u: string, v: string)
    requires StartsWith(v, u) && SpaceRun(u) < |u|
    ensures SpaceRun(v) == SpaceRun(u)
  {
    var n, m := SpaceRun(u), SpaceRun(v);
    assert v[..|u|] == u;
    forall i | 0 <= i < n
      ensures IsSpace(v[i])
    {
      assert v[i] == u[..n][i];
    }
    assert v[n] == u[n];
  }

  /** `.filter(...)` keeps order: filtering a concatenation filters each half. */
  lemma {:induction false} FilterAppend<T>(a: seq<T>, b: seq<T>, keep: T -> bool)
    ensures Filter(a + b, keep) == Filter(a, keep) + Filter(b, keep)
    decreases |a|
  {
    if a == [] {
      assert a + b == b;
    } else {
      assert (a + b)[1..] == a[1..] + b;
      FilterAppend(a[1..], b, keep);
    }
  }

  lemma NonBlankAppend(a: seq<string>, b: seq<string>)
    ensures NonBlank(a + b) == NonBlank(a) + NonBlank(b)
  {
    assert NonBlank(a + b) == Filter(a + b, NotBlank);
    assert NonBlank(a) + NonBlank(b) == Filter(a, NotBlank) + Filter(b, NotBlank);
    FilterAppend(a, b, NotBlank);
  }

  /** Element `k` of those kept is element `j` of the input, and only the first kept element can be the first element. */
  lemma {:induction false} FilterFrom<T>(s: seq<T>, keep: T -> bool, k: nat) returns (j: nat)
    requires k < |Filter(s, keep)|
    ensures j < |s| && s[j] == Filter(s, keep)[k] && (k >= 1 ==> j >= 1)
    decreases |s|
  {
    var rest := Filter(s[1..], keep);
    if keep(s[0]) {
      assert Filter(s, keep) == [s[0]] + rest;
      if k == 0 {
        j := 0;
      } else {
        var j' := FilterFrom(s[1..], keep, k - 1);
        j := j' + 1;
      }
    } else {
      assert Filter(s, keep) == rest;
      var j' := FilterFrom(s[1..], keep, k);
      j := j' + 1;
    }
  }

  /** One drawn line of a section: a bullet item, or a plain paragraph. */
  datatype Line = BulletItem(spans: seq<QuoteSpan>) | TextLine(spans: seq<QuoteSpan>)

  /** `line.replace(/^[‧]\s*\/, '')`: a leading `‧` and the white space after it. */
  function StripBullet(line: string): (r: string)
    ensures line != [] && line[0] == Bullet ==> r == TrimStart(line[1..])
    ensures line == [] || line[0] != Bullet ==> r == line
  {
    if line != [] && line[0] == Bullet then TrimStart(line[1..]) else line
  }

  /**
   * One part, drawn: a part whose trimmed text begins with `‧` is a bullet item
   * showing the part without its bullet; any other part is a paragraph. The
   * bullet is removed from the untrimmed part, so a part that begins with
   * white space before its `‧` keeps the `‧` in its text.
   */
  function RenderLine(line: string, enableHighlight: bool, phrases: seq<string>): Line {
    var t := Trim(line);
    if t != [] && t[0] == Bullet then BulletItem(RenderQuotes(StripBullet(line), enableHighlight, phrases))
    else TextLine(RenderQuotes(line, enableHighlight, phrases))
  }

  /** `.filter(keep)`: the elements `keep` accepts, in their order. */
  function Filter<T(==)>(s: seq<T>, keep: T -> bool): (r: seq<T>)
    ensures |r| <= |s|
    ensures forall k :: 0 <= k < |r| ==> r[k] in s && keep(r[k])
    ensures forall k :: 0 <= k < |s| && keep(s[k]) ==> s[k] in r
  {
    if s == [] then [] else (if keep(s[0]) then [s[0]] else []) + Filter(s[1..], keep)
  }

  predicate NotBlank(line: string) {
    Trim(line) != []
  }

  /** `.filter(line => line.trim())`. */
  function NonBlank(parts: seq<string>): seq<string> {
    Filter(parts, NotBlank)
  }

  function RenderLines(parts: seq<string>, enableHighlight: bool, phrases: seq<string>): (lines: seq<Line>)
    ensures |lines| == |parts|
    ensures forall k :: 0 <= k < |parts| ==> lines[k] == RenderLine(parts[k], enableHighlight, phrases)
  {
    if parts == [] then [] else [RenderLine(parts[0], enableHighlight, phrases)] + RenderLines(parts[1..], enableHighlight, phrases)
  }

  /** The subtitle each commented section removes before it is drawn; `None` for any other key. */
  function SubtitleOf(sectionKey: string): Option<string> {
    if sectionKey == "good" then Some("좋은 점")
    else if sectionKey == "bad" then Some("아쉬운 점")
    else if sectionKey == "recommend" then Some("추천 표현")
    else if sectionKey == "learn" then Some("학습 제안")
    else if sectionKey == "summary" then Some("종합 평가")
    else None
  }

  lemma SubtitlesPlain(sectionKey: string)
    ensures SubtitleOf(sectionKey).Some? ==> PlainTitle(SubtitleOf(sectionKey).value)
  {
  }

  /**
   * `renderFormattedText(text, enableHighlight, sectionKey)` for every key but
   * the example one: subtitle removed, cut before bullets, blank parts
   * dropped, each part drawn.
   */
  function RenderFormattedText(text: string, enableHighlight: bool, sectionKey: string, phrases: seq<string>): seq<Line>
    requires sectionKey != "example"
  {
    RenderLines(NonBlank(SplitBeforeBullets(Unsubtitled(text, sectionKey))), enableHighlight, phrases)
  }

  /** The text with the section's own subtitle removed, for the keys that have one. */
  function Unsubtitled(text: string, sectionKey: string): string {
    SubtitlesPlain(sectionKey);
    match SubtitleOf(sectionKey)
    case Some(title) => RemoveDuplicateSubtitle(text, title)
    case None => text
  }

  /**
   * What `renderFormattedText` draws: one line per non-blank part of the
   * text (its subtitle removed) cut before its bullets, in order, and every
   * line after the first is a bullet item.
   */
  lemma RenderFormattedTextLines(text: string, enableHighlight: bool, sectionKey: string, phrases: seq<string>)
    requires sectionKey != "example"
    ensures forall k :: 1 <= k < |RenderFormattedText(text, enableHighlight, sectionKey, phrases)| ==>
      RenderFormattedText(text, enableHighlight, sectionKey, phrases)[k].BulletItem?
  {
    DrawnLines(Unsubtitled(text, sectionKey), enableHighlight, phrases);
  }

  /** The non-blank parts of a split, drawn: each part holds more than white space and all but the first are bullet items. */
  lemma {:induction false} DrawnLines(clean: string, enableHighlight: bool, phrases: seq<string>)
    ensures forall k :: 0 <= k < |NonBlank(SplitBeforeBullets(clean))| ==> Trim(NonBlank(SplitBeforeBullets(clean))[k]) != []
    ensures forall k :: 1 <= k < |NonBlank(SplitBeforeBullets(clean))| ==>
      RenderLine(NonBlank(SplitBeforeBullets(clean))[k], enableHighlight, phrases).BulletItem?
  {
    var all := SplitBeforeBullets(clean);
    var parts := NonBlank(all);
    RenderedLinesAreBullets(clean, enableHighlight, phrases);
    forall k | 1 <= k < |parts|
      ensures RenderLine(parts[k], enableHighlight, phrases).BulletItem?
    {
      var j := FilterFrom(all, NotBlank, k);
    }
    forall k | 0 <= k < |parts|
      ensures Trim(parts[k]) != []
    {
      assert parts[k] in parts;
    }
  }

  /**
   * The parts drawn are the non-blank parts of the split; every part after
   * the first is a bullet item, and so is the first when it begins with `‧`.
   */
  lemma RenderedLinesAreBullets(text: string, enableHighlight: bool, phrases: seq<string>)
    ensures forall k :: 1 <= k < |SplitBeforeBullets(text)| ==>
      RenderLine(SplitBeforeBullets(text)[k], enableHighlight, phrases).BulletItem?
  {
    var parts := SplitBeforeBullets(text);
    forall k | 1 <= k < |parts|
      ensures RenderLine(parts[k], enableHighlight, phrases).BulletItem?
    {
      var p := parts[k];
      assert p[0] == Bullet && !IsSpace(Bullet);
      assert TrimStart(p) == p;
      assert Trim(p) == TrimEnd(p);
      assert TrimEnd(p)[0] == p[0];
    }
  }
}
