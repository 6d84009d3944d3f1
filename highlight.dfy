/**
 * Highlighting a word inside a text: the text is split on occurrences of the
 * word with a capturing regular expression, and the parts equal to the word
 * are marked.
 *
 * The problem view escapes the word first (every regular-expression
 * metacharacter gets a backslash), so the split is on literal occurrences.
 * The feedback view builds the same expression without escaping; that
 * variant is modelled as written for words made of plain characters, `.` and
 * a postfix `?`, and shown to miss occurrences of words such as `what?`.
 */
module Highlight {
  import opened Common
  import opened Text

  /** One rendered part: its text, and whether it is drawn highlighted. */
  datatype Span = Span(text: string, marked: bool)

  /** The characters the escaping replace targets: `[.*+?^${}()|[\]\\]`. */
  predicate IsRegexMeta(c: char) {
    c == '.' || c == '*' || c == '+' || c == '?' || c == '^' || c == '$' || c == '{' || c == '}'
    || c == '(' || c == ')' || c == '|' || c == '[' || c == ']' || c == '\\'
  }

  /** `w.replace(/[.*+?^${}()|[\]\\]/g, '\\$&')`. */
  function Escape(w: string): string {
    if w == [] then []
    else if IsRegexMeta(w[0]) then ['\\', w[0]] + Escape(w[1..])
    else [w[0]] + Escape(w[1..])
  }

  /**
   * The literal text a pattern stands for, when it is made only of plain
   * characters and backslash-escaped metacharacters; `None` when it holds a
   * metacharacter with its special meaning (or an escape that is not one of
   * a metacharacter, such as `\d`).
   */
  function PatternLiteral(p: string): Option<string> {
    if p == [] then Some([])
    else if p[0] == '\\' then
      if |p| >= 2 && IsRegexMeta(p[1]) then
        match PatternLiteral(p[2..])
        case Some(rest) => Some([p[1]] + rest)
        case None => None
      else None
    else if IsRegexMeta(p[0]) then None
    else
      match PatternLiteral(p[1..])
      case Some(rest) => Some([p[0]] + rest)
      case None => None
  }

  /** The escaped word is a pattern that stands for exactly the word. */
  lemma {:induction false} EscapeIsLiteral(w: string)
    ensures PatternLiteral(Escape(w)) == Some(w)
  {
    if w != [] {
      EscapeIsLiteral(w[1..]);
      var e := Escape(w);
      if IsRegexMeta(w[0]) {
        assert e[0] == '\\' && e[1] == w[0] && e[2..] == Escape(w[1..]);
      } else {
        assert e[0] == w[0] && e[1..] == Escape(w[1..]);
      }
      assert w == [w[0]] + w[1..];
    }
  }

  /** And escaping is the only way to write a literal pattern: a pattern standing for `w` is `Escape(w)`. */
  lemma {:induction false} LiteralIsEscape(p: string, w: string)
    requires PatternLiteral(p) == Some(w)
    ensures p == Escape(w)
    decreases |p|
  {
    if p != [] {
      if p[0] == '\\' {
        var rest := PatternLiteral(p[2..]).value;
        LiteralIsEscape(p[2..], rest);
        assert w == [p[1]] + rest && w[1..] == rest;
        assert p == ['\\', p[1]] + p[2..];
      } else {
        var rest := PatternLiteral(p[1..]).value;
        LiteralIsEscape(p[1..], rest);
        assert w == [p[0]] + rest && w[1..] == rest;
        assert p == [p[0]] + p[1..];
      }
    }
  }

  /**
   * `text.split(/(w)/g)` for a literal non-empty `w`: the pieces between
   * occurrences, with each occurrence (the captured group) in between. The
   * scan looks for the leftmost occurrence and resumes after it.
   */
  function LiteralSplit(text: string, w: string): (parts: seq<string>)
    requires |w| > 0
    ensures |parts| % 2 == 1
    decreases |text|
  {
    if text == [] then [[]]
    else if StartsWith(text, w) then [[], w] + LiteralSplit(text[|w|..], w)
    else
      var r := LiteralSplit(text[1..], w);
      [[text[0]] + r[0]] + r[1..]
  }

  /** `parts.join('')`. */
  function Concat(parts: seq<string>): string {
    if parts == [] then [] else parts[0] + Concat(parts[1..])
  }

  lemma ConcatCons(head: string, rest: seq<string>)
    ensures Concat([head] + rest) == head + Concat(rest)
  {
    assert ([head] + rest)[1..] == rest;
  }

  /** Putting the parts of the split together gives back the text. */
  lemma {:induction false} LiteralSplitConcat(text: string, w: string)
    requires |w| > 0
    ensures Concat(LiteralSplit(text, w)) == text
    decreases |text|
  {
    if text == [] {
    } else if StartsWith(text, w) {
      LiteralSplitConcat(text[|w|..], w);
      ConcatAfterWord(text, w, LiteralSplit(text[|w|..], w));
    } else {
      LiteralSplitConcat(text[1..], w);
      ConcatAfterChar(text, LiteralSplit(text[1..], w));
    }
  }

  lemma ConcatAfterWord(text: string, w: string, r: seq<string>)
    requires StartsWith(text, w) && Concat(r) == text[|w|..]
    ensures Concat([[], w] + r) == text
  {
    ConcatCons([], [w] + r);
    ConcatCons(w, r);
    assert text == w + text[|w|..];
  }

  lemma ConcatAfterChar(text: string, r: seq<string>)
    requires text != [] && |r| >= 1 && Concat(r) == text[1..]
    ensures Concat([[text[0]] + r[0]] + r[1..]) == text
  {
    ConcatExtendHead(text[0], r);
    assert text == [text[0]] + text[1..];
  }

  /** Putting a character in front of the first part puts it in front of the whole. */
  lemma ConcatExtendHead(c: char, r: seq<string>)
    requires |r| >= 1
    ensures Concat([[c] + r[0]] + r[1..]) == [c] + Concat(r)
  {
    var h := r[0];
    var t := r[1..];
    var rest := Concat(t);
    ConcatCons([c] + h, t);
    assert r == [h] + t;
    ConcatCons(h, t);
    SeqAssoc([c], h, rest);
  }

  lemma SeqAssoc(a: string, b: string, c: string)
    ensures (a + b) + c == a + (b + c)
  {
  }

  /** The first part of the split begins the text. */
  lemma {:induction false} LiteralSplitHead(text: string, w: string)
    requires |w| > 0
    ensures StartsWith(text, LiteralSplit(text, w)[0])
    decreases |text|
  {
    if text != [] && !StartsWith(text, w) {
      var r := LiteralSplit(text[1..], w);
      LiteralSplitHead(text[1..], w);
      assert ([text[0]] + r[0])[1..] == r[0];
    }
  }

  /** Every odd part of the split is an occurrence of the word, and no even part is the word. */
  lemma {:induction false} LiteralSplitMarks(text: string, w: string)
    requires |w| > 0
    ensures forall k :: 0 <= k < |LiteralSplit(text, w)| ==>
      (LiteralSplit(text, w)[k] == w <==> k % 2 == 1)
    decreases |text|
  {
    var parts := LiteralSplit(text, w);
    if text == [] {
    } else if StartsWith(text, w) {
      var r := LiteralSplit(text[|w|..], w);
      LiteralSplitMarks(text[|w|..], w);
      assert forall k :: 2 <= k < |parts| ==> parts[k] == r[k - 2];
    } else {
      var r := LiteralSplit(text[1..], w);
      LiteralSplitMarks(text[1..], w);
      var head := [text[0]] + r[0];
      LiteralSplitHead(text[1..], w);
      assert text[..|head|] == head by {
        assert text[1..][..|r[0]|] == r[0];
      }
      assert forall k :: 1 <= k < |parts| ==> parts[k] == r[k];
    }
  }

  /** A text without the word is returned as one part. */
  lemma {:induction false} LiteralSplitAbsent(text: string, w: string)
    requires |w| > 0 && !Contains(text, w)
    ensures LiteralSplit(text, w) == [text]
    decreases |text|
  {
    if text != [] {
      LiteralSplitAbsent(text[1..], w);
      assert text == [text[0]] + text[1..];
    }
  }

  /** Marks each part that equals the word. */
  function MarkParts(parts: seq<string>, w: string): (spans: seq<Span>)
    ensures |spans| == |parts|
    ensures forall k :: 0 <= k < |parts| ==> spans[k].text == parts[k] && (spans[k].marked <==> parts[k] == w)
  {
    if parts == [] then [] else [Span(parts[0], parts[0] == w)] + MarkParts(parts[1..], w)
  }

  /**
   * `renderOriginalTextWithHighlight(text)` of the problem view: without a
   * highlight word (absent or empty) the text is one unmarked part; otherwise
   * the split on the escaped word, with the occurrences marked.
   */
  function HighlightEscaped(text: string, highlightWord: Option<string>): seq<Span> {
    match highlightWord
    case None => [Span(text, false)]
    case Some(w) =>
      if w == [] then [Span(text, false)]
      else
        // the pattern `(Escape(w))` matches exactly the literal occurrences of w
        MarkParts(LiteralSplit(text, w), w)
  }

  function SpanTexts(spans: seq<Span>): (r: seq<string>)
    ensures |r| == |spans| && forall k :: 0 <= k < |spans| ==> r[k] == spans[k].text
  {
    if spans == [] then [] else [spans[0].text] + SpanTexts(spans[1..])
  }

  /**
   * The highlighted rendering shows the text unchanged, and marks exactly the
   * occurrences of the word, which are the odd-numbered parts.
   */
  lemma HighlightEscapedFaithful(text: string, highlightWord: Option<string>)
    ensures Concat(SpanTexts(HighlightEscaped(text, highlightWord))) == text
    ensures forall k :: 0 <= k < |HighlightEscaped(text, highlightWord)| ==>
      (HighlightEscaped(text, highlightWord)[k].marked <==>
        highlightWord.Some? && highlightWord.value != [] && k % 2 == 1)
    ensures highlightWord.None? || highlightWord.value == [] ==> |HighlightEscaped(text, highlightWord)| == 1
  {
    var spans := HighlightEscaped(text, highlightWord);
    if highlightWord.Some? && highlightWord.value != [] {
      var w := highlightWord.value;
      LiteralSplitConcat(text, w);
      LiteralSplitMarks(text, w);
      assert SpanTexts(spans) == LiteralSplit(text, w);
    } else {
      assert SpanTexts(spans) == [text];
      ConcatCons(text, []);
    }
  }

  /** A word that does not occur gives one unmarked part. */
  lemma HighlightEscapedAbsent(text: string, w: string)
    requires !Contains(text, w)
    ensures HighlightEscaped(text, Some(w)) == [Span(text, false)]
  {
    if w != [] {
      LiteralSplitAbsent(text, w);
      assert !StartsWith(text, w) && StartsWith(w, w);
    }
  }

  // ---------------------------------------------------------------------------
  // The feedback view's highlighter, pattern not escaped

  /** One element of a pattern in the subset modelled: a plain character, `.`, or a character followed by `?`. */
  datatype Atom = Lit(c: char) | AnyChar | Opt(o: char)

  /**
   * Reads a word as the regular expression `new RegExp(word)` sees it, for
   * words made of plain characters, `.` and postfix `?`; `None` for any other
   * metacharacter, a leading `?`, `??`, or `.?`.
   */
  function ParseWord(w: string): Option<seq<Atom>> {
    if w == [] then Some([])
    else if w[0] == '.' then
      if |w| >= 2 && w[1] == '?' then None
      else match ParseWord(w[1..]) case Some(r) => Some([AnyChar] + r) case None => None
    else if IsRegexMeta(w[0]) then None
    else if |w| >= 2 && w[1] == '?' then
      match ParseWord(w[2..]) case Some(r) => Some([Opt(w[0])] + r) case None => None
    else match ParseWord(w[1..]) case Some(r) => Some([Lit(w[0])] + r) case None => None
  }

  /** The pattern cannot match the empty string: some atom is not optional. */
  predicate Solid(atoms: seq<Atom>) {
    atoms != [] && (!atoms[0].Opt? || Solid(atoms[1..]))
  }

  /**
   * The length of the match the backtracking engine finds at the start of
   * `s`: `?` first tries to take its character and gives it back only when the
   * rest of the pattern then fails; `.` matches any character but a line
   * terminator.
   */
  function MatchLen(atoms: seq<Atom>, s: string): (r: Option<nat>)
    ensures r.Some? ==> r.value <= |s|
    ensures r.Some? && Solid(atoms) ==> r.value >= 1
  {
    if atoms == [] then Some(0)
    else
      var rest := atoms[1..];
      match atoms[0]
      case Lit(c) =>
        if s != [] && s[0] == c then
          match MatchLen(rest, s[1..]) case Some(n) => Some(n + 1) case None => None
        else None
      case AnyChar =>
        if s != [] && !IsLineTerminator(s[0]) then
          match MatchLen(rest, s[1..]) case Some(n) => Some(n + 1) case None => None
        else None
      case Opt(c) =>
        if s != [] && s[0] == c && MatchLen(rest, s[1..]).Some? then Some(MatchLen(rest, s[1..]).value + 1)
        else MatchLen(rest, s)
  }

  /** `text.split(/(pattern)/g)` for a pattern that cannot match the empty string. */
  function PatternSplit(text: string, atoms: seq<Atom>): (parts: seq<string>)
    requires Solid(atoms)
    ensures |parts| % 2 == 1
    decreases |text|
  {
    if text == [] then [[]]
    else match MatchLen(atoms, text)
      case Some(n) => [[], text[..n]] + PatternSplit(text[n..], atoms)
      case None =>
        var r := PatternSplit(text[1..], atoms);
        [[text[0]] + r[0]] + r[1..]
  }

  /**
   * `renderTextWithHighlight(text)` of the feedback view, as written: the word
   * is put into the pattern unescaped, and a part is marked when it equals the
   * word.
   */
  function HighlightAsWritten(text: string, highlightWord: Option<string>): seq<Span>
    requires highlightWord.Some? && highlightWord.value != [] ==>
      ParseWord(highlightWord.value).Some? && Solid(ParseWord(highlightWord.value).value)
  {
    match highlightWord
    case None => [Span(text, false)]
    case Some(w) =>
      if w == [] then [Span(text, false)]
      else MarkParts(PatternSplit(text, ParseWord(w).value), w)
  }

  /** The word `what?` read as a pattern is `wha` followed by an optional `t`. */
  lemma WhatAsPattern()
    ensures ParseWord("what?") == Some([Lit('w'), Lit('h'), Lit('a'), Opt('t')])
  {
    assert !IsRegexMeta('w') && !IsRegexMeta('h') && !IsRegexMeta('a') && !IsRegexMeta('t');
    assert ParseWord("t?") == Some([Opt('t')]) by {
      assert "t?"[2..] == [];
      assert ParseWord([]) == Some([]);
      assert [Opt('t')] + [] == [Opt('t')];
    }
    assert ParseWord("at?") == Some([Lit('a'), Opt('t')]) by {
      assert "at?"[1] == 't' && "at?"[1..] == "t?";
      assert [Lit('a')] + [Opt('t')] == [Lit('a'), Opt('t')];
    }
    assert ParseWord("hat?") == Some([Lit('h'), Lit('a'), Opt('t')]) by {
      assert "hat?"[1] == 'a' && "hat?"[1..] == "at?";
      assert [Lit('h')] + [Lit('a'), Opt('t')] == [Lit('h'), Lit('a'), Opt('t')];
    }
    assert "what?"[1] == 'h' && "what?"[1..] == "hat?";
    assert [Lit('w')] + [Lit('h'), Lit('a'), Opt('t')] == [Lit('w'), Lit('h'), Lit('a'), Opt('t')];
  }

  /** In the text `what?` that pattern matches `what`, and the `?` is left over as a part of its own. */
  lemma WhatSplitAsWritten()
    ensures PatternSplit("what?", [Lit('w'), Lit('h'), Lit('a'), Opt('t')]) == ["", "what", "?"]
  {
    var atoms := [Lit('w'), Lit('h'), Lit('a'), Opt('t')];
    assert MatchLen([Opt('t')], "t?") == Some(1);
    assert MatchLen(atoms, "what?") == Some(4);
    assert MatchLen(atoms, "?") == None;
    assert PatternSplit("?", atoms) == ["?"] by {
      var r := PatternSplit([], atoms);
      assert "?"[1..] == [];
      assert PatternSplit("?", atoms) == [['?'] + r[0]] + r[1..];
      assert ['?'] + r[0] == "?";
    }
    assert "what?"[..4] == "what" && "what?"[4..] == "?";
  }

  /**
   * Hence the unescaped highlighter leaves the occurrence of `what?` in the
   * text `what?` unmarked, where the escaped one marks it.
   */
  lemma UnescapedMissesOccurrence()
    ensures HighlightAsWritten("what?", Some("what?"))
      == [Span("", false), Span("what", false), Span("?", false)]
    ensures HighlightEscaped("what?", Some("what?"))
      == [Span("", false), Span("what?", true), Span("", false)]
  {
    WhatAsPattern();
    WhatSplitAsWritten();
    assert StartsWith("what?", "what?");
    assert LiteralSplit("what?", "what?") == ["", "what?", ""];
  }
}
