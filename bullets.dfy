/**
 * The bullet normaliser of the feedback view (`normalizeBullets`): at the start
 * of every line, optional spaces or tabs followed by one of the glyphs
 * `●`, `•`, `*`, `-` are replaced by the canonical bullet `‧` (U+2027).
 * The source does this with `replace(/^[ \t]*[●•*-]/gm, '‧')`; here the
 * multi-line anchor is a scanner that remembers whether it stands at a line start.
 */
module Bullets {
  import opened Text

  const Bullet: char := '‧'

  predicate IsBulletGlyph(c: char) {
    c == '●' || c == '•' || c == '*' || c == '-'
  }

  predicate IsIndent(c: char) {
    c == ' ' || c == '\t'
  }

  /** Number of leading spaces and tabs. */
  function IndentLen(s: string): (n: nat)
    ensures n <= |s|
    ensures forall i :: 0 <= i < n ==> IsIndent(s[i])
    ensures n < |s| ==> !IsIndent(s[n])
  {
    if s != [] && IsIndent(s[0]) then 1 + IndentLen(s[1..]) else 0
  }

  /** Length of the match of `[ \t]*[●•*-]` at the start of `s`, or 0 when there is none. */
  function BulletPrefixLen(s: string): (k: nat)
    ensures k <= |s|
  {
    var n := IndentLen(s);
    if n < |s| && IsBulletGlyph(s[n]) then n + 1 else 0
  }

  /**
   * The scanner: `atLineStart` is true exactly where `^` can match under the
   * `m` flag (at the start of the text and after a line terminator).
   */
  function Normalize(s: string, atLineStart: bool): string
    decreases |s|, if atLineStart then 1 else 0
  {
    if atLineStart then
      var k := BulletPrefixLen(s);
      if k > 0 then [Bullet] + Normalize(s[k..], false) else Normalize(s, false)
    else if s == [] then []
    else [s[0]] + Normalize(s[1..], IsLineTerminator(s[0]))
  }

  /** `normalizeBullets(text)`. */
  function NormalizeBullets(s: string): string {
    Normalize(s, true)
  }

  /** What the rewrite does to a single line (a text without line terminators). */
  function NormalizeLine(line: string): string {
    var k := BulletPrefixLen(line);
    if k > 0 then [Bullet] + line[k..] else line
  }

  predicate NoLineTerminator(s: string) {
    forall i :: 0 <= i < |s| ==> !IsLineTerminator(s[i])
  }

  lemma {:induction false} CopyLine(line: string, tail: string)
    requires NoLineTerminator(line)
    ensures Normalize(line + tail, false) == line + Normalize(tail, false)
    decreases |line|
  {
    if line == [] {
      assert line + tail == tail;
    } else {
      assert (line + tail)[1..] == line[1..] + tail;
      CopyLine(line[1..], tail);
    }
  }

  lemma {:induction false} CopyWholeLine(line: string)
    requires NoLineTerminator(line)
    ensures Normalize(line, false) == line
  {
    CopyLine(line, []);
    assert line + [] == line;
  }

  lemma {:induction false} IndentLenAppend(x: string, y: string)
    ensures IndentLen(x + y) == if IndentLen(x) < |x| then IndentLen(x) else |x| + IndentLen(y)
    decreases |x|
  {
    if x == [] {
      assert x + y == y;
    } else {
      assert (x + y)[0] == x[0];
      if IsIndent(x[0]) {
        assert (x + y)[1..] == x[1..] + y;
        IndentLenAppend(x[1..], y);
      }
    }
  }

  /** The bullet prefix of a line does not depend on what follows its line terminator. */
  lemma BulletPrefixOfLine(line: string, t: char, rest: string)
    requires NoLineTerminator(line) && IsLineTerminator(t)
    ensures BulletPrefixLen(line + [t] + rest) == BulletPrefixLen(line)
  {
    assert line + [t] + rest == line + ([t] + rest);
    IndentLenAppend(line, [t] + rest);
    var n := IndentLen(line);
    if n == |line| {
      assert IndentLen([t] + rest) == 0;
      assert (line + ([t] + rest))[n] == t;
    } else {
      assert (line + ([t] + rest))[n] == line[n];
    }
  }

  /**
   * Line-by-line reading of the rewrite: the first line is rewritten on its
   * own, its line terminator is kept, and the rest of the text is processed
   * from a fresh line start.
   */
  lemma NormalizeFirstLine(line: string, t: char, rest: string)
    requires NoLineTerminator(line) && IsLineTerminator(t)
    ensures NormalizeBullets(line + [t] + rest) == NormalizeLine(line) + [t] + NormalizeBullets(rest)
  {
    var s := line + [t] + rest;
    var k := BulletPrefixLen(line);
    BulletPrefixOfLine(line, t, rest);
    var tail := [t] + rest;
    assert Normalize(tail, false) == [t] + Normalize(rest, true) by {
      assert tail[1..] == rest;
    }
    if k > 0 {
      assert s[k..] == line[k..] + tail;
      assert NoLineTerminator(line[k..]);
      CopyLine(line[k..], tail);
    } else {
      assert s == line + tail;
      CopyLine(line, tail);
    }
  }

  /** The last line (no terminator after it) is rewritten on its own. */
  lemma NormalizeLastLine(line: string)
    requires NoLineTerminator(line)
    ensures NormalizeBullets(line) == NormalizeLine(line)
  {
    var k := BulletPrefixLen(line);
    if k > 0 {
      assert NoLineTerminator(line[k..]);
      CopyWholeLine(line[k..]);
    } else {
      CopyWholeLine(line);
    }
  }

  /** Copying up to the first line terminator leaves the bullet prefix as it was. */
  lemma {:induction false} BulletPrefixOfCopy(s: string)
    ensures BulletPrefixLen(Normalize(s, false)) == BulletPrefixLen(s)
    decreases |s|
  {
    if s != [] {
      var o := Normalize(s, false);
      assert o == [s[0]] + Normalize(s[1..], IsLineTerminator(s[0]));
      if IsIndent(s[0]) {
        assert !IsLineTerminator(s[0]);
        BulletPrefixOfCopy(s[1..]);
        assert o[1..] == Normalize(s[1..], false);
        assert IndentLen(o) == 1 + IndentLen(o[1..]);
        assert IndentLen(s) == 1 + IndentLen(s[1..]);
      }
    }
  }

  /** The rewrite never makes the text longer. */
  lemma {:induction false} NormalizeNotLonger(s: string, atLineStart: bool)
    ensures |Normalize(s, atLineStart)| <= |s|
    decreases |s|, if atLineStart then 1 else 0
  {
    if atLineStart {
      var k := BulletPrefixLen(s);
      if k > 0 { NormalizeNotLonger(s[k..], false); } else { NormalizeNotLonger(s, false); }
    } else if s != [] {
      NormalizeNotLonger(s[1..], IsLineTerminator(s[0]));
    }
  }

  /** Applying the rewrite a second time changes nothing. */
  lemma {:induction false} NormalizeIdempotentFrom(s: string, atLineStart: bool)
    ensures Normalize(Normalize(s, atLineStart), atLineStart) == Normalize(s, atLineStart)
    decreases |s|, if atLineStart then 1 else 0
  {
    var o := Normalize(s, atLineStart);
    if atLineStart {
      var k := BulletPrefixLen(s);
      if k > 0 {
        var inner := Normalize(s[k..], false);
        assert o == [Bullet] + inner;
        assert IndentLen(o) == 0 && BulletPrefixLen(o) == 0;
        assert o[1..] == inner;
        NormalizeIdempotentFrom(s[k..], false);
      } else {
        BulletPrefixOfCopy(s);
        NormalizeIdempotentFrom(s, false);
      }
    } else if s != [] {
      var b := IsLineTerminator(s[0]);
      assert o[0] == s[0] && o[1..] == Normalize(s[1..], b);
      NormalizeIdempotentFrom(s[1..], b);
    }
  }

  lemma NormalizeBulletsIdempotent(s: string)
    ensures NormalizeBullets(NormalizeBullets(s)) == NormalizeBullets(s)
    ensures |NormalizeBullets(s)| <= |s|
  {
    NormalizeIdempotentFrom(s, true);
    NormalizeNotLonger(s, true);
  }
}
