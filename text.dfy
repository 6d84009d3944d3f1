/**
 * JavaScript string primitives the components rely on, over `seq<char>`:
 * the whitespace class shared by `\s` and `String.prototype.trim`, `trim`,
 * `startsWith`/`includes`/`indexOf`, literal search and replace, `split` on a
 * one-character separator, and decimal rendering of integers.
 */
module Text {
  import opened Common

  /** WhiteSpace and LineTerminator of ECMAScript: the set matched by `\s` and removed by `trim()`. */
  predicate IsSpace(c: char) {
    c == '\t' || c == '\n' || c == '\U{B}' || c == '\U{C}' || c == '\r' || c == ' '
    || c == '\U{A0}' || c == '\U{1680}' || ('\U{2000}' <= c <= '\U{200A}')
    || c == '\U{2028}' || c == '\U{2029}' || c == '\U{202F}' || c == '\U{205F}'
    || c == '\U{3000}' || c == '\U{FEFF}'
  }

  /** The characters at which `^` matches under the `m` flag (after them a new line begins). */
  predicate IsLineTerminator(c: char) {
    c == '\n' || c == '\r' || c == '\U{2028}' || c == '\U{2029}'
  }

  predicate IsDigit(c: char) { '0' <= c <= '9' }

  predicate AllSpace(s: string) {
    forall i :: 0 <= i < |s| ==> IsSpace(s[i])
  }

  function TrimStart(s: string): (r: string)
    ensures |r| <= |s| && r == s[|s| - |r|..]
    ensures r == [] || !IsSpace(r[0])
    ensures AllSpace(s[..|s| - |r|])
  {
    if s != [] && IsSpace(s[0]) then TrimStart(s[1..]) else s
  }

  function TrimEnd(s: string): (r: string)
    ensures |r| <= |s| && r == s[..|r|]
    ensures r == [] || !IsSpace(r[|r| - 1])
    ensures AllSpace(s[|r|..])
  {
    if s != [] && IsSpace(s[|s| - 1]) then TrimEnd(s[..|s| - 1]) else s
  }

  /** `s.trim()`. */
  function Trim(s: string): string {
    TrimEnd(TrimStart(s))
  }

  /** `trim()` removes exactly a leading and a trailing run of white space and keeps the middle. */
  lemma {:induction false} TrimSlice(s: string)
    ensures exists i, j ::
      (0 <= i <= j <= |s| && Trim(s) == s[i..j] && AllSpace(s[..i]) && AllSpace(s[j..]))
    ensures Trim(s) == [] || (!IsSpace(Trim(s)[0]) && !IsSpace(Trim(s)[|Trim(s)| - 1]))
  {
    var t := TrimStart(s);
    var e := TrimEnd(t);
    var i := |s| - |t|;
    var j := i + |e|;
    assert Trim(s) == s[i..j] && AllSpace(s[j..]) by {
      SuffixPrefix(s, i, |e|);
    }
    assert 0 <= i <= j <= |s| && Trim(s) == s[i..j] && AllSpace(s[..i]) && AllSpace(s[j..]);
    TrimEndsOnText(t);
  }

  /** A prefix of a suffix is a middle slice, and what follows it is a suffix. */
  lemma SuffixPrefix(s: string, i: nat, n: nat)
    requires i + n <= |s|
    ensures s[i..][..n] == s[i..i + n] && s[i..][n..] == s[i + n..]
  {
  }

  /** Trimming the end of a text with no leading white space leaves neither end blank. */
  lemma TrimEndsOnText(t: string)
    requires t == [] || !IsSpace(t[0])
    ensures TrimEnd(t) == [] || (!IsSpace(TrimEnd(t)[0]) && !IsSpace(TrimEnd(t)[|TrimEnd(t)| - 1]))
  {
    var e := TrimEnd(t);
    if e != [] {
      assert e[0] == t[0];
    }
  }

  /** A text is blank for `trim()` exactly when it is all white space. */
  lemma {:induction false} TrimEmptyIffAllSpace(s: string)
    ensures Trim(s) == [] <==> AllSpace(s)
  {
    if s != [] && IsSpace(s[0]) {
      TrimEmptyIffAllSpace(s[1..]);
      assert forall i :: 1 <= i < |s| ==> s[i] == s[1..][i - 1];
    }
  }

  predicate StartsWith(s: string, p: string) {
    |p| <= |s| && s[..|p|] == p
  }

  /** `s.includes(p)`. */
  predicate Contains(s: string, p: string)
    decreases |s|
  {
    StartsWith(s, p) || (s != [] && Contains(s[1..], p))
  }

  /**
   * The first position at which `p` occurs in `s`: the place where a literal
   * search (`indexOf`, a regular expression made of plain characters) finds it.
   */
  function Find(s: string, p: string): (r: Option<nat>)
    ensures r.Some? ==> r.value + |p| <= |s| && s[r.value..r.value + |p|] == p
    ensures r.Some? ==> forall j :: 0 <= j < r.value ==> !StartsWith(s[j..], p)
    ensures r.None? ==> forall j :: 0 <= j <= |s| ==> !StartsWith(s[j..], p)
    ensures r.Some? <==> Contains(s, p)
    decreases |s|
  {
    if StartsWith(s, p) then Some(0)
    else if s == [] then None
    else
      var rest := Find(s[1..], p);
      if rest.Some? then
        FoundInTail(s, p, rest.value);
        Some(rest.value + 1)
      else
        MissingFromTail(s, p);
        None
  }

  /** An occurrence first found at `k` in the tail is first found at `k + 1` in the whole. */
  lemma FoundInTail(s: string, p: string, k: nat)
    requires s != [] && !StartsWith(s, p)
    requires k + |p| <= |s| - 1 && s[1..][k..k + |p|] == p
    requires forall j :: 0 <= j < k ==> !StartsWith(s[1..][j..], p)
    ensures k + 1 + |p| <= |s| && s[k + 1..k + 1 + |p|] == p
    ensures forall j :: 0 <= j < k + 1 ==> !StartsWith(s[j..], p)
  {
    assert s[k + 1..k + 1 + |p|] == s[1..][k..k + |p|];
    forall j | 1 <= j < k + 1
      ensures !StartsWith(s[j..], p)
    {
      assert s[j..] == s[1..][j - 1..];
    }
  }

  /** No occurrence in the tail and none at the head: none anywhere. */
  lemma MissingFromTail(s: string, p: string)
    requires s != [] && !StartsWith(s, p)
    requires forall j :: 0 <= j <= |s| - 1 ==> !StartsWith(s[1..][j..], p)
    ensures forall j :: 0 <= j <= |s| ==> !StartsWith(s[j..], p)
  {
    forall j | 1 <= j <= |s|
      ensures !StartsWith(s[j..], p)
    {
      assert s[j..] == s[1..][j - 1..];
    }
  }

  /** `s.indexOf(c)` for a one-character argument: -1 when absent. */
  function IndexOfChar(s: string, c: char): (r: int)
    ensures -1 <= r < |s|
    ensures r >= 0 ==> s[r] == c && c !in s[..r]
    ensures r == -1 <==> c !in s
    decreases |s|
  {
    if s == [] then -1
    else if s[0] == c then 0
    else
      var k := IndexOfChar(s[1..], c);
      assert s[1..] == s[1..|s|];
      if k < 0 then -1 else k + 1
  }

  /** `s.split(c)` for a one-character separator string. */
  function SplitOnChar(s: string, c: char): (parts: seq<string>)
    ensures |parts| >= 1
    ensures forall k :: 0 <= k < |parts| ==> c !in parts[k]
    decreases |s|
  {
    var i := IndexOfChar(s, c);
    if i < 0 then [s]
    else
      var rest := SplitOnChar(s[i + 1..], c);
      assert forall k :: 1 <= k < |rest| + 1 ==> ([s[..i]] + rest)[k] == rest[k - 1];
      [s[..i]] + rest
  }

  /** `parts.join(c)`. */
  function JoinWith(parts: seq<string>, c: char): string
    requires |parts| >= 1
  {
    if |parts| == 1 then parts[0] else parts[0] + [c] + JoinWith(parts[1..], c)
  }

  /** Splitting on a character and joining with it again gives back the text. */
  lemma {:induction false} SplitJoin(s: string, c: char)
    ensures JoinWith(SplitOnChar(s, c), c) == s
    decreases |s|
  {
    var i := IndexOfChar(s, c);
    if i >= 0 {
      var rest := SplitOnChar(s[i + 1..], c);
      SplitJoin(s[i + 1..], c);
      JoinCons(s[..i], rest, c);
      assert s == s[..i] + [c] + s[i + 1..];
    }
  }

  lemma JoinCons(head: string, rest: seq<string>, c: char)
    requires |rest| >= 1
    ensures JoinWith([head] + rest, c) == head + [c] + JoinWith(rest, c)
  {
    assert ([head] + rest)[1..] == rest;
  }

  /** `s.replace(/p/g, rep)` for a pattern of plain characters: every occurrence, left to right, without overlap. */
  function ReplaceAll(s: string, p: string, rep: string): (r: string)
    requires |p| > 0
    ensures !Contains(s, p) ==> r == s
    decreases |s|
  {
    match Find(s, p)
    case None => s
    case Some(i) => s[..i] + rep + ReplaceAll(s[i + |p|..], p, rep)
  }

  function DigitChar(d: nat): (c: char)
    requires d < 10
    ensures IsDigit(c) && c as int == '0' as int + d
  {
    ('0' as int + d) as char
  }

  function DigitValue(c: char): (d: nat)
    requires IsDigit(c)
    ensures d < 10 && DigitChar(d) == c
  {
    (c as int - '0' as int) as nat
  }

  /** The decimal numeral of `n`, without leading zeros (`String(n)` / a template literal). */
  function NatToString(n: nat): (s: string)
    ensures |s| >= 1 && forall i :: 0 <= i < |s| ==> IsDigit(s[i])
    ensures |s| > 1 ==> s[0] != '0'
  {
    if n < 10 then [DigitChar(n)] else NatToString(n / 10) + [DigitChar(n % 10)]
  }

  /** `String(i)` for an integer: a minus sign before negative values. */
  function IntToString(i: int): string {
    if i < 0 then "-" + NatToString(-i) else NatToString(i)
  }

  predicate AllDigits(s: string) {
    forall i :: 0 <= i < |s| ==> IsDigit(s[i])
  }

  /** The value of a run of decimal digits (`parseInt` of it). */
  function DigitsValue(s: string): nat
    requires AllDigits(s)
  {
    if s == [] then 0 else 10 * DigitsValue(s[..|s| - 1]) + DigitValue(s[|s| - 1])
  }

  /** Reading back the numeral gives the number. */
  lemma {:induction false} NatToStringRoundTrip(n: nat)
    ensures DigitsValue(NatToString(n)) == n
  {
    if n >= 10 {
      NatToStringRoundTrip(n / 10);
      var s := NatToString(n);
      assert s[..|s| - 1] == NatToString(n / 10);
    }
  }
}
