/**
 * The score the study dashboard reads from a stored feedback: the first match
 * of `(\d+\.?\d*)\s*\/\s*10`, its number times ten, or 0 without a match or
 * without a feedback. The pattern does not look past the `10`, so `92/100`
 * is read as 92 out of 10.
 *
 * The number is kept as an exact rational: `parseFloat` of the digits is
 * their value, and the decimals are divided by the matching power of ten.
 */
module RecordScore {
  import opened Common
  import opened Text
  import Score

  function Pow10(k: nat): (p: nat)
    ensures p >= 1
  {
    if k == 0 then 1 else 10 * Pow10(k - 1)
  }

  /**
   * `\d+\.?\d*` at position `i`, greedy, with what follows it: the value and
   * the position right after. A shorter reading would leave a digit or the
   * point next, which neither `\s` nor `/` accepts, so the greedy reading is
   * the only one the rest of the pattern can continue.
   */
  function DecimalAt(s: string, i: nat): (r: Option<(real, nat)>)
    requires i <= |s|
    ensures r.Some? ==> i < r.value.1 <= |s| && r.value.0 >= 0.0
  {
    var n1 := Score.DigitRun(s, i);
    if n1 == 0 then None
    else
      var j := i + n1;
      var whole := Score.ValueAt(s, i, n1) as real;
      if j < |s| && s[j] == '.' then
        var n2 := Score.DigitRun(s, j + 1);
        Some((whole + Score.ValueAt(s, j + 1, n2) as real / Pow10(n2) as real, j + 1 + n2))
      else Some((whole, j))
  }

  /** `\s*\/\s*10` at position `i`. */
  predicate OutOfTenAt(s: string, i: nat)
    requires i <= |s|
  {
    var p := Score.SkipSpace(s, i);
    p < |s| && s[p] == '/' &&
      var q := Score.SkipSpace(s, p + 1);
      q + 2 <= |s| && s[q] == '1' && s[q + 1] == '0'
  }

  /** A match at position `i`: the captured number times ten. */
  function MatchAt(s: string, i: nat): (r: Option<real>)
    requires i <= |s|
    ensures r.Some? ==> r.value >= 0.0
  {
    match DecimalAt(s, i)
    case None => None
    case Some((v, e)) => if OutOfTenAt(s, e) then Some(v * 10.0) else None
  }

  /** The leftmost match at or after position `i`. */
  function FirstMatch(s: string, i: nat): (r: Option<real>)
    requires i <= |s|
    ensures r.Some? ==> r.value >= 0.0
    decreases |s| - i
  {
    if i == |s| then None
    else if MatchAt(s, i).Some? then MatchAt(s, i)
    else FirstMatch(s, i + 1)
  }

  /** `scoreMatch ? parseFloat(scoreMatch[1]) * 10 : 0`, with a missing feedback giving no match. */
  function ScoreOfFeedback(feedback: Option<string>): (r: real)
    ensures r >= 0.0
  {
    match feedback
    case None => 0.0
    case Some(f) => FirstMatch(f, 0).GetOr(0.0)
  }

  /** The leftmost match is found at the first position where the pattern matches, and nothing before it matches. */
  lemma {:induction false} FirstMatchIsLeftmost(s: string, i: nat)
    requires i <= |s|
    ensures FirstMatch(s, i).Some? <==> exists x :: i <= x < |s| && MatchAt(s, x).Some?
    ensures FirstMatch(s, i).Some? ==>
      exists x :: i <= x < |s| && MatchAt(s, x) == FirstMatch(s, i)
        && forall y :: i <= y < x ==> MatchAt(s, y).None?
  {
    var ms := seq(|s|, x requires 0 <= x < |s| => MatchAt(s, x));
    FirstMatchIsFirstSome(s, ms, i);
    FirstSomeIsLeftmost(ms, i);
  }

  /** The leftmost present value of `ms` at or after `i`. */
  function FirstSome<T>(ms: seq<Option<T>>, i: nat): Option<T>
    requires i <= |ms|
    decreases |ms| - i
  {
    if i == |ms| then None
    else if ms[i].Some? then ms[i]
    else FirstSome(ms, i + 1)
  }

  lemma {:induction false} FirstMatchIsFirstSome(s: string, ms: seq<Option<real>>, i: nat)
    requires i <= |s| && |ms| == |s|
    requires forall x :: 0 <= x < |s| ==> ms[x] == MatchAt(s, x)
    ensures FirstMatch(s, i) == FirstSome(ms, i)
    decreases |s| - i
  {
    if i < |s| {
      FirstMatchIsFirstSome(s, ms, i + 1);
    }
  }

  lemma {:induction false} FirstSomeIsLeftmost<T>(ms: seq<Option<T>>, i: nat)
    requires i <= |ms|
    ensures FirstSome(ms, i).Some? <==> exists x :: i <= x < |ms| && ms[x].Some?
    ensures FirstSome(ms, i).Some? ==>
      exists x :: i <= x < |ms| && ms[x] == FirstSome(ms, i) && forall y :: i <= y < x ==> ms[y].None?
    decreases |ms| - i
  {
    if i < |ms| {
      if ms[i].Some? {
        assert ms[i] == FirstSome(ms, i);
      } else {
        FirstSomeIsLeftmost(ms, i + 1);
        if FirstSome(ms, i).Some? {
          var x :| i + 1 <= x < |ms| && ms[x] == FirstSome(ms, i + 1) && forall y :: i + 1 <= y < x ==> ms[y].None?;
          assert forall y :: i <= y < x ==> ms[y].None?;
        }
      }
    }
  }

  /** A feedback without `/` scores 0. */
  lemma {:induction false} NoSlashScoresZero(s: string, i: nat)
    requires i <= |s|
    requires forall x :: 0 <= x < |s| ==> s[x] != '/'
    ensures FirstMatch(s, i).None?
    decreases |s| - i
  {
    if i < |s| {
      assert !OutOfTenAt(s, i);
      if DecimalAt(s, i).Some? {
        assert !OutOfTenAt(s, DecimalAt(s, i).value.1);
      }
      NoSlashScoresZero(s, i + 1);
    }
  }

  // The formats a feedback writes its score in.

  /** `8.5/10` counts as 85. */
  lemma EightAndAHalfOutOfTen(s: string)
    requires s == "8.5/10"
    ensures ScoreOfFeedback(Some(s)) == 85.0
  {
    assert s[0] == '8' && s[1] == '.' && s[2] == '5' && s[3] == '/' && s[4] == '1' && s[5] == '0';
    Score.RunOf(s, 0, 1);
    Score.RunOf(s, 2, 1);
    assert Score.ValueAt(s, 0, 1) == 8;
    assert Score.ValueAt(s, 2, 1) == 5;
    assert DecimalAt(s, 0) == Some((8.5, 3));
    assert Score.SkipSpace(s, 3) == 3;
    assert Score.SkipSpace(s, 4) == 4;
  }

  /** `92/100` counts as 920: the pattern stops after the `10` of `100`. */
  lemma HundredScaleReadAsTen(s: string)
    requires s == "92/100"
    ensures ScoreOfFeedback(Some(s)) == 920.0
  {
    assert s[0] == '9' && s[1] == '2' && s[2] == '/' && s[3] == '1' && s[4] == '0' && s[5] == '0';
    Score.RunOf(s, 0, 2);
    assert Score.ValueAt(s, 0, 1) == 9;
    assert Score.ValueAt(s, 0, 2) == 92;
    assert DecimalAt(s, 0) == Some((92.0, 2));
    assert Score.SkipSpace(s, 2) == 2;
    assert Score.SkipSpace(s, 3) == 3;
  }
}
