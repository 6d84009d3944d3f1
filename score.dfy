/**
 * The total score shown in the progress circle, recovered from the summary
 * section: the first `N/M` (N with up to three digits and one optional
 * decimal, M with up to three digits) gives `Math.round(N / M * 100)`;
 * failing that the first `N점` gives `Math.round(N * 10)`; failing both the
 * score is 0.
 *
 * N is kept in tenths, so every quotient is an exact rational number and
 * `Math.round` (the nearest integer, halves rounded up) is integer division.
 * The scanners work on positions in the summary rather than on its suffixes.
 */
module Score {
  import opened Common
  import opened Text

  /** What `Math.round` returns: a finite integer, or the non-finite results of a division by zero. */
  datatype ScoreValue = Finite(n: int) | PositiveInfinity | NotANumber

  /** A number read by `[0-9]{1,3}(?:\.[0-9])?`: its value in tenths and the characters it spans. */
  datatype Number = Number(tenths: nat, len: nat)

  /** The digits in `s[i..i + k]`. */
  predicate DigitsAt(s: string, i: nat, k: nat)
    requires i + k <= |s|
  {
    forall j :: i <= j < i + k ==> IsDigit(s[j])
  }

  /** Number of decimal digits starting at position `i`. */
  function DigitRun(s: string, i: nat): (n: nat)
    requires i <= |s|
    ensures i + n <= |s| && DigitsAt(s, i, n)
    ensures i + n < |s| ==> !IsDigit(s[i + n])
    decreases |s| - i
  {
    if i < |s| && IsDigit(s[i]) then 1 + DigitRun(s, i + 1) else 0
  }

  /** The value of the numeral `s[i..i + k]` (`parseInt` of it). */
  function ValueAt(s: string, i: nat, k: nat): nat
    requires i + k <= |s| && DigitsAt(s, i, k)
  {
    if k == 0 then 0 else 10 * ValueAt(s, i, k - 1) + DigitValue(s[i + k - 1])
  }

  /** First position at or after `i` that is not white space (`\s*`). */
  function SkipSpace(s: string, i: nat): (j: nat)
    requires i <= |s|
    ensures i <= j <= |s| && (j < |s| ==> !IsSpace(s[j]))
    decreases |s| - i
  {
    if i < |s| && IsSpace(s[i]) then SkipSpace(s, i + 1) else i
  }

  function Min(a: nat, b: nat): nat {
    if a < b then a else b
  }

  /**
   * `[0-9]{1,3}(?:\.[0-9])?` at position `i`, greedy: up to three digits,
   * then a point and one digit when they follow.
   */
  function NumberAt(s: string, i: nat): (r: Option<Number>)
    requires i <= |s|
    ensures r.Some? ==> 1 <= r.value.len && i + r.value.len <= |s|
  {
    var k := Min(3, DigitRun(s, i));
    if k == 0 then None
    else
      var whole := ValueAt(s, i, k);
      if i + k + 1 < |s| && s[i + k] == '.' && IsDigit(s[i + k + 1]) then
        Some(Number(10 * whole + DigitValue(s[i + k + 1]), k + 2))
      else Some(Number(10 * whole, k))
  }

  /** `\s*\/\s*([0-9]{1,3})` at position `i`: the denominator. */
  function DenominatorAt(s: string, i: nat): Option<nat>
    requires i <= |s|
  {
    var j := SkipSpace(s, i);
    if j < |s| && s[j] == '/' then
      var c := SkipSpace(s, j + 1);
      var k := Min(3, DigitRun(s, c));
      if k == 0 then None else Some(ValueAt(s, c, k))
    else None
  }

  /**
   * `([0-9]{1,3}(?:\.[0-9])?)\s*\/\s*([0-9]{1,3})(?:점)?` at position `i`:
   * the numerator in tenths and the denominator. When the greedy reading of
   * the numerator is not followed by white space and `/`, no shorter reading
   * is either (it would be followed by a digit or a point), so there is no
   * match at this place.
   */
  function RatioAt(s: string, i: nat): Option<(nat, nat)>
    requires i <= |s|
  {
    match NumberAt(s, i)
    case None => None
    case Some(num) =>
      match DenominatorAt(s, i + num.len)
      case None => None
      case Some(m) => Some((num.tenths, m))
  }

  /** `([0-9]{1,3}(?:\.[0-9])?)점` at position `i`: the number in tenths. */
  function PointsAt(s: string, i: nat): Option<nat>
    requires i <= |s|
  {
    match NumberAt(s, i)
    case None => None
    case Some(num) =>
      if i + num.len < |s| && s[i + num.len] == '점' then Some(num.tenths) else None
  }

  /** The leftmost match of the ratio pattern at or after position `i`. */
  function FirstRatio(s: string, i: nat): Option<(nat, nat)>
    requires i <= |s|
    decreases |s| - i
  {
    if i == |s| then None
    else if RatioAt(s, i).Some? then RatioAt(s, i)
    else FirstRatio(s, i + 1)
  }

  /** The leftmost match of the points pattern at or after position `i`. */
  function FirstPoints(s: string, i: nat): Option<nat>
    requires i <= |s|
    decreases |s| - i
  {
    if i == |s| then None
    else if PointsAt(s, i).Some? then PointsAt(s, i)
    else FirstPoints(s, i + 1)
  }

  /**
   * `Math.round((tenths / 10) / m * 100)`: the value is `10 * tenths / m`,
   * rounded to the nearest integer with halves going up; a zero denominator
   * gives Infinity, or NaN for `0/0`.
   */
  function RoundRatio(tenths: nat, m: nat): (r: ScoreValue)
    ensures m > 0 ==> r.Finite? && r.n >= 0
    ensures m > 0 ==> 2 * m * r.n - m <= 20 * tenths < 2 * m * r.n + m
    ensures m == 0 ==> r == if tenths == 0 then NotANumber else PositiveInfinity
  {
    if m == 0 then (if tenths == 0 then NotANumber else PositiveInfinity)
    else
      var q := (20 * tenths + m) / (2 * m);
      assert 2 * m * q <= 20 * tenths + m < 2 * m * q + 2 * m;
      Finite(q)
  }

  /** The score `FeedbackDisplay` computes from a summary. */
  function ScoreOf(summary: string): ScoreValue {
    match FirstRatio(summary, 0)
    case Some((tenths, m)) => RoundRatio(tenths, m)
    case None =>
      match FirstPoints(summary, 0)
      case Some(tenths) => Finite(tenths)
      case None => Finite(0)
  }

  /**
   * The score as the view computes it: `let score = 0`, reassigned by the
   * ratio match, or else by the points match.
   */
  method ExtractScore(summary: string) returns (score: ScoreValue)
    ensures score == ScoreOf(summary)
    ensures FirstRatio(summary, 0).None? && FirstPoints(summary, 0).None? ==> score == Finite(0)
  {
    score := Finite(0);
    var scoreMatch := FirstRatio(summary, 0);
    if scoreMatch.Some? {
      score := RoundRatio(scoreMatch.value.0, scoreMatch.value.1);
    } else {
      var altMatch := FirstPoints(summary, 0);
      if altMatch.Some? {
        score := Finite(altMatch.value);
      }
    }
  }

  /** A ratio no larger than one gives a score between 0 and 100. */
  lemma RatioScoreBounded(tenths: nat, m: nat)
    requires m > 0 && tenths <= 10 * m
    ensures 0 <= RoundRatio(tenths, m).n <= 100
  {
    var q := RoundRatio(tenths, m).n;
    assert 2 * m * q - m <= 20 * tenths <= 200 * m;
    assert m * (2 * q - 201) == 2 * m * q - 201 * m;
    NonPositiveFactor(m, 2 * q - 201);
  }

  lemma NonPositiveFactor(m: int, x: int)
    requires m > 0 && m * x <= 0
    ensures x <= 0
  {
  }

  /** The numeral is the decimal value of the digit string it spans. */
  lemma {:induction false} ValueAtIsDigitsValue(s: string, i: nat, k: nat)
    requires i + k <= |s| && DigitsAt(s, i, k)
    ensures AllDigits(s[i..i + k]) && ValueAt(s, i, k) == DigitsValue(s[i..i + k])
  {
    if k > 0 {
      ValueAtIsDigitsValue(s, i, k - 1);
      assert s[i..i + k][..k - 1] == s[i..i + k - 1];
    }
  }

  /** Digits at `i`, then something other than a digit: the run has exactly that length. */
  lemma RunOf(s: string, i: nat, k: nat)
    requires i + k <= |s| && DigitsAt(s, i, k) && (i + k < |s| ==> !IsDigit(s[i + k]))
    ensures DigitRun(s, i) == k
    decreases k
  {
    if k > 0 {
      RunOf(s, i + 1, k - 1);
    }
  }

  /**
   * One to three digits at `i`, `/`, then one to three digits that the text
   * does not continue with a further digit: a ratio match of the first
   * numeral (in tenths) over the second.
   */
  lemma WholeRatioAt(s: string, i: nat, k: nat, k2: nat)
    requires 1 <= k <= 3 && 1 <= k2 <= 3 && i + k + 1 + k2 <= |s|
    requires DigitsAt(s, i, k) && s[i + k] == '/' && DigitsAt(s, i + k + 1, k2)
    requires i + k + 1 + k2 < |s| ==> !IsDigit(s[i + k + 1 + k2])
    ensures RatioAt(s, i) == Some((10 * ValueAt(s, i, k), ValueAt(s, i + k + 1, k2)))
  {
    RunOf(s, i, k);
    assert NumberAt(s, i) == Some(Number(10 * ValueAt(s, i, k), k));
    DenominatorAtSlash(s, i + k, k2);
  }

  /** The same with one decimal in the numerator, as in `8.5/10`. */
  lemma DecimalRatioAt(s: string, i: nat, k: nat, k2: nat)
    requires 1 <= k <= 3 && 1 <= k2 <= 3 && i + k + 3 + k2 <= |s|
    requires DigitsAt(s, i, k) && s[i + k] == '.' && IsDigit(s[i + k + 1]) && s[i + k + 2] == '/'
    requires DigitsAt(s, i + k + 3, k2)
    requires i + k + 3 + k2 < |s| ==> !IsDigit(s[i + k + 3 + k2])
    ensures RatioAt(s, i) == Some((10 * ValueAt(s, i, k) + DigitValue(s[i + k + 1]), ValueAt(s, i + k + 3, k2)))
  {
    RunOf(s, i, k);
    NumberAtDecimal(s, i, k);
    DenominatorAtSlash(s, i + k + 2, k2);
  }

  lemma NumberAtDecimal(s: string, i: nat, k: nat)
    requires 1 <= k <= 3 && i + k + 2 <= |s| && DigitRun(s, i) == k
    requires s[i + k] == '.' && IsDigit(s[i + k + 1])
    ensures NumberAt(s, i) == Some(Number(10 * ValueAt(s, i, k) + DigitValue(s[i + k + 1]), k + 2))
  {
  }

  /** `/` at `j`, then one to three digits the text does not continue with a digit. */
  lemma DenominatorAtSlash(s: string, j: nat, k2: nat)
    requires 1 <= k2 <= 3 && j + 1 + k2 <= |s| && s[j] == '/' && DigitsAt(s, j + 1, k2)
    requires j + 1 + k2 < |s| ==> !IsDigit(s[j + 1 + k2])
    ensures DenominatorAt(s, j) == Some(ValueAt(s, j + 1, k2))
  {
    RunOf(s, j + 1, k2);
    assert SkipSpace(s, j) == j;
    assert SkipSpace(s, j + 1) == j + 1;
  }

  /** A search that passes over every position from `a` to `i` finds from `a` what it finds from `i`. */
  lemma {:induction false} SearchPasses<T>(found: seq<Option<T>>, a: nat, i: nat)
    requires a <= i < |found|
    requires forall x :: a <= x < i ==> found[x] == found[x + 1]
    ensures found[a] == found[i]
    decreases i - a
  {
    if a < i {
      SearchPasses(found, a + 1, i);
    }
  }

  /** The search finds a ratio at `i` when none starts between `a` and `i`. */
  lemma FirstRatioAt(s: string, a: nat, i: nat)
    requires a <= i < |s| && RatioAt(s, i).Some?
    requires forall j :: a <= j < i ==> RatioAt(s, j).None?
    ensures FirstRatio(s, a) == RatioAt(s, i)
  {
    NoRatioBetween(s, a, i);
  }

  /** Positions where no `N/M` starts are passed over by the search. */
  lemma NoRatioBetween(s: string, a: nat, i: nat)
    requires a <= i <= |s|
    requires forall j :: a <= j < i ==> RatioAt(s, j).None?
    ensures FirstRatio(s, a) == FirstRatio(s, i)
  {
    var found := seq(|s| + 1, x requires 0 <= x <= |s| => FirstRatio(s, x));
    forall x | a <= x < i
      ensures found[x] == found[x + 1]
    {
      PassRatio(s, x);
    }
    SearchPasses(found, a, i);
  }

  /** Nothing found at `x`: the search moves on to `x + 1`. */
  lemma PassRatio(s: string, x: nat)
    requires x < |s| && RatioAt(s, x).None?
    ensures FirstRatio(s, x) == FirstRatio(s, x + 1)
  {
  }

  /** The search finds a points match at `i` when none starts between `a` and `i`. */
  lemma FirstPointsAt(s: string, a: nat, i: nat)
    requires a <= i < |s| && PointsAt(s, i).Some?
    requires forall j :: a <= j < i ==> PointsAt(s, j).None?
    ensures FirstPoints(s, a) == PointsAt(s, i)
  {
    NoPointsBetween(s, a, i);
  }

  /** Positions where no `N점` starts are passed over by the search. */
  lemma NoPointsBetween(s: string, a: nat, i: nat)
    requires a <= i <= |s|
    requires forall j :: a <= j < i ==> PointsAt(s, j).None?
    ensures FirstPoints(s, a) == FirstPoints(s, i)
  {
    var found := seq(|s| + 1, x requires 0 <= x <= |s| => FirstPoints(s, x));
    forall x | a <= x < i
      ensures found[x] == found[x + 1]
    {
      PassPoints(s, x);
    }
    SearchPasses(found, a, i);
  }

  /** Nothing found at `x`: the search moves on to `x + 1`. */
  lemma PassPoints(s: string, x: nat)
    requires x < |s| && PointsAt(s, x).None?
    ensures FirstPoints(s, x) == FirstPoints(s, x + 1)
  {
  }

  /** What the search finds is a match with none before it. */
  lemma {:induction false} FirstRatioLeftmost(s: string, a: nat) returns (i: nat)
    requires a <= |s| && FirstRatio(s, a).Some?
    ensures a <= i < |s| && RatioAt(s, i) == FirstRatio(s, a)
    ensures forall j :: a <= j < i ==> RatioAt(s, j).None?
    decreases |s| - a
  {
    assert a < |s|;
    if RatioAt(s, a).Some? {
      i := a;
    } else {
      assert FirstRatio(s, a) == FirstRatio(s, a + 1);
      i := FirstRatioLeftmost(s, a + 1);
      forall j | a <= j < i
        ensures RatioAt(s, j).None?
      {
        if j == a {
          assert RatioAt(s, a).None?;
        } else {
          assert a + 1 <= j < i;
        }
      }
    }
  }

  /** What the search finds is a match with none before it. */
  lemma {:induction false} FirstPointsLeftmost(s: string, a: nat) returns (i: nat)
    requires a <= |s| && FirstPoints(s, a).Some?
    ensures a <= i < |s| && PointsAt(s, i) == FirstPoints(s, a)
    ensures forall j :: a <= j < i ==> PointsAt(s, j).None?
    decreases |s| - a
  {
    assert a < |s|;
    if PointsAt(s, a).Some? {
      i := a;
    } else {
      assert FirstPoints(s, a) == FirstPoints(s, a + 1);
      i := FirstPointsLeftmost(s, a + 1);
      forall j | a <= j < i
        ensures PointsAt(s, j).None?
      {
        if j == a {
          assert PointsAt(s, a).None?;
        } else {
          assert a + 1 <= j < i;
        }
      }
    }
  }

  /** The leftmost `N/M`, wherever it is, gives the score. */
  lemma RatioScore(s: string, i: nat, tenths: nat, m: nat)
    requires i < |s| && RatioAt(s, i) == Some((tenths, m))
    requires forall j :: 0 <= j < i ==> RatioAt(s, j).None?
    ensures ScoreOf(s) == RoundRatio(tenths, m)
  {
    FirstRatioAt(s, 0, i);
  }

  /** With no `N/M` anywhere, the leftmost `N점`, wherever it is, gives ten times `N`. */
  lemma PointsScore(s: string, i: nat, tenths: nat)
    requires FirstRatio(s, 0).None?
    requires i < |s| && PointsAt(s, i) == Some(tenths)
    requires forall j :: 0 <= j < i ==> PointsAt(s, j).None?
    ensures ScoreOf(s) == Finite(tenths)
  {
    FirstPointsAt(s, 0, i);
  }

  /** Positions without a digit are skipped by both searches. */
  lemma {:induction false} SkipNoDigits(s: string, i: nat, j: nat)
    requires i <= j <= |s|
    requires forall x :: i <= x < j ==> !IsDigit(s[x])
    ensures FirstRatio(s, i) == FirstRatio(s, j)
    ensures FirstPoints(s, i) == FirstPoints(s, j)
    decreases j - i
  {
    if i < j {
      NoMatchAtNonDigit(s, i);
      SkipNoDigits(s, i + 1, j);
    }
  }

  /** Neither pattern matches at a position that is not a digit. */
  lemma NoMatchAtNonDigit(s: string, i: nat)
    requires i < |s| && !IsDigit(s[i])
    ensures RatioAt(s, i).None? && PointsAt(s, i).None?
  {
    assert DigitRun(s, i) == 0;
  }

  /** A summary without digits scores 0. */
  lemma NoDigitsScoreZero(summary: string)
    requires forall x :: 0 <= x < |summary| ==> !IsDigit(summary[x])
    ensures ScoreOf(summary) == Finite(0)
  {
    SkipNoDigits(summary, 0, |summary|);
  }

  /** Text without `/` from position `i` on has no ratio there. */
  lemma {:induction false} NoSlashNoRatio(s: string, i: nat)
    requires i <= |s|
    requires forall x :: i <= x < |s| ==> s[x] != '/'
    ensures FirstRatio(s, i).None?
    decreases |s| - i
  {
    if i < |s| {
      if NumberAt(s, i).Some? {
        var j := SkipSpace(s, i + NumberAt(s, i).value.len);
        assert j < |s| ==> s[j] != '/';
      }
      NoSlashNoRatio(s, i + 1);
    }
  }

  /**
   * A summary with no `/` that opens with one to three digits and `점`
   * scores ten times that number.
   */
  lemma LeadingPointsScore(s: string, k: nat)
    requires 1 <= k <= 3 && k < |s| && DigitsAt(s, 0, k) && s[k] == '점'
    requires forall x :: 0 <= x < |s| ==> s[x] != '/'
    ensures ScoreOf(s) == Finite(10 * ValueAt(s, 0, k))
  {
    NoSlashNoRatio(s, 0);
    RunOf(s, 0, k);
    assert PointsAt(s, 0) == Some(10 * ValueAt(s, 0, k));
    PointsScore(s, 0, 10 * ValueAt(s, 0, k));
  }

  // The score formats the summary is written in.

  lemma EightAndAHalfOfTen(s: string)
    requires s == "8.5/10"
    ensures ScoreOf(s) == Finite(85)
  {
    assert s[0] == '8' && s[1] == '.' && s[2] == '5' && s[3] == '/' && s[4] == '1' && s[5] == '0';
    DecimalRatioAt(s, 0, 1, 2);
    assert ValueAt(s, 0, 1) == 8;
    assert ValueAt(s, 4, 1) == 1;
    assert ValueAt(s, 4, 2) == 10;
    RatioScore(s, 0, 85, 10);
  }

  lemma NinetyTwoOfHundred(s: string)
    requires s == "92/100"
    ensures ScoreOf(s) == Finite(92)
  {
    assert s[0] == '9' && s[1] == '2' && s[2] == '/' && s[3] == '1' && s[4] == '0' && s[5] == '0';
    WholeRatioAt(s, 0, 2, 3);
    assert ValueAt(s, 0, 1) == 9;
    assert ValueAt(s, 0, 2) == 92;
    assert ValueAt(s, 3, 1) == 1;
    assert ValueAt(s, 3, 2) == 10;
    assert ValueAt(s, 3, 3) == 100;
    RatioScore(s, 0, 920, 100);
  }

  lemma NinePoints(s: string)
    requires s == "9점"
    ensures ScoreOf(s) == Finite(90)
  {
    assert s[0] == '9' && s[1] == '점';
    LeadingPointsScore(s, 1);
    assert ValueAt(s, 0, 1) == 9;
  }
}
