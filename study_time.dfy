/**
 * How the study dashboard writes a duration and which icon it draws for an
 * activity. A duration in seconds is shown as whole hours and the minutes
 * left over, `H시간 M분`, or as `M분` under an hour.
 */
module StudyTime {
  import opened Common
  import opened Text

  /** `formatTime(seconds)`. */
  function FormatTime(seconds: nat): string {
    var hours := seconds / 3600;
    var minutes := (seconds % 3600) / 60;
    if hours > 0 then NatToString(hours) + "시간 " + NatToString(minutes) + "분"
    else NatToString(minutes) + "분"
  }

  /** The number of leading decimal digits. */
  function LeadingDigits(t: string): (n: nat)
    ensures n <= |t| && AllDigits(t[..n])
    ensures n < |t| ==> !IsDigit(t[n])
  {
    if t != [] && IsDigit(t[0]) then
      var n := 1 + LeadingDigits(t[1..]);
      assert forall i :: 1 <= i < n ==> t[..n][i] == t[1..][..n - 1][i - 1];
      n
    else 0
  }

  /** Reads a text of the shape `formatTime` writes back into hours and minutes. */
  function ParseTime(t: string): Option<(nat, nat)> {
    var k := LeadingDigits(t);
    if k == 0 then None
    else
      var rest := t[k..];
      if StartsWith(rest, "시간 ") then
        var u := rest[3..];
        var k2 := LeadingDigits(u);
        if k2 > 0 && u[k2..] == "분" then Some((DigitsValue(t[..k]), DigitsValue(u[..k2]))) else None
      else if rest == "분" then Some((0, DigitsValue(t[..k])))
      else None
  }

  /** A numeral followed by something other than a digit: the leading digits are exactly the numeral. */
  lemma {:induction false} LeadingDigitsOfNumeral(d: string, rest: string)
    requires AllDigits(d)
    requires rest == [] || !IsDigit(rest[0])
    ensures LeadingDigits(d + rest) == |d|
    decreases |d|
  {
    if d != [] {
      assert (d + rest)[1..] == d[1..] + rest;
      LeadingDigitsOfNumeral(d[1..], rest);
    }
  }

  /** Hours, then minutes below 60, as the whole minutes of the duration split by 60. */
  lemma HoursMinutes(seconds: nat)
    ensures seconds / 3600 == (seconds / 60) / 60
    ensures (seconds % 3600) / 60 == (seconds / 60) % 60
    ensures (seconds % 3600) / 60 < 60
  {
    var m := seconds / 60;
    var h := m / 60;
    assert seconds == 60 * m + seconds % 60;
    assert m == 60 * h + m % 60;
    assert seconds == 3600 * h + (60 * (m % 60) + seconds % 60);
    assert 0 <= 60 * (m % 60) + seconds % 60 < 3600;
  }

  /** Reading back what `formatTime` writes gives the hours and the minutes left over. */
  lemma {:induction false} FormatTimeRoundTrip(seconds: nat)
    ensures ParseTime(FormatTime(seconds)) == Some((seconds / 3600, (seconds % 3600) / 60))
  {
    var hours := seconds / 3600;
    var minutes := (seconds % 3600) / 60;
    if hours > 0 {
      ParseHoursAndMinutes(hours, minutes);
    } else {
      ParseMinutesOnly(minutes);
    }
  }

  /** `H시간 M분` reads back as `H` hours and `M` minutes. */
  lemma {:induction false} ParseHoursAndMinutes(hours: nat, minutes: nat)
    ensures ParseTime(NatToString(hours) + "시간 " + NatToString(minutes) + "분") == Some((hours, minutes))
  {
    NatToStringRoundTrip(hours);
    NatToStringRoundTrip(minutes);
    ParseHoursShape(NatToString(hours), NatToString(minutes));
  }

  /** Two numerals around `시간 ` and before `분` read back as their values. */
  lemma ParseHoursShape(hs: string, ms: string)
    requires hs != [] && AllDigits(hs) && ms != [] && AllDigits(ms)
    ensures ParseTime(hs + "시간 " + ms + "분") == Some((DigitsValue(hs), DigitsValue(ms)))
  {
    var tail := "시간 " + ms + "분";
    var t := hs + tail;
    assert hs + "시간 " + ms + "분" == t;
    LeadingDigitsOfNumeral(hs, tail);
    assert t[..|hs|] == hs;
    assert t[|hs|..] == tail;
    MinutesTail(ms, tail);
  }

  /** After `시간 `, the minutes numeral and then exactly `분`. */
  lemma MinutesTail(ms: string, tail: string)
    requires ms != [] && AllDigits(ms) && tail == "시간 " + ms + "분"
    ensures StartsWith(tail, "시간 ")
    ensures LeadingDigits(tail[3..]) == |ms|
    ensures tail[3..][..|ms|] == ms && tail[3..][|ms|..] == "분"
  {
    var u := tail[3..];
    assert u == ms + "분";
    LeadingDigitsOfNumeral(ms, "분");
  }

  /** `M분` reads back as no hours and `M` minutes. */
  lemma {:induction false} ParseMinutesOnly(minutes: nat)
    ensures ParseTime(NatToString(minutes) + "분") == Some((0, minutes))
  {
    var ms := NatToString(minutes);
    NatToStringRoundTrip(minutes);
    var t := ms + "분";
    LeadingDigitsOfNumeral(ms, "분");
    assert t[..|ms|] == ms;
    assert t[|ms|..] == "분";
  }

  /** Two durations are written the same exactly when they have the same whole minutes. */
  lemma FormatTimeSameMinutes(s1: nat, s2: nat)
    ensures FormatTime(s1) == FormatTime(s2) <==> s1 / 60 == s2 / 60
  {
    HoursMinutes(s1);
    HoursMinutes(s2);
    if FormatTime(s1) == FormatTime(s2) {
      FormatTimeRoundTrip(s1);
      FormatTimeRoundTrip(s2);
      var m1 := s1 / 60;
      var m2 := s2 / 60;
      assert m1 == 60 * (m1 / 60) + m1 % 60;
      assert m2 == 60 * (m2 / 60) + m2 % 60;
    }
  }

  /** The demonstration total of 12540 seconds reads `3시간 29분`. */
  lemma DemoTotalStudyTime()
    ensures FormatTime(12540) == "3시간 29분"
  {
    assert NatToString(3) == "3";
    assert NatToString(29) == NatToString(2) + [DigitChar(9)];
  }

  /** The icon and its background of `getActivityIcon`. */
  datatype ActivityIcon = ActivityIcon(icon: string, background: string)

  /** `getActivityIcon(contentType)`: the first of the two labels it contains decides. */
  function IconFor(contentType: string): (r: ActivityIcon)
    ensures Contains(contentType, "기존 문제") ==> r.icon == "📚"
    ensures !Contains(contentType, "기존 문제") && Contains(contentType, "AI 생성") ==> r.icon == "🤖"
    ensures !Contains(contentType, "기존 문제") && !Contains(contentType, "AI 생성") ==> r.icon == "📝"
  {
    if Contains(contentType, "기존 문제") then ActivityIcon("📚", "linear-gradient(135deg, #667eea, #764ba2)")
    else if Contains(contentType, "AI 생성") then ActivityIcon("🤖", "linear-gradient(135deg, #f093fb, #f5576c)")
    else ActivityIcon("📝", "linear-gradient(135deg, #667eea, #764ba2)")
  }

  /** A text without the first character of `p` does not contain `p`. */
  lemma {:induction false} NotContainsWithoutHead(s: string, p: string)
    requires p != [] && p[0] !in s
    ensures !Contains(s, p)
    decreases |s|
  {
    if s != [] {
      assert s[1..] == s[1..|s|];
      NotContainsWithoutHead(s[1..], p);
    }
  }
}
