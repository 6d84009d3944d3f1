/**
 * The statistics the study dashboard derives from a user's stored
 * translation records: totals, the average accuracy, the streak of study
 * days ending today, the weekly goal, the study minutes of the last seven
 * days, the ranking of the two problem types by average score, the four most
 * recent activities and three insights. Without a signed-in user, or without
 * records, fixed demonstration figures are shown instead.
 *
 * Instants are milliseconds since the epoch; a record without a creation
 * time counts as created now. A calendar day is the UTC day number of an
 * instant (the date part of `toISOString()`).
 */
module Dashboard {
  import opened Common
  import opened Text
  import RecordScore
  import StudyTime

  const DayMs: int := 86400000

  /** A stored translation record, as far as the statistics read it. */
  datatype TranslationRecord = TranslationRecord(problemType: string, feedback: Option<string>, createdMs: Option<int>)

  /** When an activity happened: an instant, or a date written out in the demonstration figures. */
  datatype Instant = Millis(ms: int) | Written(iso: string)

  datatype RankEntry = RankEntry(contentType: string, averageScore: real, sectionCount: nat, rank: nat)

  datatype Activity = Activity(contentType: string, language: string, sectionCount: nat, studyTime: nat, averageScore: int, date: Instant)

  datatype WeekProgress = WeekProgress(week: string, averageScore: int, totalSections: nat, studyTime: nat, improvement: string)

  datatype Stats = Stats(
    totalSections: nat,
    averageAccuracy: real,
    totalStudyTime: nat,
    totalSessions: nat,
    streakDays: nat,
    weeklyGoal: real,
    dailyStudyTime: seq<int>,
    weeklyProgress: seq<WeekProgress>,
    contentTypeRanking: seq<RankEntry>,
    recentActivities: seq<Activity>,
    insights: seq<string>)

  /** The figures shown to a visitor who is not signed in or has no records yet. */
  function Demo(): Stats {
    Stats(156, 87.3, 12540, 28, 12, 85.0,
      [45, 32, 55, 48, 67, 72, 38],
      [ WeekProgress("1월 1주차", 82, 24, 120, "+8%"),
        WeekProgress("1월 2주차", 85, 32, 135, "+4%"),
        WeekProgress("1월 3주차", 88, 38, 145, "+3%"),
        WeekProgress("1월 4주차", 91, 42, 158, "+3%") ],
      [ RankEntry("기존 문제", 92.5, 78, 1),
        RankEntry("AI 생성 문제", 89.2, 65, 2) ],
      [ Activity("기존 문제 번역", "ko-zh", 15, 1260, 94, Written("2025-01-20T14:30:00")),
        Activity("AI 생성 문제 번역", "ko-zh", 8, 1850, 88, Written("2025-01-20T10:15:00")),
        Activity("기존 문제 번역", "ko-zh", 12, 900, 91, Written("2025-01-19T16:45:00")),
        Activity("AI 생성 문제 번역", "ko-zh", 20, 1560, 85, Written("2025-01-19T09:20:00")) ],
      [ "기존 문제 번역에서 탁월한 성과를 보이고 있어요! 평균 92.5점을 달성했습니다.",
        "12일 연속 학습! 꾸준함이 실력 향상의 비결입니다.",
        "최근 성과가 15% 향상되었어요! 노력의 결과가 나타나고 있습니다." ])
  }

  /** When a record was created; a record without a time counts as created now. */
  function CreatedAt(r: TranslationRecord, nowMs: int): int {
    r.createdMs.GetOr(nowMs)
  }

  /** The UTC calendar day of an instant. */
  function DayOf(ms: int): int {
    ms / DayMs
  }

  /** The problem type a record is counted under. */
  function TypeName(problemType: string): (t: string)
    ensures t == "기존 문제" <==> problemType == "existing"
    ensures t == "AI 생성 문제" <==> problemType != "existing"
  {
    assert "기존 문제"[0] != "AI 생성 문제"[0];
    if problemType == "existing" then "기존 문제" else "AI 생성 문제"
  }

  /** `Math.round`: the nearest integer, halves rounded up. */
  function Round(x: real): (n: int)
    ensures x - 0.5 < n as real <= x + 0.5
  {
    (x + 0.5).Floor
  }

  /** `Math.round(x * 10) / 10`: one decimal. */
  function RoundTenth(x: real): (r: real)
    ensures x - 0.05 < r <= x + 0.05
  {
    Round(x * 10.0) as real / 10.0
  }

  function SumReals(xs: seq<real>): real {
    if xs == [] then 0.0 else SumReals(xs[..|xs| - 1]) + xs[|xs| - 1]
  }

  // Totals.

  /** `records.reduce((sum) => sum + 300, 0)`: five minutes per record. */
  function TotalStudyTime(records: seq<TranslationRecord>): (t: nat)
    ensures t == 300 * |records|
  {
    if records == [] then 0 else TotalStudyTime(records[..|records| - 1]) + 300
  }

  /** The scores read from every record's feedback, in record order. */
  function RecordScores(records: seq<TranslationRecord>): (s: seq<real>)
    ensures |s| == |records|
    ensures forall k :: 0 <= k < |records| ==> s[k] == RecordScore.ScoreOfFeedback(records[k].feedback)
  {
    if records == [] then []
    else RecordScores(records[..|records| - 1]) + [RecordScore.ScoreOfFeedback(records[|records| - 1].feedback)]
  }

  /** The mean of the record scores, to one decimal. */
  function AverageAccuracy(records: seq<TranslationRecord>): real
    requires records != []
  {
    RoundTenth(SumReals(RecordScores(records)) / |records| as real)
  }

  /** Every record scores at least 0, so the average does; when none scores above `hi`, neither does the average. */
  lemma {:induction false} AverageAccuracyBounds(records: seq<TranslationRecord>, hi: nat)
    requires records != []
    requires forall k :: 0 <= k < |records| ==> RecordScore.ScoreOfFeedback(records[k].feedback) <= hi as real
    ensures 0.0 <= AverageAccuracy(records) <= hi as real
  {
    var xs := RecordScores(records);
    assert forall k :: 0 <= k < |xs| ==> 0.0 <= xs[k] <= hi as real;
    MeanWithin(xs, hi);
  }

  /** The rounded mean of values between 0 and `hi` lies between 0 and `hi`. */
  lemma MeanWithin(xs: seq<real>, hi: nat)
    requires xs != [] && forall k :: 0 <= k < |xs| ==> 0.0 <= xs[k] <= hi as real
    ensures 0.0 <= RoundTenth(SumReals(xs) / |xs| as real) <= hi as real
  {
    SumRealsBounds(xs, 0.0, hi as real);
    MeanBounds(SumReals(xs), |xs| as real, 0.0, hi as real);
    RoundTenthWithin(SumReals(xs) / |xs| as real, hi);
  }

  /** Records that all score the same one-decimal value average exactly that value. */
  lemma {:induction false} AverageOfEqualScores(records: seq<TranslationRecord>, tenths: nat)
    requires records != []
    requires forall k :: 0 <= k < |records| ==> RecordScore.ScoreOfFeedback(records[k].feedback) == tenths as real / 10.0
    ensures AverageAccuracy(records) == tenths as real / 10.0
  {
    var xs := RecordScores(records);
    assert forall k :: 0 <= k < |xs| ==> xs[k] == tenths as real / 10.0;
    MeanOfEqual(xs, tenths);
  }

  /** The rounded mean of values all equal to the same one-decimal value is that value. */
  lemma MeanOfEqual(xs: seq<real>, tenths: nat)
    requires xs != [] && forall k :: 0 <= k < |xs| ==> xs[k] == tenths as real / 10.0
    ensures RoundTenth(SumReals(xs) / |xs| as real) == tenths as real / 10.0
  {
    var c := tenths as real / 10.0;
    SumRealsBounds(xs, c, c);
    MeanBounds(SumReals(xs), |xs| as real, c, c);
    RoundTenthExact(tenths);
  }

  /** Rounding to one decimal keeps a value within whole bounds. */
  lemma RoundTenthWithin(x: real, hi: nat)
    requires 0.0 <= x <= hi as real
    ensures 0.0 <= RoundTenth(x) <= hi as real
  {
    var y := x * 10.0;
    assert 0.0 <= y <= (10 * hi) as real;
    var r := Round(y);
    assert -0.5 < r as real <= (10 * hi) as real + 0.5;
    assert 0 <= r <= 10 * hi;
    assert RoundTenth(x) == r as real / 10.0;
  }

  /** A value with one decimal is its own rounding. */
  lemma RoundTenthExact(tenths: nat)
    ensures RoundTenth(tenths as real / 10.0) == tenths as real / 10.0
  {
    var c := tenths as real / 10.0;
    assert c * 10.0 == tenths as real;
    assert Round(c * 10.0) == tenths;
  }

  /** A sum of values between `lo` and `hi` lies between `lo` and `hi` times their count. */
  lemma {:induction false} SumRealsBounds(xs: seq<real>, lo: real, hi: real)
    requires forall k :: 0 <= k < |xs| ==> lo <= xs[k] <= hi
    ensures |xs| as real * lo <= SumReals(xs) <= |xs| as real * hi
  {
    if xs != [] {
      var init := xs[..|xs| - 1];
      SumRealsBounds(init, lo, hi);
      var m := |init| as real;
      assert |xs| as real * lo == m * lo + lo && |xs| as real * hi == m * hi + hi;
    }
  }

  lemma MeanBounds(total: real, n: real, lo: real, hi: real)
    requires n > 0.0 && n * lo <= total <= n * hi
    ensures lo <= total / n <= hi
  {
    var m := total / n;
    assert total == m * n;
    assert (m - lo) * n >= 0.0 && (hi - m) * n >= 0.0;
  }

  // The streak.

  /** The study day of every record. */
  function RecordDays(records: seq<TranslationRecord>, nowMs: int): (d: seq<int>)
    ensures |d| == |records|
  {
    if records == [] then []
    else RecordDays(records[..|records| - 1], nowMs) + [DayOf(CreatedAt(records[|records| - 1], nowMs))]
  }

  /**
   * The streak loop: starting from today, count days back as long as each is
   * a study day, taking at most as many steps as there are study days.
   * Every day counted is a study day, and when the study days are distinct
   * the day before the streak is not one, so the loop bound never cuts a
   * streak short.
   */
  method StreakDays(days: seq<int>, today: int) returns (streak: nat)
    ensures streak <= |days|
    ensures forall d :: today - streak < d <= today ==> d in days
    ensures Distinct(days) ==> today - streak !in days
  {
    streak := 0;
    var currentDate := today;
    var i := 0;
    while i < |days|
      invariant 0 <= i <= |days| && streak == i && currentDate == today - streak
      invariant forall d :: today - streak < d <= today ==> d in days
    {
      if currentDate in days {
        streak := streak + 1;
        currentDate := currentDate - 1;
      } else {
        return;
      }
      i := i + 1;
    }
    if Distinct(days) {
      StreakCoversAllDays(days, today);
    }
  }

  /** `ys` without the first occurrence of `x`. */
  function RemoveFirst(ys: seq<int>, x: int): (r: seq<int>)
    requires x in ys
    ensures |r| == |ys| - 1
    ensures forall y :: y in ys && y != x ==> y in r
  {
    var i := FirstIndex(ys, x);
    assert forall y :: y in ys && y != x ==> y in ys[..i] || y in ys[i + 1..] by {
      forall y | y in ys && y != x
        ensures y in ys[..i] || y in ys[i + 1..]
      {
        var j :| 0 <= j < |ys| && ys[j] == y;
        if j < i { assert ys[..i][j] == y; } else { assert ys[i + 1..][j - i - 1] == y; }
      }
    }
    ys[..i] + ys[i + 1..]
  }

  /** Distinct values that all occur in `ys` are no more than `ys` holds. */
  lemma {:induction false} DistinctCovered(xs: seq<int>, ys: seq<int>)
    requires Distinct(xs)
    requires forall k :: 0 <= k < |xs| ==> xs[k] in ys
    ensures |xs| <= |ys|
  {
    if xs != [] {
      var x := xs[|xs| - 1];
      var init := xs[..|xs| - 1];
      var rest := RemoveFirst(ys, x);
      assert forall k :: 0 <= k < |init| ==> init[k] != x && init[k] in ys;
      DistinctCovered(init, rest);
    }
  }

  /** Distinct study days that include today and each of the days before it: the day before them is not one more. */
  lemma StreakCoversAllDays(days: seq<int>, today: int)
    requires Distinct(days)
    requires forall d :: today - |days| < d <= today ==> d in days
    ensures today - |days| !in days
  {
    if today - |days| in days {
      var n := |days|;
      var run := seq(n + 1, k => today - k);
      assert forall k :: 0 <= k < |run| ==> run[k] in days by {
        forall k | 0 <= k < |run|
          ensures run[k] in days
        {
          assert today - n <= run[k] <= today;
        }
      }
      DistinctCovered(run, days);
    }
  }

  // The weekly goal.

  /** Records created since the start of the week. */
  function ThisWeekCount(records: seq<TranslationRecord>, nowMs: int, weekStartMs: int): (c: nat)
    ensures c <= |records|
  {
    if records == [] then 0
    else
      ThisWeekCount(records[..|records| - 1], nowMs, weekStartMs)
        + (if CreatedAt(records[|records| - 1], nowMs) >= weekStartMs then 1 else 0)
  }

  /** `Math.min(count / 5 * 100, 100)`: five records a week reach the goal. */
  function WeeklyGoal(count: nat): (g: real)
    ensures 0.0 <= g <= 100.0
    ensures g == 100.0 <==> count >= 5
    ensures count < 5 ==> g == 20.0 * count as real
  {
    var p := count as real / 5.0 * 100.0;
    if p < 100.0 then p else 100.0
  }

  // The study minutes of the last seven days.

  /** Whole days between a record and now, rounded down. */
  function DaysAgo(r: TranslationRecord, nowMs: int): int {
    (nowMs - CreatedAt(r, nowMs)) / DayMs
  }

  /** Seven slots, today last; a record made `d` days ago, `0 <= d < 7`, adds five minutes to slot `6 - d`. */
  function Buckets(records: seq<TranslationRecord>, nowMs: int): (b: seq<int>)
    ensures |b| == 7
  {
    if records == [] then [0, 0, 0, 0, 0, 0, 0]
    else
      var b := Buckets(records[..|records| - 1], nowMs);
      var d := DaysAgo(records[|records| - 1], nowMs);
      if 0 <= d < 7 then b[6 - d := b[6 - d] + 5] else b
  }

  /** `dailyStudyTime`: `Array(7).fill(0)`, then five minutes added in place per recent record. */
  method DailyStudyTime(records: seq<TranslationRecord>, nowMs: int) returns (daily: seq<int>)
    ensures daily == Buckets(records, nowMs)
  {
    var slots := new int[7](_ => 0);
    assert slots[..] == Buckets(records[..0], nowMs);
    for i := 0 to |records|
      invariant slots[..] == Buckets(records[..i], nowMs)
    {
      assert records[..i + 1][..i] == records[..i];
      var daysDiff := DaysAgo(records[i], nowMs);
      if 0 <= daysDiff < 7 {
        slots[6 - daysDiff] := slots[6 - daysDiff] + 5;
      }
    }
    assert records[..|records|] == records;
    daily := slots[..];
  }

  /** Records made exactly `d` days ago. */
  function CountDaysAgo(records: seq<TranslationRecord>, nowMs: int, d: int): nat {
    if records == [] then 0
    else CountDaysAgo(records[..|records| - 1], nowMs, d) + (if DaysAgo(records[|records| - 1], nowMs) == d then 1 else 0)
  }

  /** Records made in the last seven days. */
  function CountRecent(records: seq<TranslationRecord>, nowMs: int): (c: nat)
    ensures c <= |records|
  {
    if records == [] then 0
    else CountRecent(records[..|records| - 1], nowMs) + (if 0 <= DaysAgo(records[|records| - 1], nowMs) < 7 then 1 else 0)
  }

  function SumSlots(b: seq<int>): int
    requires |b| == 7
  {
    b[0] + b[1] + b[2] + b[3] + b[4] + b[5] + b[6]
  }

  /** Slot `k` holds five minutes for each record made `6 - k` days ago. */
  lemma {:induction false} BucketsCount(records: seq<TranslationRecord>, nowMs: int, k: nat)
    requires k < 7
    ensures Buckets(records, nowMs)[k] == 5 * CountDaysAgo(records, nowMs, 6 - k)
  {
    if records != [] {
      BucketsCount(records[..|records| - 1], nowMs, k);
    }
  }

  /** The seven slots add up to five minutes per recent record, so never more than five per record. */
  lemma {:induction false} BucketsTotal(records: seq<TranslationRecord>, nowMs: int)
    ensures SumSlots(Buckets(records, nowMs)) == 5 * CountRecent(records, nowMs)
    ensures SumSlots(Buckets(records, nowMs)) <= 5 * |records|
  {
    if records != [] {
      BucketsTotal(records[..|records| - 1], nowMs);
    }
  }

  // Per-type statistics and the ranking.

  /** One entry of the per-type accumulator: the scores of the type's records and how many there are. */
  datatype TypeStat = TypeStat(contentType: string, scores: seq<real>, sectionCount: nat)

  /** The type of every record, in record order. */
  function TypesOf(records: seq<TranslationRecord>): (t: seq<string>)
    ensures |t| == |records|
  {
    if records == [] then []
    else TypesOf(records[..|records| - 1]) + [TypeName(records[|records| - 1].problemType)]
  }

  /** The scores of the records of type `t`, in record order. */
  function ScoresOf(records: seq<TranslationRecord>, t: string): seq<real> {
    if records == [] then []
    else
      ScoresOf(records[..|records| - 1], t)
        + (if TypeName(records[|records| - 1].problemType) == t then [RecordScore.ScoreOfFeedback(records[|records| - 1].feedback)] else [])
  }

  /**
   * What the accumulator holds after reading `records`: one entry per type,
   * in the order the types first appear (the key order of a JavaScript
   * object), with that type's scores and their number.
   */
  predicate Tallies(acc: seq<TypeStat>, records: seq<TranslationRecord>) {
    var types := Dedup(TypesOf(records));
    && |acc| == |types|
    && forall k :: 0 <= k < |acc| ==>
         acc[k] == TypeStat(types[k], ScoresOf(records, types[k]), |ScoresOf(records, types[k])|)
  }

  function SumCounts(stats: seq<TypeStat>): nat {
    if stats == [] then 0 else SumCounts(stats[..|stats| - 1]) + stats[|stats| - 1].sectionCount
  }

  /** `acc[type]`: the position of the entry for `t`, or -1. */
  function Lookup(acc: seq<TypeStat>, t: string): (p: int)
    ensures -1 <= p < |acc|
    ensures p >= 0 ==> acc[p].contentType == t
    ensures p == -1 ==> forall k :: 0 <= k < |acc| ==> acc[k].contentType != t
  {
    if acc == [] then -1
    else if acc[|acc| - 1].contentType == t then |acc| - 1
    else Lookup(acc[..|acc| - 1], t)
  }

  /**
   * The `reduce` over the records: the entry for the record's type is made
   * when missing, then its score is pushed and its count raised. The counts
   * add up to the number of records.
   */
  method ContentTypeStats(records: seq<TranslationRecord>) returns (acc: seq<TypeStat>)
    ensures Tallies(acc, records)
    ensures SumCounts(acc) == |records|
  {
    acc := [];
    for i := 0 to |records|
      invariant Tallies(acc, records[..i])
      invariant SumCounts(acc) == i
    {
      var t := TypeName(records[i].problemType);
      var score := RecordScore.ScoreOfFeedback(records[i].feedback);
      var pos := Lookup(acc, t);
      TallyStep(acc, records, i, pos);
      if pos < 0 {
        acc := acc + [TypeStat(t, [score], 1)];
      } else {
        SumCountsUpdate(acc, pos, TypeStat(t, acc[pos].scores + [score], acc[pos].sectionCount + 1));
        acc := acc[pos := TypeStat(t, acc[pos].scores + [score], acc[pos].sectionCount + 1)];
      }
    }
    assert records[..|records|] == records;
  }

  /** Reading one more record: a new entry at the end for a new type, or one more score for a known one. */
  lemma TallyStep(acc: seq<TypeStat>, records: seq<TranslationRecord>, i: nat, pos: int)
    requires i < |records| && Tallies(acc, records[..i])
    requires pos == Lookup(acc, TypeName(records[i].problemType))
    ensures var t := TypeName(records[i].problemType);
      var score := RecordScore.ScoreOfFeedback(records[i].feedback);
      Tallies(if pos < 0 then acc + [TypeStat(t, [score], 1)]
              else acc[pos := TypeStat(t, acc[pos].scores + [score], acc[pos].sectionCount + 1)], records[..i + 1])
  {
    var t := TypeName(records[i].problemType);
    TypesOfSnoc(records, i);
    DedupSnoc(TypesOf(records[..i]), t);
    if pos < 0 {
      TallyNewType(acc, records, i);
    } else {
      TallyKnownType(acc, records, i, pos);
    }
  }

  /** The types after one more record: the earlier ones and the record's own. */
  lemma TypesOfSnoc(records: seq<TranslationRecord>, i: nat)
    requires i < |records|
    ensures TypesOf(records[..i + 1]) == TypesOf(records[..i]) + [TypeName(records[i].problemType)]
  {
    assert records[..i + 1][..i] == records[..i];
  }

  /** The scores after one more record: only the record's own type gains its score. */
  lemma ScoresOfSnoc(records: seq<TranslationRecord>, i: nat, u: string)
    requires i < |records|
    ensures ScoresOf(records[..i + 1], u) == ScoresOf(records[..i], u)
      + (if u == TypeName(records[i].problemType) then [RecordScore.ScoreOfFeedback(records[i].feedback)] else [])
  {
    assert records[..i + 1][..i] == records[..i];
  }

  /** Removing repetitions from one more element. */
  lemma DedupSnoc<T>(xs: seq<T>, x: T)
    ensures Dedup(xs + [x]) == if x in Dedup(xs) then Dedup(xs) else Dedup(xs) + [x]
  {
    assert (xs + [x])[..|xs|] == xs;
  }

  lemma TallyNewType(acc: seq<TypeStat>, records: seq<TranslationRecord>, i: nat)
    requires i < |records| && Tallies(acc, records[..i])
    requires Lookup(acc, TypeName(records[i].problemType)) < 0
    requires var t := TypeName(records[i].problemType);
      Dedup(TypesOf(records[..i + 1])) == Dedup(TypesOf(records[..i])) + [t]
    ensures var t := TypeName(records[i].problemType);
      Tallies(acc + [TypeStat(t, [RecordScore.ScoreOfFeedback(records[i].feedback)], 1)], records[..i + 1])
  {
    var t := TypeName(records[i].problemType);
    var score := RecordScore.ScoreOfFeedback(records[i].feedback);
    var types := Dedup(TypesOf(records[..i]));
    var types' := types + [t];
    var post := acc + [TypeStat(t, [score], 1)];
    NewTypeAbsent(acc, records[..i], t);
    NoScoresWithoutType(records[..i], t);
    forall k | 0 <= k < |post|
      ensures post[k] == TypeStat(types'[k], ScoresOf(records[..i + 1], types'[k]), |ScoresOf(records[..i + 1], types'[k])|)
    {
      ScoresOfSnoc(records, i, types'[k]);
      if k < |acc| {
        assert types'[k] == types[k] != t;
      }
    }
  }

  /** A type the accumulator has no entry for occurs in no record read so far. */
  lemma NewTypeAbsent(acc: seq<TypeStat>, records: seq<TranslationRecord>, t: string)
    requires Tallies(acc, records) && Lookup(acc, t) < 0
    ensures t !in TypesOf(records)
  {
    var types := Dedup(TypesOf(records));
    assert forall k :: 0 <= k < |types| ==> types[k] == acc[k].contentType;
  }

  lemma TallyKnownType(acc: seq<TypeStat>, records: seq<TranslationRecord>, i: nat, pos: int)
    requires i < |records| && Tallies(acc, records[..i])
    requires 0 <= pos && pos == Lookup(acc, TypeName(records[i].problemType))
    requires Dedup(TypesOf(records[..i + 1])) == Dedup(TypesOf(records[..i]))
    ensures var t := TypeName(records[i].problemType);
      Tallies(acc[pos := TypeStat(t, acc[pos].scores + [RecordScore.ScoreOfFeedback(records[i].feedback)], acc[pos].sectionCount + 1)],
              records[..i + 1])
  {
    var t := TypeName(records[i].problemType);
    var score := RecordScore.ScoreOfFeedback(records[i].feedback);
    var types := Dedup(TypesOf(records[..i]));
    var post := acc[pos := TypeStat(t, acc[pos].scores + [score], acc[pos].sectionCount + 1)];
    forall k | 0 <= k < |post|
      ensures post[k] == TypeStat(types[k], ScoresOf(records[..i + 1], types[k]), |ScoresOf(records[..i + 1], types[k])|)
    {
      ScoresOfSnoc(records, i, types[k]);
    }
  }

  /** A type no record has has no scores. */
  lemma {:induction false} NoScoresWithoutType(records: seq<TranslationRecord>, t: string)
    requires t !in TypesOf(records)
    ensures ScoresOf(records, t) == []
  {
    if records != [] {
      var init := records[..|records| - 1];
      assert TypesOf(records) == TypesOf(init) + [TypeName(records[|records| - 1].problemType)];
      NoScoresWithoutType(init, t);
    }
  }

  /** A type some record has has at least one score. */
  lemma {:induction false} ScoresOfPresentType(records: seq<TranslationRecord>, t: string)
    requires t in TypesOf(records)
    ensures |ScoresOf(records, t)| > 0
  {
    var init := records[..|records| - 1];
    assert TypesOf(records) == TypesOf(init) + [TypeName(records[|records| - 1].problemType)];
    if TypeName(records[|records| - 1].problemType) != t {
      ScoresOfPresentType(init, t);
    }
  }

  lemma {:induction false} SumCountsUpdate(stats: seq<TypeStat>, pos: nat, x: TypeStat)
    requires pos < |stats|
    ensures SumCounts(stats[pos := x]) == SumCounts(stats) - stats[pos].sectionCount + x.sectionCount
  {
    var n := |stats|;
    if pos < n - 1 {
      assert stats[pos := x][..n - 1] == stats[..n - 1][pos := x];
      SumCountsUpdate(stats[..n - 1], pos, x);
    } else {
      assert stats[pos := x][..n - 1] == stats[..n - 1];
    }
  }

  /** The ranking entry of one type: its mean score to one decimal, rank not yet assigned. */
  function EntryOf(st: TypeStat): RankEntry
    requires |st.scores| > 0
  {
    RankEntry(st.contentType, RoundTenth(SumReals(st.scores) / |st.scores| as real), st.sectionCount, 0)
  }

  function Entries(stats: seq<TypeStat>): (e: seq<RankEntry>)
    requires forall k :: 0 <= k < |stats| ==> |stats[k].scores| > 0
    ensures |e| == |stats|
    ensures forall k :: 0 <= k < |stats| ==> e[k] == EntryOf(stats[k])
  {
    if stats == [] then [] else Entries(stats[..|stats| - 1]) + [EntryOf(stats[|stats| - 1])]
  }

  predicate NonIncreasing(s: seq<RankEntry>) {
    forall i, j :: 0 <= i < j < |s| ==> s[i].averageScore >= s[j].averageScore
  }

  function SumSections(s: seq<RankEntry>): nat {
    if s == [] then 0 else SumSections(s[..|s| - 1]) + s[|s| - 1].sectionCount
  }

  /** Puts `x` into a ranking behind every entry with an average at least as high. */
  function Insert(sorted: seq<RankEntry>, x: RankEntry): (r: seq<RankEntry>)
    ensures |r| == |sorted| + 1
    ensures forall e :: e in r ==> e in sorted || e == x
  {
    if sorted == [] then [x]
    else
      var last := sorted[|sorted| - 1];
      if last.averageScore >= x.averageScore then sorted + [x]
      else Insert(sorted[..|sorted| - 1], x) + [last]
  }

  lemma {:induction false} InsertSorted(sorted: seq<RankEntry>, x: RankEntry)
    requires NonIncreasing(sorted)
    ensures NonIncreasing(Insert(sorted, x))
  {
    if sorted != [] {
      var last := sorted[|sorted| - 1];
      var init := sorted[..|sorted| - 1];
      if last.averageScore < x.averageScore {
        InsertSorted(init, x);
        var r := Insert(init, x);
        forall k | 0 <= k < |r|
          ensures r[k].averageScore >= last.averageScore
        {
          assert r[k] in r;
        }
        assert (r + [last])[..|r|] == r;
      }
    }
  }

  lemma {:induction false} InsertPermutes(sorted: seq<RankEntry>, x: RankEntry)
    ensures multiset(Insert(sorted, x)) == multiset(sorted) + multiset{x}
    ensures SumSections(Insert(sorted, x)) == SumSections(sorted) + x.sectionCount
  {
    if sorted != [] {
      var last := sorted[|sorted| - 1];
      var init := sorted[..|sorted| - 1];
      assert sorted == init + [last];
      if last.averageScore < x.averageScore {
        InsertPermutes(init, x);
        var r := Insert(init, x);
        assert (r + [last])[..|r|] == r;
      } else {
        assert (sorted + [x])[..|sorted|] == sorted;
      }
    }
  }

  /**
   * `sort((a, b) => b.averageScore - a.averageScore)`: non-increasing by
   * average, a permutation of its input that keeps every section count.
   */
  function SortByScore(s: seq<RankEntry>): (r: seq<RankEntry>)
    ensures NonIncreasing(r)
    ensures multiset(r) == multiset(s)
    ensures forall e :: e in r ==> e in s
    ensures SumSections(r) == SumSections(s)
  {
    if s == [] then []
    else
      var init := s[..|s| - 1];
      assert s == init + [s[|s| - 1]];
      var sorted := SortByScore(init);
      InsertSorted(sorted, s[|s| - 1]);
      InsertPermutes(sorted, s[|s| - 1]);
      Insert(sorted, s[|s| - 1])
  }

  /** The entries with their ranks cleared. */
  function Unranked(s: seq<RankEntry>): (r: seq<RankEntry>)
    ensures |r| == |s|
    ensures forall k :: 0 <= k < |s| ==> r[k] == s[k].(rank := 0)
  {
    if s == [] then [] else Unranked(s[..|s| - 1]) + [s[|s| - 1].(rank := 0)]
  }

  /**
   * `contentTypeRanking`: the entries sorted by average, then `rank` set in
   * place to the position plus one.
   */
  method RankContentTypes(stats: seq<TypeStat>) returns (ranking: seq<RankEntry>)
    requires forall k :: 0 <= k < |stats| ==> |stats[k].scores| > 0
    ensures Unranked(ranking) == SortByScore(Entries(stats))
    ensures NonIncreasing(ranking)
    ensures forall k :: 0 <= k < |ranking| ==> ranking[k].rank == k + 1
    ensures SumSections(ranking) == SumCounts(stats)
  {
    var sorted := SortByScore(Entries(stats));
    ranking := AssignRanks(sorted);
    SortedEntriesUnranked(stats);
    RanksAssigned(ranking, sorted);
    SumSectionsOfEntries(stats);
  }

  /** The `forEach` that sets each entry's rank, in place, to its position plus one. */
  method AssignRanks(sorted: seq<RankEntry>) returns (ranking: seq<RankEntry>)
    ensures |ranking| == |sorted|
    ensures forall k :: 0 <= k < |ranking| ==> ranking[k] == sorted[k].(rank := k + 1)
  {
    var items := new RankEntry[|sorted|](k requires 0 <= k < |sorted| => sorted[k]);
    for index := 0 to items.Length
      invariant forall k :: 0 <= k < index ==> items[k] == sorted[k].(rank := k + 1)
      invariant forall k :: index <= k < items.Length ==> items[k] == sorted[k]
    {
      items[index] := items[index].(rank := index + 1);
    }
    ranking := items[..];
  }

  /** The sorted entries carry no rank yet. */
  lemma SortedEntriesUnranked(stats: seq<TypeStat>)
    requires forall k :: 0 <= k < |stats| ==> |stats[k].scores| > 0
    ensures forall k :: 0 <= k < |SortByScore(Entries(stats))| ==> SortByScore(Entries(stats))[k].rank == 0
  {
    var sorted := SortByScore(Entries(stats));
    forall k | 0 <= k < |sorted|
      ensures sorted[k].rank == 0
    {
      assert sorted[k] in sorted;
    }
  }

  /** Setting every rank to the position plus one keeps the order, the averages and the section counts. */
  lemma RanksAssigned(ranking: seq<RankEntry>, sorted: seq<RankEntry>)
    requires |ranking| == |sorted| && NonIncreasing(sorted)
    requires forall k :: 0 <= k < |sorted| ==> sorted[k].rank == 0
    requires forall k :: 0 <= k < |ranking| ==> ranking[k] == sorted[k].(rank := k + 1)
    ensures Unranked(ranking) == sorted
    ensures NonIncreasing(ranking)
    ensures SumSections(ranking) == SumSections(sorted)
  {
    assert forall k :: 0 <= k < |ranking| ==> Unranked(ranking)[k] == sorted[k];
    SumSectionsPointwise(ranking, sorted);
  }

  lemma {:induction false} SumSectionsPointwise(a: seq<RankEntry>, b: seq<RankEntry>)
    requires |a| == |b|
    requires forall k :: 0 <= k < |a| ==> a[k].sectionCount == b[k].sectionCount
    ensures SumSections(a) == SumSections(b)
  {
    if a != [] {
      SumSectionsPointwise(a[..|a| - 1], b[..|b| - 1]);
    }
  }

  lemma {:induction false} SumSectionsOfEntries(stats: seq<TypeStat>)
    requires forall k :: 0 <= k < |stats| ==> |stats[k].scores| > 0
    ensures SumSections(Entries(stats)) == SumCounts(stats)
  {
    if stats != [] {
      var init := stats[..|stats| - 1];
      SumSectionsOfEntries(init);
      assert Entries(stats)[..|stats| - 1] == Entries(init);
    }
  }

  // The four most recent activities.

  /** One record as a recent activity. */
  function ActivityOf(r: TranslationRecord, nowMs: int): Activity {
    Activity(TypeName(r.problemType) + " 번역", "ko-zh", 1, 300,
      Round(RecordScore.ScoreOfFeedback(r.feedback)), Millis(CreatedAt(r, nowMs)))
  }

  /** `records.slice(0, 4).map(...)`. */
  function RecentActivities(records: seq<TranslationRecord>, nowMs: int): (r: seq<Activity>)
    ensures |r| == if |records| < 4 then |records| else 4
    ensures forall k :: 0 <= k < |r| ==> r[k] == ActivityOf(records[k], nowMs)
  {
    var n := if |records| < 4 then |records| else 4;
    seq(n, k requires 0 <= k < n => ActivityOf(records[k], nowMs))
  }

  /** The icon of a recent activity is the books for an existing problem and the robot otherwise. */
  lemma ActivityIcon(r: TranslationRecord, nowMs: int)
    ensures StudyTime.IconFor(ActivityOf(r, nowMs).contentType).icon == (if r.problemType == "existing" then "📚" else "🤖")
  {
    var caption := ActivityOf(r, nowMs).contentType;
    if r.problemType == "existing" {
      ExistingLabel(caption);
    } else {
      GeneratedLabel(caption);
    }
  }

  lemma ExistingLabel(caption: string)
    requires caption == "기존 문제" + " 번역"
    ensures Contains(caption, "기존 문제")
  {
    assert StartsWith(caption, "기존 문제");
  }

  lemma GeneratedLabel(caption: string)
    requires caption == "AI 생성 문제" + " 번역"
    ensures !Contains(caption, "기존 문제") && Contains(caption, "AI 생성")
  {
    assert forall i :: 0 <= i < |caption| ==> caption[i] != '기';
    StudyTime.NotContainsWithoutHead(caption, "기존 문제");
    assert StartsWith(caption, "AI 생성");
  }

  // Insights and the whole derivation.

  /** What follows the best type's name in the third insight. */
  const BestTypeInsight: string := "에서 가장 좋은 성과를 보이고 있어요!"

  function Insights(totalSections: nat, streakDays: nat, ranking: seq<RankEntry>): (r: seq<string>)
    ensures |r| == 3
  {
    [ "총 " + NatToString(totalSections) + "개의 번역을 완료하셨네요! 꾸준한 학습이 인상적입니다.",
      NatToString(streakDays) + "일 연속 학습! 꾸준함이 실력 향상의 비결입니다.",
      if |ranking| > 0 then ranking[0].contentType + BestTypeInsight
      else "다양한 문제로 번역 연습을 계속해보세요." ]
  }

  /**
   * The `stats` of the dashboard. With a signed-in user and records, every
   * figure is derived from the records; otherwise the demonstration figures
   * are shown.
   */
  method ComputeStats(signedIn: bool, records: seq<TranslationRecord>, nowMs: int, weekStartMs: int)
    returns (st: Stats)
    ensures !signedIn || records == [] ==> st == Demo()
    ensures signedIn && records != [] ==> Derived(st, records, nowMs, weekStartMs)
  {
    if signedIn && |records| > 0 {
      st := DeriveStats(records, nowMs, weekStartMs);
    } else {
      st := Demo();
    }
  }

  /**
   * What the figures say about the records: the totals; the streak of
   * consecutive study days back from today, and no further; the ranking of
   * the one or two problem types present, each once, with its mean score and
   * its number of records, sorted and ranked 1, 2, ...; and the insight
   * naming the type ranked first.
   */
  predicate Derived(st: Stats, records: seq<TranslationRecord>, nowMs: int, weekStartMs: int)
    requires records != []
  {
    && st.totalSections == |records| && st.totalSessions == |records|
    && st.totalStudyTime == 300 * |records|
    && st.averageAccuracy == AverageAccuracy(records)
    && st.weeklyGoal == WeeklyGoal(ThisWeekCount(records, nowMs, weekStartMs))
    && st.dailyStudyTime == Buckets(records, nowMs)
    && st.weeklyProgress == []
    && st.recentActivities == RecentActivities(records, nowMs)
    && StreakBack(RecordDays(records, nowMs), DayOf(nowMs), st.streakDays)
    && 1 <= |st.contentTypeRanking| <= 2
    && RankingOfRecords(st.contentTypeRanking, records)
    && |st.insights| == 3
    && st.insights[2] == st.contentTypeRanking[0].contentType + BestTypeInsight
  }

  /** The figures of a signed-in user with records. */
  method DeriveStats(records: seq<TranslationRecord>, nowMs: int, weekStartMs: int) returns (st: Stats)
    requires records != []
    ensures Derived(st, records, nowMs, weekStartMs)
  {
    var totalSections := |records|;
    var averageAccuracy := AverageAccuracy(records);
    var totalStudyTime := TotalStudyTime(records);
    var totalSessions := totalSections;

    var streakDays := RecordStreak(records, nowMs);

    var weeklyGoal := WeeklyGoal(ThisWeekCount(records, nowMs, weekStartMs));
    var dailyStudyTime := DailyStudyTime(records, nowMs);

    var contentTypeRanking := ContentTypeRanking(records);

    var recentActivities := RecentActivities(records, nowMs);
    var insights := Insights(totalSections, streakDays, contentTypeRanking);
    st := Stats(totalSections, averageAccuracy, totalStudyTime, totalSessions, streakDays, weeklyGoal,
      dailyStudyTime, [], contentTypeRanking, recentActivities, insights);
  }

  /** `streakDays`: the streak loop over the distinct study days, counted back from today. */
  method RecordStreak(records: seq<TranslationRecord>, nowMs: int) returns (streak: nat)
    ensures streak <= |Dedup(RecordDays(records, nowMs))|
    ensures StreakBack(RecordDays(records, nowMs), DayOf(nowMs), streak)
  {
    var days := RecordDays(records, nowMs);
    var uniqueDays := Dedup(days);
    streak := StreakDays(uniqueDays, DayOf(nowMs));
    StreakOverRecordDays(days, DayOf(nowMs), streak);
  }

  /** `contentTypeRanking`: the per-type statistics, ranked. */
  method ContentTypeRanking(records: seq<TranslationRecord>) returns (ranking: seq<RankEntry>)
    requires records != []
    ensures 1 <= |ranking| <= 2
    ensures RankingOfRecords(ranking, records)
  {
    var contentTypeStats := ContentTypeStats(records);
    TalliedTypesHaveScores(contentTypeStats, records);
    TalliesUnique(contentTypeStats, records);
    ranking := RankContentTypes(contentTypeStats);
    RankingCoversRecords(records, contentTypeStats, ranking);
    RankedEntriesDescribe(records, ranking);
    RankingTypes(records, ranking);
  }

  /** What the streak says of the distinct study days it says of the record days. */
  lemma StreakOverRecordDays(days: seq<int>, today: int, streak: nat)
    requires forall d :: today - streak < d <= today ==> d in Dedup(days)
    requires Distinct(Dedup(days)) ==> today - streak !in Dedup(days)
    ensures StreakBack(days, today, streak)
  {
    DedupSameMembers(days);
  }

  /** Every one of the `streak` days back from `today` is a study day, and the day before them is not. */
  predicate StreakBack(days: seq<int>, today: int, streak: nat) {
    && (forall d :: today - streak < d <= today ==> d in days)
    && today - streak !in days
  }

  /** Every tallied type has at least one score. */
  lemma TalliedTypesHaveScores(stats: seq<TypeStat>, records: seq<TranslationRecord>)
    requires Tallies(stats, records)
    ensures forall k :: 0 <= k < |stats| ==> |stats[k].scores| > 0
    ensures forall k :: 0 <= k < |stats| ==> stats[k].contentType in TypesOf(records)
  {
    forall k | 0 <= k < |stats|
      ensures |stats[k].scores| > 0 && stats[k].contentType in TypesOf(records)
    {
      ScoresOfPresentType(records, Dedup(TypesOf(records))[k]);
    }
  }

  /** The ranking has one entry per problem type that occurs among the records, one or two of them. */
  lemma RankingCoversRecords(records: seq<TranslationRecord>, stats: seq<TypeStat>, ranking: seq<RankEntry>)
    requires records != [] && Tallies(stats, records)
    requires forall k :: 0 <= k < |stats| ==> |stats[k].scores| > 0
    requires forall k :: 0 <= k < |stats| ==> stats[k].contentType in TypesOf(records)
    requires Unranked(ranking) == SortByScore(Entries(stats))
    ensures 1 <= |ranking| <= 2
    ensures forall k :: 0 <= k < |ranking| ==> ranking[k].contentType in TypesOf(records)
  {
    var entries := Entries(stats);
    var sorted := SortByScore(entries);
    assert |sorted| == |multiset(sorted)| == |multiset(entries)| == |entries|;
    TwoTypesAtMost(records);
    EntryTypes(stats, records);
    forall k | 0 <= k < |ranking|
      ensures ranking[k].contentType in TypesOf(records)
    {
      assert sorted[k] in sorted;
      assert ranking[k].contentType == sorted[k].contentType;
    }
  }

  lemma EntryTypes(stats: seq<TypeStat>, records: seq<TranslationRecord>)
    requires forall k :: 0 <= k < |stats| ==> |stats[k].scores| > 0
    requires forall k :: 0 <= k < |stats| ==> stats[k].contentType in TypesOf(records)
    ensures forall e :: e in Entries(stats) ==> e.contentType in TypesOf(records)
  {
    var entries := Entries(stats);
    forall e | e in entries
      ensures e.contentType in TypesOf(records)
    {
      var j :| 0 <= j < |entries| && entries[j] == e;
      assert e.contentType == stats[j].contentType;
    }
  }

  /** There are two problem types, and some record has one of them. */
  lemma TwoTypesAtMost(records: seq<TranslationRecord>)
    requires records != []
    ensures 1 <= |Dedup(TypesOf(records))| <= 2
  {
    var types := Dedup(TypesOf(records));
    assert TypesOf(records)[0] in types;
    if |types| > 2 {
      assert types[0] != types[1] && types[0] != types[2] && types[1] != types[2];
      assert types[0] in TypesOf(records) && types[1] in TypesOf(records) && types[2] in TypesOf(records);
      TypesAreTheTwoNames(records);
      assert false;
    }
  }

  lemma {:induction false} TypesAreTheTwoNames(records: seq<TranslationRecord>)
    ensures forall t :: t in TypesOf(records) ==> t == "기존 문제" || t == "AI 생성 문제"
  {
    if records != [] {
      TypesAreTheTwoNames(records[..|records| - 1]);
    }
  }

  // What the ranking says about the records.

  /** The per-type statistics of the records: one entry per type, in first-appearance order. */
  function TypeStatsOf(records: seq<TranslationRecord>): (stats: seq<TypeStat>)
    ensures Tallies(stats, records)
    ensures forall k :: 0 <= k < |stats| ==> |stats[k].scores| > 0
  {
    var types := Dedup(TypesOf(records));
    var stats := seq(|types|, k requires 0 <= k < |types| =>
      TypeStat(types[k], ScoresOf(records, types[k]), |ScoresOf(records, types[k])|));
    TalliedTypesHaveScores(stats, records);
    stats
  }

  /** The accumulator of the `reduce` is determined by the records. */
  lemma TalliesUnique(acc: seq<TypeStat>, records: seq<TranslationRecord>)
    requires Tallies(acc, records)
    ensures acc == TypeStatsOf(records)
  {
    var stats := TypeStatsOf(records);
    assert forall k :: 0 <= k < |acc| ==> acc[k] == stats[k];
  }

  /** The mean of the scores of the records of type `t`, to one decimal. */
  function MeanScore(records: seq<TranslationRecord>, t: string): real
    requires |ScoresOf(records, t)| > 0
  {
    RoundTenth(SumReals(ScoresOf(records, t)) / |ScoresOf(records, t)| as real)
  }

  /** An entry tells the truth about its type: the records of that type, their mean score and their number. */
  predicate Describes(e: RankEntry, records: seq<TranslationRecord>) {
    && |ScoresOf(records, e.contentType)| > 0
    && e.averageScore == MeanScore(records, e.contentType)
    && e.sectionCount == |ScoresOf(records, e.contentType)|
  }

  /** The types of a ranking, in its order. */
  function RankedTypes(s: seq<RankEntry>): (r: seq<string>)
    ensures |r| == |s| && forall k :: 0 <= k < |s| ==> r[k] == s[k].contentType
  {
    seq(|s|, k requires 0 <= k < |s| => s[k].contentType)
  }

  /**
   * The ranking of the records: the per-type entries sorted by mean, ranked
   * from 1; every entry describes its type, and every type of the records
   * has exactly one entry.
   */
  predicate RankingOfRecords(ranking: seq<RankEntry>, records: seq<TranslationRecord>) {
    && Unranked(ranking) == SortByScore(Entries(TypeStatsOf(records)))
    && NonIncreasing(ranking)
    && (forall k :: 0 <= k < |ranking| ==> ranking[k].rank == k + 1)
    && (forall k :: 0 <= k < |ranking| ==> Describes(ranking[k], records))
    && multiset(RankedTypes(ranking)) == multiset(Dedup(TypesOf(records)))
    && SumSections(ranking) == |records|
  }

  /** Every entry of the sorted per-type statistics describes its type. */
  lemma RankedEntriesDescribe(records: seq<TranslationRecord>, ranking: seq<RankEntry>)
    requires Unranked(ranking) == SortByScore(Entries(TypeStatsOf(records)))
    ensures forall k :: 0 <= k < |ranking| ==> Describes(ranking[k], records)
  {
    forall k | 0 <= k < |ranking| {
      RankedEntryDescribes(records, ranking, k);
    }
  }

  lemma RankedEntryDescribes(records: seq<TranslationRecord>, ranking: seq<RankEntry>, k: int)
    requires Unranked(ranking) == SortByScore(Entries(TypeStatsOf(records)))
    requires 0 <= k < |ranking|
    ensures Describes(ranking[k], records)
  {
    var entries := Entries(TypeStatsOf(records));
    var sorted := SortByScore(entries);
    assert sorted[k] == ranking[k].(rank := 0);
    assert sorted[k] in entries;
    var j :| 0 <= j < |entries| && entries[j] == sorted[k];
    EntryDescribes(records, j);
  }

  /** The entry built from the statistics of the `j`-th type describes that type. */
  lemma EntryDescribes(records: seq<TranslationRecord>, j: nat)
    requires j < |TypeStatsOf(records)|
    ensures Describes(Entries(TypeStatsOf(records))[j], records)
  {
    var stats := TypeStatsOf(records);
    assert stats[j].scores == ScoresOf(records, stats[j].contentType);
  }

  /** The ranking holds each type of the records exactly once. */
  lemma RankingTypes(records: seq<TranslationRecord>, ranking: seq<RankEntry>)
    requires Unranked(ranking) == SortByScore(Entries(TypeStatsOf(records)))
    ensures multiset(RankedTypes(ranking)) == multiset(Dedup(TypesOf(records)))
  {
    var entries := Entries(TypeStatsOf(records));
    var sorted := SortByScore(entries);
    assert RankedTypes(ranking) == RankedTypes(sorted) by {
      UnrankedTypes(ranking);
    }
    RankedTypesPermute(sorted, entries);
    EntriesTypes(records);
  }

  lemma UnrankedTypes(s: seq<RankEntry>)
    ensures RankedTypes(Unranked(s)) == RankedTypes(s)
  {
    assert forall k :: 0 <= k < |s| ==> Unranked(s)[k].contentType == s[k].contentType;
  }

  lemma EntriesTypes(records: seq<TranslationRecord>)
    ensures RankedTypes(Entries(TypeStatsOf(records))) == Dedup(TypesOf(records))
  {
    var stats := TypeStatsOf(records);
    assert forall k :: 0 <= k < |stats| ==> Entries(stats)[k].contentType == stats[k].contentType;
  }

  /** Two rankings with the same entries have the same types, as many times each. */
  lemma {:induction false} RankedTypesPermute(a: seq<RankEntry>, b: seq<RankEntry>)
    requires multiset(a) == multiset(b)
    ensures multiset(RankedTypes(a)) == multiset(RankedTypes(b))
    decreases |a|
  {
    if a != [] {
      var x := a[|a| - 1];
      var init := a[..|a| - 1] + a[|a|..];
      RemoveAt(a, |a| - 1);
      assert x in multiset(b);
      var j :| 0 <= j < |b| && b[j] == x;
      var rest := b[..j] + b[j + 1..];
      RemoveAt(b, j);
      MultisetCancel(multiset(init), multiset(rest), x);
      RankedTypesPermute(init, rest);
    }
  }

  /** Taking the entry at `j` out of a ranking takes one entry and one of its type out of the counts. */
  lemma RemoveAt(b: seq<RankEntry>, j: nat)
    requires j < |b|
    ensures multiset(b) == multiset(b[..j] + b[j + 1..]) + multiset{b[j]}
    ensures multiset(RankedTypes(b)) == multiset(RankedTypes(b[..j] + b[j + 1..])) + multiset{b[j].contentType}
  {
    RemoveOne(b, j);
    var types := RankedTypes(b);
    RemoveOne(types, j);
    assert RankedTypes(b[..j] + b[j + 1..]) == types[..j] + types[j + 1..];
  }

  /** Taking element `j` out of a sequence takes one of it out of the multiset. */
  lemma RemoveOne<T>(b: seq<T>, j: nat)
    requires j < |b|
    ensures multiset(b) == multiset(b[..j] + b[j + 1..]) + multiset{b[j]}
  {
    assert b == b[..j] + [b[j]] + b[j + 1..];
  }

  lemma MultisetCancel<T>(p: multiset<T>, q: multiset<T>, x: T)
    requires p + multiset{x} == q + multiset{x}
    ensures p == q
  {
    forall y
      ensures p[y] == q[y]
    {
      assert (p + multiset{x})[y] == (q + multiset{x})[y];
    }
  }

  /**
   * The type ranked first has the best mean score of every type the records
   * have: the one the third insight names.
   */
  lemma {:induction false} BestTypeFirst(ranking: seq<RankEntry>, records: seq<TranslationRecord>)
    requires RankingOfRecords(ranking, records) && |ranking| > 0
    ensures ranking[0].contentType in TypesOf(records)
    ensures forall t :: t in TypesOf(records) ==>
      |ScoresOf(records, t)| > 0 && ranking[0].averageScore == MeanScore(records, ranking[0].contentType) >= MeanScore(records, t)
  {
    DedupSameMembers(TypesOf(records));
    var types := RankedTypes(ranking);
    assert types[0] in multiset(types);
    assert Describes(ranking[0], records);
    forall t | t in TypesOf(records)
      ensures |ScoresOf(records, t)| > 0 && ranking[0].averageScore >= MeanScore(records, t)
    {
      var k := RankOfType(ranking, records, t);
      FirstBeats(ranking, records, k);
    }
  }

  /** Every type of the records has its place in the ranking. */
  lemma RankOfType(ranking: seq<RankEntry>, records: seq<TranslationRecord>, t: string) returns (k: nat)
    requires RankingOfRecords(ranking, records) && t in TypesOf(records)
    ensures k < |ranking| && ranking[k].contentType == t
  {
    DedupSameMembers(TypesOf(records));
    var types := RankedTypes(ranking);
    assert t in multiset(Dedup(TypesOf(records)));
    assert t in types;
    k :| 0 <= k < |types| && types[k] == t;
  }

  lemma FirstBeats(ranking: seq<RankEntry>, records: seq<TranslationRecord>, k: nat)
    requires NonIncreasing(ranking) && k < |ranking|
    requires forall i :: 0 <= i < |ranking| ==> Describes(ranking[i], records)
    ensures Describes(ranking[k], records)
    ensures ranking[0].averageScore >= MeanScore(records, ranking[k].contentType)
  {
    assert Describes(ranking[k], records);
    if k > 0 {
      assert ranking[0].averageScore >= ranking[k].averageScore;
    }
  }

  /** With records, the third insight names the type with the best mean score. */
  lemma InsightNamesBestType(st: Stats, records: seq<TranslationRecord>, nowMs: int, weekStartMs: int)
    requires records != [] && Derived(st, records, nowMs, weekStartMs)
    ensures exists best ::
      && st.insights[2] == best + BestTypeInsight && best in TypesOf(records)
      && |ScoresOf(records, best)| > 0
      && forall t :: t in TypesOf(records) ==> |ScoresOf(records, t)| > 0 && MeanScore(records, best) >= MeanScore(records, t)
  {
    BestTypeFirst(st.contentTypeRanking, records);
    var best := st.contentTypeRanking[0].contentType;
    assert Describes(st.contentTypeRanking[0], records);
  }
}
