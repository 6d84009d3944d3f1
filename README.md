# TranslationFeedback, modelled in Dafny

TranslationFeedback is a web app for practising Korean–Chinese translation. A
learner translates a sentence. A language model then comments on the
translation in six numbered sections: summary, good points, weak points,
recommended expressions, study suggestions and example sentences. This
project models the client-side logic of the app and proves properties of it:

- **Feedback display.** The pipeline that turns the model's answer into the
  six sections and draws them:
  - bullet normalisation (`bullets.dfy`);
  - the six-way split with its fallback (`sections.dfy`);
  - quoted-phrase extraction and the clickable quotes (`quotes.dfy`);
  - the section clean-up and formatting (`formatting.dfy`);
  - the score read from the summary (`score.dfy`);
  - the grouping of the example section, the split of a translation at its
    colon, and the speech language tag (`examples_section.dfy`);
  - the word highlighter (`highlight.dfy`).
- **Study dashboard.** The statistics derived from the stored records
  (`dashboard.dfy`), the score the dashboard reads from one feedback
  (`record_score.dfy`), and the duration format and activity icon
  (`study_time.dfy`).
- **Existing problems page.** Filtering by difficulty and domain, the domain
  menu, navigation, submission, and the vocabulary chips (`problems.dfy`).
- **Translation history page.** Selection, select-all, and single and bulk
  deletion (`history.dfy`).
- **Guided tour.** The step machine and the tooltip placement (`tour.dfy`).

Shared helpers are in `common.dfy` and `text.dfy`:

- the whitespace set of ECMAScript;
- `trim`, `includes`, `indexOf` and `split`;
- decimal numerals.

Each regular expression of the source is a hand-written scanner. Text is
`seq<char>`. Scores are exact rationals or integer tenths. Parts of the
source change state in place:

- the page state of the problems, history and tour components;
- the loops of `parseFeedback6`, `renderExampleSection`, the streak, the
  daily buckets and the type tally.

Those parts are classes and methods with loops. Each method is proved against
a function that specifies it, and the properties are proved about those
functions.

## Model

| member | source | states |
|---|---|---|
| Common.Dedup | src/FeedbackDisplay.tsx:85-91 | `Array.from(new Set(...))`: the result has no repetition, and it holds exactly the values of the input |
| Common.DedupOrder | src/FeedbackDisplay.tsx:85-91 | the values keep the order of their first appearance |
| Common.DedupOfDistinct | src/FeedbackDisplay.tsx:85-91 | a list without repetition is left unchanged |
| Common.DedupSameMembers | src/components/dashboard/StudyDashboard.tsx:277 | a value is in the deduplicated list exactly when it is in the input |
| Text.TrimSlice | src/FeedbackDisplay.tsx:8 | `trim()` removes exactly a leading and a trailing run of white space, and the result neither starts nor ends with white space |
| Text.TrimEmptyIffAllSpace | src/FeedbackDisplay.tsx:14 | a text trims to empty exactly when it is all white space |
| Text.Find | src/FeedbackDisplay.tsx:139 | the leftmost occurrence of a substring, or none; found exactly when `includes` holds |
| Text.IndexOfChar | src/FeedbackDisplay.tsx:242 | `indexOf(c)`: the first position holding `c`, or -1 exactly when `c` is absent |
| Text.SplitJoin | src/FeedbackDisplay.tsx:131 | `split(c)` followed by `join(c)` gives back the text |
| Text.NatToStringRoundTrip | src/components/dashboard/StudyDashboard.tsx:68 | reading back the decimal numeral of `n` gives `n` |
| Bullets.NormalizeFirstLine | src/FeedbackDisplay.tsx:77-79 | the first line is rewritten on its own: leading spaces or tabs plus one of `●•*-` become `‧`, and the line terminator and the rest follow unchanged |
| Bullets.NormalizeLastLine | src/FeedbackDisplay.tsx:77-79 | a last line without a terminator is rewritten on its own |
| Bullets.NormalizeNotLonger | src/FeedbackDisplay.tsx:77-79 | the rewrite never lengthens the text |
| Bullets.NormalizeBulletsIdempotent | src/FeedbackDisplay.tsx:77-79 | normalising twice is normalising once, and the text never grows |
| Sections.FirstMarker | src/FeedbackDisplay.tsx:7 | the first `\d[).-]` at or after a position, and none before it |
| Sections.SectionEnd | src/FeedbackDisplay.tsx:7 | the lazy body stops at the first `\n\d[).-]` boundary or at the end of the text |
| Sections.ParseFeedback6 | src/FeedbackDisplay.tsx:5-27 | the method that fills the six slots returns `Parsed(feedback)`: each slot holds its match with the label stripped and then trimmed, and the whole answer becomes the summary when every slot is blank or the summary is longer than 0.8 of the answer |
| Sections.FillSlots | src/FeedbackDisplay.tsx:6-12 | slot k of the six is match k with its own label k stripped and the rest trimmed when that match exists and is non-empty, and stays empty otherwise |
| Sections.NoMarkerNoMatches | src/FeedbackDisplay.tsx:7 | without any digit followed by `)`, `.` or `-` there is no match |
| Sections.FirstMatchAtFirstMarker | src/FeedbackDisplay.tsx:7 | a marker anywhere gives a match; the first match starts at the first marker, even mid-line; joining the matches with newlines gives back the text from there |
| Sections.MatchesRebuild | src/FeedbackDisplay.tsx:7 | the matches lose nothing but the newlines that separate them |
| Sections.MatchesShape | src/FeedbackDisplay.tsx:7 | every match begins with a marker and contains no inner `\n\d[).-]` boundary |
| Sections.ParsedWithoutMarker | src/FeedbackDisplay.tsx:14-25 | an answer without a marker is kept whole as the summary, with every other slot empty |
| Sections.ParsedSummaryDominance | src/FeedbackDisplay.tsx:15-25 | a summary longer than 0.8 of the answer falls back to the whole answer |
| Sections.ParsedKeepsSplit | src/FeedbackDisplay.tsx:8-26 | when there is no fallback, the slots are the split, the summary is at most 0.8 of the answer, and some slot is not blank |
| Sections.SlotsBeyondMatches | src/FeedbackDisplay.tsx:8-13 | matches after the sixth are never read, and slots without a match stay empty |
| Sections.WrongLabelKept | src/FeedbackDisplay.tsx:8-13 | a match that starts with a different digit keeps its label |
| Sections.RightLabelStripped | src/FeedbackDisplay.tsx:8-13 | the slot's own digit, its punctuation and one space are removed, and nothing more |
| Quotes.QuoteClose | src/FeedbackDisplay.tsx:30 | the closing quote of a non-empty `"..."` pair at the start of the text, with no quote in between |
| Quotes.ExtractQuotedPhrases | src/FeedbackDisplay.tsx:29-32 | every phrase is non-empty and has no `"` |
| Quotes.SplitQuotes | src/FeedbackDisplay.tsx:106 | the split on `/"([^"]+)"/` has an odd number of parts |
| Quotes.ExtractIsOddParts | src/FeedbackDisplay.tsx:29-32 | the extracted phrases are exactly the captured parts of the split, in order |
| Quotes.RebuildSplitQuotes | src/FeedbackDisplay.tsx:106 | putting the parts back, each captured part between quotes, gives back the text |
| Quotes.NoPairNoPhrase | src/FeedbackDisplay.tsx:29-32 | a text without `"` is one part and has no phrase |
| Quotes.QuotedPhraseFound | src/FeedbackDisplay.tsx:29-32 | a phrase written between quotes after quote-free text is the first phrase found, and the phrases of the rest follow it |
| Quotes.AllPhrasesMembers | src/FeedbackDisplay.tsx:85-91 | a phrase is pooled exactly when it is quoted in one of the five commented sections; the pool has no repetition and does not depend on the example section |
| Quotes.MarkQuoteParts | src/FeedbackDisplay.tsx:107-122 | one span per part: a captured part is drawn hoverable exactly when highlighting is on and the part is a pooled phrase |
| Quotes.HoverablesArePhrases | src/FeedbackDisplay.tsx:105-123 | every hoverable span holds a pooled phrase |
| Quotes.RenderQuotesShowsText | src/FeedbackDisplay.tsx:105-123 | when every quoted phrase of a text is pooled, the drawn spans show the text exactly |
| Quotes.SectionShownWhole | src/FeedbackDisplay.tsx:85-123 | a section's text, rendered in one piece with the phrases pooled from all sections, is shown unchanged with every quote kept |
| Quotes.OnMouseEnter | src/FeedbackDisplay.tsx:113 | entering a hoverable phrase highlights it when the page passed a callback; otherwise nothing changes |
| Quotes.OnMouseLeave | src/FeedbackDisplay.tsx:114 | leaving a hoverable phrase clears the highlight when the page passed a callback; otherwise nothing changes |
| Highlight.EscapeIsLiteral | src/ExistingProblems.tsx:274 | the escaped word is a pattern that stands for exactly the word |
| Highlight.LiteralIsEscape | src/ExistingProblems.tsx:274 | a pattern that stands for a word is the escaped word |
| Highlight.LiteralSplitConcat | src/ExistingProblems.tsx:275 | the parts of the split put together give back the text |
| Highlight.LiteralSplitHead | src/ExistingProblems.tsx:275 | the first part begins the text |
| Highlight.LiteralSplitMarks | src/ExistingProblems.tsx:275-281 | every odd part is an occurrence of the word, and no even part equals it |
| Highlight.LiteralSplitAbsent | src/ExistingProblems.tsx:275 | a text without the word is one part |
| Highlight.MarkParts | src/ExistingProblems.tsx:275-281 | a part is marked exactly when it equals the word |
| Highlight.HighlightEscapedFaithful | src/ExistingProblems.tsx:272-282 | the marked parts put together give back the text; exactly the occurrences are marked; no word or an empty word gives one part |
| Highlight.HighlightEscapedAbsent | src/ExistingProblems.tsx:272-282 | a word that does not occur gives one unmarked part |
| Highlight.MatchLen | src/FeedbackDisplay.tsx:95 | the length a pattern matches at the start of a text; never empty for a pattern that cannot match the empty string |
| Highlight.PatternSplit | src/FeedbackDisplay.tsx:96 | the split on a capturing pattern has an odd number of parts |
| Highlight.WhatAsPattern | src/FeedbackDisplay.tsx:95 | the word `what?`, read unescaped as a pattern, is `wha` and an optional `t` |
| Highlight.WhatSplitAsWritten | src/FeedbackDisplay.tsx:95-96 | in the text `what?` that pattern captures `what` and leaves the `?` |
| Highlight.UnescapedMissesOccurrence | src/FeedbackDisplay.tsx:93-103 | as written, the occurrence of `what?` in `what?` is not marked; with escaping it is |
| Formatting.CleanSectionTextKeepsColon | src/FeedbackDisplay.tsx:34-36 | as written, white space between the title and a colon leaves the colon at the head of the cleaned text; the intended pattern removes it |
| Formatting.CleanSectionTextStripsLabel | src/FeedbackDisplay.tsx:34-36 | the corrected clean-up removes the title, white space and the colon, and trims the rest |
| Formatting.CleanSectionTextOtherwise | src/FeedbackDisplay.tsx:34-36 | a text that does not begin with the title is only trimmed, as written and corrected |
| Formatting.StripLeadingNewlines | src/FeedbackDisplay.tsx:45 | only leading line feeds are removed, and the result does not start with one |
| Formatting.CollapseNewlines | src/FeedbackDisplay.tsx:46 | the result has no three consecutive line feeds and starts as the text did |
| Formatting.CollapseKeepsShortRuns | src/FeedbackDisplay.tsx:46 | a text without three consecutive line feeds is left unchanged |
| Formatting.CollapseIdempotent | src/FeedbackDisplay.tsx:46 | collapsing twice is collapsing once |
| Formatting.FormatSectionText | src/FeedbackDisplay.tsx:38-48 | the formatted text never begins with a line feed and never has three in a row |
| Formatting.FormatPlainTextKept | src/FeedbackDisplay.tsx:38-48 | formatting an already formatted text without `● ` changes nothing outside the study-suggestion section |
| Formatting.NoBulletNoBreak | src/FeedbackDisplay.tsx:44 | a text without `●` passes the bullet rewrite unchanged |
| Formatting.RemoveFullSubtitle | src/FeedbackDisplay.tsx:125-128 | `**title** 항목:` at the start is removed and the rest trimmed |
| Formatting.RemoveBareSubtitle | src/FeedbackDisplay.tsx:125-128 | `title:` at the start is removed and the rest trimmed |
| Formatting.RemoveSubtitleOtherwise | src/FeedbackDisplay.tsx:125-128 | a text that does not begin with the title, bold or not, is only trimmed |
| Formatting.SplitBeforeBullets | src/FeedbackDisplay.tsx:328 | the split on `/\n\s*(?=[‧])/`: the first part begins the text, and every later part is non-empty and begins with `‧` |
| Formatting.SplitSeparators | src/FeedbackDisplay.tsx:328 | the runs the split removes, one between each two parts, each a `\n` followed by white space only |
| Formatting.SplitRebuilds | src/FeedbackDisplay.tsx:328 | the parts with the removed runs put back between them give back the text |
| Formatting.SplitPartsUncut | src/FeedbackDisplay.tsx:328 | no part holds a `\n`, white space and `‧` boundary the split should have cut at |
| Formatting.SplitKeepsBullets | src/FeedbackDisplay.tsx:328 | the split drops no `‧` |
| Formatting.StripBullet | src/FeedbackDisplay.tsx:331 | a leading `‧` and the white space after it are removed; other lines are unchanged |
| Formatting.FilterAppend | src/FeedbackDisplay.tsx:328 | the filter keeps order: filtering a concatenation filters each half in turn |
| Formatting.Filter | src/FeedbackDisplay.tsx:328 | `.filter(keep)`: every element kept is from the input and accepted, and every accepted element is kept |
| Formatting.NonBlankAppend | src/FeedbackDisplay.tsx:328 | dropping the blank parts of two lists joined is dropping those of each, in order |
| Formatting.FilterFrom | src/FeedbackDisplay.tsx:328 | each kept element is an input element, and only the first kept one can be the input's first |
| Formatting.RenderLines | src/FeedbackDisplay.tsx:329-348 | one drawn line per part, in order |
| Formatting.SubtitlesPlain | src/FeedbackDisplay.tsx:323-327 | the subtitles the five commented sections remove are plain titles |
| Formatting.RenderedLinesAreBullets | src/FeedbackDisplay.tsx:328-337 | every part after the first is drawn as a bullet item |
| Formatting.DrawnLines | src/FeedbackDisplay.tsx:328-337 | every non-blank part of the split holds more than white space, and every part after the first is drawn as a bullet item |
| Formatting.RenderFormattedTextLines | src/FeedbackDisplay.tsx:319-349 | `renderFormattedText` outside the example section draws every line after the first as a bullet item |
| Score.RoundRatio | src/FeedbackDisplay.tsx:355 | `Math.round(N/M*100)` for `M > 0` is the nearest integer, halves up; `M == 0` gives Infinity, or NaN for `0/0` |
| Score.ExtractScore | src/FeedbackDisplay.tsx:352-361 | the method with the reassigned `score` returns `ScoreOf(summary)`, and 0 when neither pattern matches |
| Score.RatioScoreBounded | src/FeedbackDisplay.tsx:355 | a ratio no larger than one scores between 0 and 100 |
| Score.WholeRatioAt | src/FeedbackDisplay.tsx:353 | a whole-number ratio at a position is read as its numerator and denominator |
| Score.DecimalRatioAt | src/FeedbackDisplay.tsx:353 | a numerator with one decimal, such as `8.5/10`, is read in tenths |
| Score.FirstRatioAt | src/FeedbackDisplay.tsx:353 | the search for `N/M` finds the match at `i` when none starts before it |
| Score.FirstRatioLeftmost | src/FeedbackDisplay.tsx:353 | what the search for `N/M` finds is a match with none before it |
| Score.RatioScore | src/FeedbackDisplay.tsx:353-355 | the leftmost `N/M` anywhere in the summary decides the score, `Math.round(N/M*100)` |
| Score.FirstPointsAt | src/FeedbackDisplay.tsx:357 | the search for `N점` finds the match at `i` when none starts before it |
| Score.FirstPointsLeftmost | src/FeedbackDisplay.tsx:357 | what the search for `N점` finds is a match with none before it |
| Score.PointsScore | src/FeedbackDisplay.tsx:356-359 | with no `N/M` anywhere, the leftmost `N점` anywhere in the summary scores `10 × N` |
| Score.NoDigitsScoreZero | src/FeedbackDisplay.tsx:352-361 | a summary without digits scores 0 |
| Score.NoSlashNoRatio | src/FeedbackDisplay.tsx:353 | a text without `/` has no ratio |
| Score.LeadingPointsScore | src/FeedbackDisplay.tsx:357-359 | a summary without `/` that opens with one to three digits and `점` scores `10 × N` |
| Score.EightAndAHalfOfTen | src/FeedbackDisplay.tsx:352-356 | `8.5/10` scores 85 |
| Score.NinetyTwoOfHundred | src/FeedbackDisplay.tsx:352-356 | `92/100` scores 92 |
| Score.NinePoints | src/FeedbackDisplay.tsx:357-359 | `9점` scores 90 |
| ExampleSection.RenderExampleSection | src/FeedbackDisplay.tsx:130-176 | every non-blank line is drawn exactly once; there are as many groups as expression lines; groups are numbered 1, 2, … in order, and only groups after the first carry the separator; every block is where the walk puts its line (the facts the lemmas below read off) and the stray items come in line order; a group is drawn before a general item or plain line exactly when more expression lines precede that line than the group's number, i.e. when the expression that closes the group comes first |
| ExampleSection.WalkKeeps | src/FeedbackDisplay.tsx:135-171 | after every line the blocks drawn, the open group and the group count account for exactly the lines read, each in its place |
| ExampleSection.DrawnAt | src/FeedbackDisplay.tsx:135-171 | every line of the section is drawn by one of the blocks |
| ExampleSection.ExampleBeforeExpressions | src/FeedbackDisplay.tsx:149-158 | an example sentence before any expression line is drawn on its own as a general item, bullet stripped |
| ExampleSection.ExampleJoinsGroup | src/FeedbackDisplay.tsx:149-155 | an example sentence after an expression line is an item of the group of the last expression before it |
| ExampleSection.ExpressionInGroup | src/FeedbackDisplay.tsx:139-148 | an expression line is an item of the group numbered by the expression lines up to and including it |
| ExampleSection.ItemLine | src/FeedbackDisplay.tsx:137-155 | an item of group `n` is a bullet line, drawn without its bullet, that comes after exactly `n` expression lines |
| ExampleSection.GroupLines | src/FeedbackDisplay.tsx:139-155 | a group is numbered from 1 and draws, in line order, bullet lines that each come after exactly its number of expression lines |
| ExampleSection.StrayLine | src/FeedbackDisplay.tsx:156-170 | a general item is a bullet line without its bullet, an example sentence only before any expression line; a plain line is a line without a bullet, drawn as it is |
| ExampleSection.StrayInOrderPairs | src/FeedbackDisplay.tsx:156-170 | every block drawn before a general item or a plain line ends before that line |
| ExampleSection.StepExpression | src/FeedbackDisplay.tsx:139-148 | an expression line closes the open group and opens the next one |
| ExampleSection.StepExample | src/FeedbackDisplay.tsx:149-155 | an example line joins the open group |
| ExampleSection.StepStray | src/FeedbackDisplay.tsx:156-170 | an example line without an open group, another bullet or a plain line is drawn at once |
| ExampleSection.FinishGroups | src/FeedbackDisplay.tsx:172-174 | closing the last group keeps the numbering and accounts for every line |
| ExampleSection.OrderKeeps | src/FeedbackDisplay.tsx:135-171 | after every line, each group drawn so far was closed by an expression line before each stray line drawn after it, and by none before the stray lines drawn before it |
| ExampleSection.OrderStep | src/FeedbackDisplay.tsx:137-170 | reading one line keeps that order: groups are numbered below the count of groups opened, and stray lines had at most that many expression lines before them |
| ExampleSection.OrderExpression | src/FeedbackDisplay.tsx:139-148 | an expression line pushes the open group after every stray line already drawn |
| ExampleSection.OrderClosed | src/FeedbackDisplay.tsx:172-174 | the group still open at the end is pushed after every stray line |
| ExampleSection.OrderFinish | src/FeedbackDisplay.tsx:135-174 | the blocks of the whole walk place groups among general items and plain lines by the expression lines before each of those lines |
| ExampleSection.PlainLineBeforeOpenGroup | src/FeedbackDisplay.tsx:164-174 | for an expression line followed by a plain line, the order group first, plain line second is excluded: the plain line is pushed at once and the open group only at the end |
| ExampleSection.ColonIndex | src/FeedbackDisplay.tsx:242 | the later of the first `:` and the first `：`; -1 exactly when there is neither |
| ExampleSection.TranslationParts | src/FeedbackDisplay.tsx:242-243 | without a colon the label is empty and the whole item is the translation; with one, the label ends at the colon and label plus remainder give back the item, and the translation is the trimmed remainder |
| ExampleSection.HasHanzi | src/FeedbackDisplay.tsx:57 | holds exactly when some character is in `[一-龯]` |
| ExampleSection.SpeechLang | src/FeedbackDisplay.tsx:57-61 | `zh-CN` exactly when the text has no ideograph, `ko-KR` exactly when it has one |
| RecordScore.DecimalAt | src/components/dashboard/StudyDashboard.tsx:265 | the greedy `\d+\.?\d*` at a position: a non-negative value and the position after it |
| RecordScore.FirstMatchIsLeftmost | src/components/dashboard/StudyDashboard.tsx:265-266 | a match is found exactly when the pattern matches somewhere, and the one found is the leftmost |
| RecordScore.ScoreOfFeedback | src/components/dashboard/StudyDashboard.tsx:265-266 | a record's score is never negative |
| RecordScore.NoSlashScoresZero | src/components/dashboard/StudyDashboard.tsx:265-266 | a feedback without `/` scores 0 |
| RecordScore.EightAndAHalfOutOfTen | src/components/dashboard/StudyDashboard.tsx:265-266 | `8.5/10` counts as 85 |
| RecordScore.HundredScaleReadAsTen | src/components/dashboard/StudyDashboard.tsx:318-320 | `92/100` counts as 920, because the pattern stops after the `10` of `100` |
| StudyTime.FormatTimeRoundTrip | src/components/dashboard/StudyDashboard.tsx:64-71 | reading back `formatTime(s)` gives `s div 3600` hours and `(s mod 3600) div 60` minutes, in the `H시간 M분` or `M분` shape |
| StudyTime.HoursMinutes | src/components/dashboard/StudyDashboard.tsx:65-66 | the minutes are always below 60, and hours and minutes are the whole minutes split by 60 |
| StudyTime.FormatTimeSameMinutes | src/components/dashboard/StudyDashboard.tsx:64-71 | two durations are written the same exactly when they have the same whole minutes |
| StudyTime.DemoTotalStudyTime | src/components/dashboard/StudyDashboard.tsx:36 | 12540 seconds read `3시간 29분` |
| StudyTime.IconFor | src/components/dashboard/StudyDashboard.tsx:73-79 | 📚 when the type contains `기존 문제`, otherwise 🤖 when it contains `AI 생성`, otherwise 📝 |
| Dashboard.TypeName | src/components/dashboard/StudyDashboard.tsx:314 | `기존 문제` exactly when the problem type is `existing`, `AI 생성 문제` exactly when it is not |
| Dashboard.Round | src/components/dashboard/StudyDashboard.tsx:327 | `Math.round`: within one half of the value, halves rounded up |
| Dashboard.RoundTenth | src/components/dashboard/StudyDashboard.tsx:359 | rounding to one decimal moves the value by at most 0.05 |
| Dashboard.TotalStudyTime | src/components/dashboard/StudyDashboard.tsx:269-272 | 300 seconds per record |
| Dashboard.StreakDays | src/components/dashboard/StudyDashboard.tsx:279-290 | every day from today back over the streak is a study day; the day before the streak is not, when the days are distinct; the streak is at most the number of days, and 0 when today has no record |
| Dashboard.DistinctCovered | src/components/dashboard/StudyDashboard.tsx:282 | distinct values that all occur in a list are no more than the list holds |
| Dashboard.StreakCoversAllDays | src/components/dashboard/StudyDashboard.tsx:282-289 | distinct days that include today and every day before it back over their number leave the day before that out, so the loop ends by a miss |
| Dashboard.RecordStreak | src/components/dashboard/StudyDashboard.tsx:277-290 | the streak over the distinct record days: consecutive study days back from today, no further, and at most the number of distinct days |
| Dashboard.StreakOverRecordDays | src/components/dashboard/StudyDashboard.tsx:277 | what holds of the distinct days holds of the record days |
| Dashboard.ThisWeekCount | src/components/dashboard/StudyDashboard.tsx:296-299 | at most the number of records |
| Dashboard.WeeklyGoal | src/components/dashboard/StudyDashboard.tsx:300 | between 0 and 100; exactly 100 from five records on; 20 per record below that |
| Dashboard.DailyStudyTime | src/components/dashboard/StudyDashboard.tsx:303-310 | the in-place loop over a seven-slot array gives `Buckets` |
| Dashboard.BucketsCount | src/components/dashboard/StudyDashboard.tsx:303-310 | slot `k` holds five minutes per record made `6 - k` days ago |
| Dashboard.BucketsTotal | src/components/dashboard/StudyDashboard.tsx:303-310 | the seven slots sum to five minutes per record of the last seven days, so at most five per record |
| Dashboard.Lookup | src/components/dashboard/StudyDashboard.tsx:315 | the accumulator entry of a type, or -1 exactly when there is none |
| Dashboard.ContentTypeStats | src/components/dashboard/StudyDashboard.tsx:313-323 | the reduce loop tallies every record: one entry per type in order of first appearance, each holding the scores of that type's records in order and their count; the counts sum to the number of records |
| Dashboard.TallyStep | src/components/dashboard/StudyDashboard.tsx:314-322 | reading one more record adds an entry for a new type, or one score to a known type |
| Dashboard.NoScoresWithoutType | src/components/dashboard/StudyDashboard.tsx:313-323 | a type no record has has no scores |
| Dashboard.ScoresOfPresentType | src/components/dashboard/StudyDashboard.tsx:313-323 | a type some record has has a score |
| Dashboard.SumCountsUpdate | src/components/dashboard/StudyDashboard.tsx:320-321 | updating one entry changes the sum of counts by that entry's change |
| Dashboard.Insert | src/components/dashboard/StudyDashboard.tsx:330 | putting an entry into a ranking adds exactly that entry |
| Dashboard.InsertSorted | src/components/dashboard/StudyDashboard.tsx:330 | insertion keeps the ranking non-increasing |
| Dashboard.InsertPermutes | src/components/dashboard/StudyDashboard.tsx:330 | insertion adds the entry to the multiset and its count to the sum |
| Dashboard.SortByScore | src/components/dashboard/StudyDashboard.tsx:330 | non-increasing averages, a permutation of the entries, the same sum of counts |
| Dashboard.Unranked | src/components/dashboard/StudyDashboard.tsx:325-330 | the entries with the rank cleared to 0, as built before the ranks are assigned |
| Dashboard.RankContentTypes | src/components/dashboard/StudyDashboard.tsx:325-334 | the ranking is the sorted entries with rank set to position plus one; it is non-increasing; its counts sum to the tallied counts |
| Dashboard.AssignRanks | src/components/dashboard/StudyDashboard.tsx:332-334 | the entries keep their order, type, average and count, and the entry at position k gets rank k + 1 |
| Dashboard.SortedEntriesUnranked | src/components/dashboard/StudyDashboard.tsx:329 | the sorted entries all carry rank 0 |
| Dashboard.RanksAssigned | src/components/dashboard/StudyDashboard.tsx:332-334 | assigning ranks keeps the order, the averages and the counts |
| Dashboard.SumSectionsPointwise | src/components/dashboard/StudyDashboard.tsx:328 | lists with the same counts position by position have the same sum |
| Dashboard.SumSectionsOfEntries | src/components/dashboard/StudyDashboard.tsx:328 | the ranking entries keep the tallied counts |
| Dashboard.RecentActivities | src/components/dashboard/StudyDashboard.tsx:337-348 | the first `min(4, n)` records, each as its activity, in order |
| Dashboard.ActivityIcon | src/components/dashboard/StudyDashboard.tsx:73-79 | a recent activity shows 📚 for an existing problem and 🤖 otherwise |
| Dashboard.Insights | src/components/dashboard/StudyDashboard.tsx:351-355 | three insights |
| Dashboard.ComputeStats | src/components/dashboard/StudyDashboard.tsx:259-374 | the demonstration figures without a signed-in user or without records; otherwise every figure derived from the records, the ranking included |
| Dashboard.DeriveStats | src/components/dashboard/StudyDashboard.tsx:260-369 | sections and sessions equal the number of records; 300 seconds per record; the average accuracy, the weekly goal, the daily buckets, the streak and the recent activities as above; the ranking of the records below; the third insight names the type ranked first |
| Dashboard.ContentTypeRanking | src/components/dashboard/StudyDashboard.tsx:313-334 | one or two entries: the per-type statistics sorted by mean and ranked 1, 2; each entry holds its type's mean score and number of records; every type of the records appears exactly once; the counts sum to the number of records |
| Dashboard.TypeStatsOf | src/components/dashboard/StudyDashboard.tsx:313-323 | the tally of the records, one entry per type in first-appearance order, each with a score |
| Dashboard.TalliesUnique | src/components/dashboard/StudyDashboard.tsx:313-323 | the accumulator the `reduce` builds is determined by the records |
| Dashboard.EntryDescribes | src/components/dashboard/StudyDashboard.tsx:325-330 | the entry built from a type's statistics holds that type's mean score, rounded to one decimal, and its number of records |
| Dashboard.RankedEntriesDescribe | src/components/dashboard/StudyDashboard.tsx:325-330 | every entry of the sorted statistics does too |
| Dashboard.RankingTypes | src/components/dashboard/StudyDashboard.tsx:325-330 | the ranking holds each type of the records exactly once |
| Dashboard.RankedTypesPermute | src/components/dashboard/StudyDashboard.tsx:330 | rankings with the same entries hold the same types, as many times each |
| Dashboard.BestTypeFirst | src/components/dashboard/StudyDashboard.tsx:325-334 | the type ranked first occurs among the records and has the best mean score of every type they have |
| Dashboard.RankOfType | src/components/dashboard/StudyDashboard.tsx:325-334 | every type of the records has an entry in the ranking |
| Dashboard.FirstBeats | src/components/dashboard/StudyDashboard.tsx:330 | in a non-increasing ranking of entries that describe their types, the first mean is at least every other type's |
| Dashboard.InsightNamesBestType | src/components/dashboard/StudyDashboard.tsx:354 | with records, the third insight names a type of the records whose mean score is the best |
| Dashboard.AverageAccuracyBounds | src/components/dashboard/StudyDashboard.tsx:263-268 | the average accuracy is never negative, and never above a bound no record's score exceeds |
| Dashboard.AverageOfEqualScores | src/components/dashboard/StudyDashboard.tsx:263-268 | records that all score the same one-decimal value average exactly that value after the rounding of :359 |
| Dashboard.TalliedTypesHaveScores | src/components/dashboard/StudyDashboard.tsx:313-323 | every tallied type occurs among the records and has a score |
| Dashboard.RankingCoversRecords | src/components/dashboard/StudyDashboard.tsx:325-330 | the ranking has one or two entries, all of types that occur |
| Dashboard.TwoTypesAtMost | src/components/dashboard/StudyDashboard.tsx:314 | records have one or two distinct types |
| Dashboard.TypesAreTheTwoNames | src/components/dashboard/StudyDashboard.tsx:314 | every type is `기존 문제` or `AI 생성 문제` |
| Problems.ByDifficulty | src/ExistingProblems.tsx:148-150 | `전체` leaves the list unchanged |
| Problems.ByDomain | src/ExistingProblems.tsx:151-153 | `전체` leaves the list unchanged |
| Problems.FilteredMembers | src/ExistingProblems.tsx:147-153 | exactly the problems that match both the difficulty and the domain remain |
| Problems.DifficultyMembers | src/ExistingProblems.tsx:148-150 | exactly the problems of the chosen difficulty remain |
| Problems.DomainMembers | src/ExistingProblems.tsx:151-153 | exactly the problems of the chosen domain remain |
| Problems.FilteredKeepsOrder | src/ExistingProblems.tsx:147-153 | filtering keeps the order of the problems |
| Problems.DomainValues | src/ExistingProblems.tsx:145 | the non-empty string domains of the problems |
| Problems.AvailableDomains | src/ExistingProblems.tsx:145-146 | `전체` first, then each non-empty string domain once |
| Problems.ProblemsView.constructor | src/ExistingProblems.tsx:22-39 | the initial page state |
| Problems.ProblemsView.Current | src/ExistingProblems.tsx:163 | `problems[currentIndex]`, or none exactly when the index is outside the list |
| Problems.ProblemsView.Load | src/ExistingProblems.tsx:137-155 | the domain menu from every loaded problem; the filtered problems; the index back at 0, and a problem shown exactly when some remain |
| Problems.ProblemsView.LoadFailed | src/ExistingProblems.tsx:156-158 | a failed load leaves no problem |
| Problems.ProblemsView.ChooseDifficulty | src/ExistingProblems.tsx:187-189 | sets the difficulty |
| Problems.ProblemsView.ChooseDomain | src/ExistingProblems.tsx:182-184 | sets the domain |
| Problems.ProblemsView.Prev | src/ExistingProblems.tsx:421 | one back unless on the first problem, and a problem is still shown |
| Problems.ProblemsView.Next | src/ExistingProblems.tsx:423 | one forward unless on the last problem, and a problem is still shown |
| Problems.ProblemsView.Counter | src/ExistingProblems.tsx:425 | the counter is between 1 and the number of problems |
| Problems.ProblemsView.Submit | src/ExistingProblems.tsx:165-180 | without a problem the error `문제가 없습니다.` and no translations; otherwise exactly the ChatGPT and Gemini translations, a missing one as empty; loading is off afterwards |
| Problems.ProblemsView.ClickVocab | src/ExistingProblems.tsx:384-391 | clicking the highlighted chip clears the word and the vocabulary; any other chip selects both; the chip's ring flips |
| Problems.ProblemsView.OriginalText | src/ExistingProblems.tsx:272-282 | the highlighted original put back together is the problem's Korean text |
| Problems.ClickTwice | src/ExistingProblems.tsx:384-391 | clicking the same chip twice leaves the chip as it was |
| History.Ids | src/TranslationHistory.tsx:73 | the ids of the records, in order |
| History.Without | src/TranslationHistory.tsx:86 | filtering never lengthens the list |
| History.WithoutMembers | src/TranslationHistory.tsx:113 | exactly the records whose id is not removed remain |
| History.WithoutKeepsOrder | src/TranslationHistory.tsx:113 | the remaining records keep their order |
| History.WithoutAbsent | src/TranslationHistory.tsx:86 | removing ids no record has changes nothing |
| History.Toggled | src/TranslationHistory.tsx:58-66 | the id's membership flips, and every other id keeps its own |
| History.ToggledTwice | src/TranslationHistory.tsx:58-66 | toggling the same id twice restores the selection |
| History.IdSet | src/TranslationHistory.tsx:73 | the set of the records' ids |
| History.SelectAll | src/TranslationHistory.tsx:69-75 | a selection as large as the list is cleared; any other becomes every id |
| History.IdSetSize | src/TranslationHistory.tsx:73 | distinct ids give as many ids as records |
| History.SelectAllFlips | src/TranslationHistory.tsx:69-75 | with distinct ids and some records, select-all checks an unchecked box (`size === length && length > 0`) and unchecks a checked one |
| History.Headings | src/TranslationHistory.tsx:258 | the card headings count down from the number of records to 1 |
| History.HistoryView.constructor | src/TranslationHistory.tsx:10-15 | the page state once the records are loaded: nothing selected, not deleting, no error |
| History.HistoryView.RecordSelect | src/TranslationHistory.tsx:58-66 | the selection becomes `Toggled` of the old one |
| History.HistoryView.SelectAllRecords | src/TranslationHistory.tsx:69-75 | the selection becomes `SelectAll` of the old one |
| History.HistoryView.DeleteRecord | src/TranslationHistory.tsx:78-97 | declined: nothing changes; deleted: the record leaves the list, which keeps its order, and the id leaves the selection; failed: only the error is set; once started, `deleting` is off afterwards |
| History.HistoryView.DeleteSelected | src/TranslationHistory.tsx:100-120 | nothing selected: only the alert; declined: nothing changes; deleted: every selected record leaves the list and the selection empties; failed: only the error is set; once started, `deleting` is off afterwards |
| History.BulkDeleteLeavesUnselected | src/TranslationHistory.tsx:113-114 | no remaining record was selected, and every remaining record was there before |
| Tour.BasePosition | src/components/Tour.tsx:101-126 | above: 20 above the target; below: 20 under it; both centred horizontally on the target. Left: 20 left of it; right: 20 right of it; both centred vertically |
| Tour.Clamp | src/components/Tour.tsx:132-135 | the far edge always ends inside the viewport; a position that already fits stays; the start is on screen when the viewport holds the tooltip and the 10-pixel margin |
| Tour.NarrowViewportStartsOffScreen | src/components/Tour.tsx:132-135 | in a viewport narrower than the tooltip plus its margin, a tooltip that did not fit gets a negative start |
| Tour.TooltipPosition | src/components/Tour.tsx:101-138 | the switch and the four clamping steps give the clamped base position on each axis |
| Tour.TourState.constructor | src/components/Tour.tsx:16 | the tour starts at step 0 |
| Tour.TourState.NextStep | src/components/Tour.tsx:79-85 | one step forward while a step is left; on the last step the tour closes and the step stays; the step stays in range |
| Tour.TourState.PrevStep | src/components/Tour.tsx:87-91 | one step back except at step 0; the step stays in range |
| Tour.TourState.SkipTour | src/components/Tour.tsx:93-95 | the tour closes and the step stays |
| Tour.TourState.Render | src/components/Tour.tsx:97-220 | nothing when closed or without a target. Otherwise the current step's content, numbered `step + 1 / n`, with `이전` enabled after the first step and `완료` exactly on the last step (`다음` before it), inside the viewport's far edges |
| Tour.NextThenPrev | src/components/Tour.tsx:79-91 | `다음` then `이전` before the last step returns to the same step |

## Left out

- Network, storage and sign-in are not modelled. Language-model calls, Firestore reads and deletes, and authentication become parameters: a loaded list, a failure, `confirmed` and `remoteOk` flags, and whether a user is signed in.
- Prompt construction and the insight modal are not modelled.
- `window.confirm`, `alert` and speech synthesis are modelled only as far as the logic needs them. The confirmation answer is a parameter, an alert is a returned message, and speech is reduced to the language tag it is given.
- JSX markup, CSS, charts and the progress circle are replaced by datatypes of drawn items.
- Tour measurement is not modelled. The tour's DOM queries, scroll offsets, MutationObserver and resize and scroll listeners are replaced by a target rectangle and a viewport size passed in.
- Characters are Unicode scalar values. JavaScript measures strings in UTF-16 code units, so lengths, including those in the 0.8 rule of `parseFeedback6`, agree only for text within the Basic Multilingual Plane.
- Floating point is not modelled. Scores, averages and the weekly goal are exact rationals. `parseFloat` rounding and `count / 5 * 100` rounding are therefore not modelled.
- Score.RoundRatio: a `/0` denominator is modelled as Infinity or NaN rather than excluded.
- Dates are simplified. An instant is milliseconds, and a day is the UTC day number. The start of the week is a parameter, and the time zone of `setDate`, `getDay` and `setHours` is not modelled.
- The sorting of the distinct study days is not modelled. The streak loop only asks whether a day is present, so the order does not change its result.
- Dashboard.SortByScore: the stability of `Array.prototype.sort` for equal averages is not stated. The proved properties are order, permutation and counts.
- Dashboard.Insights: only the number of insights and the third insight (in `Derived`) are stated. The first two are text built from the figures.
- Dashboard.Demo: the demonstration figures are a literal. The weekly progress of derived statistics is the empty list the source returns.
- Highlight.HighlightAsWritten: the unescaped pattern is modelled only for words made of plain characters, `.` and a postfix `?`. Other regular-expression syntax in a highlighted word is outside the model.
- Quotes.SectionShownWhole: the view renders each non-blank part of a section after the bullet split on its own (src/FeedbackDisplay.tsx:328-345). A quote pair that spans a line break before `‧` is cut between two parts, and the quotes of such a piece are not pooled; the lemma does not cover that case.
- Two blank-line branches are not modelled: `renderExampleSection` at src/FeedbackDisplay.tsx:162 and `renderFormattedText` at :340. The filters at :131 and :328 make them unreachable.
- The title of `cleanSectionText` and `removeDuplicateSubtitle` is assumed to have no regular-expression metacharacter and no cased letter (`PlainTitle`). That holds for the titles the view passes.
- Problems.ProblemsView.Load: the effect re-running after a difficulty or domain change is modelled as a separate call to `Load` after `ChooseDifficulty` or `ChooseDomain`.
- History.HistoryView.DeleteRecord, History.HistoryView.DeleteSelected: the `deleting` flag is true only during the remote call. Since that call is a parameter, the model shows only that the flag is off once a started deletion ends.
- Tour.TourState.NextStep, Tour.TourState.SkipTour: the owner's `onClose` is modelled as the tour closing.
- The generated-problems page, the main menu, the insight modal, routing and the Firebase module are not part of this model.

## Findings

| source | as written | input that shows it | evidently intended | confidence | as-written member | corrected member |
|---|---|---|---|---|---|---|
| src/FeedbackDisplay.tsx:95 | the highlight word is put into the regular expression unescaped | highlight word `what?` in the text `what?`: the pattern matches `what`, which is not equal to the word, so nothing is marked | escape the word as src/ExistingProblems.tsx:274 does, so the split is on literal occurrences | not executed | Highlight.UnescapedMissesOccurrence | Highlight.HighlightEscapedFaithful |
| src/FeedbackDisplay.tsx:34-36 | `\s` inside the template literal becomes the letter `s`, so the pattern is `^title s*:?` | `종합 평가 : 좋음` cleaned with title `종합 평가` gives `: 좋음` | `^title\s*:?` removes the title, the white space and the colon, giving `좋음` | not executed | Formatting.CleanSectionTextKeepsColon | Formatting.CleanSectionTextStripsLabel |
