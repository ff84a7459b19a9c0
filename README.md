# Cyber Essentials and CAF self-assessment checkers, modelled in Dafny

The repository ships two browser-based self-assessment tools. This project
models the logic that turns their answers into results.

**The Cyber Essentials checklist (`assessment.js`).** The answers to the five
technical controls (firewalls, secure configuration, security update
management, user access control, malware protection) and the "scope" group
become a local analysis. The local analysis consists of:

- critical issues, warnings and strengths;
- a score per control and a rounded readiness score;
- a PASS / NEEDS_WORK / FAIL verdict;
- the next steps, a summary and a timeline.

The tool first asks a remote proxy for an analysis. It takes the reply's
text, extracts the greedy `{...}` span and parses it. Every failure along
the way falls back to the local analysis. Two display helpers are also
modelled: `escapeHtml` and `formatControlName`.

**The NCSC Cyber Assessment Framework tool (`caf-assessment.js`).** Each of
the 14 CAF sections (A1–D2) is scored as the rounded mean of its answers'
points: achieved 100, partial 50, not achieved 0, `na` ignored. The overall
score is the rounded mean of the sections that have a score. When the
remote analysis cannot be used, a fallback result is built from those
scores: a rating, up to five gaps, up to three strengths and actions, and
four objective ratings. The tool refuses to analyse with fewer than 10
answers. The model also covers the per-section progress badge, the colour
given to a rating, and this file's own `escapeHtml`.

Modules:

- `Options`, `Text` (text.dfy): an Option type, plus the string operations
  the sources rely on. These are ASCII `toLowerCase`, `includes`, the greedy
  `/\{[\s\S]*\}/` match, `${n}` rendering of a natural number, and chained
  global `replace` calls with the HTML entity decoding they invert.
- `Checklist` (checklist.dfy): the checklist data model and the
  specification of the local analysis as functions. It walks one answer at a
  time and one control at a time, in the order the engine visits them.
- `ChecklistEngine` (checklist_engine.dfy): `performLocalAnalysis` and
  `generateNextSteps` as methods with loops. Each is proved equal to its
  specification function.
- `ChecklistProofs` (checklist_proofs.dfy): what the local analysis
  computes, stated declaratively. This covers issues, warnings, scores, the
  verdict, the readiness score, strengths and the outdated-software check.
- `ChecklistProxy` (checklist_proxy.dfy): how the proxy's reply is selected
  and parsed, and `parseClaudeResponse`.
- `Framework` (framework.dfy): the CAF scoring, the fallback result, the
  parse-or-fallback step of `runAnalysis`, the progress badge, the rating
  colour and `escapeHtml`.
- `FrameworkProofs` (framework_proofs.dfy): properties of the CAF model.

Responses are values in both tools. The checklist has a map from control to
its answers in page order, plus the free-text fields. The CAF tool has a map
from section id to its answer values. `JSON.parse` is the parameter `parse`:
a function from a string to `Option<J>` that gives `None` where `JSON.parse`
throws. Scores in the checklist are exact reals, and `Math.round` is
specified by `n <= x + 0.5 < n + 1`. CAF scores are naturals. Their rounded
mean is computed as `(2 * sum + n) / (2 * n)` and proved to satisfy the same
rounding property.

## Model

| member | source | states |
|---|---|---|
| Text.ToLower | assessment.js:648 | lower-casing keeps the length, maps every character through the ASCII lower-case map, and leaves no upper-case letter |
| Text.LowerIdempotent | assessment.js:648 | lower-casing twice is lower-casing once |
| Text.ContainsAt | assessment.js:650-651 | `includes` holds whenever the substring occurs at some offset |
| Text.ContainsWitness | assessment.js:650-651 | when `includes` holds, the substring occurs at some offset |
| Text.ReplaceAllAppend | assessment.js:9 | a global one-character replacement distributes over concatenation |
| Text.ReplaceAllAbsent | assessment.js:9 | replacing a character the text lacks leaves the text unchanged |
| Text.ReplaceAllRemoves | assessment.js:9 | after replacing a character by a text without it, the character is gone |
| Text.ReplaceEachAppend | assessment.js:8-13 | the chain of replacements distributes over concatenation |
| Text.ReplaceEachAbsent | assessment.js:8-13 | a text with none of the replaced characters passes through the chain unchanged |
| Text.BraceSpan | assessment.js:563 | a span exists iff some `{` precedes some `}`; the span is a contiguous part of the text that starts at the first `{` and ends at the last `}` |
| Text.NoSpan | caf-assessment.js:294 | when the first `{` comes after the last `}`, no `{...}` match exists |
| Text.NatToString | caf-assessment.js:388 | the decimal rendering of a number is non-empty, all digits, and has no leading zero |
| Text.ParseNatToString | caf-assessment.js:388 | reading the decimal rendering back gives the number |
| Text.NatToStringInjective | caf-assessment.js:388-390 | different scores render as different texts |
| Text.ReplaceEachPerChar | assessment.js:8-13 | the chained global replacements (`&` first) act as one substitution per character, so no entity is escaped twice |
| Text.UnescapeEscape | assessment.js:8-13 | decoding the HTML entities undoes escaping with any leading run of the entity table |
| Checklist.FindAnswer | assessment.js:660 | the answer found is the first one with the requested question id; none means no answer has that id |
| Checklist.IssueFor | assessment.js:621-627 | a failing critical answer's issue names its control and text, and takes impact and action from the action table or else from the two defaults |
| Checklist.ScoreValue | assessment.js:643-645 | a control's score is `100 - 100*fail/total`, between 0 and 100 when no more answers fail than are critical, and 100 when none fail |
| Checklist.SetScore | assessment.js:644 | assigning a control's score replaces its entry in place when present, and appends it otherwise; the other entries are unchanged |
| Checklist.Round | assessment.js:691 | `Math.round`: the nearest integer, with halves rounded up |
| Checklist.Verdict | assessment.js:686-687 | FAIL iff there are critical issues; NEEDS_WORK iff there are none but there are warnings; PASS iff there are neither |
| Checklist.NextSteps | assessment.js:703-715 | two critical-issue steps first iff there are critical issues, the warning step iff there are warnings, and always the two closing steps last |
| Checklist.Summary | assessment.js:717-725 | the fixed PASS and NEEDS_WORK texts; the FAIL text carries the count and a plural `s` exactly when the count exceeds one |
| Checklist.Timeline | assessment.js:727-733 | "ready now" iff there are no issues or warnings; the warnings-only, 1–3, 4–7 and more-than-7 bands each iff their condition holds |
| Checklist.AnswerStep | assessment.js:617-640 | one answer only appends to the lists, at most one entry in all; a new issue appears iff the answer is a failing critical one, and each issue is one counted failure; failures never outnumber critical answers |
| Checklist.WalkAnswers | assessment.js:617-640 | over a control's answers the lists only grow, by at most one entry per answer, with exactly one issue per counted failure, no more failures than critical answers and no more critical answers than answers |
| Checklist.ControlStep | assessment.js:612-646 | one control only appends to the lists; the scores object keeps every key in place and gains at most the control's own key, at the end, when it was absent |
| Checklist.WalkControls | assessment.js:612-646 | over the controls the issue, warning and strength lists only grow |
| Checklist.WalkKeepsScores | assessment.js:580-586 | the walk never removes or moves a key of the scores object: the keys it started with stay first, in order |
| Checklist.InitialKeysFirst | assessment.js:580-586 | after the real walk the five technical controls are still the first five keys of the scores object, in order |
| Checklist.OutdatedIssues | assessment.js:648-658 | at most one outdated-software issue, present iff the check fires, filed under `updates` and quoting the field as typed, not lower-cased |
| Checklist.ExtraWarnings | assessment.js:660-676 | at most two warnings, both under `scope`; the backup (incident) warning is present iff the `q6_backup` (`q6_incident`) answer is `fail`; one entry per such answer, the backup one first |
| Checklist.ExtraStrengths | assessment.js:660-683 | at most two strengths; the backup (incident) strength is present iff the `q6_backup` (`q6_incident`) answer is `pass`; one entry per such answer, the backup one first |
| Checklist.Assemble | assessment.js:685-700 | the result keeps the issues, warnings and scores; the count is the number of issues; strengths are never empty; FAIL iff there is an issue, PASS iff there is no issue and no warning; "ready now" iff PASS; the readiness score is the mean rounded half up |
| Checklist.LocalAnalysis | assessment.js:576-701 | the specification of `performLocalAnalysis`: the count equals the number of issues, strengths are never empty, the five technical controls head the scores object, and PASS iff there is no issue and no warning |
| Checklist.FormatControlName | assessment.js:971-981 | each control key maps to its heading; any other key that is not an `Object.prototype` member is returned unchanged |
| Checklist.EscapeHtml | assessment.js:6-14 | `null` and `undefined` give the empty string |
| Checklist.EscapeHtmlRoundTrip | assessment.js:6-14 | decoding the five entities gives back the original text |
| Checklist.EscapeHtmlMarkupFree | assessment.js:6-14 | the escaped text holds no `<`, `>`, `"` or `'`; each special character becomes its own entity |
| ChecklistEngine.GenerateNextSteps | assessment.js:703-715 | the list pushed step by step equals `NextSteps` of the two counts |
| ChecklistEngine.HandleAnswer | assessment.js:617-640 | one answer updates the counters and lists exactly as the specification's single step does |
| ChecklistEngine.WalkControl | assessment.js:612-646 | the loop over one control's answers equals the specification's walk over them |
| ChecklistEngine.CheckOutdatedSoftware | assessment.js:648-658 | the critical issues grow by exactly the outdated-software issue, when it fires |
| ChecklistEngine.CheckBackupAndIncident | assessment.js:660-683 | the warnings and strengths grow by exactly the backup and incident entries |
| ChecklistEngine.WalkAllControls | assessment.js:612-646 | the loop over the controls equals the specification's walk, including the scores object |
| ChecklistEngine.BuildResult | assessment.js:685-700 | the returned record is the one assembled from the lists and scores |
| ChecklistEngine.PerformLocalAnalysis | assessment.js:576-701 | the method computes `LocalAnalysis` of the responses |
| ChecklistProofs.WalkAnswersSplit | assessment.js:617-640 | the walk over a control's answers appends, in answer order, one issue per failing critical answer, one warning per failing non-critical answer and one strength per allow-listed pass, and counts the critical and the failing answers |
| ChecklistProofs.FailingWithinCritical | assessment.js:618-621 | no more answers fail than are critical |
| ChecklistProofs.IssuesMatchFailures | assessment.js:620-627 | there is exactly one critical issue per failing critical answer |
| ChecklistProofs.WalkControlsLists | assessment.js:612-646 | the walk over the controls appends each control's issues, warnings and strengths in control order |
| ChecklistProofs.IssueAcrossHas | assessment.js:618-627 | every failing critical answer's issue is in the walk's issue list |
| ChecklistProofs.StrengthAcrossSource | assessment.js:636-640 | every strength from the walk is the text of a non-critical, allow-listed passing answer |
| ChecklistProofs.FinalScores | assessment.js:580-586 | the scores object holds the five technical controls in order, then `scope` only when it had critical answers |
| ChecklistProofs.ScoreInRange | assessment.js:643-645 | every control score lies between 0 and 100 |
| ChecklistProofs.ReadinessInRange | assessment.js:685-691 | the rounded mean of scores between 0 and 100 lies between 0 and 100 |
| ChecklistProofs.ExpectedScoresInRange | assessment.js:580-586 | the scores object has five or six entries, each between 0 and 100 |
| ChecklistProofs.IssuesAcrossLength | assessment.js:620-627 | the number of walk issues equals the number of failing critical answers |
| ChecklistProofs.AnalysisIssues | assessment.js:612-658 | the result's issues are the per-control issues in control order, then the outdated-software issue; the count matches |
| ChecklistProofs.AnalysisWarnings | assessment.js:630-676 | the result's warnings are the per-control warnings, then the backup and incident warnings |
| ChecklistProofs.AnalysisScores | assessment.js:580-586 | the result's control scores are the expected scores |
| ChecklistProofs.CriticalAnswerFails | assessment.js:618-627 | any failing critical answer makes the verdict FAIL and puts its own issue in the result |
| ChecklistProofs.FailIffCriticalFailure | assessment.js:686-687 | the verdict is FAIL iff some critical answer fails or the outdated-software check fires |
| ChecklistProofs.ReadinessScore | assessment.js:685-691 | the readiness score is the rounded mean of the expected scores, between 0 and 100 |
| ChecklistProofs.TimelineReadyIffPass | assessment.js:699 | "ready now" is promised iff the verdict is PASS |
| ChecklistProofs.StrengthSources | assessment.js:636-696 | every strength is an allow-listed non-critical pass, the backup or incident strength, or the default |
| ChecklistProofs.AnalysisStrengths | assessment.js:696 | the strengths are the ones found, or the single default message when none were found |
| ChecklistProofs.OutdatedNoneIgnored | assessment.js:649 | any text that lower-cases to "none" raises no issue |
| ChecklistProofs.OutdatedCaseInsensitive | assessment.js:648-651 | a text and its lower-case form trigger the check alike |
| ChecklistProofs.OutdatedWindowsXp | assessment.js:648-650 | the match ignores case: "Windows XP" raises the issue |
| ChecklistProofs.OutdatedExpressMatches | assessment.js:648-650 | the markers are plain substrings: "SQL Server 2019 Express" raises the issue through `xp` |
| ChecklistProofs.OutdatedWindows11 | assessment.js:649-650 | "Windows 11" contains none of the four markers and raises no issue |
| ChecklistProxy.FirstTextBlock | assessment.js:441 | the position found is the first block of type `text`; none means no block has that type |
| ChecklistProxy.ExtractText | assessment.js:439-453 | `content` takes precedence; otherwise a non-empty `text` is used; otherwise an `error` field gives the API error, and any other shape gives the unexpected-shape error; empty text gives no text at all |
| ChecklistProxy.ParseClaudeResponse | assessment.js:561-571 | the result is remote iff a `{...}` span exists and parses, and then it is the parsed value; otherwise it is the local analysis |
| ChecklistProxy.AnalyzeWithProxy | assessment.js:423-459 | the result is remote iff the reply is ok, has a body, yields text and that text parses; in every other case it is the local analysis |
| ChecklistProxy.ContentTakesPrecedence | assessment.js:440-446 | with a `content` array present, the `text` and `error` fields play no part |
| Framework.ProgressBadge | caf-assessment.js:153-155 | complete iff all expected questions are answered; partial iff at least half; started iff fewer than half but some; unmarked iff none |
| Framework.Points | caf-assessment.js:309 | exactly the three graded values score, each at most 100 |
| Framework.Scorable | caf-assessment.js:315-317 | the kept points are no more than the answers, each at most 100 |
| Framework.RoundedMean | caf-assessment.js:318 | the integer computation equals `Math.round` of the real mean |
| Framework.RoundedMeanBounds | caf-assessment.js:318 | the rounded mean lies between any lower and upper bound of the values |
| Framework.SectionScore | caf-assessment.js:315-318 | a section has no score iff none of its answers is graded; a score is at most 100 |
| Framework.BuildScores | caf-assessment.js:311-321 | each of the 14 entries is its own section's score |
| Framework.Present | caf-assessment.js:324 | the present scores are empty iff every section is unscored |
| Framework.OverallScore | caf-assessment.js:323-327 | 0 when no section has a score, otherwise the rounded mean of the present scores |
| Framework.Rating | caf-assessment.js:374 | Achieved iff the score is at least 70; Partially Achieved iff it is from 40 to 69; Not Achieved iff it is below 40 |
| Framework.IndexOf | caf-assessment.js:380 | the index found holds the id; none means the id is absent |
| Framework.MemberScores | caf-assessment.js:380 | each listed id's entry from the score map, in order |
| Framework.ObjectiveRating | caf-assessment.js:379-383 | "Not Attempted" iff none of the objective's sections has a score |
| Framework.Where | caf-assessment.js:375-376 | the selected sections are exactly the scored sections that satisfy the test, in section order |
| Framework.ImprovementAction | caf-assessment.js:391-393 | each priority action names its section as principle and in its text, with medium effort and high impact |
| Framework.BuildFallbackResult | caf-assessment.js:372-397 | the overall rating is the 70/40 rating of the overall score; at most five gaps, three strengths and three actions, no more actions than gaps, and four objective ratings |
| Framework.ReplyText | caf-assessment.js:290 | the first content block's text when non-empty, else the `result` field |
| Framework.RunAnalysis | caf-assessment.js:263-300 | refused iff fewer than 10 answers; remote iff the reply is ok, its text has a parsable `{...}` span and `displayResults` renders the parsed value without throwing, and then it is the parsed value; otherwise the fallback built from `buildScores` |
| Framework.RatingColor | caf-assessment.js:411-417 | grey iff there is no rating; red iff the lower-cased rating contains "not achieved"; amber iff it then contains "partial"; green otherwise |
| Framework.EscapeHtml | caf-assessment.js:402-404 | a missing or empty value gives the empty string |
| FrameworkProofs.UnscoredDropped | caf-assessment.js:315-317 | adding an `na` or unknown answer changes neither the kept points nor the section score |
| FrameworkProofs.OnlyNaIsNull | caf-assessment.js:318 | a section answered only with `na` has no score, not a score of 0 |
| FrameworkProofs.UniformSection | caf-assessment.js:315-318 | a section whose graded answers all agree scores exactly their points |
| FrameworkProofs.BuildScoresLocal | caf-assessment.js:313-319 | each section's score depends only on that section's answers |
| FrameworkProofs.PresentAppend | caf-assessment.js:324 | the filter distributes over concatenation |
| FrameworkProofs.NullsDoNotDilute | caf-assessment.js:324-326 | inserting an unscored section anywhere leaves the overall score unchanged |
| FrameworkProofs.OverallWithin | caf-assessment.js:323-327 | the overall score lies between the lowest and highest section score |
| FrameworkProofs.OverallIsPercentage | caf-assessment.js:311-327 | the overall score of any answers is at most 100 |
| FrameworkProofs.WherePrefix | caf-assessment.js:375-376 | the sections selected from a prefix of the map are a prefix of those selected from the whole |
| FrameworkProofs.WhereRank | caf-assessment.js:375-376 | a qualifying section sits in the selection at the rank given by the qualifying sections before it |
| FrameworkProofs.LowSectionReported | caf-assessment.js:389-393 | a section below 50 with fewer than five (three) low sections before it is reported as a gap (an action) at that rank |
| FrameworkProofs.HighSectionReported | caf-assessment.js:390 | a section at 75 or more with fewer than three high sections before it is listed as a strength at that rank |
| FrameworkProofs.FallbackListSizes | caf-assessment.js:389-393 | the lists hold exactly the first five or three qualifying sections: no more, no fewer |
| FrameworkProofs.NoLowNoGaps | caf-assessment.js:375-393 | with no section below 50 there are no gaps and no actions |
| FrameworkProofs.ObjectivesPartition | caf-assessment.js:379 | the four objectives partition the 14 sections, in section order |
| FrameworkProofs.SectionIdsDistinct | caf-assessment.js:7 | the section ids are pairwise distinct |
| FrameworkProofs.ScoreForSection | caf-assessment.js:380 | looking up a section's id reads that section's entry |
| FrameworkProofs.ObjectiveUsesOwnSections | caf-assessment.js:378-384 | an objective's rating depends only on its own sections' scores |
| FrameworkProofs.FallbackObjective | caf-assessment.js:378-384 | an objective is "Not Attempted" iff none of its sections is scored, and is otherwise the rating of its sections' rounded mean |
| FrameworkProofs.TotalQuestionsValue | caf-assessment.js:8-9 | the section counts add up to 83 questions |
| FrameworkProofs.BadgeMonotone | caf-assessment.js:153-155 | answering more questions never lowers a section's badge |
| FrameworkProofs.RatingColorOfRating | caf-assessment.js:411-417 | each fallback rating gets its colour: green, amber and red for the three bands |
| FrameworkProofs.NotAttemptedIsGreen | caf-assessment.js:411-417 | "Not Attempted" contains neither marker and is shown green, like "Achieved" |
| FrameworkProofs.EscapeHtmlRoundTrip | caf-assessment.js:402-409 | decoding the entities gives back the original text |
| FrameworkProofs.EscapeHtmlMarkup | caf-assessment.js:402-409 | the escaped text holds no `<`, `>` or `"`, while `'` is left unescaped |
| FrameworkProofs.FirstTextPrecedence | caf-assessment.js:290 | with a non-empty first content text, the `result` field plays no part |

## Left out

- Rendering, the DOM, event handlers, auto-save, `localStorage`, PDF export and the company-name modal are user interface and are not modelled. The one place where rendering decides an outcome, `displayResults` throwing on a parsed value, is the parameter `shows` of `Framework.RunAnalysis`.
- Framework.RunAnalysis: which parsed values make `displayResults` throw (a non-string `overallRating`, a `gaps` that is not an array, and so on) is not modelled; `shows` stands for it, and a value it rejects yields the fallback result, as the outer `catch` does.
- `fetch`, `async` and the proxy URL are replaced by the reply as an input value: a network error or a status flag and a parsed body.
- `JSON.parse` is the parameter `parse`; what it accepts is not modelled.
- `ChecklistProxy.AnalyzeWithProxy` and `ChecklistProxy.ParseClaudeResponse` take the local analysis as the parameter `local` instead of calling `performLocalAnalysis(responses)`; callers pass `Checklist.LocalAnalysis(r)`, which has no side effects.
- A control's answers are a sequence, so the model admits two answers with the same question id, which a JS object cannot hold. With unique ids, as the page produces, `Checklist.FindAnswer` returns the only match.
- `buildAnalysisPrompt`, `buildSystemPrompt` and `buildUserPrompt` (in both files) only build prompt text for the remote model and are not modelled.
- `api/analyze.js`, `enable-totp.js` and the `functions/` directory are server code outside the two assessment engines and are not part of this model.
- `collectResponses` and `countAnswered` read the page. Their results are the inputs of the model: the `Responses` value and the `answered` count.
- The order of `Object.keys(responses.controls)` is taken to be the page order that `collectResponses` produces (firewalls, secure configuration, updates, access control, malware, scope).
- Checklist.Round, ChecklistProofs.ReadinessScore: scores are exact reals, not IEEE-754 doubles, so rounding errors of `failCount / totalCritical * 100` are not modelled.
- Text.ToLower: only ASCII letters are lower-cased. The Unicode case mapping of `toLowerCase` is not modelled.
- The `score` argument of `generateSummary` is never read by the source, so `Checklist.Summary` does not take it.
- Checklist.FormatControlName: `names` is a plain object, so for an inherited key such as `constructor`, `toString` or `__proto__` the source returns the `Object.prototype` member, not the key. The model returns the key for every key other than the six controls.
- `SCORE_MAP` is a plain object, so inherited keys such as `constructor` or `toString` would look up a non-number in the source. The model treats every value outside the four keys as unscored.
- The progress ring percentage and the answered-count labels of `updateProgress` are display arithmetic over floating point and are not modelled; only the badge rule is.
- `askOracle` sends one question to the remote model and shows the reply. It is page and network code and is not part of this model.
- `scoreMap[id]` for an id outside the 14 sections cannot happen in `buildFallbackResult`: every objective lists section ids only. `Framework.IndexOf` still returns `None` for such an id.
- Framework.EscapeHtml, Checklist.EscapeHtml: non-string values passed through `String(str)` are not modelled; both take an optional string.
- The vendor risk calculator and the conditional show/hide evaluator of the product are not in `assessment.js` or `caf-assessment.js` and are not part of this model.
