# VidhAI TNPSC quiz: a verified model of the test session and the server helpers

This project models two parts of the VidhAI TNPSC practice-test application in Dafny.

- **The quiz client's state machine** (`static/script.js`):
  - the test session: the answer sheet, the question and review cursors, the pause bookkeeping, the countdown, submission, scoring and review marks;
  - the selection wizard: its steps, the language modal's pending action and topic pagination;
  - the loading screen's generation countdown and progress bar;
  - the arithmetic of the subject mock test: task collection, request size, the sequential request loop and the final cut to one hundred questions.
- **The pure helpers of the server** (`main.py`):
  - cleaning the model's reply down to its JSON;
  - the aptitude keyword test;
  - the 70/30 question split;
  - the two-attempt generation loop with topic tagging;
  - the assembly of `generate_test`;
  - the validation of `chat_support`;
  - the `.txt` topic-name filter of `get_structure`.

Where the source updates state in place, the model is imperative. `Session.TestSession`, `Wizard.SelectionWizard` and `Progress.GenerationCountdown` are classes whose methods modify their fields. The loops become methods with invariants: scoring, the unanswered count, task collection, the mock request loop, question tagging and the generation attempts. Each loop method is proved against a specification function, and the properties the source promises are proved about those functions as lemmas.

Outside influences become inputs:

- `Date.now()` is a `now` parameter.
- The one-second `setInterval` callbacks are explicit `Tick` calls, and the 300 ms auto-advance timeout is an explicit `AutoAdvance` call.
- The answer to `confirm()` is a boolean.
- The language model is a function from a prompt to an optional parsed reply.
- The server of the mock test is a function from a task and a request size to a reply.
- Whether a topic file could be read is a boolean.

Modules:

- `common.dfy`: `Common` holds `Option`; `Catalog` holds the subject/unit/topic tree.
- `text.dfy`: `Text` holds the Python string operations the server uses.
- `scoring.dfy`: `Scoring` holds the score, the unanswered count and the review marks.
- `timing.dfy`: `Timing` holds the time arithmetic.
- `session.dfy`: `Session` holds the test session.
- `wizard.dfy`: `Wizard` holds the wizard and pagination.
- `progress.dfy`: `Progress` holds the loading screen.
- `mock.dfy`: `MockTest` holds the mock test.
- `backend.dfy`: `Backend` holds the server helpers.

Three behaviours of the code worth knowing:

- The back buttons only change the visible step; no earlier choice is discarded (`Wizard.SelectionWizard.NavigateToStep`).
- An empty topic list only appends an error message with `innerHTML +=`. That rebuilds the area: the buttons already on screen stay visible but no longer respond, so no topic page is live afterwards (`Wizard.SelectionWizard.RenderPage` sets `controls` to `NoTopics`).
- The chat hint lowercases the topic but does not turn `_` into spaces. `Backend.ChatSupport` models the endpoint as written; `Backend.ChatSupportIntended` is the normalised version (see Findings).

## Model

| member | source | states |
|---|---|---|
| Catalog.TopicsOf | static/script.js:189 | the topics of the named unit of the subject, or none when the unit is missing (the `|| []` fallback) |
| Text.Find | main.py:37 | `find`: -1 exactly when the character is absent, otherwise the index of its first occurrence |
| Text.RFind | main.py:38 | `rfind`: -1 exactly when the character is absent, otherwise the index of its last occurrence |
| Text.OccursIsContains | main.py:212 | the left-to-right scan of Python's `in` finds a pattern exactly when it occurs at some index |
| Text.RemoveAll | main.py:41 | `replace(p, "")` never lengthens the text |
| Text.RemoveAllShrinks | main.py:41 | text that holds `p` loses at least one whole occurrence of it, so together with `RemoveAllAbsent` the text changes exactly when `p` occurs |
| Text.FencesGone | main.py:41 | after every "```" is deleted, no "```" is left: the backticks left over from a run are fewer than three and are bounded by kept characters |
| Text.RemoveAllAbsent | main.py:41 | `replace(p, "")` leaves text without `p` unchanged |
| Text.Strip | main.py:41 | `strip()` is the infix left after only white space is removed from both ends, and it neither starts nor ends with white space |
| Text.Lower | main.py:211 | `lower()` keeps the length, leaves no capital letter, keeps every other character, and turns each capital into the small letter at the same place in the alphabet (ASCII letters) |
| Text.UnderscoresToSpaces | main.py:211 | `replace('_', ' ')` keeps the length and leaves no underscore; the only characters that change are underscores, and each becomes a space |
| Text.InsertSorted | main.py:187 | inserting into a sorted list keeps it sorted |
| Text.Sort | main.py:187 | `sorted` returns a permutation of its input |
| Text.SortSorted | main.py:187 | `sorted` returns a list in code-point order |
| Scoring.BlankSheet | static/script.js:428 | every slot of the fresh sheet `BlankAnswers(n)` is unanswered (the count is n) and the sheet scores 0 |
| Scoring.ScoreCountsCorrect | static/script.js:588-591 | the score is the number of indices whose answer equals the correct index |
| Scoring.ScoreBound | static/script.js:588-591 | score plus unanswered count never exceeds the number of questions |
| Scoring.ScoreAfterAnswer | static/script.js:466 | recording an answer changes the score only through the slot written |
| Scoring.UnansweredAfterAnswer | static/script.js:466 | recording an answer lowers the unanswered count by one exactly when the slot was empty |
| Scoring.NoneUnanswered | static/script.js:563 | the unanswered count is 0 exactly when every slot holds an option |
| Scoring.ComputeScore | static/script.js:588-591 | the `forEach` score loop computes the score |
| Scoring.ReviewMarks | static/script.js:622-633 | one mark per option |
| Scoring.ReviewMarkAt | static/script.js:626-632 | each option gets the mark of the correct/incorrect/neutral classification |
| Scoring.OneCorrectMark | static/script.js:626-627 | exactly one option is marked correct when the correct index is in range, none otherwise |
| Scoring.IncorrectMarks | static/script.js:628-629 | one option is marked incorrect exactly when the user chose a valid wrong option, none otherwise |
| Scoring.QuestionMarks | static/script.js:622-633 | the review marks: one correct mark for a valid index, at most one incorrect mark, and none for a right or empty answer |
| Scoring.FiveQuestionExample | static/script.js:588-591 | answers [0, null, 2, 1, null] against [0, 1, 2, 0, 3] score 2 with 2 unanswered |
| Timing.JsRem | static/script.js:66 | JavaScript's truncating `%`: the result differs from the dividend by a multiple of the divisor and lies in [0, b) for a dividend that is not negative and in (-b, 0] for a negative one |
| Timing.FormatTimeTaken | static/script.js:63-68 | for a non-negative duration, 60·m + s equals the whole seconds with 0 ≤ s < 60, so the pair lies within a second of the duration |
| Timing.CountdownDisplay | static/script.js:519-521 | 3600·h + 60·m + s equals the counter, with m and s below 60 |
| Timing.ChainedWithin | static/script.js:578-581 | a pause log within a window stays within any wider window |
| Timing.ChainedExtend | static/script.js:544-551 | appending a pause that starts after the log's window keeps the log chained |
| Timing.PausesFitWindow | static/script.js:594-595 | chained pauses add up to at least 0 and at most the wall time, so the time taken lies between 0 and the wall time |
| Session.TestSession.Render | static/script.js:422-438 | all answers `null` and as many as questions; question 0; not paused; start time `now`; no pause time; countdown at the duration |
| Session.TestSession.DisplayQuestion | static/script.js:441-443 | a jump is ignored while paused and otherwise sets the current index |
| Session.TestSession.ShowNext | static/script.js:479 | moves one forward unless on the last question or paused |
| Session.TestSession.ShowPrev | static/script.js:480 | moves one back unless on the first question or paused |
| Session.TestSession.SelectOption | static/script.js:464-466 | writes only the current slot and nothing while paused; the unanswered count and the score change accordingly |
| Session.TestSession.AutoAdvance | static/script.js:472-476 | after an answer, moves forward only when the question then current is not the last |
| Session.TestSession.TogglePause | static/script.js:540-559 | pausing records `now`; resuming adds `now - lastPauseStart` to the total and logs the interval; the total always equals the sum of the logged intervals |
| Session.TestSession.ClosePause | static/script.js:577-581 | a pause still open at submission is closed and added |
| Session.TestSession.Submit | static/script.js:575-610 | countdown stopped and not paused; the outcome is the score and `now - start - sum of pauses`, which lies between 0 and the wall time; review at question 0 |
| Session.TestSession.ConfirmAndSubmit | static/script.js:562-573 | the prompt names the unanswered count when it is positive; declining changes nothing; confirming submits as `Submit` does (review at question 0), keeps the current question, and closes an open pause; it writes only the fields `Submit` writes |
| Session.TestSession.Tick | static/script.js:512-538 | while paused or stopped nothing changes; otherwise it shows h:mm:ss of the counter and decrements it by one, and a tick that does not expire keeps the pause log, the pause totals and the review cursor; the test is force-submitted exactly on the (duration+1)-th unpaused tick (the duration being a whole number of seconds ≥ 0, see `Session.TestSession.Render` under Left out), with the outcome computed from the session as it was before the tick and the review at question 0 |
| Session.TestSession.NextReview | static/script.js:643-648 | the review cursor steps forward, clamped at the last question |
| Session.TestSession.PrevReview | static/script.js:650-655 | the review cursor steps back, clamped at 0 |
| Session.TestSession.ReviewedMarks | static/script.js:614-633 | one mark per option of the reviewed question, at most one of them incorrect |
| Wizard.Slice | static/script.js:198 | `slice(start, end)` holds the elements from `start` up to `end` or the end of the list |
| Wizard.RenderTopicsPage | static/script.js:188-213 | an error for an empty list; otherwise page p holds `topics[8p ..]`, at most 8 of them, with "Previous" iff p > 0 and "Next" iff 8p + 8 < L |
| Wizard.PagingStaysInRange | static/script.js:222-233 | on any page of a non-empty list, "Next" and "Previous" lead to pages within [0, ceil(L/8) - 1], and the last page has no "Next" |
| Wizard.TopicOnItsPage | static/script.js:195-197 | topic i is shown on page i / 8 at position i % 8 |
| Wizard.SelectionWizard.constructor | static/script.js:3-14 | the wizard starts at mode selection with nothing chosen, page 0 and no modal |
| Wizard.SelectionWizard.NavigateToStep | static/script.js:146-152 | a known step id becomes the current step; an unknown one changes nothing |
| Wizard.SelectionWizard.DisplayUnits | static/script.js:164-180 | the unit list replaces the topic buttons and the topic step is shown |
| Wizard.SelectionWizard.SelectSubject | static/script.js:154-162 | records the subject; General Studies opens the language modal tagged for the wizard, any other subject lists its units; after General Tamil, a topic-wise request asks in Tamil |
| Wizard.SelectionWizard.OpenMockLanguage | static/script.js:94-97 | the General Studies mock button opens the modal tagged for a mock test |
| Wizard.SelectionWizard.CloseModal | static/script.js:116 | closing the modal keeps its tag |
| Wizard.SelectionWizard.ChooseLanguage | static/script.js:117-130 | records the language, hides the modal and clears the tag; the old tag decides between launching the mock test (step and topic page kept), listing the units and nothing; afterwards a topic-wise request asks in the chosen language, except for General Tamil, which asks in Tamil |
| Wizard.SelectionWizard.RenderPage | static/script.js:188-234 | the live topic controls become the current page; after an empty list no topic page is live |
| Wizard.SelectionWizard.SelectUnit | static/script.js:182-186 | records the unit, resets the page to 0 and renders it |
| Wizard.SelectionWizard.NextTopics | static/script.js:228-233 | offered only with a "Next" button; advances the page by one and renders it; when the page on screen is the current list's, the new page is within [0, ceil(L/8) - 1] and holds at least one topic |
| Wizard.SelectionWizard.PrevTopics | static/script.js:222-227 | offered only with a "Previous" button; goes back one page and renders it; when the page on screen is the current list's and holds topics, the new page is within [0, ceil(L/8) - 1] and holds at least one topic |
| Wizard.SelectionWizard.SelectTopic | static/script.js:215-220 | records the topic and shows the configuration step |
| Wizard.SelectionWizard.RequestLanguage | static/script.js:308 | definition, no contract: Tamil for General Tamil, the chosen language otherwise; `SelectSubject` and `ChooseLanguage` state what it gives |
| Progress.RemainingDisplay | static/script.js:256-257 | 60·mins + secs equals the remaining seconds, with secs < 60 |
| Progress.SimulatedPercent | static/script.js:264 | the simulated bar is the elapsed share in percent while that is at most 95, and 95 from there on |
| Progress.SimulatedMonotone | static/script.js:273-276 | less time remaining never lowers the simulated bar |
| Progress.SimulatedExample | static/script.js:302 | ten seconds into the fifteen-second estimate the bar shows 200/3 % |
| Progress.ManualBar | static/script.js:377 | definition, no contract: `Math.round(c / N * 100)` over exact rationals; `ManualBarRounds`, `ManualBarEnds` and `ManualBarMonotone` state its properties |
| Progress.GenerationCountdown.constructor | static/script.js:18 | no countdown and an empty bar |
| Progress.GenerationCountdown.Start | static/script.js:245-283 | replaces any running countdown; a simulated bar restarts at 0 |
| Progress.GenerationCountdown.Tick | static/script.js:273-281 | decrements the remaining time; at expiry it shows "Finalizing", sets a simulated bar to 98 and stops; while running the bar never goes back and stays at or below 95 |
| Progress.GenerationCountdown.Stop | static/script.js:285-290 | clears the countdown and leaves the bar as it is |
| Progress.GenerationCountdown.Complete | static/script.js:322 | a topic-wise test that arrived fills the bar to 100 and the countdown stops |
| Progress.ManualBarRounds | static/script.js:376 | the mock bar is the nearest whole percentage of the completed share, halves rounded up |
| Progress.ManualBarEnds | static/script.js:376 | the mock bar starts at 0 and reaches 100 when every task is done |
| Progress.ManualBarMonotone | static/script.js:376 | the mock bar never goes back and never passes 100 |
| MockTest.TaskCount | static/script.js:349-353 | there is one task per topic of every unit |
| MockTest.TaskMembership | static/script.js:349-353 | a (unit, topic) pair is a task exactly when the topic belongs to that unit |
| MockTest.CollectTasks | static/script.js:346-353 | the nested loops collect exactly the task list |
| MockTest.RequestSize | static/script.js:369 | `ceil(100 / N)` is the fewest questions per task that reach 100 in total |
| MockTest.BarsBefore | static/script.js:376-377 | one bar value per task already started |
| MockTest.BarsBeforeAt | static/script.js:376-377 | the bar before task k is the rounded share of the k tasks done |
| MockTest.BarsRise | static/script.js:372-409 | the bar values shown start at 0, end at 100 and never go back |
| MockTest.BuildMockPool | static/script.js:355-409 | no tasks aborts before any request; the first failed request abandons the test after every earlier one succeeded; otherwise the pool is every delivery in task order and the bar ends at 100 |
| MockTest.RequestAll | static/script.js:374-409 | the loop over a non-empty task list: the first failed request abandons the test after every earlier one succeeded, with one bar value per task started; otherwise the pool is every delivery in task order and the bar ends at 100 |
| MockTest.PoolOfNext | static/script.js:393-398 | after one more task its delivery, if any, joins the end of the pool |
| MockTest.MockSelection | static/script.js:413 | the test keeps min(100, pool size) questions, all drawn from the pool |
| MockTest.MockEstimate | static/script.js:362-366 | the estimate of five seconds per task opens the countdown on N / 12 minutes and 5·(N mod 12) seconds |
| MockTest.MockDuration | static/script.js:416 | definition, no contract: ninety minutes for General Tamil, two hours otherwise |
| MockTest.MockTitle | static/script.js:415 | definition, no contract: the title for General Tamil or for General Studies |
| Backend.PySlice | main.py:40 | Python's slice: `b - a` characters for ordered bounds and none otherwise, the k-th being the text's character at `a + k` |
| Backend.CleanJson | main.py:35-41 | definition, no contract: the bracket slice when both brackets occur, else `StripFences`; the lemmas below state its properties |
| Backend.StripFences | main.py:41 | definition, no contract: `strip()`, then every "```json" and then every "```" deleted |
| Backend.CleanJsonBrackets | main.py:37-40 | with both brackets present, the result is the slice from the first '[' to the last ']', inclusive |
| Backend.CleanJsonSpan | main.py:37-40 | when the first '[' precedes the last ']', the result is that span and starts with '[' and ends with ']' |
| Backend.CleanJsonCrossed | main.py:37-40 | when the last ']' precedes the first '[', the result is empty |
| Backend.CleanJsonBracketed | main.py:37-40 | text that opens with '[' and closes with ']' is its own cleaned form |
| Backend.CleanJsonEmpty | main.py:41 | the empty reply cleans to the empty text |
| Backend.CleanJsonIdempotent | main.py:35-41 | cleaning a cleaned reply that had both brackets changes nothing |
| Backend.CleanJsonPlain | main.py:41 | without a bracket pair and without code fences, cleaning is just `strip()` |
| Backend.CleanJsonNoFence | main.py:41 | without a bracket pair, the cleaned reply holds no "```" |
| Backend.IsAptitudeTopic | main.py:208-213 | definition, no contract: a non-empty topic whose lowered form, with `_` as spaces, holds an aptitude keyword |
| Backend.NormalizeIgnoresUnderscores | main.py:211 | lowering and turning underscores into spaces gives the same text whether or not the underscores were already spaces |
| Backend.KeywordSurvivesNormalize | main.py:211-212 | a keyword without `_` found in the lowered topic is still found after the underscores become spaces |
| Backend.AptitudeIgnoresUnderscores | main.py:211 | underscores and spaces are the same to the aptitude test |
| Backend.ChatHintAsWritten | main.py:286 | definition, no contract: a non-empty topic whose lowered form holds a chat keyword |
| Backend.ChatHintIsAptitude | main.py:286 | every topic that earns the chat hint is an aptitude topic |
| Backend.ChatHintWidens | main.py:286 | the corrected hint test fires whenever the written one does, and treats underscores as spaces |
| Backend.ChatHintExtends | main.py:286 | a topic that earns the hint keeps it when text is written around it, as in the tag "topic (from unit)" the chat receives |
| Backend.MentalAbilityNormalized | main.py:211 | "mental_ability" is already lower case and normalises to "mental ability" |
| Backend.ChatHintMissesUnderscoredTopic | main.py:286 | "mental_ability" is an aptitude topic for `generate_test` but gets no hint from `chat_support` as written |
| Backend.RequestedCount | main.py:200 | definition, no contract: the requested count, 10 when it is missing |
| Backend.ContextShare | main.py:231 | `ceil(0.7 n)`: the least c with 10c ≥ 7n |
| Backend.SplitSums | main.py:231-232 | the two shares add up to n, and for n ≥ 0 the context share is at least the general one, which is at least 0 |
| Backend.SplitOfTen | main.py:231-232 | ten questions split seven and three |
| Backend.Tagged | main.py:155-156 | tagging succeeds exactly when every item is an object, and each gains the `topic` key |
| Backend.TagQuestions | main.py:155-157 | the tagging loop computes the tagging |
| Backend.TaggedFailsOnward | main.py:155-156 | a non-object anywhere makes the whole tagging fail |
| Backend.QuestionsFor | main.py:124-166 | nothing for a count that is not positive; empty exactly when both attempts fail; every question carries the topic |
| Backend.GenerateQuestionsForTopic | main.py:131-166 | the attempt loop returns those questions with no model call for a count that is not positive, and at most two calls otherwise |
| Backend.Splits | main.py:230 | definition, no contract: a topic-wise test (the default) whose source text was read |
| Backend.TestQuestions | main.py:228-262 | definition, no contract: the split gathers ceil(0.7 n) questions with the displayed topic from the text, then the rest with the bare topic; otherwise all n in one request |
| Backend.GatherSplit | main.py:230-252 | the split request gathers the context questions and then the general ones |
| Backend.GatherWhole | main.py:255-262 | the single request gathers all n questions |
| Backend.GenerateTest | main.py:192-269 | 500 without a model; otherwise a 500 error exactly when no question was gathered, and the questions otherwise |
| Backend.TestQuestionsTagged | main.py:237-252 | every question of a test carries the displayed topic or the bare topic |
| Backend.ChatSupport | main.py:273-289 | as written: 500 without a model; 400 exactly when the query or the question text is missing or empty; otherwise the tutor prompt for the topic (default "General"), with the hint exactly when the lowered topic holds a chat keyword |
| Backend.ChatSupportIntended | main.py:273-289 | corrected: the same errors and topic as `ChatSupport`, the hint exactly when the normalised topic holds a chat keyword, every hinted topic an aptitude topic, and a hint wherever the written endpoint gives one |
| Backend.ChatMissesMentalAbility | main.py:286 | for a question tagged "mental_ability", the endpoint as written gives no hint and the corrected one does |
| Backend.TxtStems | main.py:186 | definition, no contract: the stems of the `.txt` files in order; `StemsFromTxtFiles` states its properties |
| Backend.TopicNames | main.py:186-187 | the listed topic names are sorted and a permutation of the stems |
| Backend.StemsFromTxtFiles | main.py:186 | one stem per `.txt` file; every `.txt` file's stem is listed, and every listed stem comes from such a file |
| Backend.TopicNamesFromTxtFiles | main.py:186-187 | one topic per `.txt` file; every `.txt` file's stem is a topic, and every topic comes from such a file |
| Backend.StemOfPlainName | main.py:186 | a file whose only ".txt" is its extension lists as its base name |
| Backend.InnerTxtRemoved | main.py:186 | every ".txt" is removed, not only the extension: "a.txt.b.txt" lists as "a.b" |

## Left out

- DOM rendering, CSS classes, `alert`, and `location.reload`. A reload discards all state and is not modelled.
- Network plumbing: `fetch`, `handleApiResponse`, `fetchStructure` and the HTTP layer of the Flask routes.
- The language model itself, the prompt templates and `time.sleep`.
- The file system: `os.listdir`, `os.path.isdir` and reading the topic file. Only the file-name filter and a "readable" flag are modelled.
- Concurrency of timers: intervals and timeouts are explicit steps taken in any order the caller chooses.
- Randomness: the client's `sort(() => 0.5 - Math.random())` and the server's `random.shuffle` are modelled as an arbitrary rearrangement, or as the order before the shuffle.
- The General Tamil mock button, the standard-test flow `startStandardTest` (except its request language and the bar it fills) and `renderTest`'s title text are not modelled beyond the members above.
- The chat window's own empty-query guard (static/script.js:663) and its messages are not modelled; the server-side validation is.
- The unit order of `get_structure` (`sorted(os.listdir(...))`) is not modelled; the catalogue keeps whatever order it is given.
- JSON `null` versus a missing field: both are `None`. A `num_questions` that `int()` cannot parse is not modelled.
- Session.TestSession.Render: requires at least one question. Both callers guarantee this: the standard flow throws on an empty list before rendering, and a mock pool can only be empty when every delivery is an empty list, which the server refuses with a 500 error. The duration is taken to be a whole number of seconds, at least 0. The standard flow passes `parseInt` of the duration field times 60 (static/script.js:324), and the countdown ends on `--timer < 0` (static/script.js:532). An empty or non-numeric field gives `NaN`, and that test never succeeds, so the test never times out. A negative value force-submits on the first unpaused tick. The duration field's HTML element is not part of this model, so whether it can hold such values is not settled here.
- Text.Lower: lowers only the ASCII letters; Python lowers every cased code point.
- Backend.ContextShare: computes `ceil(7n/10)` exactly. `math.ceil(n * 0.7)` goes through a binary float, which could differ only where n·0.7 is within rounding error of an integer.
- Progress.ManualBarRounds: rounds over exact rationals. `Math.round((c / N) * 100)` computes in floating point, which can fall just below a half (29/200·100 gives 14.4999…) and round down.
- Progress.SimulatedPercent: the bar width is an exact real, not a float rendered into a CSS string.
- The score percentage `toFixed(2)` on the results screen is not modelled.
- Backend.GenerateTest: returns the questions before the shuffle (`random.shuffle` only reorders them).
- Session.TestSession.Submit: like `TogglePause`, `ConfirmAndSubmit` and `Tick`, it requires that `now` is not earlier than the last clock reading the session saw. `Date.now()` is wall-clock time and can step back when the system clock is set back; the bound 0 ≤ time taken ≤ wall time depends on this requirement. The two clock readings of a submission (static/script.js:579 and static/script.js:594) are one `now` in the model.
- Wizard.SelectionWizard.SelectUnit: does not require the unit buttons to be live. After an empty topic list the rebuilt area's unit buttons no longer respond, so a second unit cannot in fact be chosen from that screen.

## Findings

| source | as written | input that shows it | evidently intended | confidence | as-written member | corrected member |
|---|---|---|---|---|---|---|
| main.py:286 | the chat hint tests `topic.lower()` for the keywords without turning `_` into spaces, unlike the aptitude test at main.py:211 | topic "mental_ability" (a topic file name, which the client sends back as the question's topic): `generate_test` treats it as an aptitude topic, but the chat gets no hint | the hint fires for every underscore-spelled topic that contains a chat keyword once normalised, as the aptitude test does | medium, not executed | Backend.ChatMissesMentalAbility | Backend.ChatSupportIntended |
