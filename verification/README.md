# EVALIA interview coach — a Dafny model of its deterministic core

EVALIA is a Streamlit app for interview practice. A candidate pastes a job
description, and the app predicts the job domain and asks the candidate to
confirm it. It then runs an HR round and a technical round of spoken
questions, each answer graded by a language model, and ends on a dashboard of
scores and job-search links. From the dashboard a career-assistant chat is
also reachable.

Every service the app calls is an input here: the domain predictor, question
generation, transcription, grading and the chat model. Each call's outcome is
a `Reply`, either `Ok(text)` or `Raised(message)`. What remains is modelled
and proved:

- `questions.dfy`: the numbered-question extractor of `generate_questions`
  (hr.py, tech.py) and its fallback lists.
- `patterns.dfy`, `evaluation.dfy`: the labelled-section evaluation parsers
  `_parse_evaluation` (hr.py, tech.py) and the records used when grading
  fails. The parsers' regular expressions are hand-written scanners that
  return what Python's `re.search` returns. That means the leftmost match, a
  greedy `\s*`, and a lazy, non-empty `.+?` under DOTALL that stops where the
  look-ahead first holds.
- `wizard.dfy`: the interview wizard of app.py (main.py is the same file).
  It covers `initialize_session_state`, the job-description checks, one run
  of `main` per user action, and the per-question machine `conduct_round`.
  It also holds the invariant kept by every reachable session: in each round
  there is one record per question passed, plus one for the evaluation on
  screen, all in question order.
- `dashboard.dfy`: `calculate_scores` over JSON-like results, and the title
  cleaning and capped, ordered link list of `search_job_portals`.
- `chatbot.dfy`: the reply cleaning, the off-topic refusal and the chat
  history of `chatbot_page`.
- `text.dfy`, `common.dfy`: the Python string operations the above rely on
  (`strip`, `split`, `replace`, `lower`, `in`) on ASCII text.

Quirks of the code are kept as written:

- A reply with no numbered lines gives no questions. The fixed questions are
  used only when the call raises.
- An empty transcription stores nothing.
- Scores are not clamped to 1–10.
- A tip line of dashes alone is an empty tip.
- A null evaluation makes the whole score summary `None`.
- In the technical parser, feedback without an "Improvement Tips:" label
  swallows the "Knowledge Gaps:" section.

## Model

| member | source | states |
|---|---|---|
| `Common.Take` | hr.py:58 | the slice `xs[:n]`: a prefix of length min(n, len(xs)) |
| `Text.Split` | hr.py:53 | splitting never yields an empty list, and no piece contains the separator |
| `Text.JoinSplit` | hr.py:53 | joining the pieces of a split at the separator gives the text back |
| `Text.SplitJoin` | dashboard.py:318 | splitting a join of separator-free pieces gives the pieces back |
| `Text.NoWordsIffBlank` | app.py:159-162 | `split()` has no words exactly when `strip()` is empty |
| `Text.StripIdempotent` | app.py:210 | stripping twice is stripping once |
| `Text.CleanIffStripped` | dashboard.py:318 | a text is unchanged by `strip()` exactly when it is non-empty and has no white space at either end |
| `Text.StrippedIsClean` | dashboard.py:318 | a non-empty text that `strip()` leaves alone starts and ends outside the white-space set |
| `Text.DeleteAll` | chatbot.py:113 | `replace(t, "")` keeps the remaining characters in their order (a subsequence of the input), leaves every character outside `t` in place (filtering out `t`'s characters gives the same text before and after), and deleting a single character removes every copy of it |
| `Text.DeleteCharIsFilter` | chatbot.py:113 | deleting one character equals the independent filter that drops exactly that character |
| `Text.DeleteAbsent` | dashboard.py:317 | deleting a text whose last character does not occur changes nothing |
| `Text.Lower` | app.py:172 | `lower()` maps each ASCII capital to its small letter and keeps every other character |
| `Text.DecimalRoundTrip` | hr.py:146 | `int()` of the decimal digits of n is n |
| `Patterns.FirstStop` | hr.py:149 | the lazy `.+?` ends at the first position where the look-ahead holds, and such a position always exists |
| `Patterns.SearchFrom` | hr.py:144 | `re.search` reports the leftmost start where the pattern matches, or no match when it matches nowhere |
| `Patterns.AbsentLabelNoMatch` | hr.py:144-157 | a pattern whose label does not occur in the text finds nothing |
| `Patterns.SectionAtFirstLabel` | hr.py:149-154 | a section is found at the first occurrence of its heading whenever text follows it |
| `Patterns.ScoreMatch` | hr.py:144 | "Score: N/10" yields the digits of N |
| `Questions.Parse` | hr.py:52-58 | the questions are a prefix of the numbered lines' questions, at most `num_questions`, and cut short only at `num_questions` |
| `Questions.GenerateHr` | hr.py:51-68 | a raising call gives the five fixed HR questions; a reply gives the first min(5, n) of the n questions extracted from it |
| `Questions.GenerateTech` | tech.py:47-65 | a raising call gives the five fixed technical questions; a reply gives the first min(5, n) of the n questions extracted from it |
| `Questions.ExtractAround` | hr.py:53-57 | lines are processed independently and in order |
| `Questions.ExtractLine` | hr.py:54-57 | a line yields a question exactly when its stripped form starts with a digit |
| `Questions.QuestionOfNumbered` | hr.py:56-57 | "N. q" yields q, the text after the first ". " |
| `Questions.NoNumberedLinesNoQuestions` | hr.py:52-58 | with no numbered line the list is empty, and no fallback applies |
| `Questions.EmptyReplyNoQuestions` | hr.py:52-58 | an empty reply gives an empty question list in both rounds |
| `Questions.ParseNumberedList` | hr.py:52-58 | a numbered list of clean questions "1. q1\n2. q2…" reads back as exactly those questions |
| `Evaluation.Defaults` | tech.py:137-142 | the default record: score 5, "No feedback available", no tips, and empty gaps only in the technical round |
| `Evaluation.ScoreDigits` | hr.py:144-146 | the score capture is a non-empty run of digits |
| `Evaluation.ListOf` | hr.py:154-157 | a found section gives its first min(limit, n) of n items, in order; no section gives no items |
| `Evaluation.ParseHr` | hr.py:127-162 | the HR parser never produces knowledge gaps and keeps at most 3 tips |
| `Evaluation.ParseTech` | tech.py:129-170 | the technical parser always has gaps, at most 3 tips and at most 2 gaps |
| `Evaluation.EvaluateHr` | hr.py:113-125 | a raising evaluator call gives the fixed record with score 5 and exactly three tips, and a reply is parsed |
| `Evaluation.EvaluateTech` | tech.py:115-127 | a raising evaluator call gives the fixed record with two tips and the single gap "Unable to assess gaps" |
| `Evaluation.AbsentLabelKeepsDefault` | tech.py:144-165 | each field comes from its own search: an absent label leaves that field alone at its default |
| `Evaluation.NoLabelsGiveDefaults` | hr.py:136-162 | a text with none of the labels gives the default record |
| `Evaluation.ScoreDigitsAtStart` | hr.py:144 | "Score: d/10" at the start of the text captures d |
| `Evaluation.ScoreNotClamped` | hr.py:144-146 | any score n is read back as n, with no clamping to 1–10 |
| `Evaluation.OverlongScoreDiscardsEverything` | hr.py:142-162 | a score of more than 4300 digits makes `int()` raise, so every field keeps its default |
| `Evaluation.DashesGiveEmptyItem` | hr.py:156 | a tip line of dashes and spaces yields one empty tip |
| `Evaluation.BulletsItems` | hr.py:156-157 | a "- item" list reads back as its items |
| `Evaluation.RenderedScore` | hr.py:144-146 | the score of a rendered evaluation is read back |
| `Evaluation.RenderedFeedback` | hr.py:149-151 | the feedback of a rendered evaluation is read back, up to "\nImprovement Tips:" |
| `Evaluation.TipsAfter` | hr.py:154-157 | a tips section of at most 3 plain items reads back as those items |
| `Evaluation.HrRoundTrip` | hr.py:127-162 | parsing the HR rendering of an evaluation gives the evaluation back |
| `Evaluation.GapsAfter` | tech.py:162-165 | a gaps section of at most 2 plain items reads back as those items |
| `Evaluation.TechRoundTrip` | tech.py:129-170 | parsing the technical rendering of an evaluation with tips gives it back |
| `Evaluation.FeedbackToEnd` | hr.py:149-151 | without "Improvement Tips:" the feedback runs to the end of the text |
| `Evaluation.FeedbackSwallowsGaps` | tech.py:151-165 | without a tips label the feedback swallows the "Knowledge Gaps:" section, and the gaps are still read |
| `Chatbot.NumberingAt` | chatbot.py:114 | a match is reported at `i` exactly when one or more digits, a dot and a white-space character start there, and it ends after that white-space character |
| `Chatbot.StripNumbering` | chatbot.py:114 | the result is a subsequence of the input and only digits, '.' and white space are removed: filtering those out gives the same text before and after |
| `Chatbot.CleanReply` | chatbot.py:111-114 | a cleaned reply holds no '*' and no '•'; it is a subsequence of the reply, and every character other than '*', '•', digits, '.' and white space survives, in order |
| `Chatbot.CleanSteps` | chatbot.py:111-114 | the three substitutions, each removing only its own characters, together remove only the characters of all three |
| `Text.SubsequenceTrans` | chatbot.py:111-114 | removing characters twice is removing characters once |
| `Text.WithoutUnion` | chatbot.py:111-114 | filtering out two sets of characters at once is filtering out one, then the other |
| `Chatbot.Respond` | chatbot.py:103-122 | a reply gives the refusal when the cleaned text is off-topic and the cleaned text itself otherwise, with no '*' or '•'; a raising call gives the error prefix, the message and a closing parenthesis |
| `Chatbot.RefusalPlain` | chatbot.py:119 | the refusal holds no character the cleaning removes |
| `Chatbot.NumberMarkerDropped` | chatbot.py:114 | a leading "N. " is removed whatever N is |
| `Chatbot.NoDigitsUnchanged` | chatbot.py:114 | text without digits passes the numbering substitution unchanged |
| `Chatbot.SinglePass` | chatbot.py:114 | the substitution is one pass: for any digits a, b and white-space character w, "a.b.ww" becomes "a.w", a marker the substitution created and leaves in place |
| `Chatbot.PlainReplyKept` | chatbot.py:111-119 | an on-topic reply without '*', '•' or digits is shown as written |
| `Chatbot.OffTopicReplaced` | chatbot.py:117-119 | every off-topic reply becomes the same refusal |
| `Chatbot.Seeded` | chatbot.py:75-96 | the history is seeded with the system message only when it is missing |
| `Chatbot.ChatTurn` | chatbot.py:98-124 | the history is append-only; an empty input adds nothing, any other adds the user's entry and then the assistant's |
| `Chatbot.Shown` | chatbot.py:128 | the page shows every entry after the system message |
| `Chatbot.ChatTurnWellFormed` | chatbot.py:75-124 | the history keeps the system message first, alternates user and assistant, and has odd length |
| `Chatbot.ShownPairs` | chatbot.py:128-145 | the shown entries come in pairs and never include the system message |
| `Wizard.Initialize` | app.py:21-42 | each of the five keys, when missing, gets its own default (empty results, home page, index 0, audio off, dashboard hidden), and a present key keeps its value |
| `Wizard.InitializeKeepsSaved` | app.py:37-42 | initializing a session that has every key overwrites nothing |
| `Wizard.InitializeIdempotent` | app.py:37-42 | initializing twice is initializing once |
| `Wizard.ClearedStartsFresh` | app.py:21-42 | with no keys, initializing gives empty results (domain, both question lists and both record lists), the home page, index 0, no recording, nothing shown and no chat history |
| `Wizard.Validate` | app.py:159-181 | the four checks apply in order, each notice exactly when the earlier checks pass and its own fails |
| `Wizard.BlankHasTooFewWords` | app.py:159-162 | a blank description would also fail the word count |
| `Wizard.Analyze` | app.py:159-181 | the prediction is used only after every check passes, and an empty, "unknown" or raising prediction identifies nothing |
| `Wizard.RejectedIgnoresPrediction` | app.py:168-171 | a description that fails a check never reaches the predictor |
| `Wizard.UnknownIsNoDomain` | app.py:172-173 | any prediction whose lower-cased form is "unknown" rejects a valid description with the no-domain message |
| `Wizard.WithRecords` | main.py:78-91 | storing one round's records leaves the other round and the question lists alone |
| `Wizard.Grade` | main.py:85-88 | exactly "HR" uses the HR evaluator (no gaps) and anything else uses the technical one |
| `Wizard.ConductRound` | main.py:44-143 | a run leaves the domain, the questions and the other round alone, and extends this round's records by at most one |
| `Wizard.RoundWith` | main.py:44-143 | the same for a run drawn with any progress fraction |
| `Wizard.ProgressAcceptsIff` | main.py:122 | `st.progress(score / 10)` accepts the shown score exactly when it is at most 10 |
| `Wizard.EvaluationScreen` | main.py:98-129 | the evaluation screen advances exactly on "Next Question" when a last record exists and its progress bar is accepted, and otherwise changes nothing |
| `Wizard.SubmitAppendsRecord` | main.py:68-93 | a submitted transcript appends one record for the current question and shows it, with the index unchanged |
| `Wizard.NothingToSubmit` | main.py:67-76 | no recording, no press, or an empty transcript changes neither results, index nor display |
| `Wizard.ReRecordDropsAudio` | main.py:95-97 | "Re-record" clears the recording only |
| `Wizard.NextQuestionAdvances` | main.py:122-129 | with a shown score of at most 10, "Next Question" increments the index, clears the recording and the display, and keeps the records |
| `Wizard.OverTenScoreStalls` | main.py:122-129 | with a shown score above 10 every event leaves the session as it is |
| `Wizard.ClampedProgress` | main.py:122 | the clamped fraction is always accepted and equals the unclamped one for scores up to 10 |
| `Wizard.ConductRoundClamped` | main.py:98-129 | with the clamped bar, "Next Question" on the evaluation screen always advances |
| `Wizard.ClampedNextQuestionAdvances` | main.py:122-129 | the clamped round advances whatever the shown score and runs exactly as the source wherever the score is at most 10 |
| `Wizard.CompletedRoundWaits` | main.py:130-143 | a completed round changes nothing until its button is pressed |
| `Wizard.HomePage` | app.py:152-181 | the home page either moves to the domain confirmation or leaves the session as it is |
| `Wizard.AnalyzeOutcome` | app.py:168-179 | a rejection leaves the session and domain untouched, and an identification stores the prediction and asks for confirmation |
| `Wizard.ConfirmPage` | app.py:184-202 | confirming sets both question lists from the generated replies and moves to the HR round with the domain and records kept; editing changes only the page; any other event changes nothing |
| `Wizard.ConfirmStartsHrRound` | app.py:190-197 | confirming is exactly: both lists generated, round set to the HR round, every other key unchanged |
| `Wizard.EditChangesOnlyRound` | app.py:199-202 | "No, let me edit" changes the page only |
| `Wizard.EditPage` | app.py:205-220 | a non-blank entry is stored as typed, both lists are generated, the index is reset and the HR round starts; anything else changes nothing |
| `Wizard.EntryStartsHrRound` | app.py:209-218 | an entry with any non-space character gives exactly that update and nothing more |
| `Wizard.BlankEntryRefused` | app.py:209-220 | a blank entry changes nothing |
| `Wizard.DashboardPage` | app.py:235-249 | "Start New Interview" deletes every key and "Talk to Evalia" changes the page only |
| `Wizard.ChatPage` | app.py:252-259 | the chat page changes only the history and the page, and goes back to the dashboard exactly on "Back to Interview" |
| `Wizard.RoundKeys` | main.py:49-51 | "HR" selects the HR keys and "Technical" the technical ones |
| `Wizard.RoundStepInProgress` | main.py:56-129 | within a round, records stay one per question passed plus the one shown, in question order, with the right evaluator |
| `Wizard.RoundExitComplete` | main.py:130-143 | a round is left only when complete, HR going to the technical round at index 0 and the technical round to the dashboard |
| `Wizard.HrRunConsistent` | app.py:223-226 | a run of the HR round keeps the session invariant |
| `Wizard.TechRunConsistent` | app.py:228-231 | a run of the technical round keeps the session invariant |
| `Wizard.ChatRunConsistent` | app.py:252-259 | a run of the chat page keeps the session invariant |
| `Wizard.RunConsistent` | app.py:145-259 | every run of `main` keeps the session invariant |
| `Wizard.StartNewForgets` | app.py:240-244 | after "Start New Interview" the next run is a first run |
| `Wizard.ChatKeepsResults` | app.py:247-259 | going to the chat and back keeps the results and the chat history |
| `Wizard.ReachableConsistent` | app.py:145-259 | every session reached by a sequence of runs satisfies the invariant |
| `Wizard.FromFirstRun` | main.py:56-143 | from the first run on, each round's records match its index and never outnumber its questions |
| `Dashboard.Lookup` | dashboard.py:64-65 | `get` finds a value exactly when the key is present |
| `Dashboard.ItemScores` | dashboard.py:63-67 | an item contributes at most one score |
| `Dashboard.CollectScores` | dashboard.py:62-67 | the loop collects at most one score per item |
| `Dashboard.CalculateScores` | dashboard.py:56-89 | there is no summary for a falsy or non-dict argument or when the loops raise, and the domain defaults to "Unknown" |
| `Dashboard.SumAppend` | dashboard.py:84 | the sum of two concatenated score lists is the sum of their sums |
| `Dashboard.OverallIsPooled` | dashboard.py:76-84 | the overall average is (hr_total + tech_total) over the number of scores of both rounds, or 0 |
| `Dashboard.BrokenItemFails` | dashboard.py:62-89 | one item whose evaluation is not a dictionary makes the whole summary fail |
| `Dashboard.NullEvaluationFails` | dashboard.py:64-65 | a null evaluation gives no summary |
| `Dashboard.MissingScoreIsZero` | dashboard.py:65-67 | a missing score counts as 0 and still counts as a score |
| `Dashboard.WizardResultsSummarise` | dashboard.py:56-89 | the results the wizard saves always summarise, with the totals equal to the sums of the round scores |
| `Dashboard.Unmark` | dashboard.py:316-317 | the cleaned text holds no newline or bullet, and only characters of the reply |
| `Dashboard.Kept` | dashboard.py:318 | every kept title is longer than two characters |
| `Dashboard.KeptAvoids` | dashboard.py:318 | stripping and keeping pieces adds no character |
| `Dashboard.Titles` | dashboard.py:316-326 | the title list is never empty, and no title has a comma, newline or bullet; a failed call gives the fixed titles |
| `Dashboard.FallbackTitlesPlain` | dashboard.py:326 | the fixed titles meet the same bounds |
| `Dashboard.TitlesRoundTrip` | dashboard.py:316-321 | a comma-separated list of clean titles reads back as exactly those titles |
| `Dashboard.ShortPiecesDropped` | dashboard.py:318-321 | pieces of at most two characters are dropped |
| `Dashboard.AllLinks` | dashboard.py:337-344 | there are five links per title, title by title and in platform order |
| `Dashboard.SearchJobPortals` | dashboard.py:328-353 | the links are the first min(6, 5 × titles) of that enumeration |
| `Dashboard.FindJobs` | dashboard.py:297-353 | a search always offers five or six links |

## Left out

- Audio capture, the WAV handling and the Whisper transcription (voice.py) are
  audio, file I/O and a foreign model. A transcript is an input string, and
  the recording is modelled only as present or absent.
- Domain prediction (domain.py) is one language-model call. Its prediction is
  a `Reply`, so its own trimming and quote stripping are inside that input.
- Wizard.Analyze: the `Raised` prediction and its AnalysisFailed notice model
  the except clause of app.py:178, which cannot fire: `predict_domain`
  catches every exception itself and returns "Unknown" (domain.py:45-47), so
  a failed call reaches the no-domain notice, as `Wizard.UnknownIsNoDomain`
  states.
- Wizard.DashboardPage: the model assumes the second `st.set_page_config`
  call (dashboard.py:390, after app.py:146) does not raise, as on Streamlit
  releases that allow repeated calls. Where only one call per run is
  allowed, every dashboard run raises before its buttons, and neither the
  StartNew nor the TalkToEvalia transition can happen.
- Every language-model call and its prompt text are foreign calls. Their
  outcomes are `Reply` inputs.
- The Streamlit rendering is UI and is not modelled. This covers headers,
  metrics, CSS and HTML, `st.rerun`, the charts, the `display_*` functions
  and the improvement and course suggestions.
- `save_results` and `load_results` are file I/O. The results are saved when
  a round completes; that write has no effect on the session.
- `urllib.parse.quote_plus` is the `quote` parameter of the link functions.
  The URL templates are filled by concatenation, since `str.format` cannot
  fail with these keys.
- Averages are exact reals. Python floats, their rounding and the `:.1f`
  display formatting are not modelled, and neither is the int/float
  distinction of the sums.
- `isalpha`, `lower`, `isspace`, `\w` and `\d` are restricted to ASCII.
  Unicode letters, digits and spaces are not modelled.
- Text.DeleteAll: the contract states that the result is the input with some
  characters of `t` taken out, not which occurrences go (the leftmost
  non-overlapping ones); for a one-character `t` it is exact, by
  `Text.DeleteCharIsFilter`.
- Chatbot.StripNumbering: the contract states that only digits, '.' and
  white space are taken out, in order, not which runs of them form a marker
  `\d+\.\s`; the marker itself is stated by `Chatbot.NumberingAt`.
- Dashboard.CalculateScores: the contract states when a summary exists and
  what its domain is. The values of its totals and averages are stated by
  `Dashboard.OverallIsPooled` and `Dashboard.WizardResultsSummarise`.

## Findings

| source | as written | input that shows it | evidently intended | confidence | as-written member | corrected member |
|---|---|---|---|---|---|---|
| main.py:122 | `st.progress(evaluation['score']/10)` with the score as parsed, which is not clamped to 10 | an evaluation reply "Score: 11/10" | the bar is capped at full and "Next Question" stays reachable | high, not executed | `Wizard.OverTenScoreStalls` | `Wizard.ClampedNextQuestionAdvances` |

app.py:122 is the same line. `Wizard.OverTenScoreStalls` shows that the
round of `Wizard.ConductRound` never advances past such a score;
`Wizard.ClampedNextQuestionAdvances` proves that `Wizard.ConductRoundClamped`,
which draws the bar with `Wizard.ClampedProgress`, always advances and
otherwise runs as the source does. The wizard itself (`Wizard.Run`)
follows the scripts as written, so a session that shows a score above 10
stays on the evaluation screen.
