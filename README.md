# Study quest: a verified model of the study sessions and the user store

This project models, in Dafny, the core of a gamified study application:

- the eight study-session components of the React front end;
- the flip card;
- the technique picker and the study page that loads a deck and dispatches to a session;
- the services module (card generation and repair, the mock level lookup, the mock XP calls);
- the back end's user store.

The model keeps each source file's form. JavaScript state that an event handler changes becomes a field of a Dafny `class`, changed by a `method` whose `modifies` clause names the fields that handler sets, and no others. Pure helpers become functions whose contracts, and the lemmas beside them, state what the helper promises.

| Dafny file | module | models |
|---|---|---|
| `wrappers.dfy`, `seqs.dfy` | `Wrappers`, `Seqs` | `Option`, `Result`, `Min`, `Max`; four generic sequence facts |
| `text.dfy` | `Text` | the JavaScript string operations used: `trim`, `split(/\s+/)`, `toString`, `padStart(2, "0")`, the base-ten `parseInt`, and a reader for the `m:ss` clock |
| `study_types.dfy` | `StudyTypes` | a card, the summary object handed to `onSessionComplete`, the XP calculator |
| `api.dfy` | `Api` | `generateFlashcards`, `checkLevelUp`, `awardXP`, `completeStudySession` |
| `flashcard.dfy` | `Flashcard` | the flip card |
| `study_session.dfy`, `active_recall.dfy`, `feynman.dfy`, `multiple_choice.dfy`, `study_buddy.dfy`, `mind_mapping.dfy`, `pomodoro.dfy`, `spaced_repetition.dfy` | one module each | the session components |
| `technique_select.dfy`, `study_page.dfy` | `TechniqueSelect`, `StudyPage` | the two pages |
| `user_service.dfy` | `UserService` | `UserService` and the process-wide `user_cache` |

Points that hold throughout:

- **Stale reads.** A React handler sees the state of the render it was created in, and so does a timer it schedules.
  - The classic session's `moveToNextCard` runs from a one-second timeout. Its summary therefore reports the XP and correct count from before the last answer.
  - The spaced-repetition `completeSession` likewise reports the XP and count from before the last grade.
  - The study-buddy summary counts only the points of the earlier turns.
  - The model states each summary exactly as the code builds it.
- **XP calculator.** `calculateXPWithBonus` is imported by four sessions (spaced repetition, study buddy, mind mapping and active recall) but not defined in the services module. Each session that uses it receives it as a constructor parameter `xpCalc: (nat, string) -> nat` giving its `totalXP`, and the model assumes nothing about it.
- **Swapped arguments.** Five of the eight sessions (classic, spaced repetition, study buddy, mind mapping and active recall) call `awardXP(reason, amount)`, while the function is declared `awardXP(amount, reason)`. Feynman, multiple choice and Pomodoro make no award call. Each calling session logs its calls as written, argument order included (`awardCalls`). `Api.SwappedAwardLog` states what the mock then prints.
- **Render-only guards.** A button that is not rendered, or is disabled, becomes a `requires` on its handler, unless the handler tests the same condition itself. Such a test becomes a branch of the method, which the rendered page never reaches: `ActiveRecall.ActiveRecallSession.HandleSubmitAnswer` (the alert branch), `StudyBuddy.StudyBuddySession.HandleSetNames` (empty trimmed names) and `MultipleChoice.MultipleChoiceSession.HandleAnswerClick` (an answered question). Any other explicit `if (...) return` inside a handler also becomes a branch of the method.
- **Spaced repetition ends only on small decks.** Grading reinserts the card, so the queue keeps the deck's length. The session completes only when the queue holds at most one card, so a deck of two or more cards never completes (`SpacedRepetition.CompletesOnlySmallDecks`). The code gives no sign of which ending rule was meant, so the model keeps the code's.
- **Summaries.** A summary is a `map<string, Stat>`, so the study page's `{ ...stats, technique }` is a map update.
- **The back end.**
  - The collection is a map from user id to what the entry's `data` decodes to.
  - The leaderboard reads the entries in an order passed in as a sequence of ids.
  - Timestamps are one opaque `now` string per call.

## Model

| member | source | states |
|---|---|---|
| StudyTypes.XpSummary | frontend/src/components/study/ActiveRecallSession.jsx:72-76 | the `{ xp, completed, total }` summary has exactly those three keys, with the given values |
| Text.TrimStart | frontend/src/components/study/ActiveRecallSession.jsx:31 | what is left is a suffix, everything dropped is white space, and it does not start with white space |
| Text.TrimEnd | frontend/src/components/study/ActiveRecallSession.jsx:31 | what is left is a prefix, everything dropped is white space, and it does not end with white space |
| Text.Trim | frontend/src/components/study/ActiveRecallSession.jsx:31 | `trim` never lengthens the text, and gives the empty string exactly when the text is all white space |
| Text.TrimmedEnds | frontend/src/components/study/ActiveRecallSession.jsx:31 | a trimmed text is empty, or neither begins nor ends with white space |
| Text.SplitWs | frontend/src/components/study/ActiveRecallSession.jsx:83 | `split(/\s+/)` gives at least one piece, and the first piece is empty exactly when the text is empty or starts with white space |
| Text.NonEmpty | frontend/src/components/study/ActiveRecallSession.jsx:84 | the filter keeps only non-empty pieces, each taken from the input |
| Text.SplitCountsWords | frontend/src/components/study/ActiveRecallSession.jsx:82-84 | the pieces that survive the filter are exactly as many as the words a left-to-right scan counts |
| Text.WordCount | frontend/src/components/study/ActiveRecallSession.jsx:81-84 | `trim().split(/\s+/).filter((w) => w.length > 0).length`; stated by `Text.WordCountIsWords` |
| Text.WordCountIsWords | frontend/src/components/study/ActiveRecallSession.jsx:81-84 | the trim, split and filter count equals the number of maximal runs of non-white-space characters |
| Text.NatToString | frontend/src/components/study/StudySession.jsx:71-73 | `toString` of a natural number is decimal digits with no leading zero, one digit exactly below 10 |
| Text.ParseNatToString | frontend/src/components/study/StudySession.jsx:73 | the decimal digits read back as the number |
| Text.NatToStringInjective | frontend/src/components/study/MindMappingSession.jsx:42 | different numbers have different decimal strings |
| Text.PadStart2 | frontend/src/components/study/StudySession.jsx:73 | `padStart(2, "0")` gives at least two characters: zeros, then the text itself |
| Text.ParsePadded | frontend/src/components/study/PomodoroSession.jsx:39-41 | padding digits with zeros does not change their value |
| Text.PaddedReadsBack | frontend/src/components/study/StudySession.jsx:72-73 | a number below 100, padded, is two digits that read back as the number |
| Text.DigitPrefix | frontend/src/pages/TechniqueSelect.jsx:12 | the longest run of leading digits |
| Text.ParseIntJs | frontend/src/pages/TechniqueSelect.jsx:12 | `parseInt` is NaN exactly when no digit follows the leading white space and the optional sign |
| Text.ParseIntJsOfNat | frontend/src/components/study/MindMappingSession.jsx:111 | `parseInt` of a decimal numeral gives back the number |
| Text.ParseIntJsSigned | frontend/src/pages/TechniqueSelect.jsx:12 | white space, a sign and a run of digits, followed by anything that does not start with a digit, read as the digits' decimal value with that sign |
| Text.ParseIntJsSignedDigits | frontend/src/pages/TechniqueSelect.jsx:12 | a sign after white space applies to the digit run that follows it |
| Text.ParseIntJsAfterSign | frontend/src/pages/TechniqueSelect.jsx:12 | once the white space is dropped, a sign followed by digits gives their value, negated for `-` |
| Text.TrimStartSkips | frontend/src/pages/TechniqueSelect.jsx:12 | only the leading white space is dropped before the sign |
| Text.DigitPrefixStops | frontend/src/pages/TechniqueSelect.jsx:12 | the digit run ends at the first character that is not a digit |
| Text.ParseClockOf | frontend/src/components/study/StudySession.jsx:70-74 | a clock text of digits, a colon and two digits below 60 reads as minutes times 60 plus seconds |
| Text.Utf16Units | frontend/src/components/study/ActiveRecallSession.jsx:31 | a character takes two UTF-16 code units exactly when it lies outside the Basic Multilingual Plane, and one otherwise |
| Text.Utf16Length | frontend/src/components/study/ActiveRecallSession.jsx:31 | `length` lies between the number of characters and twice that, and is zero only for the empty string |
| Text.Utf16LengthAppend | frontend/src/components/study/ActiveRecallSession.jsx:31 | the length of a concatenation is the sum of the lengths |
| Text.Utf16LengthBmp | frontend/src/components/study/ActiveRecallSession.jsx:31 | within the Basic Multilingual Plane, `length` is the number of characters |
| Text.Utf16LengthOfAstral | frontend/src/components/study/ActiveRecallSession.jsx:31 | "a😀" has two characters but length 3 |
| Text.ContainsMiddle | frontend/src/services/api.js:77-86 | a text built around the topic contains the topic |
| Api.Get | frontend/src/services/api.js:45-47 | a property read yields a value exactly when the value is an object holding that key |
| Api.NormalizeCard | frontend/src/services/api.js:65-68 | one card as `{question: c.front || c.question || "", answer: c.back || c.answer || ""}`; its fields are stated by `Api.NormalizeCardFields` |
| Api.NormalizeCards | frontend/src/services/api.js:64-68 | `cards.map` succeeds exactly when no element is `null`; it keeps the count, and element i is card i normalised |
| Api.NormalizeCardFields | frontend/src/services/api.js:66-67 | `front` wins over `question` and `back` over `answer`; a side with neither is the empty string |
| Api.FailedStatus | frontend/src/services/api.js:33 | the guard `data && data.status && data.status !== "success"` that sends a body to the fallback; `Api.GenerateFallsBack` states its effect |
| Api.SelectCards | frontend/src/services/api.js:42-62 | where the cards are taken from: the array body, its `flashcards` array, its `flashcards` string parsed, or `[]`, and a TypeError on a `null` body; its cases are stated by `Api.GenerateFromArray`, `Api.GenerateFromField`, `Api.GenerateFromString` and `Api.GenerateWithoutCards` |
| Api.ParseRepaired | frontend/src/services/api.js:49-60 | `JSON.parse` of the string, else of its repaired form, else `[]`; stated by `Api.ParseRepairedCases` |
| Api.CleanTruncated | frontend/src/services/api.js:54 | the repaired text always ends in `}]`; a final comma followed only by white space is cut, and otherwise the text is kept whole |
| Api.TrailingCommaUnique | frontend/src/services/api.js:54 | the only comma the pattern can match is the last character before the trailing white space |
| Api.FallbackCards | frontend/src/services/api.js:72-88 | the fallback deck has three cards, and each question names the topic |
| Api.GenerateFlashcards | frontend/src/services/api.js:14-89 | the cards `generateFlashcards` resolves to, never a rejection; what each response gives is stated by `Api.GenerateFallsBack`, `Api.GenerateFromArray`, `Api.GenerateFromField`, `Api.GenerateFromString` and `Api.GenerateWithoutCards` |
| Api.GenerateFallsBack | frontend/src/services/api.js:15-39 | a failed fetch, a non-ok status, an unreadable body, a failure status or a `null` body all give the fallback deck |
| Api.GenerateFromArray | frontend/src/services/api.js:43-44 | an array body is normalised card by card, keeping the count |
| Api.GenerateFromField | frontend/src/services/api.js:45-46 | an object whose `flashcards` is an array uses that array, card by card |
| Api.GenerateFromString | frontend/src/services/api.js:47-61 | a non-empty `flashcards` string is parsed, or parsed after repair, and the resulting array is normalised card by card |
| Api.ParseRepairedCases | frontend/src/services/api.js:49-60 | the first parse that succeeds wins; when both fail the cards are an empty array |
| Api.GenerateWithoutCards | frontend/src/services/api.js:42-62 | an object whose `flashcards` is missing, empty, or neither an array nor a string gives no cards rather than the fallback |
| Api.FindFirstAbove | frontend/src/services/api.js:141-142 | `findIndex` is the first index whose threshold exceeds the XP, or -1 when no threshold does |
| Api.CheckLevelUp | frontend/src/services/api.js:133-148 | the mock never reports a level-up or an unlock, and its level lies between -2 and 4 |
| Api.FirstAboveCounts | frontend/src/services/api.js:140-142 | on an ascending table, the index found is the number of thresholds reached, and "not found" means all were reached |
| Api.ThresholdsAscending | frontend/src/services/api.js:140 | the threshold table is strictly ascending |
| Api.CheckLevelUpBelowTop | frontend/src/services/api.js:140-142 | below 1000 XP the level is the number of thresholds reached, minus one |
| Api.CheckLevelUpAtTop | frontend/src/services/api.js:140-142 | from 1000 XP on, the reported level is -2 |
| Api.CheckLevelUpExamples | frontend/src/services/api.js:140-148 | 0, 100, 999 and 1000 XP give levels 0, 1, 4 and -2 |
| Api.LevelOf | frontend/src/services/api.js:140-142 | the intended lookup lies between -1 and 5 |
| Api.LevelOfProperties | frontend/src/services/api.js:140-142 | the intended lookup is monotone in XP, agrees with the mock below 1000, is 5 from 1000 on, and is never negative for non-negative XP |
| Api.AwardLog | frontend/src/services/api.js:106 | the console line contains both arguments as they were passed |
| Api.AwardXP | frontend/src/services/api.js:96-112 | whatever it is given, the mock reports success and a total of 150 |
| Api.CompleteStudySession | frontend/src/services/api.js:175-193 | whatever the session data, the mock awards exactly 50 XP for `session_complete` and reports success |
| Api.SwappedAwardLog | frontend/src/services/api.js:96-106 | a call whose arguments are swapped, as the sessions make it, logs the reason where the amount goes and the amount where the reason goes |
| StudySession.FormatTime | frontend/src/components/study/StudySession.jsx:70-74 | the clock `m:ss`, minutes unpadded and seconds padded to two digits; stated by `StudySession.FormatTimeRoundTrip` and `StudySession.FormatTimeShape` |
| StudySession.FormatTimeRoundTrip | frontend/src/components/study/StudySession.jsx:70-74 | the clock `m:ss` reads back as the seconds it was made from |
| StudySession.ClockReadsBack | frontend/src/components/study/StudySession.jsx:70-74 | minutes and a two-digit remainder below 60 read back as minutes times 60 plus the remainder |
| StudySession.FormatTimeShape | frontend/src/components/study/StudySession.jsx:70-74 | the seconds always take two digits after the colon, and the minutes take as many digits as they need |
| StudySession.SessionSummary | frontend/src/components/study/StudySession.jsx:121-128 | the summary has exactly the keys xp, completed, total and timeSpent, with the given values |
| StudySession.StudySession.constructor | frontend/src/components/study/StudySession.jsx:18-24 | a session starts on card 0 with no XP, no answers and no time elapsed |
| StudySession.StudySession.TimerTick | frontend/src/components/study/StudySession.jsx:30-36 | the elapsed time is the whole seconds since the start |
| StudySession.StudySession.MoveToNextCard | frontend/src/components/study/StudySession.jsx:112-129 | before the last card it moves on by one; on the last card it reports the XP it saw plus 50 as the summary |
| StudySession.StudySession.HandleCorrect | frontend/src/components/study/StudySession.jsx:76-90 | 15 XP and one more correct answer, one award call, and then the next card or a summary that leaves out this answer |
| StudySession.StudySession.HandleIncorrect | frontend/src/components/study/StudySession.jsx:92-105 | 5 XP and one more review with the correct count unchanged, one award call, and then the next card or the summary |
| Flashcard.Flashcard.constructor | frontend/src/components/flashcards/Flashcard.jsx:4-13 | a new card is neither flipped nor answered |
| Flashcard.Flashcard.ChangeCard | frontend/src/components/flashcards/Flashcard.jsx:15-19 | both flags are cleared exactly when the question or the answer changes |
| Flashcard.Flashcard.HandleFlip | frontend/src/components/flashcards/Flashcard.jsx:21-25 | a click toggles an unanswered card and leaves an answered card alone |
| Flashcard.Flashcard.HandleAnswer | frontend/src/components/flashcards/Flashcard.jsx:27-38 | an answer marks the card answered, hides the buttons, and calls exactly the callback the button chose |
| ActiveRecall.GradeXP | frontend/src/components/study/ActiveRecallSession.jsx:40 | a correct self-grade is worth 20 XP and any other is worth 10 |
| ActiveRecall.ActiveRecallSession.constructor | frontend/src/components/study/ActiveRecallSession.jsx:7-16 | a session starts on card 0 with an empty, hidden answer and no XP |
| ActiveRecall.ActiveRecallSession.WordCountShown | frontend/src/components/study/ActiveRecallSession.jsx:81-84 | the count shown is the number of white-space separated words in the answer |
| ActiveRecall.ActiveRecallSession.EditAnswer | frontend/src/components/study/ActiveRecallSession.jsx:120-126 | typing replaces the answer |
| ActiveRecall.LongEnough | frontend/src/components/study/ActiveRecallSession.jsx:31 | the trimmed answer has at least three UTF-16 code units; used by `ActiveRecall.ActiveRecallSession.HandleSubmitAnswer` and stated by `ActiveRecall.AstralAnswerLongEnough` |
| ActiveRecall.ActiveRecallSession.HandleSubmitAnswer | frontend/src/components/study/ActiveRecallSession.jsx:30-36 | the answer is revealed exactly when, once trimmed, it is at least three UTF-16 code units long (what `length` counts); otherwise one alert is raised |
| ActiveRecall.AstralAnswerLongEnough | frontend/src/components/study/ActiveRecallSession.jsx:31 | a letter followed by an emoji passes the check, because the emoji counts as two code units |
| ActiveRecall.ActiveRecallSession.HandleNext | frontend/src/components/study/ActiveRecallSession.jsx:38-79 | the calculated XP is added, a correct grade is counted, one award call is made, and then the next card with a cleared answer, or on the last card a summary that includes this grade plus 60 |
| Feynman.UnderstoodXP | frontend/src/components/study/FeynmanSession.jsx:22 | a card graded "understood" is worth 30 XP, and otherwise 10 |
| Feynman.FeynmanSession.constructor | frontend/src/components/study/FeynmanSession.jsx:4-9 | a session starts on card 0 with an empty, hidden explanation and no XP |
| Feynman.FeynmanSession.RevealEnabledByWords | frontend/src/components/study/FeynmanSession.jsx:39-42 | the reveal button is enabled exactly when the answer is hidden and the explanation has at least ten white-space separated words |
| Feynman.FeynmanSession.EditExplanation | frontend/src/components/study/FeynmanSession.jsx:69-75 | typing replaces the explanation |
| Feynman.FeynmanSession.HandleShowAnswer | frontend/src/components/study/FeynmanSession.jsx:17-19 | the enabled button reveals the answer |
| Feynman.FeynmanSession.HandleNext | frontend/src/components/study/FeynmanSession.jsx:21-37 | 30 or 10 XP and one more card completed, then the next card with a cleared explanation, or on the last card a summary in which every card is completed |
| MindMapping.ViewedStyle | frontend/src/components/study/MindMappingSession.jsx:130-138 | a viewed node gets the green background and border, and every other style entry is kept |
| MindMapping.InitialNodes | frontend/src/components/study/MindMappingSession.jsx:36-66 | one node per card: node i has id "i", index i, card i and the purple starting style |
| MindMapping.InitialIdsDistinct | frontend/src/components/study/MindMappingSession.jsx:42 | the node ids are pairwise distinct, and `parseInt` of node i's id gives back i |
| MindMapping.ParseNodeId | frontend/src/components/study/MindMappingSession.jsx:111 | `parseInt` of a node's id is that node's position |
| MindMapping.Restyle | frontend/src/components/study/MindMappingSession.jsx:127-142 | the map keeps the length, every id and every card; nodes with the clicked id get the viewed style, and all others are unchanged |
| MindMapping.HalfUp | frontend/src/components/study/MindMappingSession.jsx:187 | `Math.ceil(n * 0.5)` is n/2 rounded up |
| MindMapping.ViewedBound | frontend/src/components/study/MindMappingSession.jsx:114-119 | a set of card positions below n has at most n elements |
| MindMapping.RestyleOne | frontend/src/components/study/MindMappingSession.jsx:127-142 | with ids "0", "1", and so on, restyling by node k's id changes node k alone |
| MindMapping.RestyleKeepsCards | frontend/src/components/study/MindMappingSession.jsx:127-142 | restyling keeps node i bound to card i under id "i" |
| MindMapping.MindMappingSession.constructor | frontend/src/components/study/MindMappingSession.jsx:17-69 | a session starts with the initial nodes, no edges, no XP and nothing viewed |
| MindMapping.MindMappingSession.ExploredAtMostCards | frontend/src/components/study/MindMappingSession.jsx:179 | the explored count never exceeds the number of cards |
| MindMapping.MindMappingSession.OnConnect | frontend/src/components/study/MindMappingSession.jsx:71-107 | every connection adds the calculated 25-point XP, one award call and one edge |
| MindMapping.MindMappingSession.OnNodeClick | frontend/src/components/study/MindMappingSession.jsx:109-148 | a click selects the node; the first view of a card earns XP, records the card and restyles that node alone, and a repeat view changes nothing else |
| MindMapping.MindMappingSession.FirstView | frontend/src/components/study/MindMappingSession.jsx:114-143 | the first view adds the calculated 15-point XP, records the card, makes one award call and restyles the clicked node |
| MindMapping.MindMappingSession.CloseDetails | frontend/src/components/study/MindMappingSession.jsx:230-235 | the panel's close button clears the selection and changes nothing else |
| MindMapping.MindMappingSession.CompleteOffered | frontend/src/components/study/MindMappingSession.jsx:187 | the complete button shows once at least `Math.ceil(n * 0.5)` cards are explored; `MindMapping.MindMappingSession.HandleComplete` requires it |
| MindMapping.MindMappingSession.HandleComplete | frontend/src/components/study/MindMappingSession.jsx:150-189 | the summary counts the cards explored plus a bonus of 100, and the button only appears once at least half the cards have been explored |
| MultipleChoice.IndexOf | frontend/src/components/study/MultipleChoiceSession.jsx:34 | `indexOf` is -1 exactly when the value is absent; otherwise it is the first position that holds the value |
| MultipleChoice.OptionsProperties | frontend/src/components/study/MultipleChoiceSession.jsx:18-34 | every shuffle has four options, holds the answer and each distractor, and the correct index points at the answer |
| MultipleChoice.UnshuffledIsOptions | frontend/src/components/study/MultipleChoiceSession.jsx:27 | the answer followed by the three distractors is a valid arrangement |
| MultipleChoice.MultipleChoiceSession.constructor | frontend/src/components/study/MultipleChoiceSession.jsx:4-9 | a quiz starts on question 0 with nothing selected, no score and no XP |
| MultipleChoice.MultipleChoiceSession.HandleAnswerClick | frontend/src/components/study/MultipleChoiceSession.jsx:36-50 | the first click selects the option; a click on the answer adds one point and 20 XP, any other adds 5 XP; later clicks change nothing |
| MultipleChoice.MultipleChoiceSession.HandleNext | frontend/src/components/study/MultipleChoiceSession.jsx:52-64 | before the last question it moves on and clears the selection; on the last it reports the score, the total and the XP, with no bonus |
| MultipleChoice.QuizSummary | frontend/src/components/study/MultipleChoiceSession.jsx:58-62 | the summary has exactly the keys score, total and xp |
| Pomodoro.FormatTime | frontend/src/components/study/PomodoroSession.jsx:36-42 | the clock `mm:ss`, both fields padded to two digits; stated by `Pomodoro.FormatTimeRoundTrip` and `Pomodoro.FormatTimeWidth` |
| Pomodoro.FormatTimeRoundTrip | frontend/src/components/study/PomodoroSession.jsx:36-42 | the `MM:SS` display reads back as the seconds it was made from, however many minutes there are |
| Pomodoro.ClockReadsBack | frontend/src/components/study/PomodoroSession.jsx:36-42 | padded minutes and a padded remainder below 60 read back as minutes times 60 plus the remainder |
| Pomodoro.FormatTimeWidth | frontend/src/components/study/PomodoroSession.jsx:36-42 | below 100 minutes the display is exactly five characters, with the colon in the middle |
| Pomodoro.PomodoroSession.constructor | frontend/src/components/study/PomodoroSession.jsx:4-8 | the timer starts paused on a full 25-minute focus period, with nothing completed |
| Pomodoro.PomodoroSession.Tick | frontend/src/components/study/PomodoroSession.jsx:13-16 | a running timer with time left loses one second |
| Pomodoro.PomodoroSession.Expire | frontend/src/components/study/PomodoroSession.jsx:17-31 | at zero a focus period is counted and a 5-minute break begins, and a finished break returns to a 25-minute focus period; either way the timer is paused |
| Pomodoro.PomodoroSession.Toggle | frontend/src/components/study/PomodoroSession.jsx:72 | Start/Pause flips whether the timer runs |
| Pomodoro.PomodoroSession.StartBreak | frontend/src/components/study/PomodoroSession.jsx:89-93 | the break button starts the break timer |
| Pomodoro.PomodoroSession.HandleReset | frontend/src/components/study/PomodoroSession.jsx:44-48 | reset returns to a full, paused focus period |
| Pomodoro.PomodoroSession.HandleFinishSession | frontend/src/components/study/PomodoroSession.jsx:50-54 | the count of completed periods is reported, if there is a callback to report it to |
| SpacedRepetition.InitialQueue | frontend/src/components/study/SpacedRepetitionSession.jsx:20-26 | the queue keeps the deck's order; card i gets id i, difficulty 0, next review 0 and no reviews |
| SpacedRepetition.Schedule | frontend/src/components/study/SpacedRepetitionSession.jsx:41-57 | every rating, the default included, moves the card back at least one place |
| SpacedRepetition.ScheduleMonotone | frontend/src/components/study/SpacedRepetitionSession.jsx:41-53 | among "Again", "Good" and "Easy", a lower rating earns less and brings the card back sooner |
| SpacedRepetition.Remove | frontend/src/components/study/SpacedRepetitionSession.jsx:90 | `splice(i, 1)` drops element i and shifts the later ones forward by one |
| SpacedRepetition.InsertAt | frontend/src/components/study/SpacedRepetitionSession.jsx:97 | `splice(j, 0, x)` puts x at j and shifts the later elements back by one |
| SpacedRepetition.Target | frontend/src/components/study/SpacedRepetitionSession.jsx:93-96 | the reinsertion point is never before the card's old position and is always inside the queue |
| SpacedRepetition.Reinsert | frontend/src/components/study/SpacedRepetitionSession.jsx:89-97 | `splice(i, 1)` then `splice(min(i + offset, length), 0, card)`; stated by `SpacedRepetition.ReinsertShape` and `SpacedRepetition.ReinsertPermutes` |
| SpacedRepetition.ReinsertShape | frontend/src/components/study/SpacedRepetitionSession.jsx:89-97 | the queue keeps its length, the card lands on its target, the cards it passes move forward one place, and every other card stays put |
| SpacedRepetition.ReinsertPermutes | frontend/src/components/study/SpacedRepetitionSession.jsx:89-97 | taking out a card and putting it back is a permutation of the queue |
| SpacedRepetition.ReinsertExamples | frontend/src/components/study/SpacedRepetitionSession.jsx:42-97 | "Again" on the head of three cards swaps the first two; "Easy" on the head of five sends it to the end |
| SpacedRepetition.EasyGoesLast | frontend/src/components/study/SpacedRepetitionSession.jsx:50-96 | in a queue of at most eleven cards, an "Easy" card goes to the back |
| SpacedRepetition.Graded | frontend/src/components/study/SpacedRepetitionSession.jsx:85-87 | grading sets the card's difficulty to the rating, adds one review, and keeps the rest |
| SpacedRepetition.IndexOfId | frontend/src/components/study/SpacedRepetitionSession.jsx:82 | `findIndex` is -1 exactly when no card has the id; otherwise it is the first card that does |
| SpacedRepetition.Ids | frontend/src/components/study/SpacedRepetitionSession.jsx:82 | the ids of the queue, position by position |
| SpacedRepetition.GradeQueue | frontend/src/components/study/SpacedRepetitionSession.jsx:81-97 | the queue after a grade: the current card found by id, graded, and reinserted by its rating's offset; unchanged when the id is absent; stated by `SpacedRepetition.GradeQueueProperties` and `SpacedRepetition.GradeHead` |
| SpacedRepetition.GradeQueueProperties | frontend/src/components/study/SpacedRepetitionSession.jsx:81-99 | grading keeps the queue's length and the multiset of its ids, and an unknown id leaves the queue unchanged |
| SpacedRepetition.GradeHead | frontend/src/components/study/SpacedRepetitionSession.jsx:81-99 | grading the current card, which is the head, is the head graded and moved back, with the queue's length and ids kept |
| SpacedRepetition.IdsOfReinsert | frontend/src/components/study/SpacedRepetitionSession.jsx:89-97 | moving a card and then taking the ids is the same as taking the ids and then moving |
| SpacedRepetition.FindById | frontend/src/components/study/SpacedRepetitionSession.jsx:82 | the loop over the copied array returns the index `findIndex` specifies |
| SpacedRepetition.Resequence | frontend/src/components/study/SpacedRepetitionSession.jsx:90-97 | the two in-place splices leave the array equal to the card removed and reinserted at its target |
| SpacedRepetition.GradeCopy | frontend/src/components/study/SpacedRepetitionSession.jsx:81-97 | grading a copy in place yields the head graded and moved back, with the length and ids kept |
| SpacedRepetition.CompletesOnlySmallDecks | frontend/src/components/study/SpacedRepetitionSession.jsx:102-108 | the completion branch, a queue of at most one card after grading, is reached exactly when the deck has at most one card |
| SpacedRepetition.SpacedRepetitionSession.constructor | frontend/src/components/study/SpacedRepetitionSession.jsx:18-29 | after mounting, the queue is the initial queue and the current card is its head, or none for an empty deck |
| SpacedRepetition.SpacedRepetitionSession.HandleShowAnswer | frontend/src/components/study/SpacedRepetitionSession.jsx:31-33 | the answer is revealed |
| SpacedRepetition.SpacedRepetitionSession.HandleDifficulty | frontend/src/components/study/SpacedRepetitionSession.jsx:35-119 | the rating's XP and one review are counted, one award call is made, and the queue becomes the graded head moved back; with more than one card the head is shown next, otherwise a summary is sent from the XP and count before this grade |
| SpacedRepetition.SpacedRepetitionSession.Award | frontend/src/components/study/SpacedRepetitionSession.jsx:59-64 | the calculated XP is added, one more card is counted as reviewed, and the award call is logged |
| SpacedRepetition.SpacedRepetitionSession.ShowNext | frontend/src/components/study/SpacedRepetitionSession.jsx:99-108 | the new queue and its head are stored; with more than one card the answer is hidden again, otherwise the summary is reported |
| StudyBuddy.AnswerXP | frontend/src/components/study/StudyBuddySession.jsx:46 | a right answer is worth 15 XP and a wrong one 5 |
| StudyBuddy.TurnAt | frontend/src/components/study/StudyBuddySession.jsx:12-80 | player 1 answers the even-numbered cards and player 2 the odd-numbered ones |
| StudyBuddy.TurnAlternates | frontend/src/components/study/StudyBuddySession.jsx:80 | passing a card hands the turn to the other player |
| StudyBuddy.ScoresStep | frontend/src/components/study/StudyBuddySession.jsx:51-57 | one more card raises each player's bound by at most their own card, and the two scores together never exceed the cards played |
| StudyBuddy.StudyBuddySession.constructor | frontend/src/components/study/StudyBuddySession.jsx:7-20 | play starts on card 0 with player 1's turn, no scores and the default names, on the name screen |
| StudyBuddy.DefaultNamesFit | frontend/src/components/study/StudyBuddySession.jsx:18-19 | the default names "Player 1" and "Player 2" fit the 20-unit name inputs |
| StudyBuddy.StudyBuddySession.EditNames | frontend/src/components/study/StudyBuddySession.jsx:104-121 | typing replaces the names, each at most 20 UTF-16 code units as `maxLength` counts them |
| StudyBuddy.StudyBuddySession.HandleSetNames | frontend/src/components/study/StudyBuddySession.jsx:34-38 | play starts exactly when both names have a character that is not white space |
| StudyBuddy.StudyBuddySession.HandleShowAnswer | frontend/src/components/study/StudyBuddySession.jsx:40-42 | the answer is revealed |
| StudyBuddy.StudyBuddySession.HandleAnswer | frontend/src/components/study/StudyBuddySession.jsx:44-90 | the XP is added and a right answer scores for the current player only; then the turn passes with the card, or on the last card the summary counts only the points of the earlier turns, which are fewer than the cards |
| StudyBuddy.StudyBuddySession.Score | frontend/src/components/study/StudyBuddySession.jsx:49-60 | the XP is added, a right answer scores for player 1 on turn 1 and for player 2 otherwise, and the award call is logged |
| StudyBuddy.StudyBuddySession.PassCard | frontend/src/components/study/StudyBuddySession.jsx:76-89 | before the last card: the next card, the answer hidden, the other player's turn; on the last card the summary is reported |
| TechniqueSelect.InitialLevel | frontend/src/pages/TechniqueSelect.jsx:10-14 | with nothing stored, or the empty string, the level is 1 |
| TechniqueSelect.InitialLevelOfNumeral | frontend/src/pages/TechniqueSelect.jsx:12 | a stored decimal numeral is read back as its own value |
| TechniqueSelect.IsUnlocked | frontend/src/pages/TechniqueSelect.jsx:54-56 | `userLevel >= technique.requiredLevel`, false for a NaN level; stated by `TechniqueSelect.UnlockedAtLevel` and `TechniqueSelect.UnlockMonotone` |
| TechniqueSelect.UnlockedIds | frontend/src/pages/TechniqueSelect.jsx:54-72 | a technique's id is listed exactly when some entry with that id is unlocked |
| TechniqueSelect.UnlockMonotone | frontend/src/pages/TechniqueSelect.jsx:54-56 | a higher level unlocks everything a lower level does |
| TechniqueSelect.RequiredLevels | frontend/src/pages/TechniqueSelect.jsx:16-52 | the five techniques require levels 1 to 5, in display order |
| TechniqueSelect.UnlockedPrefix | frontend/src/pages/TechniqueSelect.jsx:54-56 | in a table whose required levels count up by one, a level unlocks exactly the prefix it reaches |
| TechniqueSelect.TechniqueIds | frontend/src/pages/TechniqueSelect.jsx:76 | the ids of a table, entry by entry |
| TechniqueSelect.UnlockedAtLevel | frontend/src/pages/TechniqueSelect.jsx:16-56 | level n unlocks the first n techniques: none below 1 and all five from 5 on; a NaN level unlocks none |
| TechniqueSelect.OnlyFlashcardsAtLevelOne | frontend/src/pages/TechniqueSelect.jsx:7-56 | at the starting level only the flashcards are unlocked |
| TechniqueSelect.Click | frontend/src/pages/TechniqueSelect.jsx:80 | a click selects the technique if it is unlocked, and otherwise leaves the selection as it was |
| TechniqueSelect.SelectionStaysUnlocked | frontend/src/pages/TechniqueSelect.jsx:80 | after any series of clicks, an unlocked selection is still an unlocked technique of the table |
| TechniqueSelect.InitialSelectionUnlocked | frontend/src/pages/TechniqueSelect.jsx:7-56 | the initial "flashcards" selection is unlocked exactly when the level is at least 1 |
| TechniqueSelect.HandleContinue | frontend/src/pages/TechniqueSelect.jsx:58-61 | the selection is stored under `studyTechnique` and the page goes to `/study` |
| StudyPage.MockTemplates | frontend/src/pages/StudyPage.jsx:118-139 | five question templates, and each names the topic |
| StudyPage.TemplatesExtendFallback | frontend/src/pages/StudyPage.jsx:118-130 | the first three templates are the fallback cards of the card generator |
| StudyPage.MockFlashcards | frontend/src/pages/StudyPage.jsx:117-145 | `count` cards, none for NaN or a negative count, and card i is template i mod 5 |
| StudyPage.MockCards | frontend/src/pages/StudyPage.jsx:141-144 | n cards, with card i being template i mod 5 |
| StudyPage.MockFlashcardsProperties | frontend/src/pages/StudyPage.jsx:117-145 | every mock question names the topic, and the set repeats every five cards |
| StudyPage.OrDefault | frontend/src/pages/StudyPage.jsx:63-65 | a missing or empty stored value takes the default, and any other is kept |
| StudyPage.NormalizeLoaded | frontend/src/pages/StudyPage.jsx:98-100 | an array is kept as it is, and only `null` makes the step throw |
| StudyPage.SavedCount | frontend/src/pages/StudyPage.jsx:63-95 | with no saved count, or an empty one, the count is 10 |
| StudyPage.TenReadsBack | frontend/src/pages/StudyPage.jsx:63 | `parseInt("10")` is 10 |
| StudyPage.LoadedDeck | frontend/src/pages/StudyPage.jsx:86-111 | the deck the loading effect ends with: from RAG or from the generator, normalised, and the mock deck when the call throws or yields nothing; stated by `StudyPage.LoadedDeckCases` |
| StudyPage.LoadedDeckCases | frontend/src/pages/StudyPage.jsx:86-111 | outside the retrieval mode the page shows exactly the generator's cards; in it, a call that throws or returns `null` shows the mock set, and an array result is kept as it came |
| StudyPage.Dispatch | frontend/src/pages/StudyPage.jsx:182-256 | a known technique id selects the component with that id, and any other id selects the classic session |
| StudyPage.DispatchRoundTrip | frontend/src/pages/StudyPage.jsx:182-256 | each component is reached by its own id and by no other known id |
| StudyPage.StudyPage.constructor | frontend/src/pages/StudyPage.jsx:21-30 | the page starts loading, with no cards, the "flashcards" technique, level 0 and no stats |
| StudyPage.StudyPage.View | frontend/src/pages/StudyPage.jsx:160-269 | loading shows the spinner, then the dispatched session, and after completion the summary |
| StudyPage.StudyPage.LoadUserLevel | frontend/src/pages/StudyPage.jsx:50-58 | a truthy progress sets the level it carries; otherwise the level is kept |
| StudyPage.StudyPage.LoadFlashcards | frontend/src/pages/StudyPage.jsx:60-115 | the technique and the background are set first; without a topic the page goes to the topic input and stays loading, and otherwise the deck is settled and loading ends |
| StudyPage.StudyPage.HandleSessionComplete | frontend/src/pages/StudyPage.jsx:147-153 | the stats are kept with `technique` set to the page's technique, every other key unchanged, and the summary is shown |
| StudyPage.StudyPage.HandleContinue | frontend/src/pages/StudyPage.jsx:155-158 | offered only while the level-up dialog is shown, it closes the dialog and the page goes to the topic input |
| UserService.NewUser | backend/user_service.py:63-79 | a new record carries `updated_at`, `level`, `xp` and `character` |
| UserService.NewUserDefaults | backend/user_service.py:63-105 | a fresh record, once saved, holds every default: xp 0, level 1, zero counters, no achievements, `basic_flashcards` unlocked and no character; it is persisted exactly when the collection exists |
| UserService.StampedKeepsDefaults | backend/user_service.py:93 | refreshing `updated_at` keeps every default |
| UserService.Merged | backend/user_service.py:112-113 | after `update`, the keys of the updates are overwritten, all other keys are kept, and `updated_at` is fresh |
| UserService.Stamped | backend/user_service.py:89-93 | the save refreshes `updated_at` when there is a collection, and otherwise changes nothing |
| UserService.StampedAgain | backend/user_service.py:93 | saving a record that already carries this `updated_at` leaves it unchanged |
| UserService.Incremented | backend/user_service.py:127-128 | `+=` on a missing key raises KeyError and on a non-number raises TypeError; otherwise only that key, raised by n, and `updated_at` change |
| UserService.AddXpKeepsLevel | backend/user_service.py:124-133 | adding XP never changes the level |
| UserService.DecodeEntry | backend/user_service.py:159-170 | an undecodable entry, or one whose `character` is present but not a dict, is skipped; a row that is built carries the entry's xp |
| UserService.NewUserSkipped | backend/user_service.py:158-170 | a user who has not chosen a character never appears on the leaderboard |
| UserService.DecodeAll | backend/user_service.py:157-170 | never more rows than entries |
| UserService.InsertPos | backend/user_service.py:173 | the insertion point follows every row with a key at least as large, and precedes the first smaller one |
| UserService.SortDesc | backend/user_service.py:173 | the sort keeps the number of rows |
| UserService.WithKeyAppend | backend/user_service.py:173 | the rows with a key, taken from two halves, are the rows of each half in turn |
| UserService.WithKeyNone | backend/user_service.py:173 | rows none of which has a key contribute nothing with that key |
| UserService.InsertAt | backend/user_service.py:173 | the row at each position of an insertion |
| UserService.InsertSorted | backend/user_service.py:173 | inserting into rows in descending order keeps them in descending order |
| UserService.InsertPermutes | backend/user_service.py:173 | insertion adds exactly the one row |
| UserService.InsertStable | backend/user_service.py:173 | insertion keeps the rows of each key in their order, with the new row after those already there |
| UserService.InsertSplit | backend/user_service.py:173 | the rows with a key split at the insertion point |
| UserService.TailHasOtherKeys | backend/user_service.py:173 | in sorted rows, no row from the insertion point on shares the new row's key |
| UserService.TailBelow | backend/user_service.py:173 | in sorted rows, every row from the insertion point on has a smaller key |
| UserService.SortDescSorted | backend/user_service.py:173 | the sorted rows are in non-increasing order of XP |
| UserService.SortDescPermutes | backend/user_service.py:173 | the sorted rows are a permutation of the rows |
| UserService.SortDescStep | backend/user_service.py:173 | sorting one more row inserts it into the sort of the rows before it |
| UserService.SortDescStable | backend/user_service.py:173 | the sort is stable: rows with equal XP keep their order |
| UserService.WithKeyPrefix | backend/user_service.py:177 | the rows with a key in a prefix come first among those of the whole |
| UserService.SliceEnd | backend/user_service.py:177 | `[:limit]` ends at the limit, capped by the length, and a negative limit counts from the end |
| UserService.RankFrom | backend/user_service.py:176-179 | row i gets rank i + 1 |
| UserService.Leaderboard | backend/user_service.py:148-184 | the top rows ranked from 1; stated by `UserService.LeaderboardRanks` and `UserService.LeaderboardHasEveryUser` |
| UserService.LeaderboardRanks | backend/user_service.py:148-181 | at most `limit` rows for a non-negative limit, and never more than decode; ranked 1, 2, and so on, in order |
| UserService.TopRows | backend/user_service.py:148-177 | the decoded rows sorted by XP, highest first and stably, then `[:limit]`; `[]` without a collection or when the keys cannot be compared; stated by `UserService.TopRowsSorted`, `UserService.TopRowsStable` and `UserService.TopRowsAreTop` |
| UserService.TopRowsSorted | backend/user_service.py:151-177 | highest XP first, every row a decoded row of the collection, and all of them when the limit leaves room |
| UserService.SortedPrefix | backend/user_service.py:177 | a prefix of sorted rows is sorted and is drawn from the rows |
| UserService.TopRowsStable | backend/user_service.py:158-177 | rows with equal XP keep the collection's order |
| UserService.TopRowsAreTop | backend/user_service.py:148-177 | the board holds the top users: with a limit that is not negative it has `min(limit, n)` rows, no user left off has more XP than one shown, and it is empty when there is no collection or the keys do not compare |
| UserService.SortedPrefixIsTop | backend/user_service.py:173-177 | in rows sorted by XP, no row after a prefix has more XP than a row of the prefix |
| UserService.DecodeAllHasEvery | backend/user_service.py:155-170 | every listed entry that builds a row is among the decoded rows |
| UserService.LeaderboardHasEveryUser | backend/user_service.py:155-177 | when the listing covers the whole collection and the limit leaves room, every user whose entry builds a row is on the board |
| UserService.UserStore.constructor | backend/user_service.py:20-36 | the cache starts empty over the given collection |
| UserService.UserStore.Lookup | backend/user_service.py:38-61 | the record `get_user` returns: the cached one, else the stored one, else a new stamped default user; `UserService.UserStore.GetUser` returns it and `UserService.UserStore.LookupUnknown` states its defaults |
| UserService.UserStore.LookupUnknown | backend/user_service.py:60-61 | a user found neither in the cache nor in the collection gets a record with the defaults |
| UserService.UserStore.Save | backend/user_service.py:87-107 | the record gets a fresh `updated_at`; it is upserted only when there is a collection and the record has `level` and `xp`, and otherwise the collection is unchanged |
| UserService.UserStore.CreateNewUser | backend/user_service.py:63-85 | the default record is cached and, when there is a collection, saved |
| UserService.UserStore.StoreAfterGet | backend/user_service.py:38-61 | the collection as `get_user` leaves it: unchanged for a known user or without a collection, otherwise with the new default user saved |
| UserService.UserStore.GetUser | backend/user_service.py:38-61 | the cached record, else the stored one, now cached, else a new default user; the collection becomes `StoreAfterGet` |
| UserService.UserStore.UpdateUser | backend/user_service.py:109-118 | the merged record is returned and cached; the collection is as `get_user` left it, with the merged record saved exactly when it can persist; without a collection, or when nothing persists, the collection is unchanged |
| UserService.UserStore.SetCharacter | backend/user_service.py:120-122 | an update of the single key `character`, which then holds the character, with the collection as `update_user` leaves it |
| UserService.UserStore.AddXp | backend/user_service.py:124-133 | xp is raised by the amount, with the KeyError and TypeError cases; the record is cached and saved when the update succeeds, and on a raise the collection is as `get_user` left it |
| UserService.UserStore.UpdateStats | backend/user_service.py:135-146 | a key the record has is raised by the increment, cached and saved; an unknown key or a raise leaves the collection as `get_user` left it |
| UserService.UserStore.IncrementAndSave | backend/user_service.py:139-144 | the increment on the cached record, then caching and saving exactly when it can persist; a raise or a record that cannot persist leaves the collection unchanged |
| UserService.UserStore.CacheAndSave | backend/user_service.py:115-116 | the record is cached and upserted as it is, when it can be persisted |
| UserService.UserStore.GetLeaderboard | backend/user_service.py:148-184 | the board is the leaderboard of the collection, read from a listing that names every entry exactly once |
| UserService.DecodeEntries | backend/user_service.py:157-170 | the loop yields the decoded rows in order, skipping entries that fail |
| UserService.RankTop | backend/user_service.py:176-179 | the rank loop ranks the first m rows from 1 |
| UserService.SortByXp | backend/user_service.py:173 | sorting in place leaves the array equal to the stable descending sort of its old contents |
| UserService.SortStep | backend/user_service.py:173 | after one insertion step, the prefix is the sort of the original prefix one row longer |
| UserService.InsertLeft | backend/user_service.py:173 | the row moves left past the smaller keys before it and lands at its insertion point, and the rest of the array is unchanged |
| UserService.InsertAssembled | backend/user_service.py:173 | rows arranged as the sorted rows with the new row at its insertion point are that insertion |
| UserService.InsertPosIs | backend/user_service.py:173 | in sorted rows, the insertion point is where the last key that is not smaller ends |
| UserService.UpdateTwice | backend/user_service.py:115-116 | a second write to the same key overrides the first |
| UserService.RemoveUpdated | backend/user_service.py:115-116 | writing one key leaves the rest of the map unchanged |

## Left out

- I/O and the platform:
  - the network call of `generateFlashcards` is its outcome (`Api.Response`), and `JSON.parse` is a parameter `parse: string -> Option<Json>`;
  - `localStorage` reads are the `StudyPage.Storage` and `TechniqueSelect.InitialLevel` inputs;
  - `navigate` is a logged route, and `alert` is a counter;
  - `console` output is left out, except the mock `awardXP` line, which `Api.AwardLog` models.
- Imported but not defined in the services module, so each is a parameter or an outcome:
  - `calculateXPWithBonus` is the `xpCalc` parameter; its `hasBonus`, bonus and character name feed only notifications, which are left out;
  - `getUserProgress` is the level passed to `StudyPage.StudyPage.LoadUserLevel`;
  - `generateFlashcardsFromRAG` is `StudyPage.RagOutcome`;
  - `getCharacterTechniqueBackground` is the parameter `bgOf`.
- `getCurrentProgress` returns a constant object and is not called by any modelled code. `startStudySession` only wraps `generateFlashcards` with `Date.now()` stamps. Neither is modelled.
- Timers:
  - `setTimeout` and `setInterval` are left out (XP notifications, the bonus banner, interval cancellation);
  - the classic session's clock is `TimerTick` applied to the milliseconds since the start;
  - the Pomodoro interval is one `Tick` event per second;
  - the one-second delay before `moveToNextCard` is modelled only in what that call sees.
- Rendering, CSS, and the node positions of the mind map, which are floating-point `Math.cos`/`Math.sin` values.
- The `Math.random` shuffle of the multiple-choice options is modelled as "some arrangement": the options must be a permutation of the answer and the three distractors.
- Mind map: `addEdge` from reactflow is modelled as appending the edge; its handling of duplicate edges is not part of this model. The node `label` element and the `selectedNode` display are kept only as the selected node.
- Truthiness of card fields: `c.front || c.question || ""` is modelled for string fields. A truthy non-string field, such as a number, would be passed through as it is; the model takes the next field instead.
- `parseInt` is modelled in base ten only. Hexadecimal prefixes and the digits beyond the safe-integer range are not modelled.
- `Array.from({ length })` with a length above 2^32 − 1, which throws a RangeError, is not modelled.
- `JSON.parse` of the saved character: the model receives the character's `name` directly (`Storage.characterName`). A saved character that does not parse would throw; that case is not modelled.
- Spaced repetition:
  - in the component, the mutated card is the same object as `currentCard` and as the queue entry; the model writes a new value to both, so the aliasing itself is not modelled;
  - the branch where the current card's id is not found cannot be reached, because the current card is always the queue's head (`Valid`); `SpacedRepetition.GradeQueueProperties` states what that branch would do.
- ChromaDB: opening the client and the collection is the `available` flag. The `upsert`, the document text, and the string `level`/`xp` metadata are modelled only as "the entry is replaced". An I/O failure of the collection is not modelled; the only failure modelled is the missing `level` or `xp`.
- `datetime.now()` is one `now` string per call, so the `created_at` and `updated_at` of a new user are equal.
- The truthiness of the collection object is the `available` flag.
- Floating-point values in records are not representable (`PyValue` has integers only). `json.loads` and `json.dumps` are the identity on records.
- ActiveRecall.ActiveRecallSession.HandleSubmitAnswer and StudyBuddy.StudyBuddySession.EditNames: Dafny's `char` is a Unicode code point, so both count string lengths with `Text.Utf16Length`, as JavaScript's `length` and `maxLength` count them. A lone surrogate, which a JavaScript string can hold and a Dafny string cannot, is not modelled.
- Mind map: ReactFlow's `onNodesChange` and `onEdgesChange` handlers, which drag nodes and delete nodes or edges, are not modelled. Dragging changes only positions, which are left out. Deleting a node would break the link between nodes and cards that `Valid` keeps.
- UserService.TopRows: in Python, `sort` compares keys of one type. Rows whose `xp` values are all strings would sort, but the model returns no rows whenever an `xp` is not an int or a bool. Integer, boolean and mixed keys are modelled as in Python: a mix that cannot be compared raises and gives `[]`.
- Aliasing of the dict `get_user` returns: in Python, the caller and `user_cache` share one dict object. The model returns a value and states the cache contents after each call instead.
- Level-up dialog: StudyPage.jsx never shows it. `showLevelUp` starts false (line 24), and its only setter, in `handleContinue` (line 156), writes false; the page never calls `checkLevelUp`, whose mock reports `leveledUp: false` in any case. The model keeps `showLevelUp` false from the constructor on. `StudyPage.StudyPage.HandleContinue` requires the dialog shown, as its button renders only then, so no reachable state enables it. Which event was meant to show the dialog is not evident from the code, so no corrected page is modelled.

## Findings

| source | as written | input that shows it | evidently intended | confidence | as-written member | corrected member |
|---|---|---|---|---|---|---|
| frontend/src/services/api.js:140-142 | `findIndex((t) => currentXP < t) - 1` finds no threshold from 1000 XP on, so the level is -1 - 1 = -2 | `checkLevelUp(1000)` reports level -2, while 999 XP reports level 4 | the number of thresholds reached minus one: level 5 from 1000 XP on, never going down as XP grows | not executed | Api.CheckLevelUpAtTop | Api.LevelOfProperties |
