# Topic Master quiz app — a verified Dafny model of its core

Topic Master is a Next.js study app. A signed-in user takes multiple-choice quizzes, uploads
lecture notes, and follows their progress on a dashboard. This project models the parts of
the app that decide what is computed, shown and stored. It proves those parts against
specifications written in Dafny.

- **Quiz taking** (`components/quiz/QuizTaker.jsx`). A `QuizTaker` class holds the
  component's state: the current question, the answers, the pick, the timers, completion and
  the score.
  - Each handler is a method that keeps one invariant: answer `i` records an answer to
    question `i`, there are at most as many answers as questions, and the answers always
    reach the question shown (at least `currentQuestion` of them).
  - The `currentQuestion` effect is the explicit step `ResetOnIndexChange`.
  - The score, the `m:ss` clock and the progress percentage are functions with round-trip
    and bound lemmas.
- **Progress bar** (`components/ui/progress.tsx`). The clamping of `value` and `max`, and
  the drawn percentage.
- **Quiz service** (`lib/services/quiz.js`). Documents are maps from field names to
  JavaScript values, so an object spread is a map union in which the right side wins. The
  model covers:
  - the coercions applied to fetched sessions and notes, proved idempotent and well-typed;
  - the `JSON.parse(JSON.stringify(...))` sanitising and the defaults merged before saving;
  - the `getQuiz` / `getLectureNote` lookups;
  - the newest-first client-side sorts, done by a stable in-place insertion sort on an array;
  - the cut to 20 sessions.
- **Dashboard** (`app/dashboard/page.jsx`, `components/dashboard/DashboardStats.jsx`):
  - the totals, proved independent of the order of the sessions;
  - the by-subject grouping, a loop proved equal to a reference definition that partitions
    the sessions;
  - the ranking into strongest and weakest subjects, proved to pick the best and worst means;
  - the page's load handler. It runs the plain-object grouping, so a subject such as
    `toString` makes it throw and reset the page. A corrected handler beside it uses the
    dictionary grouping;
  - the `Xh Ym` time display, with a parse-back lemma, the latest score and the fallbacks.
- **Notes** (`components/notes/NotesCard.jsx`, `components/notes/NotesUploader.jsx`). The
  content preview, which can be split back into the kept lines. The upload dialog, as a
  class: the validation order, the record handed to the service (trimmed texts,
  word and character counts), and the form reset.
- **Profile** (`app/profile/page.jsx`). The settings page, as a class. Four handlers, each
  with:
  - a guard function whose contract gives the error precedence;
  - the calls made into the authentication context;
  - the fields cleared afterwards.

The clock, the signed-in user and the settlement of every asynchronous call are parameters.
A rejected call is `Rejected(message)`, and the handler's `catch` branch is modelled on it.
Shared pieces are modules of their own:
- `Util`: options, `Take`, `Sum`;
- `Text`: ECMAScript whitespace, `trim`, `split` on a character and on `/\s+/`, `join`,
  integer rendering and parsing, `padStart`;
- `StableSort`: the ES2019 stable `Array.prototype.sort` with a descending key;
- `Types`: the records of `lib/types.js`.

## Model

| member | source | states |
|---|---|---|
| QuizTaking.ScorePercent | components/quiz/QuizTaker.jsx:89-90 | the score is the integer nearest to 100·correct/total, halves rounded up, and lies in 0..100 |
| QuizTaking.CountCorrectIsRightPicks | components/quiz/QuizTaker.jsx:52-61 | the number of `isCorrect` flags equals the number of positions whose pick is that question's correct option |
| QuizTaking.Store | components/quiz/QuizTaker.jsx:63-64 | writing position `i` of a copy sets entry `i`, keeps every other entry, and grows the array only at its end |
| QuizTaking.FormatTimeRoundTrip | components/quiz/QuizTaker.jsx:39-43 | the `m:ss` clock reads back as the minutes and the seconds of the minute |
| QuizTaking.ProgressPercent | components/quiz/QuizTaker.jsx:207 | the quiz progress is positive and at most 100 |
| QuizTaking.ProgressBarShowsProgress | components/quiz/QuizTaker.jsx:207-234 | the progress bar draws the quiz progress unclamped |
| QuizTaking.QuizTaker.constructor | components/quiz/QuizTaker.jsx:16-22 | the first question, no answers, no pick, timers at zero, not completed |
| QuizTaking.QuizTaker.Tick | components/quiz/QuizTaker.jsx:26-32 | one second is added to the total time, nothing else changes |
| QuizTaking.QuizTaker.Select | components/quiz/QuizTaker.jsx:45-47 | the pick is set, nothing else changes |
| QuizTaking.QuizTaker.ResetOnIndexChange | components/quiz/QuizTaker.jsx:34-37 | the question timer restarts and the pick is cleared |
| QuizTaking.QuizTaker.CompleteQuiz | components/quiz/QuizTaker.jsx:86-111 | without a user nothing happens; otherwise the quiz is completed, with the score of the answers, and the saved session holds the answers, score, question count, time and quiz |
| QuizTaking.QuizTaker.Recorded | components/quiz/QuizTaker.jsx:52-61 | the recorded answer names the shown question, is correct exactly when the pick is its correct option, and holds the whole seconds since the question was shown |
| QuizTaking.QuizTaker.HandleNext | components/quiz/QuizTaker.jsx:49-73 | without a pick nothing changes; otherwise the answer is stored at the current position, then the quiz moves on one question or, on the last one, completes |
| QuizTaking.QuizTaker.HandlePrevious | components/quiz/QuizTaker.jsx:75-84 | at the first question nothing changes; otherwise the index goes back one and the pick is the answer recorded there, which always exists |
| QuizTaking.QuizTaker.Next | components/quiz/QuizTaker.jsx:34-73 | the Next button followed by the index effect: a move clears the pick and restarts the question timer |
| QuizTaking.QuizTaker.Previous | components/quiz/QuizTaker.jsx:34-84 | the Previous button followed by the index effect: after going back nothing is selected |
| QuizTaking.QuizTaker.RestoreOnIndexChange | components/quiz/QuizTaker.jsx:34-37 | corrected effect: the timer restarts and the pick recorded at the new position is shown |
| QuizTaking.QuizTaker.PreviousRestoring | components/quiz/QuizTaker.jsx:75-84 | corrected Previous: after going back, the answer recorded for that question is selected |
| QuizTaking.BackAfterAnswering | components/quiz/QuizTaker.jsx:75-84 | answering, then Next, then Previous, leaves nothing selected although option 0 was recorded |
| QuizTaking.BackAfterAnsweringRestored | components/quiz/QuizTaker.jsx:75-84 | the same steps with the corrected Previous show option 0 again |
| ProgressBar.SafeMax | components/ui/progress.tsx:16-18 | `max` when it is a positive number, 100 otherwise or when absent |
| ProgressBar.SafeValue | components/ui/progress.tsx:21-23 | the value clamped to `[0, safeMax]`; 0 for a missing, NaN or non-numeric value |
| ProgressBar.Percentage | components/ui/progress.tsx:26 | the width lies in `[0, 100]` and is proportional to the clamped value |
| QuizService.OrNow | lib/services/quiz.js:121 | a truthy value is kept, any other becomes the current time |
| QuizService.NumberOrZero | lib/services/quiz.js:123 | a number is kept, any other value becomes 0 |
| QuizService.StringOr | lib/services/quiz.js:206-210 | a string is kept, any other value becomes the fallback |
| QuizService.WithId | lib/services/quiz.js:53-56 | the document gains an `id`, its own `id` field winning, and keeps every field |
| QuizService.QuizRecord | lib/services/quiz.js:18-21 | the saved quiz is the quiz with `createdAt` set to now, every other field kept |
| QuizService.GetQuiz | lib/services/quiz.js:29-42 | a rejected read throws 'Failed to get quiz', a missing document gives null, an existing one the document with its id |
| QuizService.SavedQuizReadBack | lib/services/quiz.js:16-42 | a saved quiz read back carries its id, its save time and every other field as saved |
| QuizService.NormaliseSession | lib/services/quiz.js:114-127 | the fields of a normalised session are the document's plus `id`, `completedAt`, `timeSpent`, `score` |
| QuizService.NormaliseSessionFields | lib/services/quiz.js:117-126 | `score` and `timeSpent` are kept when numbers and otherwise 0; `completedAt` is kept when truthy and otherwise now |
| QuizService.NormaliseSessionKeeps | lib/services/quiz.js:119 | every other field of the document is kept |
| QuizService.NormaliseSessionWellTyped | lib/services/quiz.js:114-127 | a normalised session has a numeric score and time and a truthy date |
| QuizService.NormaliseSessionIdempotent | lib/services/quiz.js:114-127 | normalising a normalised session changes nothing, at any later time |
| QuizService.NormaliseNote | lib/services/quiz.js:193-212 | the fields of a normalised note are the document's, plus `id` and the six coerced fields |
| QuizService.NormaliseNoteCounts | lib/services/quiz.js:197-204 | the counts are kept when numbers and otherwise 0; `uploadedAt` is kept when truthy and otherwise now |
| QuizService.NormaliseNoteTexts | lib/services/quiz.js:205-210 | content, title and subject are kept when strings, else '', 'Untitled Notes', 'General' |
| QuizService.NormaliseNoteKeeps | lib/services/quiz.js:198 | every other field of the document is kept |
| QuizService.NormaliseNoteWellTyped | lib/services/quiz.js:193-212 | a normalised note has numeric counts, string texts and a truthy date |
| QuizService.NormaliseNoteIdempotent | lib/services/quiz.js:193-212 | normalising a normalised note changes nothing |
| QuizService.GetLectureNote | lib/services/quiz.js:235-268 | a rejected read throws 'Failed to get lecture note', a missing document gives null, an existing one the normalised, well-typed note |
| QuizService.SanitizeCleans | lib/services/quiz.js:76 | after the JSON round trip no `undefined` is left anywhere |
| QuizService.SanitizeKeepsClean | lib/services/quiz.js:155 | a value without `undefined` passes the JSON round trip unchanged |
| QuizService.SanitizeIdempotent | lib/services/quiz.js:76 | a second JSON round trip changes nothing |
| QuizService.WithDefaults | lib/services/quiz.js:79-88 | the merged record has every default field and every defined field of the record, sanitised, a defined field winning over its default |
| QuizService.WithDefaultsClean | lib/services/quiz.js:76-88 | the merged record holds no `undefined`, and merging it again changes nothing |
| QuizService.SessionWithDefaultsSpec | lib/services/quiz.js:79-88 | a saved session has all seven required fields, with the given value or else its default |
| QuizService.NotesWithDefaultsSpec | lib/services/quiz.js:158-167 | saved notes have all seven required fields, with the given value or else its default |
| QuizService.SortNewestFirst | lib/services/quiz.js:130-139 | the in-place sort yields the stable descending order by date |
| QuizService.NewestFirstPrefix | lib/services/quiz.js:130-142 | the first `n` after the sort are sorted, drawn from the input, all of it when it is short, and none older than one dropped |
| QuizService.GetUserQuizSessions | lib/services/quiz.js:101-148 | a failed query gives []; otherwise the normalised sessions newest first, cut to 20 |
| QuizService.QuizSessionsSpec | lib/services/quiz.js:114-142 | at most 20 sessions, newest first, all well-typed, all of them when there are at most 20, and none older than a session left out |
| QuizService.GetUserLectureNotes | lib/services/quiz.js:180-233 | a failed query gives []; otherwise the normalised notes newest first |
| QuizService.LectureNotesSpec | lib/services/quiz.js:193-227 | the notes are a permutation of those fetched, newest first, all well-typed |
| QuizService.QuizzesWithIds | lib/services/quiz.js:53-56 | every fetched quiz, in order, with its id |
| QuizService.GetUserQuizzes | lib/services/quiz.js:44-69 | a failed query gives []; otherwise the quizzes with their ids, newest first |
| QuizService.UserQuizzesSpec | lib/services/quiz.js:59-63 | the quizzes are a permutation of those fetched, newest first, quizzes of equal date keeping fetch order |
| StableSort.SortInPlace | app/dashboard/page.jsx:83 | the array is rearranged into the stable descending order of its keys |
| StableSort.SortDescSorted | app/dashboard/page.jsx:83 | the sorted sequence is in non-increasing key order |
| StableSort.SortDescPermutes | app/dashboard/page.jsx:83 | sorting is a permutation |
| StableSort.SortDescStable | app/dashboard/page.jsx:83 | entries of equal key keep their relative order |
| Dashboard.SubjectOf | app/dashboard/page.jsx:71 | the quiz's subject, or 'Unknown' when the quiz or its subject is missing, never empty |
| Dashboard.Mean | app/dashboard/page.jsx:62-64 | 0 for no sessions, otherwise the value whose product with the count is the sum |
| Dashboard.MeanBounds | app/dashboard/page.jsx:62-64 | the mean of values within bounds lies within them |
| Dashboard.TotalsIgnoreOrder | app/dashboard/page.jsx:61-65 | the count, the average score and the total time do not depend on the order of the sessions |
| Dashboard.SubjectsDistinct | app/dashboard/page.jsx:69-76 | each subject is grouped once |
| Dashboard.SubjectsAreGroups | app/dashboard/page.jsx:69-76 | a subject is grouped exactly when some session has it, and then its group is non-empty |
| Dashboard.ScoreInOwnGroup | app/dashboard/page.jsx:69-76 | every session's score lands in its own subject's group |
| Dashboard.GroupsPartition | app/dashboard/page.jsx:69-76 | the group sizes add up to the number of sessions |
| Dashboard.GroupBySubject | app/dashboard/page.jsx:69-76 | the grouping loop yields the subjects in first-seen order and, for each, the scores of its sessions in order |
| Dashboard.GroupAsWrittenAgrees | app/dashboard/page.jsx:69-76 | when the plain-object grouping does not throw, it equals the reference grouping |
| Dashboard.GroupAsWrittenThrows | app/dashboard/page.jsx:72-75 | the plain-object grouping throws exactly when some subject names an `Object.prototype` member |
| Dashboard.GroupOnPlainObject | app/dashboard/page.jsx:69-76 | the page's `forEach` loop on the plain object throws exactly when the plain-object grouping does; otherwise it yields the subjects in first-seen order, each with the scores of its sessions |
| Dashboard.PrototypeSubjectBreaksDashboard | app/dashboard/page.jsx:69-76 | one session of subject 'toString' makes the grouping throw, though as a group it is well defined |
| Dashboard.Names | app/dashboard/page.jsx:84-85 | the subjects of the ranked entries, in order |
| Dashboard.RankedSorted | app/dashboard/page.jsx:83 | the ranking is in non-increasing mean order and a permutation of the subject averages |
| Dashboard.RankedEntries | app/dashboard/page.jsx:78-83 | the ranking holds one entry per subject, each with the mean of that subject's scores |
| Dashboard.StrongestAreBest | app/dashboard/page.jsx:83-84 | a strongest subject's mean is at least that of any subject left out |
| Dashboard.WeakestAreWorst | app/dashboard/page.jsx:83-85 | a weakest subject's mean is at most that of any subject left out |
| Dashboard.StrongestWeakestSize | app/dashboard/page.jsx:84-85 | both lists hold min(3, subjects) names, and are empty only without sessions |
| Dashboard.WeakestAscending | app/dashboard/page.jsx:85 | the weakest list starts with the lowest mean |
| Dashboard.FewSubjectsMirror | app/dashboard/page.jsx:84-85 | with at most three subjects, weakest is strongest reversed |
| Dashboard.StatsFromGroups | app/dashboard/page.jsx:78-94 | from the subjects and their groups, the stats are the count, the mean score, the total time, the two ranked subject lists and the first ten scores |
| Dashboard.ComputeStats | app/dashboard/page.jsx:61-94 | the computation throws exactly when a subject names an inherited member; otherwise the stats are the count, the mean score, the total time, the two subject lists and the first ten scores |
| Dashboard.ComputeStatsCorrected | app/dashboard/page.jsx:61-94 | with the dictionary grouping, the same stats for every list of sessions |
| Dashboard.DashboardPage.constructor | app/dashboard/page.jsx:19-28 | empty stats, no sessions, loading |
| Dashboard.DashboardPage.LoadDashboardData | app/dashboard/page.jsx:53-110 | no user: no change; a subject naming an inherited member: the `catch` sets empty stats and no sessions; otherwise the first five sessions and the computed stats; loading ends |
| Dashboard.DashboardPage.LoadDashboardDataCorrected | app/dashboard/page.jsx:53-110 | with the dictionary grouping, a signed-in user always gets the first five sessions and the computed stats; loading ends |
| Dashboard.PrototypeSubjectResetsPage | app/dashboard/page.jsx:69-106 | one finished quiz of subject 'toString' leaves the page with the reset stats and no recent sessions |
| Dashboard.PrototypeSubjectCounted | app/dashboard/page.jsx:61-94 | on the corrected page the same quiz is counted, its score shown as the average and the latest, and the session listed |
| DashboardStats.FormatTimeSpentRoundTrip | components/dashboard/DashboardStats.jsx:8-18 | the shown time reads back as the whole minutes of the total; `h*60 + m mod 60` is those minutes |
| DashboardStats.HourFormFromOneHour | components/dashboard/DashboardStats.jsx:11-17 | the hour form is used exactly from 3600 seconds on |
| DashboardStats.HourFormRoundTrip | components/dashboard/DashboardStats.jsx:14-15 | `Xh Ym` reads back as X·60+Y minutes |
| DashboardStats.MinuteFormRoundTrip | components/dashboard/DashboardStats.jsx:17 | `Ym` reads back as Y minutes |
| DashboardStats.GetLatestScore | components/dashboard/DashboardStats.jsx:21-26 | 0 for missing or empty performance, otherwise the first score |
| DashboardStats.LatestScoreIsFirstSession | components/dashboard/DashboardStats.jsx:21-26 | on the dashboard the latest score is that of the first session, 0 without sessions |
| DashboardStats.ShownTotal | components/dashboard/DashboardStats.jsx:36 | a missing total shows as 0 |
| DashboardStats.Round | components/dashboard/DashboardStats.jsx:49 | the nearest integer, halves rounded up |
| DashboardStats.ShownAverageBounds | components/dashboard/DashboardStats.jsx:49 | a shown average in 0..100 is at most half a point off |
| DashboardStats.ShownAverageOfSessions | components/dashboard/DashboardStats.jsx:49 | with scores in 0..100 the shown average is in 0..100 |
| NotesCard.KeptLines | components/notes/NotesCard.jsx:37 | exactly the lines that are not blank are kept, untrimmed |
| NotesCard.KeptLinesConcat | components/notes/NotesCard.jsx:37 | filtering goes line by line and keeps order |
| NotesCard.NoteLinesHaveNoBreak | components/notes/NotesCard.jsx:37 | a kept line holds no line break and is not blank |
| NotesCard.EmptyPreview | components/notes/NotesCard.jsx:36 | missing, empty or all-blank content previews as '' |
| NotesCard.ShortPreview | components/notes/NotesCard.jsx:37-39 | with 1 to 3 kept lines the preview splits back into exactly those lines |
| NotesCard.LongPreview | components/notes/NotesCard.jsx:38-39 | with more than 3 kept lines the preview ends with '...' and before it splits back into the first three |
| NotesUploading.SubmitError | components/notes/NotesUploader.jsx:56-64 | a blank title gives the title error, checked first; then a blank content gives the content error; otherwise no error |
| NotesUploading.NotesDataTrimmed | components/notes/NotesUploader.jsx:71-76 | the saved title and content are trimmed, with the user and the time |
| NotesUploading.NotesDataSubject | components/notes/NotesUploader.jsx:73 | the subject is the trimmed subject, or 'General' when it is blank |
| NotesUploading.NotesDataCounts | components/notes/NotesUploader.jsx:77-78 | the character count is the trimmed length; the word count is the number of words of the trimmed content (characters that start a run of non-whitespace), at least one, and these words are non-empty, whitespace-free and hold all its text |
| Text.SplitWhitespaceCountsWords | components/notes/NotesUploader.jsx:77 | on trimmed non-empty text, `split(/\s+/)` gives exactly one piece per word |
| NotesUploading.NotesUploader.constructor | components/notes/NotesUploader.jsx:14-18 | empty fields, no error, not uploading |
| NotesUploading.NotesUploader.ResetForm | components/notes/NotesUploader.jsx:28-33 | title, subject, content and error are cleared, nothing else changes |
| NotesUploading.NotesUploader.HandleFileUpload | components/notes/NotesUploader.jsx:35-50 | a text file's non-empty text becomes the content; another type sets the file-type error |
| NotesUploading.NotesUploader.HandleSubmit | components/notes/NotesUploader.jsx:52-99 | no user: no change; a validation error: it is shown and nothing is saved; otherwise the notes record is saved, then on success the form is reset and closed, on failure the error is shown; uploading ends |
| NotesUploading.NotesUploader.SaveNotes | components/notes/NotesUploader.jsx:69-98 | the record is handed over; success resets and closes, failure shows the message or 'Failed to save notes' |
| Profile.EmailUpdateError | app/profile/page.jsx:103-106 | an empty current password is refused with its message |
| Profile.PasswordChangeError | app/profile/page.jsx:130-138 | no error exactly for a password of 6 or more characters equal to its confirmation; the length error wins |
| Profile.DeleteAccountError | app/profile/page.jsx:166-169 | an empty confirm password is refused with its message |
| Profile.ProfilePage.constructor | app/profile/page.jsx:30-45 | empty fields, no flags set, no error |
| Profile.ProfilePage.HandlePhotoChange | app/profile/page.jsx:60-70 | a picked file replaces the stored one |
| Profile.ProfilePage.HandleProfileUpdate | app/profile/page.jsx:72-97 | the error is cleared and the update called; success clears the photo, failure shows the message or the fallback; updating ends |
| Profile.ProfilePage.HandleEmailUpdate | app/profile/page.jsx:99-124 | without a current password only the error is set and no call is made; otherwise the call is made, success clears the password, failure shows the error |
| Profile.ProfilePage.HandlePasswordChange | app/profile/page.jsx:126-160 | a guard error is shown and no call made; otherwise the call is made and success clears all three password fields |
| Profile.ProfilePage.HandleDeleteAccount | app/profile/page.jsx:162-187 | without a password only the error is set; otherwise the call is made, success navigates home with `isDeleting` still set, failure resets it |

## Left out

- Firestore, Storage and the authentication context are left out: the queries, `addDoc`, `deleteDoc`, `deleteLectureNote` and the auth calls themselves. What they resolve to is a parameter. `lib/services/quiz.ts`, `contexts/AuthContext.jsx` and the other pages are not part of this model.
- The rejections of `saveQuiz`, `saveQuizSession` and `saveLectureNotes` ('Failed to save …') are not modelled; only the records they build are (`QuizRecord`, `SessionWithDefaults`, `NotesWithDefaults`).
- Rendering, toasts, console logging and routing are left out. The exceptions are the redirect after account deletion and the states the handlers set.
- Also left out:
  - the login-redirect effects of the dashboard and profile pages;
  - the profile page's loading of `displayName` / `email` from the user;
  - the photo preview;
  - the delete-confirmation dialog;
  - `formatDate` and the delete and create-quiz buttons of the notes card.
- Timers and `FileReader` loads are folded into single calls (`Tick`, `HandleFileUpload`, `HandlePhotoChange`). The intermediate `isUploading` / `isUpdating` = true states during an `await` cannot be observed in the model.
- NotesUploading.NotesUploader.HandleSubmit: `onSuccess` and `onClose` are taken to be supplied. `closed` records that both were called. The `isOpen` effect that resets the form is the method `ResetForm`.
- JavaScript numbers are modelled as integers where the app stores counts, scores and times, and as exact reals for averages and percentages. Floating-point rounding, infinities and NaN arithmetic are not modelled.
- DashboardStats.Round: this is `Math.round` on exact reals.
- `Date` values are integer timestamps (`Time`).
- QuizService.DateKey: a missing date (`Undefined`) and a string, array or object date all sort as instant 0. In the source, `new Date(x)` parses a string and gives NaN for the others. It also gives NaN for a missing date, which `getUserQuizzes` can meet, because it does not fill in `createdAt`. `sort` treats a NaN comparator result as 0, so such an entry counts as equal to every other, where the model places it as of instant 0. The comparator's `catch` branch is never taken.
- QuizService.Sanitize: a `Date` stays a `Time` rather than becoming an ISO string, since its string reads back as the same instant.
- Dashboard.DashboardPage.LoadDashboardData: a rejection of `getUserQuizSessions` is not modelled, because that call turns its own failures into `[]` (lib/services/quiz.js:143-147). The page's `catch` is reached through the grouping only.
- Dashboard.Subjects: subjects are kept in first-seen order. `Object.entries` lists integer-like keys such as "2" first, in ascending order, which only changes the order of ties in the ranking.
- Profile.PasswordChangeError: a password's length is counted in characters, not UTF-16 code units. The same holds for `characterCount` in NotesUploading.NotesDataCounts.
- QuizTaking.ScorePercent: for a quiz without questions the code would compute NaN, and the model gives 0. The component cannot reach that case, because it reads `quiz.questions[0]` while rendering.

## Findings

| source | as written | input that shows it | evidently intended | confidence | as-written member | corrected member |
|---|---|---|---|---|---|---|
| app/dashboard/page.jsx:69-76 | subjects are keys of a plain object `{}`, so a subject naming an `Object.prototype` member finds the inherited member, `.push` is not a function, and the `catch` resets the whole dashboard to empty stats | one finished quiz whose subject is 'toString' (also 'constructor', '\_\_proto\_\_', …) | every subject gets its own list of scores (a `Map` or `Object.create(null)`) | not executed | Dashboard.PrototypeSubjectResetsPage | Dashboard.DashboardPage.LoadDashboardDataCorrected |
| components/quiz/QuizTaker.jsx:75-84 | `handlePrevious` restores the earlier pick, but it also changes `currentQuestion`, so the effect at lines 34-37 runs after the render and clears the pick again | answer question 1, press Next, press Previous | the answer recorded for the question returned to is shown selected | not executed | QuizTaking.BackAfterAnswering | QuizTaking.QuizTaker.PreviousRestoring |
