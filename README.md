# Knighthoot live quiz — a Dafny model

Knighthoot is a live classroom quiz. A teacher registers, builds a quiz, and starts it; students answer on their phones. The server keeps one Scores document per (student, test) with a count of right and wrong answers. This project models the parts of the system with a precise meaning and proves properties of them:

- **Score ledger** (`scores.dfy`, `score_search.dfy`, `live_protocol.dfy`):
  - the Scores collection as a table of (SID, testID, correct, incorrect);
  - the single-counter update of `handleSubmitQuestion`;
  - the filter of `handleSearchScoresByTest`;
  - the catch-up rule run when the teacher moves to the next question.

  A replay of answer and advance events proves the rule's stated purpose: the number of moves is the source of truth for how many questions each student has an outcome for.
- **Accounts** (`accounts.dfy`): `/api/register` (validation, fresh ID, uniqueness per collection, one insert) and `/api/login` (teachers first, then students).
- **Host screen** (`host_quiz.dfy`):
  - the field pickers and the teacher-ID lookup;
  - the start-or-resume decision and the handling of the next-question reply;
  - the countdown and the progress label;
  - a `HostScreen` class holding the state those steps set.
- **Quiz authoring** (`create_quiz.dfy`, `edit_quiz.dfy`, `lists.dfy`): the list editors, the validator with its first-failure report, and the payloads of the save and update requests.
- **Quiz list** (`my_quizzes.dfy`): the search filter followed by one of four orderings.

`wrappers.dfy` holds `Option`. `js.dfy` models the JavaScript semantics the code relies on:

- truthiness and `??`;
- `Number(...)` conversion and array indexing by a number;
- `trim`, ASCII `toLowerCase` and `includes`;
- decimal rendering.

The `/api/nextquestion` handler (server.js:197-213) has no body beyond reading its request. Its comment describes the catch-up rule, and `Scores.ScoreTable.NextQuestion` models that rule as the comment states it. A record of the test whose right and wrong answers add up to less than n - 1 gets one more wrong answer. That is one per move, not a top-up of the whole deficit. `Scores.CatchUpClosesOneQuestion` shows the difference.

## Model

| member | source | states |
|---|---|---|
| Scores.FirstMatch | api/submitQuestion.js:8-9 | the document `updateOne` selects is the first one matching {SID, testID}; none when nothing matches |
| Scores.Submitted | api/submitQuestion.js:7-17 | only the first matching document changes; `correct` +1 when the answer is right, otherwise `incorrect` +1; its total grows by exactly 1; no match leaves the table as it was (no upsert); keys never change |
| Scores.SubmitOnlyOwnRecord | api/submitQuestion.js:8-16 | with one document per (student, test), a document changes if and only if it is the submitting student's document for that test |
| Scores.ScoreTable.SubmitQuestion | api/submitQuestion.js:3-25 | the table becomes `Submitted(old table)`; the reply is always 200 "question submitted" |
| Scores.CatchUp | server.js:209-211 | no document added or removed; `correct` never changes; `incorrect` grows by one exactly for documents of the test whose total is below n - 1 |
| Scores.CatchUpPointwise | server.js:209-211 | the rule acts on each document on its own: the k-th document afterwards is the k-th document caught up |
| Scores.ScoreTable.NextQuestion | server.js:197-213 | the loop over the documents leaves the table equal to `CatchUp(old table, testID, n)` |
| Scores.CatchUpWorkedExample | server.js:209-210 | moving to question 2: (1,0) and (0,1) stay, (0,0) becomes (0,1) |
| Scores.CatchUpSynchronises | server.js:211 | if every document of the test has at least n - 2 outcomes before the move to question n, afterwards each has at least n - 1, and exactly n - 1 if it had at most n - 1 |
| Scores.CatchUpRetry | server.js:209-211 | under the same precondition a repeated move to the same question changes nothing more |
| Scores.CatchUpClosesOneQuestion | server.js:209 | a document two questions behind gets one wrong answer, not two, and is still behind |
| LiveProtocol.StepKeepsInStep | server.js:204-211 | one answer (once per student per question) or one move keeps every document's total equal to the questions passed plus the current answer |
| LiveProtocol.RunKeepsInStep | server.js:204-211 | any run of answers and moves respecting one answer per question keeps that invariant, and the question number is 1 plus the number of moves |
| LiveProtocol.AdvanceCountIsTruth | server.js:211 | from all-zero documents, after a run ending in a move, every document of the test has an outcome for exactly as many questions as there were moves |
| LiveProtocol.RunSplit | server.js:204-211 | replaying a run and then one more event equals one step after the replay |
| ScoreSearch.OfTest | api/searchScoresByTest.js:17 | the result holds every document whose testID equals the key as often as the table holds it, and no other document |
| ScoreSearch.SearchScoresByTest | api/searchScoresByTest.js:3-30 | 400 with its message if and only if the parameter is absent or empty; 500 if and only if the query fails; otherwise 200 with every document whose testID is the string parameter, each as often as the table holds it, never numeric ones |
| ScoreSearch.NoScoresIsEmptyList | api/searchScoresByTest.js:19-22 | a test with no documents gives 200 and an empty list |
| ScoreSearch.OfTestNone | api/searchScoresByTest.js:17 | the filter finds nothing when no document carries the test ID |
| Accounts.NextId | server.js:144-150 | 1 for an empty collection, otherwise one more than the largest ID; above every existing ID |
| Accounts.Matching | server.js:98-103 | the login query returns a document if and only if it has that username and password |
| Accounts.MatchingCounts | server.js:98-103 | every matching document is returned as often as the collection holds it, and no other |
| Accounts.MatchingCons | server.js:98-103 | a document in front of the collection is kept exactly when it has the credentials |
| Accounts.MatchingAppend | server.js:98-103 | the result for two collections end to end is the result for the first followed by the result for the second |
| Accounts.MatchingAt | server.js:98-116 | a matching document at position i is element k of the result, where k counts the matches before i; so `results[k]` is the (k+1)-th match |
| Accounts.FirstWithCredentials | server.js:98-103 | the position of the first document with those credentials, or none when no document has them |
| Accounts.MatchingHead | server.js:98-103 | the query result is empty exactly when no document matches, and its head is the first matching document |
| Accounts.UserStore.Register | server.js:121-179 | non-boolean isTeacher gives 400 and nothing changes. A missing field gives 400. A store failure gives 500. A taken username or email in the chosen collection gives 400. Otherwise 201: exactly one user with the fresh ID is appended to the chosen collection and the other collection is unchanged. The reply carries the user without the password. |
| Accounts.UserStore.Login | server.js:69-119 | always 200 with empty error; the first matching teacher's id, names and email, else the first matching student's, else -1 and empty strings |
| Accounts.LoginAsWritten | server.js:105-118 | the handler as written: always 200; -1 and empty strings with no match |
| Accounts.LoginAsWrittenReturnsDocument | server.js:110-116 | as written, a teacher logging in gets the whole document (password included; Mongo's `_id` is not modelled) as `id` and no names or email |
| HostQuiz.FirstPresent | frontend/src/pages/HostQuiz.tsx:26 | the position of the first key whose property is neither null nor undefined |
| HostQuiz.ChainIsFirstPresent | frontend/src/pages/HostQuiz.tsx:26 | a `??` chain yields the property at that first present key, or a nullish value when none is present |
| HostQuiz.PickQuestionText | frontend/src/pages/HostQuiz.tsx:24-28 | "" for a falsy source; otherwise the first present of question, Question, prompt, text, title if it is a string, else "" |
| HostQuiz.PickOptions | frontend/src/pages/HostQuiz.tsx:30-34 | [] for a falsy source; otherwise the first present of options, Options, choices, Choices if it is an array, else [] |
| HostQuiz.FirstUsable | frontend/src/pages/HostQuiz.tsx:38-41 | the first key in order whose stored value is non-empty and converts to a number |
| HostQuiz.GetTidRobust | frontend/src/pages/HostQuiz.tsx:35-52 | a non-NaN ID from the page wins; otherwise the first usable stored key in the order TID, teacherId, ID, id; never NaN |
| HostQuiz.ResumeAt | frontend/src/pages/HostQuiz.tsx:129-135 | resuming shows the question at the preflight index, which is in range |
| HostQuiz.StartOrResume | frontend/src/pages/HostQuiz.tsx:93-187 | an unusable teacher ID fails before any request; a failed or thrown preflight fails with its error and no total. With a preflight the total is its question count. A live test resumes at its index when that index can be shown and otherwise goes to review. For a test that is not live the start is sent: an "already live" 400 with a showable index resumes there, any other failure reports the start error. A successful start shows the picked text and options (start reply first, then the first stored question), or fails with no usable question. Start is called exactly when the ID is usable, the preflight succeeded and the test is not live. |
| HostQuiz.LiveGameNeverRestarted | frontend/src/pages/HostQuiz.tsx:127-141 | for a live test, start is never called and the outcome is resume, review or a missing-ID error |
| HostQuiz.StartOrResumeAsWritten | frontend/src/pages/HostQuiz.tsx:169-182 | as written: after a successful start with a non-null reply the shown question is the reply's raw `question` and `options`; a `null` reply throws when `question` is read and the exception is reported; otherwise the same as the intended handler |
| HostQuiz.StartOrResumeAsWrittenNullReply | frontend/src/pages/HostQuiz.tsx:169-182 | a `null` start reply with a usable first stored question: the intended handler starts on that question, the handler as written reports the `TypeError` |
| HostQuiz.StartOrResumeAsWrittenDropsPrompt | frontend/src/pages/HostQuiz.tsx:170-178 | a start reply carrying its text under `prompt` passes the check, yet as written no question text is shown |
| HostQuiz.GoNext | frontend/src/pages/HostQuiz.tsx:220-284 | an unusable teacher ID fails first. A thrown or failed advance, a missing or NaN index and a thrown or failed read each fail with their own error. `gameFinished` goes to review, and only that goes to review. A truthy question at the returned index is shown: it is the one at that index of the re-read test, below the new total; a falsy one is reported as not found. |
| HostQuiz.GoNextMissingQuestion | frontend/src/pages/HostQuiz.tsx:267-272 | an index with no question in the test is an error naming that index |
| HostQuiz.CountdownAdvancesOnce | frontend/src/pages/HostQuiz.tsx:204-217 | from t, the countdown asks for the next question exactly once, at firing max(t, 1), then stops; before that the time left is t - k |
| HostQuiz.ProgressLabel | frontend/src/pages/HostQuiz.tsx:286-289 | the label is "Question ", the question counted from 1, " of " and the total, with "?" for a total of 0; it ends in "?" exactly when the total is 0 |
| HostQuiz.ProgressLabelDigits | frontend/src/pages/HostQuiz.tsx:286-289 | the digit run after "Question " is the question number and the digit run at the end is the total, none for a total of 0 |
| HostQuiz.ProgressLabelReadsBack | frontend/src/pages/HostQuiz.tsx:286-289 | reading the label back with `Number` gives the question counted from 1 and the total |
| HostQuiz.HostScreen.Tick | frontend/src/pages/HostQuiz.tsx:207-215 | above 1 the time drops by one; at 1 or below it becomes 0, the timer stops and one advance is asked for |
| HostQuiz.HostScreen.ResetTimer | frontend/src/pages/HostQuiz.tsx:204-206 | the timer runs again from the time per question; nothing else changes |
| HostQuiz.HostScreen.ApplyStartOrResume | frontend/src/pages/HostQuiz.tsx:94-183 | the error is cleared and then set on failure. On failure or review the question, its index and the timer stay as they were. Resume and start show the question at its index and restart the timer. Review is entered only for the review outcome. |
| HostQuiz.HostScreen.ApplyNext | frontend/src/pages/HostQuiz.tsx:221-280 | any failure sets the error; failure and review leave question, index and total unchanged; only a shown question touches the timer, setting all three and restarting it |
| HostQuiz.HostScreen.Label | frontend/src/pages/HostQuiz.tsx:286-289 | the screen's label is the progress label of its index and total, and its numbers read back as those two |
| CreateQuiz.SetQuestionField | frontend/src/pages/pages/CreateQuizPage.tsx:72-79 | a non-empty text clears the image and a non-empty image clears the text; an empty value sets only its field; other questions, options and answer unchanged |
| CreateQuiz.SetOptionField | frontend/src/pages/pages/CreateQuizPage.tsx:87-98 | the same exclusivity for option j of question i; every other option and question unchanged |
| CreateQuiz.EditorsKeepExclusive | frontend/src/pages/pages/CreateQuizPage.tsx:72-98 | neither editor ever produces a question or option with both text and image |
| CreateQuiz.SetAnswer | frontend/src/pages/pages/CreateQuizPage.tsx:106-108 | only question qIdx's answer changes, to aIdx |
| CreateQuiz.ResizedOptions | frontend/src/pages/pages/CreateQuizPage.tsx:113-114 | exactly `count` options: the existing ones first, padded with empty ones |
| CreateQuiz.ToggleOptionCount | frontend/src/pages/pages/CreateQuizPage.tsx:110-118 | question qIdx gets exactly `count` options, existing ones kept in place, answer min(answer, count - 1), so a non-negative answer stays in range; others unchanged |
| CreateQuiz.AddQuestion | frontend/src/pages/pages/CreateQuizPage.tsx:120-122 | the list grows by one blank question with two empty options and answer 0 |
| CreateQuiz.RemoveQuestion | frontend/src/pages/pages/CreateQuizPage.tsx:124-126 | the only question is never removed; otherwise exactly index idx is removed, the rest kept in order |
| CreateQuiz.BlankIsTrimmedAway | frontend/src/pages/pages/CreateQuizPage.tsx:129-138 | a string is blank exactly when its trim is empty |
| CreateQuiz.ChoicesFault | frontend/src/pages/pages/CreateQuizPage.tsx:136-141 | an option fault names question i and an option from j on |
| CreateQuiz.ChoicesFaultSpec | frontend/src/pages/pages/CreateQuizPage.tsx:136-141 | no fault exactly when every option from j on is valid; a fault names the first invalid option |
| CreateQuiz.QuestionFaultSpec | frontend/src/pages/pages/CreateQuizPage.tsx:131-143 | a question passes its checks exactly when it is valid |
| CreateQuiz.QuestionsFaultSpec | frontend/src/pages/pages/CreateQuizPage.tsx:130-144 | no fault exactly when every question from i on is valid; a fault names the first invalid question |
| CreateQuiz.FirstFaultSpec | frontend/src/pages/pages/CreateQuizPage.tsx:128-146 | no report exactly when the test ID is non-blank and every question and option is valid; a report names the first invalid question |
| CreateQuiz.ThreeOptionsAccepted | frontend/src/pages/pages/CreateQuizPage.tsx:135 | a question with three options is accepted |
| CreateQuiz.Validate | frontend/src/pages/pages/CreateQuizPage.tsx:128-146 | the message of the first failing check, none exactly for a valid quiz; a message is never empty, so the save stops exactly on an invalid quiz |
| CreateQuiz.FindFault | frontend/src/pages/pages/CreateQuizPage.tsx:129-145 | the loops return exactly the first-fault report, and nothing exactly for a valid quiz |
| CreateQuiz.Message | frontend/src/pages/pages/CreateQuizPage.tsx:129-143 | never empty; the test-ID message exactly for a missing test ID, every other one starts with "Question " and the question number |
| CreateQuiz.MessageNamesQuestion | frontend/src/pages/pages/CreateQuizPage.tsx:133-143 | the number after "Question " reads back as the failing question counted from 1 |
| CreateQuiz.TailInjective | frontend/src/pages/pages/CreateQuizPage.tsx:133-143 | for one question, different checks or options give different message endings |
| CreateQuiz.MessageInjective | frontend/src/pages/pages/CreateQuizPage.tsx:129-143 | no two errors share a message: the message determines which check failed, on which question and option |
| CreateQuiz.TrimOrUndefined | frontend/src/pages/pages/CreateQuizPage.tsx:157-161 | undefined exactly for a blank string, otherwise its non-empty trim |
| CreateQuiz.TeacherId | frontend/src/pages/pages/CreateQuizPage.tsx:54-57 | 0 without a stored user; the stored `id` when it is not nullish, else the stored `TID` when that is not nullish, else 0; never nullish |
| CreateQuiz.PayloadTid | frontend/src/pages/pages/CreateQuizPage.tsx:154 | the converted teacher ID, or 0 when it converts to 0 or NaN; never NaN |
| CreateQuiz.SavePayload | frontend/src/pages/pages/CreateQuizPage.tsx:153-165 | trimmed test ID; one payload question per question in order, each string trimmed or left out |
| CreateQuiz.ValidQuizSavesOneOfEach | frontend/src/pages/pages/CreateQuizPage.tsx:128-165 | a quiz the validator accepts is saved with exactly one of text and image on every question and option |
| EditQuiz.LoadQuestion | frontend/src/components/EditQuiz.tsx:56-61 | missing text becomes ""; missing options become four empty ones (an empty list stays); a non-number correct index becomes 0 |
| EditQuiz.Load | frontend/src/components/EditQuiz.tsx:51-62 | title `ID || ""` and PIN `PIN || ""`, kept as stored (a number stays a number); one loaded question per stored one, in order; no questions gives [] |
| EditQuiz.UpdateQuestion | frontend/src/components/EditQuiz.tsx:72-74 | question idx takes the patch's fields and keeps the rest; every other question unchanged |
| EditQuiz.UpdateOption | frontend/src/components/EditQuiz.tsx:76-89 | only option optIdx of question qIdx changes; no option list changes length |
| EditQuiz.AddQuestion | frontend/src/components/EditQuiz.tsx:91-96 | one question with empty text, four empty options and index 0 appended |
| EditQuiz.RemoveQuestion | frontend/src/components/EditQuiz.tsx:98-100 | exactly index idx removed, others in order, possibly leaving the list empty; an index outside the list removes nothing |
| EditQuiz.RemoveUndoesAdd | frontend/src/components/EditQuiz.tsx:91-100 | removing the question just added restores the list |
| EditQuiz.SavePayload | frontend/src/components/EditQuiz.tsx:108-119 | a payload exactly when title and PIN are strings (`trim` throws otherwise): TID 1, ID and PIN trimmed, questions with text, options and correct index as edited, in order |
| EditQuiz.NumericIdCannotBeSaved | frontend/src/components/EditQuiz.tsx:108-113 | a test stored with a numeric ID loads with that number as its title, and its save produces no payload |
| EditQuiz.SaveStrings | frontend/src/components/EditQuiz.tsx:110-119 | an editor with string title and PIN is saved with both trimmed and its questions as they are |
| EditQuiz.SaveIsStable | frontend/src/components/EditQuiz.tsx:51-119 | saving (lines 108-119), loading what was saved (lines 51-62) and saving again sends the same payload |
| EditQuiz.LoadStored | frontend/src/components/EditQuiz.tsx:51-62 | loading stored questions gives back exactly those questions, with title and PIN `ID || ""` and `PIN || ""` |
| EditQuiz.LoadAfterSave | frontend/src/components/EditQuiz.tsx:51-62 | after a successful save, loading what was saved gives back the same questions with the saved, trimmed ID and PIN |
| Lists.Without | frontend/src/components/EditQuiz.tsx:99 | the list without index idx, others kept in order; an index outside it removes nothing |
| MyQuizzes.TitleMatches | frontend/src/components/MyQuizzes.tsx:35 | every quiz whose lower-cased title contains the query, as often as the list holds it, and no other |
| MyQuizzes.Filtered | frontend/src/components/MyQuizzes.tsx:33-36 | a blank query keeps the whole list; otherwise every quiz whose lower-cased title contains the trimmed, lower-cased query, as often as the list holds it, and no other |
| MyQuizzes.Sort | frontend/src/components/MyQuizzes.tsx:38-43 | the sorted list is a permutation of its input |
| MyQuizzes.SortSorted | frontend/src/components/MyQuizzes.tsx:38-43 | under a total preorder the sorted list is in order |
| MyQuizzes.InsertSorted | frontend/src/components/MyQuizzes.tsx:38-43 | inserting into an ordered list keeps it ordered |
| MyQuizzes.BeforeIsTotalPreorder | frontend/src/components/MyQuizzes.tsx:38-43 | each of the four comparators is a total preorder when the title order is |
| MyQuizzes.Shown | frontend/src/components/MyQuizzes.tsx:32-45 | a permutation of the filtered list: nothing added, dropped or repeated |
| MyQuizzes.ShownMembers | frontend/src/components/MyQuizzes.tsx:33-36 | a quiz is shown exactly when the query is blank or its lower-cased title contains the query |
| MyQuizzes.ShownOrdered | frontend/src/components/MyQuizzes.tsx:39-42 | "new" gives creation times descending, "old" ascending, "a" titles ascending, "z" and anything else titles descending |

## Left out

- HTTP transport, the Mongo client, every `fetch`, local and session storage, `FileReader` data URLs and `window.setInterval`. Their results are inputs: a reply, a stored value, a `storeFails` flag.
- The body of `/api/nextquestion` (server.js:213). It only reads its request and never replies, so the model uses the rule its comment describes.
- `/api/addcard`, `/api/searchcards`, the `/api/email` stub and api/email.js: card storage, regex search and mail delivery.
- The 500 reply for an insert without an `insertedId` (server.js:171-173): a successful insert always carries one.
- Accounts.UserStore.Register: `storeFails` stands for an unreachable store. A failure of only the insert gives the same 500 reply and no insert, which the model shares.
- Concurrency: overlapping submissions and moves, the unawaited `updateOne`, and the host screen's cancellation flag. Requests are modelled one after another.
- The submission's `isCorrect == true` loose comparison is taken as a boolean input.
- Mongo queries on null or missing fields. Key equality is type-strict: a number never matches a string.
- Decoding the JWT token (frontend/src/pages/HostQuiz.tsx:42-50). Its converted claim is an input.
- `Number(...)` on strings is modelled for blank and all-digit strings only. Signs, decimals, exponents, hex and "Infinity" convert to NaN here. Arrays and objects also convert to NaN.
- `toLowerCase` is ASCII only; `localeCompare` is an abstract total order on titles.
- Invalid `createdAt` dates are left out: creation times are integers.
- MyQuizzes.Sort: stability, which JavaScript's sort guarantees, is not stated.
- Accounts.UserStore.Login: the username and password are compared with stored values for equality. The server passes them from the JSON body into the query unchanged, so an object holding a query operator, such as a password `{"$ne": null}`, matches whatever the operator selects. Such a login succeeds there but finds no match here. The query language is not part of this model.
- Accounts.UserStore.Register: the uniqueness check compares username and email with stored values for equality. A query-operator object in either field is refused there as already existing but accepted here, for the same reason.
- EditQuiz.Load: stored text and options are taken to be strings and string arrays when present. Other shapes, which would make the editor throw later, are not modelled.
- CreateQuiz: absent text and image fields are modelled as "". Every operation here treats the two alike.
- The start, next-question and test-read endpoints the host screen calls are not part of this model. Only the client's handling of their replies is.
- Mongo's generated `_id` field. User documents, including the one the login reply hands back whole, are modelled without it.
- HostQuiz.StartOrResumeAsWritten: on a `null` start reply the handler first shows the picked question (HostQuiz.tsx:176) and then throws. The model records only the reported exception, not that question left on screen.
- Rendering, navigation and the dashboards.

## Findings

| source | as written | input that shows it | evidently intended | confidence | as-written member | corrected member |
|---|---|---|---|---|---|---|
| server.js:110-116 | the reply's id, firstName, lastName and email are `results[0]`, `results[1]`, `results[2]` and `results[5]`: whole matching documents | one teacher logging in with their own username and password: `id` is their whole document, password included, and the names and email are undefined | id, firstName, lastName and email of the first matching document | high; not executed | Accounts.LoginAsWritten, Accounts.LoginAsWrittenReturnsDocument | Accounts.UserStore.Login |
| frontend/src/pages/HostQuiz.tsx:176-178 | after checking the picked start question, the screen is set to the start reply's raw `question` and `options` fields | a start reply `{prompt: "2+2?", options: ["3", "4"]}`: the check passes and the question shown is undefined; a `null` reply with a usable first stored question passes the check and then throws | show the picked text and options | high; not executed | HostQuiz.StartOrResumeAsWritten, HostQuiz.StartOrResumeAsWrittenDropsPrompt, HostQuiz.StartOrResumeAsWrittenNullReply | HostQuiz.StartOrResume |
