# Quiz app core, modelled in Dafny

This project models the core of a browser trivia-quiz application written
in TypeScript with React and Redux. It fetches questions from the Open
Trivia Database and runs a timed quiz session with pausing, hints and manual
or automatic advancing. Results earn XP on a triangular level curve, and
tokens are awarded for perfect runs and level-ups and spent on hints.
Accounts and the signed-in user live in the browser's storage.

The model has one Dafny module per source file:

- `QuizSlice`: the quiz session reducer as a class `QuizSession`, with the
  Fisher–Yates shuffle, the provider query and the question normalisation.
- `UserGame`: level thresholds, level from XP, the difficulty-weighted XP
  gain, `normalizeGame`, token spending and reward application.
- `SettingsSlice`: validated loading of the stored settings and the setters,
  as a class `Settings`.
- `AuthSlice`: the initial sign-in lookup and the auth reducers, as a class
  `Auth`.
- `QuizPage`, `QuizResultPage`, `AccountStats`, `Leaderboard`, `Home`,
  `StartQuizPage`, `AccountPage`, `RegisterPage`, `LoginPage`: the logic of
  those pages and components.

Shared modules:

- `Common`: the option type, JSON values, rounding and arithmetic helpers.
- `Text`: whitespace, trimming, ASCII case mapping and word splitting.
- `UserTypes`: the stored user record.
- `WebStorage`: a string-to-string store standing for `localStorage` and
  `sessionStorage`.
- `Passwords`: the password rules shared by two pages.

The clock (`Date.now()`) is a `now` parameter of every operation that reads
it. `Math.random()` is a real in `[0, 1)` passed in. The list of stored users
is a `seq<User>` passed in and returned.

## Model

| member | source | states |
|---|---|---|
| UserTypes.FindIndexById | src/lib/userGame.ts:134 | The index of the first user whose id equals the given id exactly, and -1 iff no user has it. |
| Text.Trim | src/store/auth/authSlice.ts:8 | The result is the input with all leading and trailing whitespace removed: it is a contiguous slice whose surroundings are all whitespace and whose ends are not. |
| Text.TrimIdempotent | src/store/auth/authSlice.ts:8 | Trimming a trimmed string changes nothing. |
| Text.ToLower | src/lib/userGame.ts:50 | Same length, and each character is lower-cased individually (ASCII letters only). |
| Text.ToLowerIdempotent | src/lib/userGame.ts:50 | Lower-casing twice equals lower-casing once. |
| Text.Words | src/pages/Leaderboard.tsx:45 | The words are non-empty and free of whitespace, and there are none iff the string is all whitespace. |
| Common.NatToString | src/pages/Quiz.tsx:200-201 | Decimal digits whose value is the number, one digit iff below 10, and no leading zero. |
| Common.NatToStringInjective | src/pages/Quiz.tsx:200-201 | Different numbers have different decimal texts. |
| Common.IntToString | src/pages/QuizResult.tsx:167 | A leading `-` iff negative, followed by the decimal digits of the magnitude. |
| Common.IntToStringInjective | src/pages/QuizResult.tsx:167 | Different integers have different texts. |
| QuizSlice.RandomIndex | src/store/quiz/quizSlice.ts:64 | `Math.floor(r * n)` for a draw `0 <= r < 1` is an index in `[0, n)`. |
| QuizSlice.SwapPermutes | src/store/quiz/quizSlice.ts:65 | Exchanging two cells keeps the multiset of the sequence. |
| QuizSlice.Shuffle | src/store/quiz/quizSlice.ts:61-68 | The in-place descending swap loop on a copy of the input returns a sequence of the same length that is a permutation of the input. |
| QuizSlice.BuildQuery | src/store/quiz/quizSlice.ts:90-94 | `amount` (default 10) and `type` (default multiple) come first and are always set. `difficulty` is present iff one is given, with its name. `category` is present iff a non-zero one is given, with its decimal text. |
| QuizSlice.NormalizeQuestions | src/store/quiz/quizSlice.ts:99-113 | One question per raw result, none when `results` is missing. Each question takes the given id and the raw fields, has `difficulty` set, and has an `answers` list that is a permutation of the correct answer followed by the incorrect ones. |
| QuizSlice.CorrectAnswerOffered | src/store/quiz/quizSlice.ts:102 | A normalised question always offers its correct answer, and it offers exactly one more option than it has incorrect answers. |
| QuizSlice.CorrectKeysInsert | src/store/quiz/quizSlice.ts:155-162 | Adding a record for a new question id grows the answer count by one, and grows the correct count by one exactly when the record is correct. |
| QuizSlice.AnsweredAtMostTotal | src/store/quiz/quizSlice.ts:150-161 | When the answer keys are ids of distinct loaded questions, there are no more answers than questions. |
| QuizSlice.QuizSession.constructor | src/store/quiz/quizSlice.ts:44-58 | The initial state: idle, no questions, index 0, no answers, all counts 0, no timestamps, a duration of 120 s and no pause. The invariant holds. |
| QuizSlice.QuizSession.StartQuiz | src/store/quiz/quizSlice.ts:127-143 | From any state: in progress at index 0, with no answers and zero counts. The clock starts at `now`, with no finish and no pause. The duration changes only for a truthy argument. `totalCount` becomes the number of questions. With distinct ids a started session results. |
| QuizSlice.QuizSession.Advance | src/store/quiz/quizSlice.ts:169-175 | At the last question: finished at `now`, with the index kept. Otherwise the index goes up by one. Nothing else changes. |
| QuizSlice.RecordAnswer | src/store/quiz/quizSlice.ts:150-159 | The question has a record afterwards and no other key appears. An existing record is kept (no double answer). Otherwise the new record holds the choice, is correct iff the choice equals the correct answer, carries the question's difficulty or "easy", and every other record is kept. |
| QuizSlice.QuizSession.AnswerCurrent | src/store/quiz/quizSlice.ts:145-176 | Nothing changes when there is no current question or it already has a record. Otherwise it stores `{selected, correct iff selected equals the correct answer, difficulty or "easy"}` and updates the answered, correct and wrong counts. It then advances unless `advance` is false. There is no status guard. The counting invariant and the started-session invariant are kept. |
| QuizSlice.QuizSession.RecordCurrent | src/store/quiz/quizSlice.ts:152-163 | The recording half of `answerCurrent`. The record is added under the question's id, `answeredCount` stays the number of records, and `correctCount + wrongCount == answeredCount` is kept. |
| QuizSlice.QuizSession.NextQuestion | src/store/quiz/quizSlice.ts:178-188 | It does nothing unless the quiz is in progress. Otherwise it moves to the next index, or finishes at `now` at the last question. Answers and counts are untouched. |
| QuizSlice.QuizSession.FinishQuiz | src/store/quiz/quizSlice.ts:190-193 | From any state: finished, with `finishedAt = now`. |
| QuizSlice.QuizSession.ResetQuiz | src/store/quiz/quizSlice.ts:195 | The state becomes the initial state again. |
| QuizSlice.QuizSession.PauseTimer | src/store/quiz/quizSlice.ts:197-201 | `pausedAt` becomes `now` only when in progress and not already paused. Otherwise nothing changes, so a second pause is a no-op. |
| QuizSlice.QuizSession.ResumeTimer | src/store/quiz/quizSlice.ts:203-208 | When in progress and paused, `now - pausedAt` is added to `pausedMsTotal` and the pause is cleared. Otherwise nothing changes. |
| QuizSlice.QuizSession.FetchPending | src/store/quiz/quizSlice.ts:213-215 | The status becomes loading, and nothing else changes. |
| QuizSlice.QuizSession.FetchFulfilled | src/store/quiz/quizSlice.ts:216-220 | The questions become the payload, `totalCount` its length, and the status idle. |
| QuizSlice.QuizSession.FetchRejected | src/store/quiz/quizSlice.ts:221-223 | The status becomes idle, and the questions are left as they were. |
| UserGame.XpRequiredForLevel | src/lib/userGame.ts:32-35 | 0 for levels up to 1, else `50·(L−1)·L`, which is always an integer. |
| UserGame.XpRangeForLevel | src/lib/userGame.ts:37-39 | At least 100, and `100·L` for `L >= 1`. |
| UserGame.ThresholdStep | src/lib/userGame.ts:32-39 | For L ≥ 1, the next level's threshold is this level's threshold plus its range. |
| UserGame.ThresholdMonotone | src/lib/userGame.ts:32-35 | From level 1 upward, thresholds strictly increase. |
| UserGame.CalcLevelFromXp | src/lib/userGame.ts:41-46 | The level is at least 1, and `max(0, xp)` lies between its threshold and the next one. This is the integer meaning of the square-root formula. |
| UserGame.LevelUnique | src/lib/userGame.ts:41-46 | At most one level fits a given XP. |
| UserGame.LevelMonotone | src/lib/userGame.ts:41-46 | More XP never gives a lower level. |
| UserGame.LevelOfThreshold | src/lib/userGame.ts:41-46 | A level's own threshold XP gives back that level. |
| UserGame.DifficultyMultiplierTenths | src/lib/userGame.ts:49-54 | 20 for "hard" and 14 for "medium", both case-insensitive, and 10 for anything else. |
| UserGame.MultiplierIgnoresCase | src/lib/userGame.ts:50 | Two difficulties that lower-case alike get the same multiplier. |
| UserGame.AnswerTenths | src/lib/userGame.ts:76-81 | A correct answer earns 10 × the multiplier and a wrong one 2 ×, always an even number of tenths between 20 and 200. |
| UserGame.TallyRemove | src/lib/userGame.ts:72-82 | The tally over a key set is the tally without one key, then that key's answer counted. The sum does not depend on the visiting order. |
| UserGame.TallyBounds | src/lib/userGame.ts:72-82 | Over k answers the correct count lies in 0..k, and the tenths lie in 20k..200k and are even. |
| UserGame.TallyCountsCorrect | src/lib/userGame.ts:76-78 | The tallied correct count is the number of correct records. |
| UserGame.AddAnswer | src/lib/userGame.ts:73-81 | One turn of the loop adds the answer's XP, ten or two times its multiplier in tenths, and counts it when it is correct. |
| UserGame.TallyAnswers | src/lib/userGame.ts:69-82 | Visiting the answers in any order gives the tally of all of them. |
| UserGame.CalcXpGain | src/lib/userGame.ts:57-91 | Returns 0 for no answers. Otherwise it returns the rounded tally of the per-answer XP, plus 20 when accuracy is at least 80 % and 10 when the quiz finished before the timeout. |
| UserGame.XpGainBounds | src/lib/userGame.ts:84-90 | The unrounded total is never a tie, so rounding it is exact. The gain is between 2 and 20 per answer, plus at most 30. |
| UserGame.XpGainNonNegative | src/lib/userGame.ts:57-91 | The XP gain is never negative. |
| UserGame.TallyUniform | src/lib/userGame.ts:72-82 | When every answer has the same multiplier, the tally is that multiplier times (2 per answer + 8 per correct answer). |
| UserGame.ExampleFiveCorrectEasy | src/lib/userGame.ts:72-90 | Five correct easy answers, finished early, give 80 XP. |
| UserGame.ExampleTwoOfFiveHard | src/lib/userGame.ts:72-90 | Two correct and three wrong hard answers, not finished early, give 52 XP. |
| UserGame.NormalizeGame | src/lib/userGame.ts:107-123 | Tokens are never negative, and no stored game gives the default game. |
| UserGame.NormalizeFields | src/lib/userGame.ts:107-123 | Each field comes from its own stored field alone. Missing counters become 0. A missing level becomes the level of the XP. Tokens are floored at 0. |
| UserGame.NormalizeRoundTrip | src/lib/userGame.ts:107-123 | Complete statistics with non-negative tokens normalise back to themselves. |
| UserGame.NormalizeIdempotent | src/lib/userGame.ts:107-123 | Normalising a persisted normalised record changes nothing. |
| UserGame.GameOf | src/lib/userGame.ts:138 | `normalizeGame(user.game ?? DEFAULT_GAME)`: the default game when none is stored, the normalised stored game otherwise. |
| UserGame.SpendUserTokens | src/lib/userGame.ts:129-154 | It rejects a non-positive amount, an unknown id or too few tokens, and writes nothing. Otherwise tokens drop by exactly the amount and stay ≥ 0, and only that user's entry is replaced, by the user with the new game. |
| UserGame.SpendReadsBack | src/lib/userGame.ts:142-149 | After a spend the stored game reads back as the new statistics. Spending the whole balance leaves 0, and every other user is unchanged. |
| UserGame.ApplyQuizResultToUser | src/lib/userGame.ts:156-244 | An unknown user gives no result and no write. Otherwise, all in the new game: XP grows by the gain, the level is recomputed from the XP, the level gained is measured against the stored level, one token is awarded for a perfect run and five per level gained, totals grow by the counts floored at 0, one more quiz is counted, and `lastPlayedAt = now`. Only that user's entry is replaced. |
| UserGame.ApplyResultMonotone | src/lib/userGame.ts:195-218 | Applying a non-negative gain never lowers XP or tokens, the new level fits the new XP and is at least the level of the old XP, and the record persists losslessly. |
| SettingsSlice.ChoiceOr | src/store/settings/settingsSlice.ts:57-74 | A stored string passing the field's guard is kept. Anything else gives the field's default. |
| SettingsSlice.ClampDelay | src/store/settings/settingsSlice.ts:61 | Defined exactly for finite numbers, and never negative. For a non-negative value it is the largest integer not above the value (the floor). A negative value gives 0. |
| SettingsSlice.ClampDelayIdempotent | src/store/settings/settingsSlice.ts:94 | Clamping a clamped delay changes nothing. |
| SettingsSlice.DelayOr | src/store/settings/settingsSlice.ts:59-62 | A stored finite number is clamped, and anything else gives the default. |
| SettingsSlice.LoadSettings | src/store/settings/settingsSlice.ts:49-80 | Every loaded state passes all four choice guards and has a non-negative delay. |
| SettingsSlice.LoadFallsBack | src/store/settings/settingsSlice.ts:51-55 | A missing or empty stored value, an unparseable one, or one that is not an object loads as the defaults. |
| SettingsSlice.LoadFieldwise | src/store/settings/settingsSlice.ts:57-74 | Each field depends only on its own stored property. |
| SettingsSlice.LoadFieldOutcomes | src/store/settings/settingsSlice.ts:57-74 | A property that fails its guard falls back to its own default. A valid mode is kept and a finite delay is clamped. |
| SettingsSlice.LoadRoundTrip | src/store/settings/settingsSlice.ts:49-80 | Valid settings written as an object load back unchanged. |
| SettingsSlice.Settings.constructor | src/store/settings/settingsSlice.ts:82 | The initial state is `loadSettings()` of whatever is stored. |
| SettingsSlice.Settings.SetMode | src/store/settings/settingsSlice.ts:89-91 | Only `mode` changes. |
| SettingsSlice.Settings.SetAutoNextDelayMs | src/store/settings/settingsSlice.ts:92-95 | A finite value sets the clamped delay. A non-finite value changes nothing. |
| SettingsSlice.Settings.SetSidebarVariant | src/store/settings/settingsSlice.ts:98-100 | Only `sidebarVariant` changes. |
| SettingsSlice.Settings.SetSidebarCollapsible | src/store/settings/settingsSlice.ts:101-103 | Only `sidebarCollapsible` changes. |
| SettingsSlice.Settings.SetContentMaxWidth | src/store/settings/settingsSlice.ts:106-108 | Only `contentMaxWidth` changes. |
| SettingsSlice.Settings.ResetSettings | src/store/settings/settingsSlice.ts:110-112 | The state becomes the defaults. |
| SettingsSlice.SetDelayTwice | src/store/settings/settingsSlice.ts:92-95 | Setting the same delay twice leaves the state of setting it once. |
| AuthSlice.FindByTrimmedId | src/store/auth/authSlice.ts:12 | The first user whose trimmed id equals the given id, and -1 iff there is none. |
| AuthSlice.InitialAuth | src/store/auth/authSlice.ts:3-26 | The persistent id is used when truthy, else the session id. It is trimmed and matched against trimmed ids. Authenticated iff a user is found, and that user is the first match. No id, or no match, gives the empty user, not authenticated. |
| AuthSlice.InitialAuthIgnoresBlanks | src/store/auth/authSlice.ts:8 | A stored id with surrounding blanks signs in the same user as the bare id. |
| AuthSlice.Auth.constructor | src/store/auth/authSlice.ts:19-26 | The slice starts from `InitialAuth` of the two stores. |
| AuthSlice.Auth.SetAuthenticated | src/store/auth/authSlice.ts:28-31 | Sets the user and authenticated. |
| AuthSlice.Auth.SetUser | src/store/auth/authSlice.ts:38-40 | Replaces the user, and the authenticated flag is left alone. |
| AuthSlice.Auth.Logout | src/store/auth/authSlice.ts:32-37 | Empty user, not authenticated, and the signed-in key is removed from both stores. Nothing else is removed. |
| AuthSlice.LogoutThenRestart | src/store/auth/authSlice.ts:32-37 | After signing out, a fresh start finds nobody signed in. |
| LoginPage.FindCredentials | src/pages/Login.tsx:39-42 | The first user with both an equal email and an equal password, and -1 iff there is none. |
| LoginPage.SubmitLogin | src/pages/Login.tsx:38-59 | Succeeds iff a user has the credentials. On failure nothing is written to either store and the auth state is unchanged. On success the id goes to the persistent store with `remember` and to the session store without it, the other store is untouched, and that user is signed in. |
| LoginPage.RestoredAfterLogin | src/pages/Login.tsx:51-55 | With ids unique after trimming, the next start-up signs the same user back in when the login was remembered, whatever the session store holds. A login that was not remembered is restored only when the local store holds no signed-in id. |
| LoginPage.StaleLocalIdWins | src/store/auth/authSlice.ts:4 | A non-empty id in the local store decides the next start-up, whatever the session store holds. |
| LoginPage.StaleLocalIdExample | src/pages/Login.tsx:51-55 | User A remembered earlier, then user B signed in without remembering: the next start-up restores A. |
| Passwords.PasswordOkExtends | src/pages/Account.tsx:30-34 | Appending characters to a valid password keeps it valid. |
| Passwords.PasswordExamples | src/pages/Register.tsx:21-25 | "Passw0rd!" passes. A password without an uppercase letter, one without a special character, and one that is too short each fail. |
| RegisterPage.EmailPatternIff | src/pages/Register.tsx:130 | `^\S+@\S+$` matches iff the string has no whitespace and has an `@` with at least one character before and after it. |
| RegisterPage.SubmitRegistration | src/pages/Register.tsx:71-101 | Registered iff no stored user has the email. A refused registration leaves the list unchanged. A successful one appends exactly `{id, name, email, password}`. Unique emails stay unique. |
| RegisterPage.SubmitForm | src/pages/Register.tsx:106-205 | Registered iff every field rule holds and no stored user has the email. Refused, the list is unchanged; otherwise exactly the new user is appended. That user has a name, an email of the shape `^\S+@\S+$` and a password meeting the rules. Unique emails stay unique. |
| RegisterPage.SecondRegistrationRefused | src/pages/Register.tsx:77-82 | After a registration, the same email is taken. |
| AccountPage.LoadedUser | src/pages/Account.tsx:83-91 | The FIRST stored user whose id equals the remembered id exactly: it is in the list, and no earlier entry has that id. There is no trimming. The persistent id is used when truthy, else the session id. None iff there is no id or no match. |
| AccountPage.PasswordCheck | src/pages/Account.tsx:134-166 | None exactly when no password field is filled in, or when every check passes. Each error is returned iff all earlier checks pass and its own fails, in the page's order: current password missing, current password wrong, new password missing, confirmation different, new password breaking the rules. It never reports a missing user. |
| AccountPage.FieldValidatorsPass | src/pages/Account.tsx:418-520 | The field validators pass iff the submission's own checks would pass when the stored password equals the typed current one. |
| AccountPage.ValidatorsLeaveOnlyStoredPasswordCheck | src/pages/Account.tsx:418-520 | Once the field validators pass, the submission can fail only on a wrong current password. |
| AccountPage.UpdatedUser | src/pages/Account.tsx:168-176 | Id, email and game are kept. Name, bio and images come from the form, and the password changes only when a change was requested. |
| AccountPage.ReplaceById | src/pages/Account.tsx:179 | Every entry with the id is replaced, and the others keep their value and place. |
| AccountPage.ReplaceAbsentId | src/pages/Account.tsx:179 | With no entry carrying the id, the list is unchanged. |
| AccountPage.SubmitProfile | src/pages/Account.tsx:130-180 | With no user, or a failing password check, nothing is written and the reason is returned. Otherwise the updated record replaces the user's entries. |
| AccountPage.SavedPasswordIsStrong | src/pages/Account.tsx:153-165 | A saved password change always stores a password that meets every rule. |
| AccountPage.AccountAccuracy | src/pages/Account.tsx:218-227 | Missing counters read as 0. The result is the rounded percentage of correct answers, 0 with none answered, and within 0..100 for consistent counters. |
| QuizPage.RemainingSec | src/pages/Quiz.tsx:85-95 | The full duration before the start. Afterwards it is `max(0, duration − floor(elapsed since start, minus finished and ongoing pauses, / 1000))`, and never negative. |
| QuizPage.PausedCountdownFrozen | src/pages/Quiz.tsx:91-94 | While a pause is in course the countdown does not change as time passes. |
| QuizPage.CountdownNonIncreasing | src/pages/Quiz.tsx:92-94 | Out of a pause the countdown never goes up as time passes. |
| QuizPage.CountdownAtMostDuration | src/pages/Quiz.tsx:92-94 | Once the clock is past its start and the pauses, the countdown is at most the duration. |
| QuizPage.TwoMinutesWithOnePause | src/pages/Quiz.tsx:85-95 | A two-minute quiz paused for ten seconds reads 0 after two minutes of unpaused time. |
| QuizPage.Clock | src/pages/Quiz.tsx:200-201 | `mm·60 + ss` is the remaining time, with `ss < 60`. |
| QuizPage.Pad2 | src/pages/Quiz.tsx:200-201 | Decimal digits of at least two characters whose value is the number. Below 10 it is `"0"` followed by the digit; from 10 on it is the plain decimal text. |
| QuizPage.Pad2Injective | src/pages/Quiz.tsx:200-201 | Different numbers never show the same padded text. |
| QuizPage.CurrentQuestion | src/pages/Quiz.tsx:135-138 | A question exactly when the index is in range, and then the one at the index. |
| QuizPage.CorrectAnswerOf | src/pages/Quiz.tsx:144-146 | The correct answer exactly when the question has a non-empty one. |
| QuizPage.Candidates | src/pages/Quiz.tsx:182 | Exactly the options that are neither the correct answer nor disabled, each as many times as it is offered and no other option. |
| QuizPage.WrongOptionsLeft | src/pages/Quiz.tsx:157-160 | 0 without a correct answer. Otherwise the length of `Candidates`, that is, the number of offered options (counting repeats) that are neither correct nor disabled, and a positive count means such an option exists. |
| QuizPage.DisablingLowersCount | src/pages/Quiz.tsx:157-160 | Disabling a candidate lowers the count by the number of times it is offered. Disabling the correct answer or an option already disabled leaves it unchanged. |
| QuizPage.HintDisabledReason | src/pages/Quiz.tsx:162-170 | Each reason is returned iff all earlier checks pass and its own fails: revealed, no question, no correct answer, no user id, no tokens, no wrong option left. None iff all pass. |
| QuizPage.UserIdOf | src/pages/Quiz.tsx:152 | Empty when signed out. Otherwise the signed-in user's `id` trimmed, so it has no leading or trailing whitespace. |
| QuizPage.TokensOf | src/pages/Quiz.tsx:151 | 0 when signed out, or with no game record or token count. Otherwise the stored count. |
| QuizPage.QuizScreen.constructor | src/pages/Quiz.tsx:48-52 | Nothing selected, nothing revealed, nothing disabled. |
| QuizPage.QuizScreen.ResetLocal | src/pages/Quiz.tsx:56-60 | Clears the selection, the reveal and the disabled options. |
| QuizPage.QuizScreen.HandleHint | src/pages/Quiz.tsx:174-195 | A blocking reason changes nothing. With no reason, a token is spent iff the signed-in user is in the stored list and has at least one token; a refused spend changes nothing. A spend disables exactly one option that was enabled and is not the correct answer, and clears the selection if it was that option. The new game is the old one with one token fewer, the updated user is that user with the new game, and only that entry of the list is replaced. The reveal is untouched. |
| QuizPage.QuizScreen.GoNextClean | src/pages/Quiz.tsx:222-228 | Clears the local state. A run in progress moves to the next question, or finishes at `now` after the last one, and the finish time changes only then. A session not in progress keeps its status and index. Answers, questions, the total and the rest of the clock are untouched. |
| QuizPage.QuizScreen.HandlePick | src/pages/Quiz.tsx:230-250 | Ignored without a question, after the reveal, or on a disabled option, and then nothing changes. Manual mode only selects, and the session is untouched. Auto mode also reveals, and the answers become exactly `QuizSlice.RecordAnswer` of the old answers, the current question and the pick. Status, index, questions, total and every countdown field are always kept. |
| QuizPage.QuizScreen.HandleSubmit | src/pages/Quiz.tsx:252-263 | Only in manual mode, with a selection and before the reveal; otherwise nothing changes. It reveals and starts a pause at `now` if the run is in progress and not already paused. With a current question, the answers become exactly `QuizSlice.RecordAnswer` of the old answers, that question and the selection; without one they stay as they were. Status, index, questions, total and every other countdown field are kept. |
| QuizPage.QuizScreen.HandleContinue | src/pages/Quiz.tsx:265-272 | Only in manual mode after the reveal; otherwise nothing changes. It clears the local state. A run in progress has its pause, if any, added to the total and cleared, then moves to the next question, or finishes at `now` after the last one. A session not in progress keeps its status, index and pause. The pause total changes only on a resume, and the finish time only on finishing. Answers, questions, total, start and duration are kept. |
| QuizPage.DueEffect | src/pages/Quiz.tsx:100-121 | Fetch iff idle with no questions. Start iff idle with questions. Finish iff in progress with the countdown at 0. |
| QuizPage.RunEffects | src/pages/Quiz.tsx:100-121 | An idle session with questions starts at `now` with 120 s, index 0, no answers, no pause and no finish. A running one whose time is up is finished at `now`, and no other field changes. When the fetch is due, only the status changes, to loading (the pending step of the fetch). When nothing is due, no field changes. |
| QuizResultPage.Clamp01 | src/pages/QuizResult.tsx:26-28 | The result lies in [0, 1], is the identity on [0, 1], and clamps values outside it to the nearer end. |
| QuizResultPage.Stars | src/pages/QuizResult.tsx:30-37 | 0..5 stars. Five iff accuracy ≥ 1, at least four iff ≥ 0.8, at least three iff ≥ 0.6, at least two iff ≥ 0.4, at least one iff > 0. |
| QuizResultPage.StarsMonotone | src/pages/QuizResult.tsx:30-37 | Higher accuracy never gives fewer stars. |
| QuizResultPage.FormatPct | src/pages/QuizResult.tsx:39-41 | An integer percentage in 0..100 within half a point of the clamped value × 100. |
| QuizResultPage.Accuracy | src/pages/QuizResult.tsx:146 | `correct / answered`, and 0 with nothing answered. |
| QuizResultPage.AccuracyRange | src/pages/QuizResult.tsx:146 | For consistent counts accuracy lies in [0, 1], and equals 1 iff something was answered and all of it correctly. |
| QuizResultPage.FiveStarsIffAllCorrect | src/pages/QuizResult.tsx:146-147 | Five stars iff something was answered and every answer was correct. |
| QuizResultPage.FinishedBeforeTimeout | src/pages/QuizResult.tsx:149-155 | False when the start, the finish or the duration is 0 or missing. Otherwise true iff the whole seconds taken are fewer than the duration. |
| QuizResultPage.PerfectAgreesWithReward | src/pages/QuizResult.tsx:157-159 | For non-negative counts, the page's perfect-run flag is the reward's perfect-run test on the clamped counts. |
| QuizResultPage.PerfectShowsFiveStars | src/pages/QuizResult.tsx:157-159 | A perfect run shows five stars. |
| QuizResultPage.TitlesDistinct | src/pages/QuizResult.tsx:242-249 | Different star counts from 0 to 5 get different titles. |
| QuizResultPage.TitleText | src/pages/QuizResult.tsx:242-249 | "Perfect Run!" iff five stars. "Try Again!" iff the count is outside 1 to 5. |
| QuizResultPage.SubtitleText | src/pages/QuizResult.tsx:251-258 | The perfect-run line iff five stars. The no-answers line iff the count is outside 1 to 5. Every subtitle is a sentence of more than 30 characters. |
| QuizResultPage.LoggedInUserId | src/pages/QuizResult.tsx:136-139 | The trimmed persistent id when truthy, else the trimmed session id, else "". |
| QuizResultPage.MarkerKey | src/pages/QuizResult.tsx:167 | The key is `quiz_result_applied_` followed by the decimal text of the start time. |
| QuizResultPage.PayloadKey | src/pages/QuizResult.tsx:168 | The payload key is the marker key followed by `_payload`. |
| QuizResultPage.KeysTellRunsApart | src/pages/QuizResult.tsx:167-168 | Different start times give different marker keys and different payload keys, and no marker key equals any payload key. |
| QuizResultPage.ApplyReward | src/pages/QuizResult.tsx:183-209 | No payload iff the user is unknown, with the users then unchanged. Otherwise the payload carries the reward's XP, token and level gains, the user's new level, XP and tokens, and the accuracy: correct answers (floored at 0) over answered ones, or 0 when none were answered. Only that user's game changed. |
| QuizResultPage.ResultScreen.constructor | src/pages/QuizResult.tsx:133-139 | Not yet applied, no reward, and the signed-in id as read at mount. |
| QuizResultPage.ResultScreen.ApplyOnce | src/pages/QuizResult.tsx:162-214 | It skips without a user id, without a start, or once applied. With the marker and a cached payload, the parsed cache is shown and nothing is applied. Otherwise the reward is applied once, and only a found user sets the marker to "1" and the payload key to the stringified payload. |
| QuizResultPage.Visit | src/pages/QuizResult.tsx:162-214 | One mount of the page. Signed out or without a start, nothing changes and no reward is shown. With the marker and the payload cached, nothing changes and the parsed cache is shown. Otherwise an unknown user changes nothing, and a known one gets a reward shown and stored under the payload key, with the marker set to "1". |
| QuizResultPage.RevisitAppliesOnce | src/pages/QuizResult.tsx:162-180 | When stringify and parse round-trip, visiting the result page a second time changes no user and shows the same reward. |
| AccountStats.ActiveUser | src/components/account-stats.tsx:15 | The user passed in when given, else the signed-in user. |
| AccountStats.XpTotalOf | src/components/account-stats.tsx:17 | The stored XP, and 0 where the user, the game or the XP is missing. |
| AccountStats.LevelProgressOf | src/components/account-stats.tsx:17-24 | The level, its start XP and its size come from the level functions. The size is at least 100, so the zero-size branch never runs. The XP into the level is in `[0, size)`, and for non-negative XP start + into-level = XP. The progress is the rounded share and lies in 0..100. |
| AccountStats.ShownProgress | src/components/account-stats.tsx:15-24 | The panel shows the progress of the active user, which is the user passed in when one is given. |
| AccountStats.ProgressAtThreshold | src/components/account-stats.tsx:20-24 | At a level's threshold the panel shows that level with 0 XP and 0 %. |
| AccountStats.RoundPercentMonotone | src/components/account-stats.tsx:24 | The rounded percentage never drops as the share grows. |
| AccountStats.ProgressMonotoneWithinLevel | src/components/account-stats.tsx:23-24 | Within one level, more XP never shows less progress. |
| Leaderboard.MergeDefaults | src/pages/Leaderboard.tsx:65 | Each stored field overrides its default: xp 0, level 1, counters 0, no last play. |
| Leaderboard.MergeAgreesWithNormalize | src/pages/Leaderboard.tsx:65 | Apart from the level, the board's merge and `normalizeGame` agree on every field. They also agree on the level when one is stored. |
| Leaderboard.MissingLevelShownAsOne | src/pages/Leaderboard.tsx:65 | A stored game of 500 XP with no level shows level 1 on the board, while `normalizeGame` gives it level 3. |
| Leaderboard.BoardAccuracy | src/pages/Leaderboard.tsx:66-68 | The result is the rounded percentage of correct answers, 0 with none answered, and within 0..100 for consistent counters. |
| Leaderboard.InsertByXp | src/pages/Leaderboard.tsx:76 | Insertion adds exactly the new entry to the multiset. |
| Leaderboard.InsertKeepsOrder | src/pages/Leaderboard.tsx:76 | Inserting into a list that is descending by XP keeps it descending. |
| Leaderboard.SortByXp | src/pages/Leaderboard.tsx:76 | The result is a permutation of the input, in non-increasing XP. |
| Leaderboard.Ranked | src/pages/Leaderboard.tsx:62-77 | One entry per stored user, a permutation of the users' entries, in non-increasing XP. |
| Leaderboard.UsersOf | src/pages/Leaderboard.tsx:70-74 | The users behind the entries, in the same order. |
| Leaderboard.InsertKeepsUsers | src/pages/Leaderboard.tsx:76 | Insertion adds exactly the new entry's user. |
| Leaderboard.SortKeepsUsers | src/pages/Leaderboard.tsx:76 | Sorting keeps the multiset of users. |
| Leaderboard.RankedIsPermutation | src/pages/Leaderboard.tsx:62-77 | The ranking's users are a permutation of the stored users, and each entry is its own user's merged game and accuracy. |
| Leaderboard.Initials | src/pages/Leaderboard.tsx:43-47 | "??" for a missing or empty name. Otherwise the upper-cased first letters of at most the first two words of the trimmed name. |
| Leaderboard.WordLengthOfRun | src/pages/Leaderboard.tsx:45 | A word is cut at the first whitespace that follows it. |
| Leaderboard.WordsOfOneWord | src/pages/Leaderboard.tsx:45 | A name without whitespace is one word. |
| Leaderboard.InitialsOfTwoWords | src/pages/Leaderboard.tsx:43-47 | A name of two words separated by a space gives their two upper-cased first letters. |
| Leaderboard.WordsOfTwo | src/pages/Leaderboard.tsx:45 | Two words separated by one space split into exactly those two words. |
| Leaderboard.WordsCons | src/pages/Leaderboard.tsx:45 | A run of non-whitespace followed by whitespace or the end is the first word, and the words of the rest follow. |
| Leaderboard.WordsSkipSpace | src/pages/Leaderboard.tsx:45 | Leading whitespace starts no word. |
| Leaderboard.InitialsOfBlankName | src/pages/Leaderboard.tsx:43-47 | A name of only spaces is truthy, so it gives "" rather than "??". |
| Leaderboard.RankColors | src/pages/Leaderboard.tsx:36-41 | Indices 0, 1, 2 and 3 get different styles, every index from 3 on shares one, and negative indices share it too. |
| Leaderboard.RankColor | src/pages/Leaderboard.tsx:36-41 | The plain style iff the index is outside 0 to 2. The gold style iff the index is 0. |
| Home.DifficultiesToShow | src/pages/Home.tsx:355-359 | Easy is always shown, medium iff the level is above 10, hard iff above 29. The list is hardest first, with easy last. |
| Home.UnlockedStaysUnlocked | src/pages/Home.tsx:355-359 | A higher level never hides a section a lower one shows. |
| Home.HeroFollowsSections | src/pages/Home.tsx:137-154 | Two levels get the same greeting iff they show the same sections. |
| Home.HeroCopyByLevel | src/pages/Home.tsx:137-154 | "Warm-up round" iff the level is at most 10, "Leveling up" iff it is 11 to 29, "Challenge mode" iff it is 30 or more: the bands of `Home.DifficultiesToShow`. |
| Home.Categories | src/pages/Home.tsx:55-80 | Twenty-four categories with ids 9 to 32 in order. |
| Home.CategoriesDistinct | src/pages/Home.tsx:55-80 | No two categories share an id or a name. |
| Home.NamesDiffer | src/pages/Home.tsx:55-80 | Any two listed category names differ. |
| Home.CategoryIndex | src/pages/Home.tsx:114 | The first category carrying the name, and -1 iff none does. |
| Home.CategoryIdFromName | src/pages/Home.tsx:115-118 | An id iff the name is present, non-empty and listed, and then the listed id of that name. |
| Home.CategoryLookupRoundTrip | src/pages/Home.tsx:114-118 | Every listed name looks up its own id. |
| Home.TitleCaseDifficulty | src/pages/Home.tsx:120-122 | The name with only its first character upper-cased. |
| Home.TitleCaseNames | src/pages/Home.tsx:120-122 | "Easy", "Medium" and "Hard". |
| Home.CategoryQuizTitle | src/pages/Home.tsx:415-417 | `"<category> (<Difficulty>)"`, or `"All Categories (<Difficulty>)"` without a category name. |
| Home.StartLatestQuiz | src/pages/Home.tsx:441-455 | Repeats the remembered difficulty, category, amount and type. Amount 10 and multiple choice are used where they are not remembered, and easy, 10 and multiple choice where nothing is. |
| Home.LatestRepeatsCategoryQuiz | src/pages/Home.tsx:408-455 | "Play again" after a category quiz makes exactly the request that quiz made. |
| Home.StartCategoryQuiz | src/pages/Home.tsx:408-439 | The request asks for ten questions of the chosen type, difficulty and category. The meta records that difficulty, category, its title and `now`. Replaying the meta makes exactly that request. |
| Home.CategoryQuizQuery | src/pages/Home.tsx:430-437 | A category quiz asks for 10 questions of its type, always names its difficulty, and names a category iff a non-zero one was chosen. |
| StartQuizPage.ClampField | src/pages/StartQuiz.tsx:42-43 | The result is in `[lo, hi]`. 0 or NaN gives the fallback, in-range values pass through, and values outside the range clamp to the nearer bound. |
| StartQuizPage.AmountSafe | src/pages/StartQuiz.tsx:42 | 1..50 questions, 10 for 0 or NaN, with in-range values kept. |
| StartQuizPage.DurationSafe | src/pages/StartQuiz.tsx:43 | 30..1800 seconds, 120 for 0 or NaN, with in-range values kept. |
| StartQuizPage.ClampsIdempotent | src/pages/StartQuiz.tsx:42-43 | Clamping a clamped value changes nothing. |
| StartQuizPage.StartRequestQuery | src/pages/StartQuiz.tsx:46-52 | The request asks for the clamped amount and the chosen type. It names a difficulty iff one is picked, and a category iff it is not 0. |
| StartQuizPage.Start | src/pages/StartQuiz.tsx:45-62 | The quiz starts, with the clamped duration at `now`, iff the fetch is fulfilled with a non-empty payload. Otherwise a failure is reported and the session is left idle. |

## Left out

- decodeHtml needs a DOM `textarea`, and the fetch to the trivia provider and `res.json()` are network I/O. The model takes the decoded raw results as input.
- `crypto.randomUUID` question ids and the `uuid()` ids of new accounts are given as inputs. Their uniqueness is assumed as a precondition (`DistinctIds`) where the session needs it.
- `Math.random()` is a real in `[0, 1)` passed in. Whether the shuffle or the hint pick is unbiased is not stated.
- localStorage and sessionStorage serialisation: the users list is passed in and returned instead of being read and written as JSON text. `safeReadUsers` and `safeWriteUsers` are not modelled, and neither is `JSON.parse` failing on the stored list. `src/store/quiz/quizPersistence.ts`, `src/store/store.ts` and the `hydrateFromStorage` reducer, which replaces the state wholesale, are not part of this model.
- QuizResultPage.ResultScreen.ApplyOnce: `JSON.stringify` and `JSON.parse` of the cached payload are function parameters. A parse that throws is modelled as `None`, and the cached reward then stays as it was.
- Timers: the 1 Hz tick, the auto-next `setTimeout` and its cancellation on an index change, the two-second delays of the login and register forms, and the confetti timeouts. Time enters only as `now`.
- Floating point: `Math.sqrt` in the level formula is replaced by its integer meaning. XP is computed in integer tenths, which is exact because every term is a multiple of 0.2. Percentages (`Math.round` of a ratio × 100) use exact rational half-up rounding and are not claimed bit-exact. Stars and accuracy use exact reals.
- QuizResultPage.FormatPct: stated as lying within half a point of `clamp01(n) × 100`, not as the exact `Math.round` result.
- StartQuizPage.AmountSafe, StartQuizPage.DurationSafe: numeric fields are integers or NaN. Fractional entries and ±Infinity are not modelled.
- The `setUser` dispatch after a spend or a reward, and the `updateUser` dispatch of the account page, are left to the caller. The Redux store wiring is not modelled.
- QuizSlice.QuizSession: the `loading` status is modelled, but the thunk's concurrency (two fetches in flight) is not.
- Leaderboard.SortByXp: the sort is a stable insertion sort, as the JavaScript sort is, but stability itself is not proved. Only the permutation and the descending order are.
- Text.ToLower: case mapping covers ASCII letters only, and full Unicode case mapping is not modelled. Whitespace in `Text.Trim` and `Text.Words` is the set JavaScript's `trim` and `\s` use.
- Passwords: a password's length counts Dafny characters (Unicode scalar values), not UTF-16 code units.
- QuizPage.UserIdOf: the user id the hint uses is the trimmed `id` only. The alias fields `_id`, `uid` and `userId` that the page also tries are not modelled.
- Home: the effect that rewrites the last-quiz meta from the loaded questions, the `delayByDiff` table, and the storage of the meta itself are not modelled. `startCategoryQuiz` and `startLatestQuiz` are modelled as the request they build and the meta they record; the `resetQuiz` they dispatch first is `QuizSlice.QuizSession.ResetQuiz`.
- Rendering and presentation: CSS class helpers, rule-list colours, toasts, confetti, navigation, animations, number and date formatting.
- `src/components/floating-account.tsx` and `src/components/sidebar-account-stats.tsx` repeat the level-progress arithmetic that `AccountStats` models. `src/pages/UserProfile.tsx` repeats the account page's statistics. `src/pages/Setting.tsx` only forwards to the settings reducers. None of them is modelled separately.
- UI chrome (landing sections, header, footer, layouts, sidebars, toggles, routing, NotFound) and library internals (React, react-hook-form, Redux Toolkit, Immer).
- Three behaviours of the quiz slice are modelled as the code has them:
  - `startQuiz` starts a run without checking that questions are loaded.
  - `answerCurrent` records an answer whatever the status.
  - A rejected fetch keeps the questions already loaded.
- The account page looks the user up by exact id, while the auth slice trims ids. Both are modelled as written (`AccountPage.LoadedUser`, `AuthSlice.InitialAuth`).
- The leaderboard shows level 1 for a stored game without a level, while `normalizeGame` derives the level from the XP. Both are modelled as written; `Leaderboard.MissingLevelShownAsOne` exhibits the difference.
