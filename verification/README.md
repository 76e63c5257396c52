# Duo account and progression layer, modelled in Dafny

This project models the account and progression layer of the Duo learning app:

- credential lookup and validation;
- the login and logout session transitions and the login form's state;
- the achievement threshold engine that grants badges from a user's counters;
- the password-reset flow with its six-digit verification code;
- the profile save rule and the user's display texts;
- the global and friends leaderboards, with the current user's rank lookup.

The relational store behind the repositories is a class, `Persistence.DataStore`. It holds the Users table, where a lookup returns the first matching row. It also holds the already-ordered row sets that the leaderboard procedures return, the achievement definitions, the award rows, and an append-only log with one entry per write-procedure call. "The repository was called once with X" becomes "the log grew by exactly the entry X".

Objects that the application changes in place are classes with `modifies` clauses: the user, the store, the services and the view models. Their behaviour is stated against pure specification functions, and lemmas prove the properties of those functions. Examples:

- `FirstMatch` and `CheckCredentials` for lookups and credentials;
- `Ranked` and `CurrentUserRank` for leaderboards;
- `Grants` and `PassGrants` for achievements;
- `SignedIn` for login;
- `ResetRecord` for password reset;
- `SavedProfile` for the profile save.

A thrown exception is a `Failure` (or `Fail`) value that carries the exception kind and its parameter name or message. A C# `null` object is a nullable reference (`User?`).

Files, one module each:

| file | module | contents |
|---|---|---|
| wrappers.dfy | Wrappers | `Option`, `Result`, `Outcome`, the exception kinds |
| text.dfy | Text | .NET white-space test, decimal printing and parsing, first token, substring search |
| constants.dfy | Constants | verification-code bounds, criteria strings, rank sentinel and adjustment |
| users.dfy | Users | `UserRecord`, the `User` class, online and last-seen texts |
| leaderboard.dfy | Leaderboard | rows, entries, the 1..N numbering loop |
| achievements.dfy | Achievements | threshold parse, category match, the grant rule |
| persistence.dfy | Persistence | `DataStore` and the table-level functions |
| user_repository.dfy | UserRepositories | `UserRepository` |
| friends_repository.dfy | FriendsRepositories | `FriendsRepository` |
| leaderboard_service.dfy | LeaderboardServices | criteria dispatch, `LeaderboardService` |
| leaderboard_viewmodel.dfy | LeaderboardViewModels | rank lookup, `LeaderboardViewModel` |
| login.dfy | Login | `LoginService`, `LoginViewModel` |
| profile_service.dfy | ProfileServices | `ProfileService` and the achievement pass |
| reset_password.dfy | ResetPassword | `ForgotPassService`, `ResetPassViewModel` |
| profile_viewmodel.dfy | ProfileViewModels | `ProfileViewModel` |

The source files of `LoginService`, `LoginViewModel`, `ProfileService` and `ForgotPassService` are not part of this model, but the four classes themselves are modelled. The behaviour of the first three is fixed by their unit tests, and the rows below cite those tests. For `ForgotPassService`, the model follows how `ResetPassViewModel` calls it and otherwise makes its own assumptions. Each service instance keeps one outstanding code of its own, drawn from the code bounds. Because every `ResetPassViewModel` builds its own service, two reset forms hold independent codes. Verifying compares the entered text with the code and does not consume it. Resetting looks the user up by e-mail and writes the new password; it returns false when no user has that e-mail.

## Model

| member | source | states |
|---|---|---|
| Users.DefaultUser | Duo/Models/User.cs:8-29 | a new user has id 0, an empty user name, e-mail and password, zero counters, is offline and public, has image "default.jpg", accuracy 0, no last-activity time, and joined at "now" |
| Users.User.constructor | TestsDuo2/Models/UserTests.cs:10-29 | `new User()` holds exactly those defaults |
| Users.User.FromRecord | Duo/Repositories/UserRepository.cs:55 | the row-to-user mapping copies every column |
| Users.OnlineStatusText | Duo/Models/User.cs:31 | "Active" exactly when online, otherwise "Not Active" |
| Users.LastSeenText | Duo/Models/User.cs:33-65 | "Active Now" exactly when online; offline without a timestamp gives "Last seen a long time ago" |
| Users.Counted | Duo/Models/User.cs:52-60 | every counted text starts with a digit, so it never equals one of the fixed texts |
| Users.LastSeenUnderAMinute | Duo/Models/User.cs:46-49 | elapsed time under a minute, or negative, gives "Less than a minute ago" |
| Users.LastSeenMinutes | Duo/Models/User.cs:50-53 | from 1 minute up to 1 hour, the text is the floor m of the elapsed minutes, with 1 <= m <= 59, then " minutes ago" |
| Users.LastSeenHours | Duo/Models/User.cs:54-57 | from 1 hour up to 1 day, the text is the floor h of the elapsed hours, with 1 <= h <= 23, then " hours ago" |
| Users.LastSeenDays | Duo/Models/User.cs:58-61 | from 1 day on, the text is the floor d >= 1 of the elapsed days, then " days ago" |
| Users.DefaultUserDisplay | Duo/Models/User.cs:31-64 | a new user reads "Not Active" and "Last seen a long time ago" at any time |
| Constants.VerificationCodesHaveSixDigits | Duo/Constants/ApplicationConstants.cs:13-18 | every code in [100000, 999999] prints as exactly six digits |
| Leaderboard.BuildEntries | Duo/Repositories/UserRepository.cs:209-225 | the numbering loop returns one entry per row in row order; entry k is row k under rank k + 1; the result equals `Ranked` |
| Leaderboard.Ranked | Duo/Repositories/UserRepository.cs:206-252 | one entry per row; entry i is row i under rank i + 1 with the prefixed picture (partners: `RankedAt`, `RanksAreOneToN`, and `BuildEntries`, the loop proved equal to it) |
| Leaderboard.RankedAt | Duo/Repositories/UserRepository.cs:214-222 | entry i has rank i + 1 and copies row i's id, name, quiz count and accuracy; its picture is the prefix plus row i's image; the length equals the row count |
| Leaderboard.RanksAreOneToN | Duo/Repositories/FriendsRepository.cs:45-58 | the ranks all lie in 1..N and are pairwise distinct, so they are exactly 1..N |
| Leaderboard.RankedEmpty | TestsDuo2/Repositories/UserRepositoryTests.cs:526-544 | no rows give an empty leaderboard |
| Achievements.CategoryOf | TestsDuo2/Services/ProfileServiceTests.cs:118-190 | the category found is one whose keyword occurs in the name; "Streak" is tested first, then "Quizzes Completed", then "Courses Completed"; there is no category exactly when no keyword occurs |
| Achievements.Grants | TestsDuo2/Services/ProfileServiceTests.cs:193-215 | one pass grants at most one id per definition, and never an id already awarded |
| Achievements.GrantsStep | TestsDuo2/Services/ProfileServiceTests.cs:118-190 | scanning one more definition adds its id exactly when it is grantable |
| Achievements.GrantsSound | TestsDuo2/Services/ProfileServiceTests.cs:118-190 | a granted id was not already awarded and belongs to a definition the metrics earn |
| Achievements.GrantsComplete | TestsDuo2/Services/ProfileServiceTests.cs:193-215 | every definition that is earned and not yet awarded is granted |
| Achievements.GrantsNoneWhenNothingEarned | TestsDuo2/Services/ProfileServiceTests.cs:95-115 | with every metric below its threshold, nothing is granted |
| Achievements.GrantedExactlyOnce | TestsDuo2/Services/ProfileServiceTests.cs:193-215 | with distinct ids, each grantable achievement is granted exactly once |
| Achievements.GrantCount | TestsDuo2/Services/ProfileServiceTests.cs:218-243 | an already-awarded id is granted 0 times; any other id is granted once per earned definition that carries it |
| Achievements.DistinctCount | TestsDuo2/Services/ProfileServiceTests.cs:193-215 | with distinct ids, an earned definition is the only earned one carrying its id |
| Achievements.NoOtherCarrier | TestsDuo2/Services/ProfileServiceTests.cs:193-215 | definitions that do not carry an id contribute no earned count for it |
| Achievements.GrantsIdempotent | TestsDuo2/Services/ProfileServiceTests.cs:218-243 | once a pass's grants count as awarded, a second pass grants nothing |
| Achievements.NothingGrantable | TestsDuo2/Services/ProfileServiceTests.cs:95-115 | when no definition is grantable, nothing is granted |
| Achievements.GetAchievementThreshold | TestsDuo2/Services/ProfileServiceTests.cs:245-265 | the leading whole number of the name before the first space, or 0; a non-zero threshold implies the name starts with a digit (its partners are `ThresholdOfNumberedName` and `ThresholdWithoutNumber`) |
| Achievements.Qualifies | TestsDuo2/Services/ProfileServiceTests.cs:118-140 | a counter at or above the threshold qualifies (15 against 10), and one below it does not (5 against 10) |
| Achievements.Earns | TestsDuo2/Services/ProfileServiceTests.cs:118-190 | only a name carrying one of the three keywords can be earned; a "Streak" name is earned exactly when the streak reaches its threshold; otherwise a "Quizzes Completed" name is decided by the quiz count, and otherwise a "Courses Completed" name by the course count |
| Achievements.EarnsIsMonotone | TestsDuo2/Services/ProfileServiceTests.cs:95-190 | raising every counter never takes an earned achievement away |
| Achievements.ThresholdOfNumberedName | TestsDuo2/Services/ProfileServiceTests.cs:245-251 | a name made of the decimal number n, a space and any rest has threshold n (10, 50, 100, 250, 500, 1000 included) |
| Achievements.ThresholdWithoutNumber | TestsDuo2/Services/ProfileServiceTests.cs:252 | a name that does not start with a digit ("Unknown Achievement") has threshold 0 |
| Persistence.FirstMatch | Duo/Repositories/UserRepository.cs:50-55 | no row when none matches; otherwise a matching row with no match before it |
| Persistence.LookupFindsStoredRow | Duo/Repositories/UserRepository.cs:49-55 | with unique user names, looking up a stored row's name returns that row |
| Persistence.LookupAfterUpdate | Duo/Repositories/UserRepository.cs:152-170 | after the record a name lookup found is written back with the same id and name, the lookup returns the written record |
| Persistence.AwardedIdsAppend | Duo/Repositories/UserRepository.cs:341-351 | storing award rows for some ids appends exactly those ids to the user's awarded list |
| Persistence.DataStore.constructor | Duo/Repositories/UserRepository.cs:18 | a store holding the given tables and an empty write log |
| Persistence.DataStore.CreateUser | Duo/Repositories/UserRepository.cs:117-135 | appends the row under the next identity and returns that identity; logs one create |
| Persistence.DataStore.UpdateUser | Duo/Repositories/UserRepository.cs:152-170 | rows with the record's id take its values; logs one update |
| Persistence.DataStore.AwardAchievement | Duo/Repositories/UserRepository.cs:341-351 | appends one award row; logs one award |
| Persistence.DataStore.AddFriend | Duo/Repositories/FriendsRepository.cs:26-34 | logs one add-friend |
| UserRepositories.LookupByUserName | Duo/Repositories/UserRepository.cs:34-65 | a blank name fails with "Invalid username."; no row when the name is absent; otherwise the first stored row with that name |
| UserRepositories.CheckCredentials | Duo/Repositories/UserRepository.cs:179-183 | fails exactly on a blank name; true only if some stored row has that name and exactly that password |
| UserRepositories.StoredCredentialsValidate | Duo/Repositories/UserRepository.cs:179-183 | with unique names, a stored user's own password validates |
| UserRepositories.OtherPasswordsFail | Duo/Repositories/UserRepository.cs:179-183 | with unique names, any other password is refused |
| UserRepositories.StatsOf | Duo/Repositories/UserRepository.cs:268-277 | the statistics user carries the row's four counters; every other field has its default |
| UserRepositories.EarnedAchievements | Duo/Repositories/UserRepository.cs:311-334 | an achievement is listed exactly when it is defined and its id was awarded to the user |
| UserRepositories.IdsOf | TestsDuo2/Services/ProfileServiceTests.cs:228-231 | the held ids are the ids of the listed achievements, in order |
| UserRepositories.EarnedIds | Duo/Repositories/UserRepository.cs:311-334 | the user holds an id exactly when it was awarded and some definition carries it |
| UserRepositories.IdFromScalar | Duo/Repositories/UserRepository.cs:138 | a null scalar gives -1; otherwise the scalar's value |
| UserRepositories.UserRepository.Create | Duo/Repositories/UserRepository.cs:24-27 | fails with ArgumentNull("dataLink") exactly when the data link is null |
| UserRepositories.UserRepository.GetUserByUsername | Duo/Repositories/UserRepository.cs:34-65 | a blank name fails before any query; otherwise a new copy of the first row with that name, or null |
| UserRepositories.UserRepository.GetUserByEmail | Duo/Repositories/UserRepository.cs:72-103 | a blank e-mail fails before any query; otherwise a new copy of the first row with that e-mail, or null |
| UserRepositories.UserRepository.CreateUser | Duo/Repositories/UserRepository.cs:110-139 | a null user fails with ArgumentNull("user") and the store is unchanged; otherwise the row is inserted, one create is logged, and the new id is returned |
| UserRepositories.UserRepository.UpdateUser | Duo/Repositories/UserRepository.cs:145-171 | a null user fails with ArgumentNull("user") and the store is unchanged; otherwise the row is overwritten by id and one update is logged |
| UserRepositories.UserRepository.ValidateCredentials | Duo/Repositories/UserRepository.cs:179-183 | equals `CheckCredentials` on the current table |
| UserRepositories.UserRepository.GetUserByCredentials | Duo/Repositories/UserRepository.cs:191-200 | fails exactly when validation fails; non-null exactly when validation is true, and then it is the looked-up user |
| UserRepositories.UserRepository.GetTopUsersByCompletedQuizzes | Duo/Repositories/UserRepository.cs:206-226 | the quiz rows numbered 1..N with the global image prefix |
| UserRepositories.UserRepository.GetTopUsersByAccuracy | Duo/Repositories/UserRepository.cs:232-252 | the accuracy rows numbered 1..N with the global image prefix |
| UserRepositories.UserRepository.GetUserStats | Duo/Repositories/UserRepository.cs:259-281 | null when no row has the id; otherwise a new user equal to `StatsOf` that row |
| UserRepositories.UserRepository.GetAllAchievements | Duo/Repositories/UserRepository.cs:287-304 | every definition, in stored order |
| UserRepositories.UserRepository.GetUserAchievements | Duo/Repositories/UserRepository.cs:311-334 | exactly the defined achievements awarded to the user |
| UserRepositories.UserRepository.AwardAchievement | Duo/Repositories/UserRepository.cs:341-351 | one award row and one logged award |
| FriendsRepositories.FriendsRepository.Create | Duo/Repositories/FriendsRepository.cs:21-24 | fails with ArgumentNull("dataLink") exactly when the data link is null |
| FriendsRepositories.FriendsRepository.AddFriend | Duo/Repositories/FriendsRepository.cs:26-34 | exactly one add-friend write with both ids |
| FriendsRepositories.FriendsRepository.GetTopFriendsByCompletedQuizzes | Duo/Repositories/FriendsRepository.cs:36-61 | the user's friend rows by quizzes, numbered 1..N with the "../../Assets/" prefix; no rows give an empty list |
| FriendsRepositories.FriendsRepository.GetTopFriendsByAccuracy | Duo/Repositories/FriendsRepository.cs:62-86 | the user's friend rows by accuracy, numbered 1..N with the "../../Assets/" prefix; no rows give an empty list |
| LeaderboardServices.Dispatch | Duo/Services/LeaderboardService.cs:20-36 | succeeds exactly for the two criteria strings and picks the matching board; anything else fails with "Invalid criteria" |
| LeaderboardServices.DispatchIsCaseSensitive | Duo/Services/LeaderboardService.cs:23-28 | illustrates the ordinal comparison already implied by `Dispatch`: "completedquizzes", "accuracy" and "" are rejected |
| LeaderboardServices.LeaderboardService.Create | Duo/Services/LeaderboardService.cs:14-18 | the user repository is checked first and the friends repository second; each null gives ArgumentNull with that parameter's name |
| LeaderboardServices.LeaderboardService.GetGlobalLeaderboard | Duo/Services/LeaderboardService.cs:20-36 | the dispatch over the two global boards, calling only the chosen query |
| LeaderboardServices.LeaderboardService.GetFriendsLeaderboard | Duo/Services/LeaderboardService.cs:37-53 | the same dispatch over the user's two friends boards |
| LeaderboardServices.LeaderboardService.UpdateUserScore | Duo/Services/LeaderboardService.cs:56-59 | changes nothing |
| LeaderboardServices.LeaderboardService.CalculateRankChange | Duo/Services/LeaderboardService.cs:60-63 | changes nothing |
| LeaderboardViewModels.FirstOrDefault | Duo/ViewModels/LeaderboardViewModel.cs:36 | absent exactly when no entry has the id; otherwise the first entry with it |
| LeaderboardViewModels.IndexOf | Duo/ViewModels/LeaderboardViewModel.cs:41 | -1 exactly when the entry is absent; otherwise the position of its first occurrence |
| LeaderboardViewModels.CurrentUserRank | Duo/ViewModels/LeaderboardViewModel.cs:36-41 | -1 or a value in 1..N; -1 exactly when no entry has the id; otherwise the entry at rank - 1 has the id and none before it does |
| LeaderboardViewModels.RankIsStoredRank | Duo/ViewModels/LeaderboardViewModel.cs:41 | on a board the repositories built, the looked-up rank equals that entry's stored rank |
| LeaderboardViewModels.RankAbsentIffNoRow | Duo/ViewModels/LeaderboardViewModel.cs:36-40 | on such a board, the rank is -1 exactly when no row has the user's id |
| LeaderboardViewModels.LeaderboardViewModel.Create | Duo/ViewModels/LeaderboardViewModel.cs:14-17 | fails with ArgumentNull("leaderboardService") exactly when the service is null |
| LeaderboardViewModels.LeaderboardViewModel.GetGlobalLeaderboard | Duo/ViewModels/LeaderboardViewModel.cs:23-26 | the service's global board, error included |
| LeaderboardViewModels.LeaderboardViewModel.GetFriendsLeaderboard | Duo/ViewModels/LeaderboardViewModel.cs:28-31 | the service's friends board, error included |
| LeaderboardViewModels.LeaderboardViewModel.GetCurrentUserGlobalRank | Duo/ViewModels/LeaderboardViewModel.cs:33-42 | an invalid criteria propagates "Invalid criteria"; otherwise `CurrentUserRank` on the global board |
| LeaderboardViewModels.LeaderboardViewModel.GetCurrentUserFriendsRank | Duo/ViewModels/LeaderboardViewModel.cs:44-53 | the same on the user's friends board |
| Login.SignedIn | Duo.Tests/Services/LoginServiceTests.cs:53-106 | fails exactly on a blank name; a user exactly when the credentials validate, and then it is the looked-up user with online set |
| Login.SignInIsStable | Duo.Tests/Services/LoginServiceTests.cs:76-106 | after the online write, the credentials still validate and the lookup returns the written user |
| Login.LoginService.Create | Duo.Tests/Services/LoginServiceTests.cs:23-27 | fails with ArgumentNull("userRepository") exactly when the repository is null |
| Login.LoginService.AuthenticateUser | Duo.Tests/Services/LoginServiceTests.cs:33-47 | exactly the repository's credential check |
| Login.LoginService.GetUserByCredentials | Duo.Tests/Services/LoginServiceTests.cs:53-106 | on success, one update with online true and that user is returned; otherwise null is returned and nothing is written |
| Login.LoginService.UpdateUserStatusOnLogout | Duo.Tests/Services/LoginServiceTests.cs:112-141 | null fails with ArgumentNull("user"); otherwise the user goes offline with last activity "now", and exactly that user is written once |
| Login.LoginViewModel.Create | Duo.Tests/ViewModels/LoginViewModelTests.cs:33-37 | fails with ArgumentNull("loginService") exactly when the service is null; a new form is logged out |
| Login.LoginViewModel.AttemptLogin | Duo.Tests/ViewModels/LoginViewModelTests.cs:43-115 | an empty name or password sets the status false and makes no call; otherwise the signed-in user is the service's result, the status says whether there is one, and the service's write happens |
| ProfileServices.MetricsOf | TestsDuo2/Services/ProfileServiceTests.cs:121-171 | the engine reads the user's streak, quiz and course counters |
| ProfileServices.PassGrants | TestsDuo2/Services/ProfileServiceTests.cs:95-243 | the ids one pass awards: at most one per definition and none the user's achievement query already returns (partners: `PassNeverRegrants`, `PassAwardsEveryEarned`, `SecondPassAwardsNothing`) |
| ProfileServices.PassNeverRegrants | TestsDuo2/Services/ProfileServiceTests.cs:218-243 | a pass never awards an id the user already holds, and awards only earned definitions |
| ProfileServices.PassAwardsEveryEarned | TestsDuo2/Services/ProfileServiceTests.cs:193-215 | with distinct ids, every earned definition the user does not hold is awarded exactly once |
| ProfileServices.SecondPassAwardsNothing | TestsDuo2/Services/ProfileServiceTests.cs:218-243 | after a pass's awards are stored, a second pass with the same counters awards nothing |
| ProfileServices.ProfileService.Create | TestsDuo2/Services/ProfileServiceTests.cs:26-30 | fails with ArgumentNull("userRepository") exactly when the repository is null |
| ProfileServices.ProfileService.CreateUser | TestsDuo2/Services/ProfileServiceTests.cs:33-43 | exactly one repository insert of that user |
| ProfileServices.ProfileService.UpdateUser | TestsDuo2/Services/ProfileServiceTests.cs:46-56 | exactly one repository update of that user |
| ProfileServices.ProfileService.GetUserStats | TestsDuo2/Services/ProfileServiceTests.cs:59-72 | the repository's statistics object for the id |
| ProfileServices.ProfileService.GetUserAchievements | TestsDuo2/Services/ProfileServiceTests.cs:75-92 | the repository's list of the user's achievements |
| ProfileServices.ProfileService.AwardAchievements | TestsDuo2/Services/ProfileServiceTests.cs:95-243 | the award rows and log entries added are exactly `PassGrants`, in definition order |
| ProfileServices.ProfileService.AwardGrantable | TestsDuo2/Services/ProfileServiceTests.cs:118-243 | the pass's loop: one award per grantable definition, in order, against the ids held before the pass |
| ResetPassword.ResetRecord | Duo/ViewModels/ResetPassViewModel.cs:96 | a reset writes the e-mail's first row with only the password replaced; with no row there is nothing to write |
| ResetPassword.ResetEnablesLogin | Duo/ViewModels/ResetPassViewModel.cs:88-97 | after a reset, the user's name validates with the new password |
| ResetPassword.ForgotPassService.constructor | Duo/ViewModels/ResetPassViewModel.cs:58 | a new service holds no code |
| ResetPassword.ForgotPassService.SendVerificationCode | Duo/Constants/ApplicationConstants.cs:13-18 | holds one code in [100000, 999999] for the e-mail, replacing any earlier one; reports success |
| ResetPassword.ForgotPassService.VerifyCode | Duo/ViewModels/ResetPassViewModel.cs:79 | true exactly when the text is the held code in decimal; a verified text has six characters |
| ResetPassword.ForgotPassService.ResetPassword | Duo/ViewModels/ResetPassViewModel.cs:96 | a blank e-mail fails; false when no row has the e-mail, with nothing written; otherwise `ResetRecord` is written once and the result is true |
| ResetPassword.IssuedCodeVerifies | Duo/Constants/ApplicationConstants.cs:13-18 | a held code verifies as its six-digit text, and keeps verifying |
| ResetPassword.ResetPassViewModel.constructor | Duo/ViewModels/ResetPassViewModel.cs:20-59 | all text fields are empty, the code is not verified, and the service is new |
| ResetPassword.ResetPassViewModel.Create | Duo/ViewModels/ResetPassViewModel.cs:51-59 | fails with ArgumentNull("userRepository") exactly when the repository is null |
| ResetPassword.ResetPassViewModel.SendVerificationCode | Duo/ViewModels/ResetPassViewModel.cs:66-70 | records the e-mail, then the service holds a code for it |
| ResetPassword.ResetPassViewModel.VerifyCode | Duo/ViewModels/ResetPassViewModel.cs:77-81 | the returned value and the verified flag are both the service's verdict |
| ResetPassword.ResetPassViewModel.ResetPassword | Duo/ViewModels/ResetPassViewModel.cs:88-97 | when the form passwords differ: false, "Passwords don't match!", no write; otherwise the service's reset of the recorded e-mail, whether or not the code was verified |
| ProfileViewModels.SavedProfile | Duo/ViewModels/ProfileViewModel.cs:34-40 | privacy always becomes the choice; the image changes only for a non-blank new image; nothing else changes |
| ProfileViewModels.SaveIsIdempotent | Duo/ViewModels/ProfileViewModel.cs:34-40 | saving the same choices twice equals saving them once |
| ProfileViewModels.ProfileViewModel.Create | Duo/ViewModels/ProfileViewModel.cs:13-17 | a null service gives ArgumentNull("profileService") and is checked first; a null user gives ArgumentNull("user") |
| ProfileViewModels.ProfileViewModel.CreateFromSession | Duo/ViewModels/ProfileViewModel.cs:19-25 | a null service fails; the current user is the session's user, possibly null |
| ProfileViewModels.ProfileViewModel.SaveChanges | Duo/ViewModels/ProfileViewModel.cs:27-43 | without a current user it fails with InvalidOperation and writes nothing; otherwise the user becomes `SavedProfile` and exactly that user is written once |
| ProfileViewModels.ProfileViewModel.GetUserStats | Duo/ViewModels/ProfileViewModel.cs:45-53 | without a current user it fails with InvalidOperation; otherwise the statistics for the current user's id |

## Left out

- The leaderboard row sets (`topUsersBy*`, `topFriendsBy*`) and the achievement definitions are fixed inputs of `DataStore`. In the program, the stored procedures compute those rows from the same users and friendship tables that the writes change. In the model, no write procedure changes them. After `AddFriend`, the friends leaderboard does not gain the friend. After a profile save, the global leaderboard still shows the old picture and name. So the model claims nothing about how a write affects a later leaderboard.
- SQL access, stored procedures and the wrapping of `SqlException` in a general exception are not modelled. The store is `DataStore`: each query reads its contents, and each write procedure appends to its log.
- C# `null` strings are not modelled: every string is a value. The `?? string.Empty` and `?? DBNull.Value` substitutions in the insert and update parameters therefore do nothing here.
- `DateTime` is modelled as whole seconds on one clock. "Now" is a parameter, the elapsed time is `now` minus the activity time, and sub-second precision is dropped. The award date is not stored.
- The decimal accuracy is a `real` payload. Nothing in the modelled code compares it.
- The random draw of the verification code is an arbitrary value within the bounds. The simulated sending delay and the `async` suspension are not modelled. The source file of `ForgotPassService` is not part of this model; the class's behaviour is the model's own assumption, described above.
- The source files of `LoginService`, `LoginViewModel` and `ProfileService` are not part of this model. The classes are modelled, and their behaviour is what their unit tests fix. Where the tests leave a choice, the model takes one. The empty-input guard of `AttemptLogin` is `string.IsNullOrEmpty`, so a white-space-only name reaches the service, whose lookup then throws. When the guard fails, the signed-in user is left as it was. Category keywords are tried in the order Streak, Quizzes Completed, Courses Completed. A metric equal to its threshold qualifies, and this comparison is the one predicate `Qualifies`.
- Login.LoginService.Create: the tests do not exercise a null repository. The null check is modelled like the other constructors.
- UserRepositories.IdFromScalar: the store always returns the new identity, so the -1 branch for a null scalar is stated and proved only on the conversion function.
- Achievements.GetAchievementThreshold has no 32-bit overflow: a leading number above the `int` range parses to its full value.
- `LeaderboardEntry` is a value, not a reference. `IndexOf` finds the first equal entry. Earlier entries carry other user ids, so this is the same position the reference search finds.
- `UserRepository.GetFriends`, `SignUpViewModel`, the pages, the dependency-injection setup and the mock course and quiz services are not modelled: they are pass-throughs, UI code or random mock data. The session's current user is a parameter of `ProfileViewModel.CreateFromSession`.
- The properties `Rank`, `Username` and `Accuracy` of `LeaderboardViewModel` are never used by its methods and are not modelled.
