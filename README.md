# Community app: statistics aggregation, login validation, statistics page

A Dafny model of three parts of a game-lobby web application.

- **Statistics repository** (`StatisticRepository`). The game server keeps three tables: app tokens (`token`, `appName`), users (`id`, `name`, `isActive`) and play sessions (`appToken`, `userId`, `playedTime`, `scores`, `isWin`).
  - `StatisticStore` is a class holding the three tables as sequences. `SetGameResult` resolves the game's app token once. It then saves one session row per reported entry, in a loop that calls `SaveStatistic`, and updates the row sequence in place.
  - The three read projections (`getRecentGames`, `getMostPopularGames`, `getBestUsers`) are functions over the rows, proved with lemmas.
  - The source resolves some errors as ordinary values, and the model keeps that. `setGameResult` resolves with `true` or the refusal message (`GameResultValue`). `getRecentGames` resolves with the list or with the caught error object (`Resolution`). On the paths modelled, only `getBestUsers` rejects (`Settled`). `getMostPopularGames` also rejects (lines 122, 158, 160), but only on the query and service failures listed under "## Left out".
  - The score of a user is computed with JavaScript semantics (`JsNumber`). A session with `playedTime` 0 maps to `undefined`, and `undefined` or `NaN` in the sum poisons it. As a result, such a user can never be among the best users.
- **Login form** (`LoginForm`). JavaScript arrays are the class `JsArray`, with in-place `push` and `splice`. `removeElFromArrByValue` splices the array it is given, and its `if (index)` test is modelled exactly. `checkValidation` rebuilds the error lists and the validity flags. Its e-mail half and its password half are two helper methods, `BuildEmailErrors` and `BuildPasswordErrors`. `onBlur` updates the `touched` map and then validates. The submit button's `disabled` condition is a function.
- **Statistics page** (`StatisticPage`). This part covers:
  - the failure-edge detection of `componentWillReceiveProps` and the `dataForSnack` log it appends to;
  - the loads `componentWillMount` requests;
  - the computations of `render`: the assigning filter over `dataForSnack`, and the loaded, failed and spinner flags.

Some things are given to the model from outside rather than computed by it:
- The service computations `calculatePlayedTime`, `calculatePlayedInWeek` and `sortBy` are function-typed parameters.
- The e-mail pattern is a constant field of type `string -> bool`.
- The rows a query returns are the store's rows filtered in table order. For `getRecentGames`, the caller passes the list already in `createdAt`-descending order.

Behaviour of the code that the model keeps as written:
- A zero-`playedTime` session makes the score `undefined` or `NaN`; it does not add 0 (`ZeroTimeSessionSpoilsScore`).
- `setGameResult` and `getRecentGames` resolve with their errors as values. On the paths modelled only `getBestUsers` rejects; `getMostPopularGames` and `getBestUsers` also reject on the query and service failures listed under "## Left out".
- The order of the popular games and of the best users is whatever `sortBy` gives; `sortBy` belongs to a service whose code is not part of this model.
- The password length test counts UTF-16 code units, as JavaScript's `.length` does (`Utf16Length`).

## Model

| member | source | states |
|---|---|---|
| `StatisticRepository.FirstTokenIndex` | server/src/service/statistic/statistic.repository.implementation.ts:136-138 | the index is -1 iff no app-token row carries the token, and otherwise it is the first row that does |
| `StatisticRepository.FindToken` | server/src/service/statistic/statistic.repository.implementation.ts:36-40 | a row is found iff the token is registered, and the row found carries that token and is in the table |
| `StatisticRepository.FindUniqueToken` | server/src/service/statistic/statistic.repository.implementation.ts:136-138 | when tokens are pairwise distinct, the lookup of a row's token returns that very row |
| `StatisticRepository.RowsOfUser` | server/src/service/statistic/statistic.repository.implementation.ts:171-173 | each row of the user occurs in the result exactly as often as in the store, and no row of another user occurs; nothing is returned for a user without rows |
| `StatisticRepository.RowsOfUserKeepsOrder` | server/src/service/statistic/statistic.repository.implementation.ts:171-173 | the query keeps store order: the result for a concatenation is the result for the first part followed by the result for the second |
| `StatisticRepository.RowsWithToken` | server/src/service/statistic/statistic.repository.implementation.ts:103-105 | each row of the token occurs in the result exactly as often as in the store, and no row of another token occurs; nothing is returned for a token without sessions |
| `StatisticRepository.RowsWithTokenKeepsOrder` | server/src/service/statistic/statistic.repository.implementation.ts:103-105 | the query keeps store order: the result for a concatenation is the result for the first part followed by the result for the second |
| `StatisticRepository.Tagged` | server/src/service/statistic/statistic.repository.implementation.ts:218-224 | the row built for an entry carries the token, and dropping the token gives the entry back unchanged |
| `StatisticRepository.TagAll` | server/src/service/statistic/statistic.repository.implementation.ts:44-46 | the batch gives one row per entry, at the same position, each carrying the token and giving back its entry |
| `StatisticRepository.StatisticStore.SaveStatistic` | server/src/service/statistic/statistic.repository.implementation.ts:217-228 | appends exactly one row built from the token and the entry, and reports true |
| `StatisticRepository.StatisticStore.SetGameResult` | server/src/service/statistic/statistic.repository.implementation.ts:33-55 | the result is true iff the token is non-empty and registered. Otherwise the result is the refusal message and no row is saved. On success the new rows are exactly the tagged entries, in order |
| `StatisticRepository.AppNames` | server/src/service/statistic/statistic.repository.implementation.ts:67-73 | the name lookups succeed iff every fetched row's token is registered. Each name is then the appName of the first app-token row with that row's token |
| `StatisticRepository.GetRecentGames` | server/src/service/statistic/statistic.repository.implementation.ts:60-93 | no rows gives the empty list. The caught error is returned iff some row's token is unregistered. Otherwise there is one entry per row in fetch order, with the game named after that row's token and the row's playedTime and isWin copied |
| `StatisticRepository.RecentGamesOfUserWithoutRows` | server/src/service/statistic/statistic.repository.implementation.ts:61-88 | a user with no rows in the store gets the empty list, whatever order the store returns |
| `StatisticRepository.Totals` | server/src/service/statistic/statistic.repository.implementation.ts:100-123 | there is one totals record per registered token, in table order, carrying that token |
| `StatisticRepository.Named` | server/src/service/statistic/statistic.repository.implementation.ts:134-149 | each record is named by the first app-token row with its token, and its times are kept |
| `StatisticRepository.PopularGamesUnsorted` | server/src/service/statistic/statistic.repository.implementation.ts:100-149 | before sorting there is exactly one entry per registered token, sessions or not, with times computed from that token's rows and the name of the first row with that token |
| `StatisticRepository.PopularGamesOwnName` | server/src/service/statistic/statistic.repository.implementation.ts:134-138 | when tokens are distinct, each entry bears its own token's appName. A token without sessions gets the times computed from no rows |
| `StatisticRepository.MostPopularGamesListsEveryGame` | server/src/service/statistic/statistic.repository.implementation.ts:95-163 | with distinct tokens and a sortBy that keeps the elements, the result has one entry per registered token and, as a multiset, is exactly the list of each token's game under its own name with the times of its own sessions |
| `StatisticRepository.Reduce` | server/src/service/statistic/statistic.repository.implementation.ts:185 | a reduce without an initial value gives a number iff every element is one, and then their sum. A lone undefined comes back as it is; in a longer array any non-number gives NaN |
| `StatisticRepository.ReduceOfScores` | server/src/service/statistic/statistic.repository.implementation.ts:178-185 | the reduce of a non-empty array gives the sum of the scores when no row has playedTime 0, and no number otherwise |
| `StatisticRepository.ScoreOf` | server/src/service/statistic/statistic.repository.implementation.ts:183-186 | the score is 0 without rows. It is the sum of the scores when every row has non-zero playedTime. Otherwise it is not a number and not above 0 |
| `StatisticRepository.ZeroTimeSessionSpoilsScore` | server/src/service/statistic/statistic.repository.implementation.ts:178-186 | sessions (100 s, 5) and (0 s, 50) give NaN rather than 5. A single zero-time session gives undefined |
| `StatisticRepository.UserStatistic` | server/src/service/statistic/statistic.repository.implementation.ts:175-195 | the record carries the user's id and name and the played time of the user's rows. Its score is 0 when the user has no rows, the sum of the user's scores when none of the user's rows has playedTime 0, and never positive otherwise |
| `StatisticRepository.PositiveScores` | server/src/service/statistic/statistic.repository.implementation.ts:207 | an entry is kept iff its score is a number above 0 |
| `StatisticRepository.PositiveScoresKeepsOrder` | server/src/service/statistic/statistic.repository.implementation.ts:205-207 | the filter distributes over concatenation, so it keeps the order sortBy gave, and it leaves an all-positive list unchanged |
| `StatisticRepository.PositiveScoresMultiset` | server/src/service/statistic/statistic.repository.implementation.ts:207 | the filter keeps each record with a positive score exactly as often as it occurs, and no other record |
| `StatisticRepository.GetBestUsers` | server/src/service/statistic/statistic.repository.implementation.ts:165-215 | the call rejects iff some user is inactive, always with 'User should be Active', and every user in a resolved result has a positive numeric score |
| `StatisticRepository.InactiveUserRejects` | server/src/service/statistic/statistic.repository.implementation.ts:169-200 | one inactive user anywhere in the list rejects the whole call, whoever the other users are |
| `StatisticRepository.BestUsersMembership` | server/src/service/statistic/statistic.repository.implementation.ts:203-209 | with all users active the call resolves. For any element-preserving sortBy, a user is in the result iff their score is a number above 0, each positive record is listed exactly as often as it was built, and nothing else is listed |
| `LoginForm.IndexOf` | frontend/src/components/LoginForm/LoginForm.tsx:234 | the result is -1 iff the value is absent, and otherwise the first index holding it |
| `LoginForm.SpliceStart` | frontend/src/components/LoginForm/LoginForm.tsx:236 | a splice at a relative start begins inside the array |
| `LoginForm.RemoveByValue` | frontend/src/components/LoginForm/LoginForm.tsx:233-240 | a value at index 0 leaves the array unchanged. An absent value removes the last element, if there is one. A first occurrence at i > 0 removes exactly element i and keeps the rest in order |
| `LoginForm.JsArray.Push` | frontend/src/components/LoginForm/LoginForm.tsx:81 | appends the value at the end |
| `LoginForm.JsArray.Splice` | frontend/src/components/LoginForm/LoginForm.tsx:236 | the elements become those left by splice(start, deleteCount) |
| `LoginForm.LoginFormComponent.RemoveElFromArrByValue` | frontend/src/components/LoginForm/LoginForm.tsx:233-240 | splices the given array in place as RemoveByValue says, and returns the same array object |
| `LoginForm.EmailErrors` | frontend/src/components/LoginForm/LoginForm.tsx:77-96 | the e-mail errors are empty iff the pattern accepts. mustBeCorrect is present iff it rejects. required is present, and first, only for a rejected empty e-mail. No error occurs twice |
| `LoginForm.EmailValidity` | frontend/src/components/LoginForm/LoginForm.tsx:80-96 | the empty e-mail is judged by the pattern alone: accepted, it has no errors, since required is lost to splice(-1, 1); rejected, it has [required, mustBeCorrect] |
| `LoginForm.Utf16Length` | frontend/src/components/LoginForm/LoginForm.tsx:107 | the length of a string in UTF-16 code units is between its number of characters and twice that, and equals it when no character lies outside the Basic Multilingual Plane |
| `LoginForm.PasswordErrors` | frontend/src/components/LoginForm/LoginForm.tsx:98-114 | the password errors are empty iff the password has at least 6 UTF-16 code units. min is present iff it has fewer. required is present, and first, only for the empty password. No error occurs twice |
| `LoginForm.PasswordValidity` | frontend/src/components/LoginForm/LoginForm.tsx:107 | three emoji are a valid 6-unit password, five ASCII letters get [min], and the empty password gets [required, min] |
| `LoginForm.LoginFormComponent.constructor` | frontend/src/components/LoginForm/LoginForm.tsx:29-32 | the form starts from the given initial state, error lists included |
| `LoginForm.RemoveAbsentFromShortList` | frontend/src/components/LoginForm/LoginForm.tsx:233-240 | on a list of at most one element that lacks the value, the helper leaves the list empty |
| `LoginForm.LoginFormComponent.BuildEmailErrors` | frontend/src/components/LoginForm/LoginForm.tsx:77-96 | builds a fresh array of e-mail errors: [mustBeCorrect] for a rejected non-empty e-mail, [required, mustBeCorrect] for a rejected empty one, and [] whenever the pattern accepts |
| `LoginForm.LoginFormComponent.BuildPasswordErrors` | frontend/src/components/LoginForm/LoginForm.tsx:98-114 | builds a fresh array of password errors: [required, min] for an empty password, [min] when it has fewer than 6 UTF-16 code units, and [] otherwise |
| `LoginForm.LoginFormComponent.CheckValidation` | frontend/src/components/LoginForm/LoginForm.tsx:76-129 | the error lists become the ones the push and splice steps produce. Each validity flag is true iff its list is empty. Submit is disabled iff the pattern rejects the e-mail or the password has fewer than 6 UTF-16 code units. Nothing else changes |
| `LoginForm.LoginFormComponent.OnBlur` | frontend/src/components/LoginForm/LoginForm.tsx:131-139 | touched[field] becomes true and every other touched entry is unchanged, and then the form is validated |
| `LoginForm.LoginFormComponent.SubmitDisabled` | frontend/src/components/LoginForm/LoginForm.tsx:220 | when the flags agree with the lists, the button is disabled iff either error list is non-empty |
| `StatisticPage.FailureMessages` | frontend/src/scenes/Statistic/StatisticPage.tsx:25-65 | each message is appended iff its status is FAILED now and was not FAILED before, with type error, and nothing else is appended. Something is appended iff the snackbar is opened |
| `StatisticPage.FailureMessagesOrder` | frontend/src/scenes/Statistic/StatisticPage.tsx:38-57 | whatever edges fire, the messages come in the order best users, recent games, most popular games, no message twice and at most three; with all three edges the list is exactly the three messages |
| `StatisticPage.NoRepeatWhileStillFailed` | frontend/src/scenes/Statistic/StatisticPage.tsx:25-36 | unchanged statuses append nothing, so a failure is reported once per edge |
| `StatisticPage.IsDataLoaded` | frontend/src/scenes/Statistic/StatisticPage.tsx:100-103 | the data is loaded iff all three loads ended the same way and that way is COMPLETED |
| `StatisticPage.IsDataFailed` | frontend/src/scenes/Statistic/StatisticPage.tsx:105-108 | the data is failed iff all three loads ended the same way and that way is FAILED; it is then never loaded |
| `StatisticPage.ShowsSpinner` | frontend/src/scenes/Statistic/StatisticPage.tsx:146-152 | the tables replace the spinner exactly when all three loads ended the same way, all completed or all failed |
| `StatisticPage.SpinnerOnMixedOutcome` | frontend/src/scenes/Statistic/StatisticPage.tsx:146-152 | with one dataset completed and another failed, the spinner is shown and the tables never are |
| `StatisticPage.MarkedAsErrors` | frontend/src/scenes/Statistic/StatisticPage.tsx:98 | the filter keeps every entry with its message, and every entry's type becomes error |
| `StatisticPage.MarkedAsErrorsKeepsErrorEntries` | frontend/src/scenes/Statistic/StatisticPage.tsx:98 | entries already typed error come through the filter unchanged |
| `StatisticPage.CaStatisticPageComponent.constructor` | frontend/src/scenes/Statistic/StatisticPage.tsx:23 | the page starts with an empty dataForSnack |
| `StatisticPage.CaStatisticPageComponent.MountRequests` | frontend/src/scenes/Statistic/StatisticPage.tsx:72-84 | each dataset is requested iff its list is empty, recent games with the current user's id, in the order best users, most popular games, recent games, so each request at most once |
| `StatisticPage.CaStatisticPageComponent.ComponentWillReceiveProps` | frontend/src/scenes/Statistic/StatisticPage.tsx:24-66 | dataForSnack only grows, by exactly the failure-edge messages. openSnackbar is dispatched iff some edge fired. The props become the new props |
| `StatisticPage.CaStatisticPageComponent.Render` | frontend/src/scenes/Statistic/StatisticPage.tsx:97-108 | every entry's type is rewritten to error, the error messages are all of dataForSnack, and the spinner flag is ShowsSpinner |

## Left out

- Persistence failures are not modelled: in the model every query answers and every save succeeds. In statistic.repository.implementation.ts:
  - the `.catch` arms at lines 92, 160 and 213 fire only when a `findAll` query rejects (lines 61, 98, 167);
  - line 229 turns a failed save into a resolved value, so no save promise rejects and the arm at line 52 has nothing to catch;
  - line 57 also catches a rejected token lookup (line 36), and a throw from `JSON.parse` (line 43) or `statistic.map` (line 44), which the model excludes by taking the entries already parsed;
  - line 90 also catches a rejected `AppTokenModel.find` (line 68); the TypeError of `row.appName` on a missing row (line 69), which it catches too, is modelled as `CaughtError`;
  - lines 122, 158, 160, 197, 211 and 213 call `reject(err)`, so `getMostPopularGames` and `getBestUsers` reject on these failures, where `getRecentGames` (lines 90, 92) resolves with the error;
  - lines 122, 158, 197 and 211 also catch a query rejection or a throw from `calculatePlayedTime`, `calculatePlayedInWeek` or `sortBy`, which the model takes to be total functions.
- `JSON.parse` of the payload (line 43) is not modelled: the entries arrive as a parsed list.
- `calculatePlayedTime`, `calculatePlayedInWeek` and `sortBy` belong to `StatisticService`, which is not part of this model. They are parameters. `calculatePlayedInWeek` depends on the wall clock. The direction of `sortBy` cannot be stated, so the membership lemmas assume only that it keeps the elements.
- StatisticRepository.GetMostPopularGames and StatisticRepository.GetBestUsers: the order of their results is whatever `sortBy` gives, so no order is stated; nor is how a game's played time relates to its sessions, which is up to `calculatePlayedTime`.
- `createdAt` is not modelled. The recency order of `getRecentGames` is an input, not proved.
- Promise scheduling is not modelled. The model is sequential. Which error wins `Promise.all` when several lookups fail is timing-dependent, so the caught error carries no detail.
- JavaScript numbers are doubles. The model uses unbounded integers, so rounding and overflow are out of scope.
- The validation messages and `initLoginFormState` are defined outside the modelled files. The messages are four distinct values, and the initial state, error lists included, is passed to the constructor. `emailRegExp` is an uninterpreted `string -> bool`.
- `isEmpty` (both the server's and the front end's) is defined outside the modelled files. It is taken to be true exactly for an empty array.
- Utf16Length: a JavaScript string may hold an unpaired surrogate, which a Dafny `char` cannot; such passwords are not represented.
- The React-only parts of `LoginForm.tsx` are not modelled: `componentDidMount`, `onChange`, `onSubmit`, `closeSnackbar`, the JSX and `setState` batching. Two conditions in them are left out with them:
  - `componentWillReceiveProps` (lines 39-48) redirects once authorized, and opens the snackbar only when the new `errors` are non-empty and differ from the current ones (`isObjectsEqual`, defined outside the modelled files);
  - the JSX shows a field's errors only when that field is invalid and touched (lines 180-183, 203-206), which is where the `touched` map that `OnBlur` updates is read.
- The React-only parts of `StatisticPage.tsx` are not modelled: `componentDidMount` (redirect), `logoutUser`, `closeSnackbar` and the JSX. The `LoadStatus` enumeration is not part of this model, so statuses other than COMPLETED and FAILED are `Other(name)`.
- Snackbar entries are values. The filter at line 98 mutates the entry objects through the array, and the model rewrites the sequence instead. Object aliasing between `dataForSnack` and `errorMessages` is not represented.
- `frontend/src/scenes/Root/Root.tsx`, `frontend/src/components/GameCard/GameCard.tsx` and `frontend/src/store/auth/auth.effects.ts` are not part of this model. They contain routing, rendering, and HTTP and cookie effects.
