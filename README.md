# CashControl core in Dafny

This is a model of the service layer of CashControl, a Go backend for personal expense tracking with a Telegram Mini App front end, together with proofs about that model. The model covers:

- **Telegram Mini App login** (`internal/services/auth_service.go`).
  - The init data is verified: the `hash` field is extracted and removed, and `auth_date` must be a decimal `int64` no more than 24 hours old. The model's validator tests the exact age. The code's test at `internal/services/auth_service.go:218` subtracts in `int64`, which wraps around; it is modelled separately (see Findings).
  - The data-check string is the sorted `key=firstValue` lines joined by `\n`. Its two-level HMAC-SHA256 must equal `hash`. The Telegram id comes from `id` or from the `user` JSON.
  - Login finds the account by Telegram id. If there is none, it creates the account and seeds the four default categories. A missing chat id is backfilled. A 24-hour JWT is then issued.
  - Password registration and login are guard chains over the same user store.
- **Budgets** (`internal/services/budget_service.go`):
  - validation on create, and the one-budget-per-month guard;
  - the field-by-field, non-atomic patch of a fetched budget;
  - update and delete of an unknown id;
  - the spent amount of a month, summed in a loop;
  - the status: remaining amount clamped at 0, percentage, exceeded and near-limit flags.
- **Statistics windows** (`internal/services/statistics_service.go`): the start of the current day, ISO week, month or year in UTC; the query over `[start, now]`; and the fix-up of the period and the average.
- **Notifications** (`internal/services/notification_service.go`): chat id 0 is refused, and a user is messaged at the chat id, else at the Telegram id, else not at all.
- **The user record** (`internal/models/user.go`):
  - every identity anchor is optional;
  - `telegram_id`, `email` and `username` have unique indexes;
  - the binding tags of the request types.
  - It also has the `telegram_chat_id` column that the services use but the struct in that file does not declare.

## Structure of the model

| file | module | contents |
|---|---|---|
| `base.dfy` | `Base` | `Option`, `Result`, `int64` and its wrap-around, Go strings as bytes, store errors and lookups. |
| `byte_strings.dfy` | `ByteStrings` | The bytewise order, `sort.Strings` and `strings.Join`. |
| `decimal.dfy` | `Decimal` | `strconv.ParseInt(s, 10, 64)`, with `FormatInt` as its inverse. |
| `calendar.dfy` | `Calendar` | Proleptic Gregorian day numbers and the weekday. The normalisation of an out-of-range month is the one `time.Date` performs. |
| `users.dfy` | `Users` | The `User` record, the request types, the unique indexes, and the user repository as a class. |
| `init_data.dfy` | `InitData` | `validateTelegramInitData`. |
| `auth.dfy` | `Auth` | The categories and their repository, the token claims, `Register`, `Login`, `LoginWithTelegram` and `createDefaultCategories`. |
| `budget.dfy` | `Budgets` | The budget record and the in-place `Budget` object, the tables, the expense listing and the budget service. |
| `statistics.dfy` | `Statistics` | `GetStatistics`. |
| `notification.dfy` | `Notifications` | `SendToChat` and `SendToUser`. |

How each part is modelled:

- **Store-changing operations.** Each is a method of a class whose fields are the store's rows. That class is a repository, or a service that holds repositories. The method's `ensures` ties the result and the new rows to a function of the old rows (`TelegramLogin`, `RegisterOutcome`, `CreateOutcome`, `UpdateOutcome`, `DeleteOutcome`). The properties are lemmas about those functions.
- **Store faults.** What the database may answer on a given call (an error instead of a row, a failed insert) is an explicit parameter, such as `TelegramFaults` or `BudgetFaults`, because the store is an external collaborator.
- **Map iteration order.** The order in which Go iterates the `url.Values` map is modelled by arbitrary choice in the loop of `InitData.DataCheckPairs`. The lemma `InitData.CheckStringIsOrderIndependent` proves that the result never depends on it.
- **Where the description of the system and the code differ, the model follows the code:**
  - `hash` is compared with plain `!=`, not in constant time. The timing is not modelled.
  - A `user` JSON object without `id` yields Telegram id 0 and no error. It is not a missing-identity error, and `LoginWithTelegram` then finds or creates the account with Telegram id 0.
  - A unique-constraint violation when the Telegram user is created is returned to the caller. There is no retry and no re-fetch.
  - `validateRegister` checks that the email and the username are non-empty and that the password has at least 6 bytes. The `min=3` and `min=6` binding tags count characters and are checked by the HTTP handler. `Auth.BindingImpliesValidRegister` proves that the tags imply the service's checks.
  - The token is signed even when the account was created a moment before. A signing failure after a create therefore returns an error while the new account stays stored (`Auth.RegisterOk`).

## Model

| member | source | states |
|---|---|---|
| Base.Wrap64 | internal/services/auth_service.go:218 | Go `int64` subtraction as exact arithmetic reduced modulo 2^64: the identity when nothing overflows, congruent to the exact value otherwise. |
| ByteStrings.Sort | internal/services/auth_service.go:227 | `sort.Strings` yields the lines in ascending bytewise order, each as often as it occurs (a permutation). |
| ByteStrings.SortedUnique | internal/services/auth_service.go:227 | A sorted sequence is determined by its multiset of lines. |
| ByteStrings.SortPermutationInvariant | internal/services/auth_service.go:224-227 | Lines collected in any order sort to the same sequence. |
| ByteStrings.BelowTotal | internal/services/auth_service.go:227 | The bytewise order is total: of two different strings, one sorts before the other. |
| ByteStrings.PrefixSortsFirst | internal/services/auth_service.go:227 | A string sorts before every proper extension of it, and not after it. |
| ByteStrings.Join | internal/services/auth_service.go:229 | `strings.Join` gives a length of the total plus one separator per gap, an empty result with no lines, and the first line as a prefix. |
| ByteStrings.JoinSnoc | internal/services/auth_service.go:229 | Joining one more line appends exactly one separator and then that line, so separators sit only between lines and none trails. |
| Decimal.ParseInt64 | internal/services/auth_service.go:213-216 | A parse succeeds only on non-empty input; a leading `-` gives a non-positive value and anything else a non-negative one. |
| Decimal.DigitsParse | internal/services/auth_service.go:213-216 | A run of digits in `int64` range parses to its value; one out of range is rejected, which the validator reports as `AuthDateInvalid`. |
| Decimal.MinusNegates | internal/services/auth_service.go:213-216 | A leading `-` negates the digits' value, down to −2^63; anything beyond is rejected. |
| Decimal.PlusIgnored | internal/services/auth_service.go:213 | A leading `+` does not change the result. |
| Decimal.LeadingZeroIgnored | internal/services/auth_service.go:213 | Leading zeros do not change the result (`007` is 7). |
| Decimal.ParseFormatRoundTrip | internal/services/auth_service.go:213 | Every `int64` written in decimal parses back to itself. |
| Decimal.ParsedHasDecimalShape | internal/services/auth_service.go:213-216 | Whatever parses is an optional sign followed by at least one decimal digit. |
| Calendar.NormalizeMonth | internal/services/budget_service.go:398-399 | `time.Date` carries an out-of-range month into the neighbouring years, keeping 12·year + month. |
| Calendar.MonthLength | internal/services/budget_service.go:399 | The first of the next month is `DaysInMonth` days after the first of this one, including across a year boundary. |
| Calendar.YearLength | internal/services/statistics_service.go:57-61 | A year has 365 days, 366 in a leap year. |
| Calendar.Weekday | internal/services/statistics_service.go:41 | `time.Weekday` is in 0..6, with 0 for Sunday. |
| Users.Utf8LenAtLeastRunes | internal/models/user.go:31 | Go's `len` of a string is at least its number of characters. |
| Users.FindByTelegramID | internal/services/auth_service.go:161 | Returns a stored user with that Telegram id, or none exactly when no user has it. |
| Users.FindByEmail | internal/services/auth_service.go:62 | Returns a stored user with that email, or none exactly when no user has it. |
| Users.FindByID | internal/services/notification_service.go:48 | Returns a stored user with that id, or none exactly when no user has it. |
| Users.FindFirst | internal/models/user.go:11-26 | A `First` lookup returns a stored row that matches, and returns none exactly when no row matches. |
| Users.TelegramIdIdentifiesUser | internal/models/user.go:14 | Under the unique index on `telegram_id`, the lookup by Telegram id finds the one user that has it. |
| Users.EmailIdentifiesUser | internal/models/user.go:16 | Under the unique index on `email`, the lookup by email finds the one user that has it. |
| Users.FindByIDIsPosition | internal/services/notification_service.go:48 | With ids assigned in insertion order, the user with id `k` is the `k`-th row. |
| Users.InsertUser | internal/models/user.go:14-17 | Create succeeds iff the store is healthy and no present anchor collides; the row gets the next id and is appended; the unique indexes are preserved. |
| Users.SaveUser | internal/models/user.go:14-17 | Update overwrites the row with the record's id, or fails and changes nothing; the unique indexes are preserved. |
| Users.UserRepository.GetByTelegramID | internal/services/auth_service.go:161 | Returns the matching row, not-found, or the store's error. |
| Users.UserRepository.Create | internal/services/auth_service.go:171 | The repository's rows become those of `InsertUser`, and its invariant is kept. |
| Users.UserRepository.Update | internal/services/auth_service.go:180 | The repository's rows become those of `SaveUser`, and its invariant is kept. |
| InitData.Collect | internal/services/auth_service.go:196 | `url.ParseQuery` maps each key that occurs to all its values in input order; no list is empty. |
| InitData.FirstValueWins | internal/services/auth_service.go:201 | `Values.Get` returns the value of the earliest pair with the key, whatever later pairs say. |
| InitData.DuplicateKeyIgnored | internal/services/auth_service.go:196-225 | Appending a duplicate of a key already present does not change the verification outcome. |
| InitData.EnumerationsGiveSameLines | internal/services/auth_service.go:224-226 | Two iteration orders of the same keys produce the same lines, up to order. |
| InitData.CheckStringIsOrderIndependent | internal/services/auth_service.go:223-229 | The data-check string built in any key order equals the canonical one: one `k=v[0]` line per remaining key, sorted on the whole line, joined by `\n`. |
| InitData.CheckStringReadsFirstValues | internal/services/auth_service.go:225 | The data-check string depends only on the keys and their first values. |
| InitData.VerifyReadsFirstValues | internal/services/auth_service.go:201-262 | The whole verification depends only on the keys and their first values. |
| InitData.ExpiredAsWritten | internal/services/auth_service.go:218 | The test as written, with a wrapping `int64` subtraction, agrees with "age > 86400" whenever the subtraction does not overflow. |
| InitData.ExpiredAsWrittenNotMonotone | internal/services/auth_service.go:218 | At a present-day clock, `auth_date = 0` is expired but the most negative `int64` passes the test as written. |
| InitData.ExpiredIsMonotone | internal/services/auth_service.go:218 | With exact arithmetic, whenever an `auth_date` is expired every older one is expired too; an `auth_date` at most 86400 s before `now`, or after `now`, is not expired. |
| InitData.ResolveId | internal/services/auth_service.go:246-262 | A non-empty `id` wins and its parse error is `IdInvalid`. Otherwise `user` is required, unparsable JSON is an error, and JSON without `id` gives 0. |
| InitData.VerifiedImpliesSignedAndFresh | internal/services/auth_service.go:201-243 | An identity is returned only for a parsed blob whose `hash` equals the HMAC over the other fields (no `hash=` line is signed) and whose `auth_date` is fresh. |
| InitData.RejectionsInOrder | internal/services/auth_service.go:201-243 | Each check stops verification with its own error, in this order: a missing `hash` gives `HashMissing`; a missing `auth_date` gives `AuthDateMissing`; a non-decimal one gives `AuthDateInvalid`; an expired one gives `AuthExpired`; for fresh data, a signature mismatch gives `SignatureMismatch`. |
| InitData.SignedAndFreshIsVerified | internal/services/auth_service.go:201-262 | The converse of `VerifiedImpliesSignedAndFresh`: parsed init data that is signed and fresh is accepted with the identity `ResolveId` finds. A malformed top-level `id` then gives `IdInvalid`. |
| InitData.AcceptedAtAgeLimit | internal/services/auth_service.go:218 | Signed init data whose `auth_date` is exactly 86400 s before `now`, or later than `now`, is accepted. |
| InitData.ReorderedGet | internal/services/auth_service.go:196-201 | When keys are distinct, rearranging the query's pairs does not change what `Values.Get` returns. |
| InitData.InputOrderIgnored | internal/services/auth_service.go:196-262 | When keys are distinct, rearranging the query's pairs keeps the same keys, the same `Get` for every key, and the same verification outcome. |
| InitData.Get | internal/services/auth_service.go:201 | `Values.Get` is the first value when the key is present with a non-empty value, and the empty string when the key is absent. |
| InitData.Verify | internal/services/auth_service.go:195-263 | A query that fails to parse gives `MalformedQuery`. A parsed one is accepted iff it is signed, fresh, and yields an identity; that identity is read from the fields other than `hash`. |
| InitData.VerifyValues | internal/services/auth_service.go:201-262 | An empty `hash` gives `HashMissing`. Acceptance implies signed and fresh. Signed and fresh data gives exactly the identity of the fields other than `hash`. |
| InitData.VerifyFields | internal/services/auth_service.go:208-262 | After `hash` is removed: accepted iff `auth_date` is fresh, the expected HMAC equals `hash`, and an identity resolves; an acceptance is that identity. |
| InitData.Decide | internal/services/auth_service.go:208-243 | Each check has its verdict: an empty `auth_date` is `AuthDateMissing`; an unparsable one is `AuthDateInvalid`; an expired one is `AuthExpired`; otherwise a hash mismatch is `SignatureMismatch`, and a match passes the identity through. |
| InitData.DataCheckPairs | internal/services/auth_service.go:223-226 | The append loop over the map, in whatever order the map yields keys, gives one line per key, and sorting and joining them gives the canonical string. |
| InitData.ValidateTelegramInitData | internal/services/auth_service.go:195-263 | The validator returns exactly the outcome specified by `Verify` (the properties above), for every map iteration order. |
| Auth.TokenClaims | internal/services/auth_service.go:127-131 | The claims are the user id and an expiry exactly 24 hours after `now`. |
| Auth.GenerateToken | internal/services/auth_service.go:127-139 | The token is the signature of those claims with the secret; a signing error is `SigningFailed`. |
| Auth.ValidateRegister | internal/services/auth_service.go:141-152 | Accepts iff email and username are non-empty and the password has at least 6 bytes; otherwise it reports the first failing check. |
| Auth.BindingImpliesValidRegister | internal/models/user.go:29-31 | A request that satisfies the binding tags always passes `validateRegister`. |
| Auth.RegisterValidatesFirst | internal/services/auth_service.go:55-59 | An invalid request gets its validation error and the store is untouched. |
| Auth.RegisterRejectsTakenEmail | internal/services/auth_service.go:61-72 | An email already stored is refused and nothing is stored. |
| Auth.RegisterOk | internal/services/auth_service.go:55-102 | A registration appends one user with the next id, the request's email and username, the bcrypt hash and no Telegram id, and returns a token for that id. Failures before the insert change nothing. A `SigningFailed` error still leaves exactly one new account stored after the old rows, with the request's email. |
| Auth.LoginSoundness | internal/services/auth_service.go:104-125 | Login succeeds only for the stored user with that email whose hash matches the password. With a healthy store, an unknown email, an absent password hash, or a bcrypt mismatch each give `InvalidCredentials`, and a match gives the token response for that user. |
| Auth.RegisterOutcome | internal/services/auth_service.go:55-102 | The rows either stay as they were, or gain exactly one row after them, carrying the request's email. A success implies that validation passed and that the new user has that email and no Telegram id. |
| Auth.LoginOutcome | internal/services/auth_service.go:104-125 | A success returns a stored user with that email and a password hash. Every error is `InvalidCredentials` or `SigningFailed`. |
| Auth.TelegramLogin | internal/services/auth_service.go:154-193 | A success implies the init data verified and the returned user has that Telegram id. The user store grows by at most one row, and categories are only ever added. |
| Auth.TelegramUserCannotPasswordLogin | internal/services/auth_service.go:110-112 | An account created through Telegram has no password and never passes a password login. |
| Auth.SeededShape | internal/services/auth_service.go:265-279 | Every seeded category belongs to the user and is marked default. Each successful attempt is stored and each failed one is missing; a failure does not stop the later attempts. |
| Auth.SeededWithoutFailures | internal/services/auth_service.go:266-271 | With a healthy store, exactly Еда, Транспорт, Дом and Подписки are stored, in that order, with their colours and icons. |
| Auth.CategoryRepository.Create | internal/services/auth_service.go:277 | A create appends the category unless the store refuses. |
| Auth.AuthService.CreateDefaultCategories | internal/services/auth_service.go:265-279 | The loop of four creates stores exactly `Seeded(userId, failing)` after the existing rows. |
| Auth.TelegramRejectsUnverified | internal/services/auth_service.go:155-159 | Init data that fails verification is `InvalidCredentials`, and neither store changes. |
| Auth.TelegramPropagatesLookupError | internal/services/auth_service.go:161-164 | A lookup error other than not-found is returned, and nothing changes. |
| Auth.TelegramFirstLogin | internal/services/auth_service.go:166-175 | An unknown Telegram id creates one user with Telegram id and chat id set to it and no other anchor, then seeds the defaults; with a healthy store the create cannot fail. |
| Auth.TelegramReturningUser | internal/services/auth_service.go:176-182 | A known user is not duplicated and gets no categories. The chat id is written only if it was missing. The answer, which carries the chat id, does not depend on whether that update succeeds. |
| Auth.TelegramLoginPreservesWellFormed | internal/services/auth_service.go:166-181 | A Telegram login keeps the unique indexes and the id assignment. |
| Auth.TelegramLoginLeavesAccount | internal/services/auth_service.go:166-181 | After a successful login the stored row at the returned id has the Telegram id. |
| Auth.TelegramLoginIdempotent | internal/services/auth_service.go:154-193 | A repeat login with the same Telegram id creates no user and no category and returns the same account. |
| Auth.AuthService.LoginWithTelegram | internal/services/auth_service.go:154-193 | Result and new rows of both stores are those of `TelegramLogin` applied to the validator's verdict; the user store's invariant is kept. |
| Auth.AuthService.SignInTelegramUser | internal/services/auth_service.go:161-192 | With an identity in hand: result and new rows of both stores are those of `TelegramLogin` on that identity. |
| Auth.AuthService.Register | internal/services/auth_service.go:55-102 | Result and new rows are those of `RegisterOutcome`; the invariant is kept. |
| Auth.AuthService.Login | internal/services/auth_service.go:104-125 | The result is `LoginOutcome` over the current rows, and nothing changes. |
| Budgets.ValidateBudgetCreate | internal/services/budget_service.go:355-369 | Accepts iff amount > 0, 1 ≤ month ≤ 12 and 2000 ≤ year ≤ 2100; otherwise it reports the first failing check in that order. |
| Budgets.PatchBudget | internal/services/budget_service.go:371-394 | The patch succeeds iff every present field is valid, and then equals the overlay: absent fields unchanged, present fields overwritten. Id and owner are untouched, also on an error. |
| Budgets.PatchReportsFirstInvalidField | internal/services/budget_service.go:371-394 | The first invalid present field, in the order amount, month, year, decides the error. |
| Budgets.PatchIsNotAtomic | internal/services/budget_service.go:376-381 | A valid amount is already written when a later month is rejected. |
| Budgets.PatchKeepsRecordValid | internal/services/budget_service.go:371-394 | An accepted patch of a valid budget is valid. |
| Budgets.BudgetService.ApplyBudgetUpdate | internal/services/budget_service.go:371-394 | The in-place writes leave the object as `PatchBudget` describes, also after an error. |
| Budgets.InsertBudget | internal/services/budget_service.go:93 | A create assigns the next key and appends the row, unless the store fails; keys stay well formed. |
| Budgets.SaveBudget | internal/services/budget_service.go:303 | A save overwrites the row with the record's id and leaves the others. |
| Budgets.Without | internal/services/budget_service.go:339 | A delete keeps exactly the rows with other ids. |
| Budgets.WithoutKeepsKeys | internal/services/budget_service.go:339 | A delete keeps the keys distinct and below the next key. |
| Budgets.WithoutKeepsOnePerMonth | internal/services/budget_service.go:339 | A delete keeps at most one budget per user and month. |
| Budgets.FindBudget | internal/services/budget_service.go:278 | Returns a stored budget with that id, or none exactly when no budget has it. |
| Budgets.FindBudgetForMonth | internal/services/budget_service.go:65 | Returns a stored budget of that user, month and year, or none exactly when there is none. |
| Budgets.BudgetRepository.Update | internal/services/budget_service.go:303 | The table becomes that of `SaveBudget`, and the key invariant is kept. |
| Budgets.BudgetRepository.Delete | internal/services/budget_service.go:339 | The table becomes that of `DeleteRow`, and the key invariant is kept. |
| Budgets.CreateOutcome | internal/services/budget_service.go:52-112 | An error leaves the table unchanged. A success implies a valid request with no budget yet for that month, and appends exactly the created row, which has the next id. |
| Budgets.CreateOutcomeShape | internal/services/budget_service.go:52-112 | A created budget carries the owner, amount, month, year and the next id. On any error nothing is stored. The checks come in order: an invalid field gives its validation error; a failed lookup gives `StoreFailed` with that error; an existing budget for that month gives `AlreadyExists`; a failed insert gives `StoreFailed`. |
| Budgets.CreatePreservesInvariants | internal/services/budget_service.go:64-101 | Creation keeps one budget per user and month, well-formed keys and valid stored budgets. |
| Budgets.UpdateOutcome | internal/services/budget_service.go:277-320 | An error leaves the table unchanged. A success implies the id was stored, keeps the id and owner, and keeps the number of rows and the next key. |
| Budgets.UpdateOutcomeShape | internal/services/budget_service.go:277-320 | A failed lookup gives `StoreFailed` with that error, and an unknown id gives `BudgetNotFound`. A rejected field gives the patch's error, and a failed save gives `StoreFailed`. Any error, including one after a partial patch, leaves the table as it was. A success writes the overlay. |
| Budgets.UpdateKeepsKeys | internal/services/budget_service.go:294-303 | An update keeps the keys well formed, whatever the stored records are. |
| Budgets.UpdatePreservesValidity | internal/services/budget_service.go:294-303 | An update keeps well-formed keys and valid stored budgets. |
| Budgets.UpdateCanDuplicateMonth | internal/services/budget_service.go:277-320 | An update does not re-check the month, so two budgets of one user can end up in the same month. |
| Budgets.DeleteOutcome | internal/services/budget_service.go:322-353 | An error leaves the table unchanged. A success implies the id was stored and removes the rows with that id. |
| Budgets.DeleteOutcomeShape | internal/services/budget_service.go:322-353 | A failed lookup or a failed delete gives `StoreFailed` with that error, and an unknown id gives `BudgetNotFound`; in each case nothing changes. A success removes exactly that one row. |
| Budgets.DeletePreservesInvariants | internal/services/budget_service.go:322-353 | A delete keeps well-formed keys, at most one budget per user and month, and valid stored budgets. |
| Budgets.InWindow | internal/services/budget_service.go:402-407 | The listed expenses are exactly the user's expenses dated within the window. |
| Budgets.TotalAppend | internal/services/budget_service.go:413-416 | Summing is additive over concatenation. |
| Budgets.Total | internal/services/budget_service.go:413-416 | With no negative expense, the spent amount is not negative. |
| Budgets.MonthWindow | internal/services/budget_service.go:398-399 | The window starts at a midnight and ends 1 ns before one. It spans exactly the days of the normalised month. |
| Budgets.MonthWindowCoversMonth | internal/services/budget_service.go:398-399 | The window runs from the first instant of the month to 1 ns before the next month, so it spans exactly the month's days, and consecutive windows abut. |
| Budgets.ComputeStatus | internal/services/budget_service.go:213-229 | The status fields obey the rules below. |
| Budgets.StatusOutcome | internal/services/budget_service.go:191-211 | A failed budget lookup or a failed expense listing gives `StoreFailed` with that error. A status is always about a stored budget of that user and month. |
| Budgets.StatusIsOfTheMonth | internal/services/budget_service.go:191-211 | The status is that of the user's budget for the month and of the user's expenses dated in it; no budget gives `BudgetNotFound`. |
| Budgets.BudgetService.CalculateSpentAmount | internal/services/budget_service.go:396-419 | The loop returns the total of the listed expenses of the month, or the listing error. |
| Budgets.BudgetService.SumAmounts | internal/services/budget_service.go:413-416 | The summing loop ends with the total of the listed expenses. |
| Budgets.BudgetService.GetBudgetStatus | internal/services/budget_service.go:191-275 | The result is `StatusOutcome` over the current tables; nothing changes. |
| Budgets.BudgetService.CreateBudget | internal/services/budget_service.go:52-112 | Result and new table are those of `CreateOutcome`; the key invariant is kept. |
| Budgets.BudgetService.UpdateBudget | internal/services/budget_service.go:277-320 | Result and new table are those of `UpdateOutcome`; the key invariant is kept. |
| Budgets.BudgetService.DeleteBudget | internal/services/budget_service.go:322-353 | Result and new table are those of `DeleteOutcome`; the key invariant is kept. |
| Statistics.ParsePeriod | internal/handlers/statistics_handler.go:60-66 | A query string becomes the period it names, and names it back. Only `day`, `week`, `month` and `year` are known periods. |
| Statistics.GetStatistics | internal/services/statistics_service.go:25-84 | The result is `InvalidPeriod` iff the period is unknown. Any other error is the repository's. A result carries the requested period, and has an average of 0 when there are no expenses. |
| Statistics.PeriodStart | internal/services/statistics_service.go:33-65 | A start exists iff the period is day, week, month or year; it is a midnight and not after `now`. |
| Statistics.DayStartsAtMidnight | internal/services/statistics_service.go:34-38 | The day starts at today's midnight UTC. |
| Statistics.WeekStartsOnMonday | internal/services/statistics_service.go:40-49 | The week starts on a Monday 0 to 6 days back; on a Sunday it is 6 days back. |
| Statistics.MondayOfWeek | internal/services/statistics_service.go:41-49 | Stepping back `weekday − 1` days, with Sunday mapped to 7, lands on a Monday. |
| Statistics.MonthAndYearStarts | internal/services/statistics_service.go:51-61 | The month starts on day 1 of the current month, and the year on January 1. |
| Statistics.UnknownPeriodNeverQueries | internal/services/statistics_service.go:63-65 | An unknown period is an error whatever the repository would answer. |
| Statistics.StatisticsResult | internal/services/statistics_service.go:67-83 | The repository is asked about `[start, now]`, and its error is propagated. The result carries the requested period, keeps the total and the count, and has an average of 0 without expenses and total/count otherwise. |
| Notifications.SendToChat | internal/services/notification_service.go:35-45 | Chat id 0 is an error and nothing is sent; otherwise the message goes to that chat and the bot's error is returned. |
| Notifications.Target | internal/services/notification_service.go:52-57 | The target is the chat id when set, else the Telegram id. |
| Notifications.SendToUser | internal/services/notification_service.go:47-59 | A lookup error is returned and nothing is sent. So is an unknown user. Anything sent goes to the stored user's target, which is never chat 0, with the given text. |
| Notifications.SendToUserTargets | internal/services/notification_service.go:47-59 | A lookup error or unknown user sends nothing and is returned. A user is messaged at its target, and with neither id it is an error. Nothing is ever sent to chat 0. |
| Notifications.ZeroChatIdHasNoFallback | internal/services/notification_service.go:52-54 | A set chat id of 0 is used, and fails, even when a Telegram id exists. |
| Notifications.TelegramLoginKeepsChatIds | internal/services/auth_service.go:166-181 | Telegram logins keep every stored chat id equal to its Telegram id. |
| Notifications.LoggedInUserIsNotifiedAtTelegramId | internal/services/notification_service.go:52-57 | After a successful Telegram login, notifying that account reaches the Telegram id it logged in with, whether or not the backfill was stored. |

The rules `Budgets.ComputeStatus` states are:

- `remaining ≥ 0`: it is `amount − spent` when the budget is not overspent, and 0 otherwise.
- `isExceeded` holds iff `spent > amount`.
- The two flags are never both set.
- The percentage is 0 for a zero amount, and `percentage · amount = 100 · spent` otherwise.
- For a positive amount, `isNearLimit` holds iff `0.8 · amount ≤ spent ≤ amount`.

## Left out

- HTTP handlers, routing, request binding and JSON responses are left out; only the binding tags of the request types are modelled, as predicates.
- The SQL repositories are left out. They are modelled as in-memory rows with the semantics the services rely on: first match, next id, unique indexes, overwrite with `Save`, delete by id, and the expense filter `[start, end]`.
- The statistics aggregation itself is a parameter (`fetch`).
- The analytics service and the bot's update loop are left out; they are not part of this model.
- HMAC-SHA256, hex encoding, bcrypt, JWT signing, `json.Unmarshal` of the `user` field, and the percent-decoding of `url.ParseQuery` are uninterpreted function parameters.
- The model therefore says nothing about collision resistance: no property about forged hashes is stated.
- Logging is left out.
- Wall-clock readings are parameters. `LoginWithTelegram` reads the clock twice, once for the freshness check and once for the token; the model uses one `now` for both.
- The goroutine that sends the budget notification and its `%.0f` message formatting are left out, because they are concurrency and float formatting.
- Store concurrency and unique-constraint races are left out; the code has no retry.
- IEEE-754 floats are not modelled; amounts, percentages and averages are exact reals, so rounding effects near the 80 % threshold are not captured.
- `GetBudgetList`, `GetBudgetByID`, `GetBudgetByUserIDAndMonth` and `GetCurrentBudgetStatus` are left out. They are thin delegations to the repository, or to `GetBudgetStatus` with the current month, and they sit outside the modelled core.
- The `email` format rule of the binding tags is not modelled; only "required" is.
- Category ids and the other columns of `models.Category` are not modelled.
- Budget and user rows carry no timestamps or soft-delete columns from `gorm.Model`.
- Notifications.SendToUser: an unknown user id is modelled as its own error (`UserNotFound`), while the code returns GORM's not-found error unchanged; both send nothing.

## Findings

| source | as written | input that shows it | evidently intended | confidence | as-written member | corrected member |
|---|---|---|---|---|---|---|
| internal/services/auth_service.go:218 | `time.Now().Unix()-authDate > 86400` subtracts in `int64`, which wraps around | now = 1700000000, `auth_date` = -9223372036854775808: the difference wraps to a large negative number, so the blob counts as fresh although `auth_date` = 0 is rejected | a blob is expired iff its exact age exceeds 86400 s, so that an older `auth_date` is never fresher | not executed | InitData.ExpiredAsWritten (with InitData.ExpiredAsWrittenNotMonotone) | InitData.Expired (with InitData.ExpiredIsMonotone), which the validator uses |
