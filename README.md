# Telegram Mini App rewards backend, in Dafny

This project models the server side of a Telegram Mini App where users
earn points by watching ads and referring friends:

- **Login.** `app/api/auth/telegram/route.ts` checks the signed init data
  that Telegram hands to the Mini App. It then finds or creates the user
  row, attributes a referral and credits the referrer a bonus.
- **Database.** The migrations in `app/api/setup/init-db/route.ts` define
  the `users` and `transactions` tables and their constraints. They also
  define two stored procedures, `add_transaction` and
  `generate_referral_code`, and the `leaderboard` view. The handler runs
  the migrations in a loop.
- **Rewards and stats.** `app/api/monetag/callback/route.ts` credits a
  watched ad. `app/api/wallet/add-reward/route.ts` credits an arbitrary
  reward. `app/api/referral/stats/route.ts` reports referral statistics.
- **Configuration.** `lib/config.ts` holds the reward constants, read
  from the environment with defaults, and the withdrawal threshold test.

Layout, one module per file:

| file | module | what it holds |
|---|---|---|
| `wrappers.dfy` | `Wrappers` | `Option` and `Result` |
| `jsvalues.dfy` | `JsValues` | JavaScript request values, truthiness, `String(v)` and `Number.parseInt` |
| `config.dfy` | `Config` | `lib/config.ts` |
| `hex.dfy` | `Hex` | bytes, hex digests and upper-casing |
| `initdata.dfy` | `InitData` | `verifyTelegramWebAppData`: the check string and the HMAC comparison |
| `schema.dfy` | `Schema` | the two tables, their constraints as predicates, the `INSERT INTO users`, and `.eq(...).single()` lookups |
| `ledger.dfy` | `Ledger` | `add_transaction` as a function of the tables |
| `store.dfy` | `Database` | class `Store`: the tables as mutable fields, with `Insert` and an `AddTransaction` whose UPDATE is a loop |
| `referralcode.dfy` | `ReferralCode` | `generate_referral_code`, a loop over eight random draws |
| `leaderboard.dfy` | `Leaderboard` | the `leaderboard` view |
| `migrations.dfy` | `Migrations` | the migration loop of the init-db handler |
| `telegramauth.dfy` | `TelegramAuth` | the login handler |
| `monetag.dfy` | `MonetagCallback` | the ad callback handler |
| `addreward.dfy` | `AddReward` | the add-reward handler |
| `referralstats.dfy` | `ReferralStats` | the stats handler |

Each handler that writes has two parts:

- A pure function from the tables before the request to its response and
  the tables after it (`Login`, `Callback`, `Reward`). The lemmas about
  the handler are stated over this function.
- A `Post` method on the `Store`. It performs the same steps as the route,
  in the same order, and its `ensures` ties the response and the new
  store contents to that function.

The stats handler only reads, so it is a pure function alone.

Money columns are `decimal(10, 2)`, modelled as integer cents that must
fit in ±9999999999. A value that does not fit is a numeric-overflow error,
which rolls back the whole statement. Postgres errors are values of
`Schema.DbError`. `Schema.Message` gives the text Postgres reports, which
the handlers pass on. The errors come in the order Postgres meets them:
the coercion of a value to its column type first, then NOT NULL and CHECK
constraints, then unique indexes, and foreign keys at the end of the
statement.

How the login check orders and reads the init-data fields:

- **Sort order.** The code sorts keys with `a.localeCompare(b)`
  (`app/api/auth/telegram/route.ts:12`). The model uses the lexicographic
  order of code points (`InitData.Less`). For Unicode scalar values this
  order is the same as UTF-8 byte order. It is also the order
  `localeCompare` produces on the ASCII lower-case and underscore keys
  Telegram sends.
- **Duplicate `hash` fields.** The code keeps the first value for
  comparison and deletes every `hash` pair.

## Model

| member | source | states |
|---|---|---|
| `JsValues.ParseInt` | lib/config.ts:8 | `Number.parseInt` with no radix: leading white space skipped, an optional sign, a `0x` prefix switching to base 16, then the longest run of digits; NaN (`None`) when the run is empty |
| `JsValues.ParseIntDecimalString` | app/api/monetag/callback/route.ts:19 | `Number.parseInt(String(n))` is `n` for every integer `n`, the sign included |
| `JsValues.ToIntNum` | app/api/wallet/add-reward/route.ts:18 | a telegram id that arrives as a JSON number is recovered exactly by `Number.parseInt` |
| `JsValues.ParseIntLetter` | lib/config.ts:8 | a string that starts with a letter, lower- or upper-case, parses to NaN |
| `JsValues.ToIntAbsent` | app/api/monetag/callback/route.ts:16-20 | `undefined` and `null` parse to NaN, so a lookup by them matches no row |
| `Config.CanWithdraw` | lib/config.ts:53-55 | `canWithdraw(points)`: `points >= minWithdrawal`, false when the threshold is NaN |
| `Config.Load` | lib/config.ts:4-26 | the `config` object: each reward is `parseInt` of its variable or of the fallback literal, `zoneId` is the variable or `"10042745"`, `enabled` is whether the variable is non-empty |
| `Config.IntSettingOverride` | lib/config.ts:8-19 | a variable set to the numeral of `n` configures exactly `n` |
| `Config.IntSettingDefault` | lib/config.ts:8-19 | an unset variable configures the number its fallback literal denotes |
| `Config.DefaultRewards` | lib/config.ts:8-19 | with no overrides: 10 points per ad, 500 for the referrer, 250 for the referee, 1000 to withdraw |
| `Config.DefaultWithdrawalThreshold` | lib/config.ts:19 | with no overrides, 999 points cannot be withdrawn and 1000 can |
| `Config.CanWithdrawMonotone` | lib/config.ts:53-55 | if `canWithdraw(p)` holds, it holds for every `q >= p` |
| `Config.ConfiguredThreshold` | lib/config.ts:53-55 | with the threshold set to `n`, `canWithdraw(p)` holds iff `p >= n` |
| `Config.UnparsableThreshold` | lib/config.ts:19 | a threshold that parses to NaN blocks every withdrawal |
| `Config.MonetagSwitch` | lib/config.ts:24-25 | ads are enabled iff the zone variable is set and non-empty; the zone id is the variable's value when it is set, and the constant `10042745` otherwise |
| `Hex.HexLowerDigits` | app/api/auth/telegram/route.ts:18 | a hex digest consists of lower-case hex digits only |
| `Hex.DecodeHexLower` | app/api/auth/telegram/route.ts:18 | the hex rendering decodes back to the bytes, so distinct digests give distinct strings |
| `Hex.UpperHexShape` | app/api/auth/telegram/route.ts:63 | upper-cased hex of `n` bytes is `2n` characters, each in 0-9 or A-F |
| `Hex.DecodeUpper` | app/api/auth/telegram/route.ts:63 | upper-casing does not change what a hex string decodes to |
| `Hex.DecodeUpperHex` | app/api/auth/telegram/route.ts:63 | an upper-cased hex code decodes back to its random bytes |
| `InitData.VerifyInitData` | app/api/auth/telegram/route.ts:6-21 | `verifyTelegramWebAppData`: the first `hash` value strictly equals the hex HMAC, under the `WebAppData`-derived key, of the check string of the other pairs |
| `InitData.CheckString` | app/api/auth/telegram/route.ts:11-14 | the data-check string: the pairs left after deleting `hash`, sorted by key, rendered `key=value` and joined with line feeds |
| `InitData.LessIrreflexive` | app/api/auth/telegram/route.ts:12 | the key order never puts a key before itself |
| `InitData.LessTransitive` | app/api/auth/telegram/route.ts:12 | the key order is transitive |
| `InitData.LessTotal` | app/api/auth/telegram/route.ts:12 | any two distinct keys are ordered one way or the other |
| `InitData.NotLessTransitive` | app/api/auth/telegram/route.ts:12 | "not before" is transitive, which the stable sort relies on |
| `InitData.FirstValueSpec` | app/api/auth/telegram/route.ts:8 | `get` returns a value that the key has in the pairs, and null exactly when the key is absent |
| `InitData.DeleteCount` | app/api/auth/telegram/route.ts:9 | `delete` removes every pair with the key and keeps every other pair as often as it occurred |
| `InitData.DeleteIdempotent` | app/api/auth/telegram/route.ts:9 | deleting a key twice is the same as deleting it once |
| `InitData.DeleteWithout` | app/api/auth/telegram/route.ts:9 | deleting an absent key changes nothing |
| `InitData.DeleteSplice` | app/api/auth/telegram/route.ts:9 | deleting a key around an inserted pair of that key deletes it on both sides |
| `InitData.FirstValueSplice` | app/api/auth/telegram/route.ts:8 | `get` finds the first pair with the key |
| `InitData.InsertCount` | app/api/auth/telegram/route.ts:12 | one insertion step of the sort adds exactly the inserted pair |
| `InitData.InsertSorted` | app/api/auth/telegram/route.ts:12 | one insertion step of the sort keeps the pairs sorted by key |
| `InitData.SortByKeySpec` | app/api/auth/telegram/route.ts:11-12 | the sort is a permutation of the pairs and is ordered by key |
| `InitData.SortedPermutationUnique` | app/api/auth/telegram/route.ts:12 | two key-sorted orderings of the same pairs with distinct keys are equal |
| `InitData.DeletePermutation` | app/api/auth/telegram/route.ts:9 | reordering the pairs does not change which pairs `delete` keeps |
| `InitData.FirstValuePermutation` | app/api/auth/telegram/route.ts:8 | with distinct keys, reordering the pairs does not change what `get` returns |
| `InitData.ReorderingPreservesVerdict` | app/api/auth/telegram/route.ts:11-20 | permuting pairs with distinct keys leaves the check string and the verdict unchanged |
| `InitData.CheckStringFields` | app/api/auth/telegram/route.ts:9-14 | the check string's pairs are every non-`hash` pair exactly as often as given, no `hash` pair, sorted by key |
| `InitData.SortedFieldsFromPayload` | app/api/auth/telegram/route.ts:11 | every pair in the check string comes from the payload |
| `InitData.SplitJoin` | app/api/auth/telegram/route.ts:14 | lines without line feeds, joined with `"\n"`, split back into the same lines, so there is no trailing separator |
| `InitData.CheckStringLines` | app/api/auth/telegram/route.ts:11-14 | the check string splits into exactly the `key=value` lines of the sorted non-`hash` pairs |
| `InitData.MissingHashRejected` | app/api/auth/telegram/route.ts:8-20 | without a `hash` pair verification is false |
| `InitData.SignedPayloadVerifies` | app/api/auth/telegram/route.ts:6-21 | a payload signed as Telegram signs it verifies, wherever the `hash` pair is placed |
| `InitData.TamperedHashRejected` | app/api/auth/telegram/route.ts:18-20 | replacing the hash of a valid payload with any other string makes it invalid |
| `Schema.InsertUser` | app/api/setup/init-db/route.ts:16-29 | `INSERT INTO users`: the first violated constraint in Postgres's order, or the tables with the defaulted row appended |
| `Schema.ParseTxTypeIff` | app/api/setup/init-db/route.ts:52 | the type CHECK admits a text iff it is one of `task_reward`, `ad_reward`, `referral_bonus` or `withdrawal` |
| `Schema.InsertUserOutcome` | app/api/setup/init-db/route.ts:16-29 | an insert succeeds iff the id is new, the telegram id fits `bigint` and is unused, the referral code is unused, and the referrer exists (or is the new row itself); the new row then has balance 0 and total 0 |
| `Schema.InsertUserKeepsConstraints` | app/api/setup/init-db/route.ts:16-29 | a successful insert keeps the keys unique, the telegram ids and referral codes unique, the referrers existing and the columns in range |
| `Schema.FilterMembers` | app/api/auth/telegram/route.ts:49 | a filtered select returns exactly the rows that match |
| `Schema.SingleMatch` | app/api/auth/telegram/route.ts:49 | with exactly one matching row the filter yields that row |
| `Schema.NoMatch` | app/api/auth/telegram/route.ts:69 | with no matching row the filter yields nothing |
| `Schema.SingleSound` | app/api/auth/telegram/route.ts:69 | `.single()` only ever returns a row of the table that matches |
| `Schema.ByTelegramIdFinds` | app/api/auth/telegram/route.ts:49 | under the unique constraint, the lookup by telegram id returns the row that holds the id, and nothing when no row does |
| `Schema.ByReferralCodeFinds` | app/api/auth/telegram/route.ts:69 | under the unique constraint, the lookup by code returns the row that holds exactly that code, and nothing when no row does |
| `Schema.ByIdFinds` | app/api/wallet/add-reward/route.ts:39-43 | under the primary key, the lookup by id returns that row |
| `Ledger.AddTransaction` | app/api/setup/init-db/route.ts:105-123 | `add_transaction`: the error that rolls the call back, or the tables with one ledger row appended and the user's balance and total credited |
| `Ledger.AddTransactionOutcome` | app/api/setup/init-db/route.ts:105-123 | `add_transaction` succeeds iff the amount fits, the type is admitted, the user exists and the new balance and total fit; an amount that does not fit is a numeric overflow whatever the rest, an unknown type with a fitting amount is the CHECK violation, and a missing user with an admitted type is the foreign-key violation |
| `Ledger.AddTransactionAppends` | app/api/setup/init-db/route.ts:113-114 | on success exactly one ledger row is appended, carrying the given user, amount, type and description |
| `Ledger.AddTransactionCredits` | app/api/setup/init-db/route.ts:116-121 | on success only the user's row changes: its balance moves by the amount and its total by the positive part, so no total decreases |
| `Ledger.AddTransactionKeepsConstraints` | app/api/setup/init-db/route.ts:105-123 | a successful `add_transaction` keeps every table constraint |
| `Ledger.AddTransactionKeepsEarnings` | app/api/setup/init-db/route.ts:119 | lifetime totals stay non-negative under every credit |
| `Ledger.InsertUserKeepsEarnings` | app/api/setup/init-db/route.ts:25 | a new row starts with a total of 0, so totals stay non-negative |
| `Database.Store.constructor` | app/api/setup/init-db/route.ts:16-55 | freshly created, the tables are empty and within their constraints |
| `Database.Store.Insert` | app/api/auth/telegram/route.ts:76 | the INSERT either appends the created row and returns it, or changes nothing and returns the violated constraint; the constraints are kept |
| `Database.Store.AddTransaction` | app/api/setup/init-db/route.ts:105-123 | the procedure's INSERT and row-by-row UPDATE reach exactly the tables `add_transaction` specifies, or change nothing and return its error; the constraints are kept |
| `ReferralCode.CodeOf` | app/api/setup/init-db/route.ts:91-103 | `generate_referral_code` as a function of its eight `random()` draws: the alphabet character each draw picks, concatenated |
| `ReferralCode.PositionInRange` | app/api/setup/init-db/route.ts:99 | a draw in `[0, 1)` picks a position between 1 and 36, so `substr` yields one character |
| `ReferralCode.CharsAreCodeChars` | app/api/setup/init-db/route.ts:94 | every character of the alphabet is in A-Z or 0-9 |
| `ReferralCode.CodeOfShape` | app/api/setup/init-db/route.ts:94-101 | the code has one character per draw, each in A-Z or 0-9 |
| `ReferralCode.DrawForPicks` | app/api/setup/init-db/route.ts:99 | for each position there is a draw in `[0, 1)` that picks it |
| `ReferralCode.EveryCodeCharReachable` | app/api/setup/init-db/route.ts:94-99 | every character in A-Z or 0-9 can be drawn, so the alphabet is exactly those 36 |
| `ReferralCode.GenerateReferralCode` | app/api/setup/init-db/route.ts:91-103 | the loop returns the code the draws determine: exactly 8 characters, each in A-Z or 0-9 |
| `Leaderboard.View` | app/api/setup/init-db/route.ts:73-84 | the `leaderboard` view: users ordered by `total_earned` descending, the first 100, projected and numbered by `ROW_NUMBER()` |
| `Leaderboard.InsertByEarningsBag` | app/api/setup/init-db/route.ts:81 | one insertion step of the ordering adds exactly the inserted user |
| `Leaderboard.InsertByEarningsDescending` | app/api/setup/init-db/route.ts:81 | one insertion step keeps the users in non-increasing order of `total_earned` |
| `Leaderboard.SortByEarningsSpec` | app/api/setup/init-db/route.ts:83 | `ORDER BY total_earned DESC` is a permutation of the users in non-increasing order of total |
| `Leaderboard.TopSpec` | app/api/setup/init-db/route.ts:83-84 | `LIMIT 100` keeps the first `min(n, 100)` users of that order |
| `Leaderboard.ViewShape` | app/api/setup/init-db/route.ts:74-84 | the view holds `min(n, 100)` rows ranked 1, 2, ... consecutively, with totals non-increasing |
| `Leaderboard.ViewRowIsUser` | app/api/setup/init-db/route.ts:75-82 | every row is a user's id, username, first name, photo and total, ranked by its position |
| `Leaderboard.ViewComplete` | app/api/setup/init-db/route.ts:83-84 | with at most 100 users, every user is listed; otherwise every user who earned more than the 100th row is listed |
| `Leaderboard.HigherTotalBetterRank` | app/api/setup/init-db/route.ts:81 | a row with a strictly higher total always has a strictly smaller rank |
| `Migrations.FailedLog` | app/api/setup/init-db/route.ts:127-140 | the 1-based numbers of the migrations whose RPC and probe query both failed, in order |
| `Migrations.FailedLogSpec` | app/api/setup/init-db/route.ts:128-140 | the log lists, in increasing order, exactly the migrations whose RPC and probe both failed |
| `Migrations.Initialize` | app/api/setup/init-db/route.ts:128-151 | the four migrations run in order, failures are logged and skipped, and the answer is success; only a failure to create the client gives a 500 |
| `ReferralStats.GetStats` | app/api/referral/stats/route.ts:4-50 | the stats handler: 400 without an id, 404 when no single row holds `parseInt` of it, otherwise that row's code, referral count and summed referral bonuses |
| `ReferralStats.GetStatsOutcome` | app/api/referral/stats/route.ts:7-45 | a missing or empty id is exactly the 400 case and an id no single row holds is exactly the 404 case; otherwise the stats are the code, referral count and referral earnings of the row that the lookup by `parseInt` of the text returns, a row of the table holding that telegram id |
| `ReferralStats.GetStatsOfUser` | app/api/referral/stats/route.ts:16-45 | asking with a row's decimal telegram id reports that row's code, count and earnings |
| `ReferralStats.ReferralCountAppend` | app/api/referral/stats/route.ts:27-30 | a new row adds one to a user's count exactly when it names that user as referrer |
| `ReferralStats.ReferralCountNone` | app/api/referral/stats/route.ts:27-30 | with no row referring to the user, the count is 0 |
| `ReferralStats.SumAmountsFilterAppend` | app/api/referral/stats/route.ts:33-39 | the filtered sum grows by a new row's amount exactly when that row matches |
| `ReferralStats.ReferralEarningsAppend` | app/api/referral/stats/route.ts:33-39 | a new ledger row adds its amount to the earnings exactly when it is that user's `referral_bonus` |
| `ReferralStats.ReferralEarningsNone` | app/api/referral/stats/route.ts:39 | with no referral bonus for the user, the earnings are 0 |
| `ReferralStats.CreditRowsKeepReferrals` | app/api/referral/stats/route.ts:27-30 | crediting any user leaves every referral count as it was |
| `ReferralStats.AddTransactionEffectOnStats` | app/api/referral/stats/route.ts:27-39 | a credit changes no referral count and adds to a user's earnings only when it is a `referral_bonus` for that user |
| `TelegramAuth.Login` | app/api/auth/telegram/route.ts:23-98 | the login handler as a function of the tables: its response and the tables after it |
| `TelegramAuth.UnverifiedRejected` | app/api/auth/telegram/route.ts:31-36 | the answer is 401 iff the environment is production and verification fails, and then nothing is written |
| `TelegramAuth.DevelopmentSkipsVerification` | app/api/auth/telegram/route.ts:30-36 | outside production the signature is ignored: payloads with the same `user` field and code fare alike |
| `TelegramAuth.MissingUserRejected` | app/api/auth/telegram/route.ts:39-43 | a missing or empty `user` field gives 400 and writes nothing |
| `TelegramAuth.ExistingUserReturned` | app/api/auth/telegram/route.ts:49-54 | a stored row with the telegram id is returned as stored, and nothing is written, whatever profile fields, code or randomness come with the request |
| `TelegramAuth.ReferrerForSpec` | app/api/auth/telegram/route.ts:67-74 | the referrer is the row whose code exactly equals the supplied truthy code, and none iff the code is falsy or no row holds it |
| `TelegramAuth.ReferrerExists` | app/api/auth/telegram/route.ts:67-74 | a referrer is always an existing row holding exactly the supplied code |
| `TelegramAuth.NewUserProvisioned` | app/api/auth/telegram/route.ts:56-74 | a first login creates a row with the new id, the telegram id and profile fields (empty ones as null), zero balance and total, an 8-character upper-hex code, and `referred_by` set to the referrer |
| `TelegramAuth.InsertFailureNoBonus` | app/api/auth/telegram/route.ts:76-80 | a failed insert gives 500 with the database's message and leaves the tables unchanged, so no bonus is paid |
| `TelegramAuth.ReferralBonusPaid` | app/api/auth/telegram/route.ts:82-91 | after a first login the new row is appended; with no referrer nothing else is written; with one, the referrer is an existing row other than the new user, and when the referrer's balance and total can take 5.00 more the tables are exactly those of one `add_transaction` of a 5.00 `referral_bonus` for the referrer, adding exactly one ledger row; otherwise the tables are as the insert left them |
| `TelegramAuth.ReferrerCredited` | app/api/auth/telegram/route.ts:82-91 | when the bonus fits, the referrer's row gains 5.00 of balance and of lifetime total, every other existing row is unchanged, and the new row follows them |
| `TelegramAuth.ReferralShowsInStats` | app/api/auth/telegram/route.ts:82-91 | a referred first login adds one to the referrer's referral count and, when the bonus fits, 5.00 to their referral earnings, which otherwise stay |
| `TelegramAuth.LoginKeepsConstraints` | app/api/auth/telegram/route.ts:23-98 | every login leaves the tables within their constraints, with non-negative totals |
| `TelegramAuth.Post` | app/api/auth/telegram/route.ts:23-98 | the handler's steps against the store give the response and tables of `Login`, and keep the store valid |
| `MonetagCallback.Callback` | app/api/monetag/callback/route.ts:5-49 | the ad callback as a function of the tables: its response and the tables after it |
| `MonetagCallback.MissingFieldsRejected` | app/api/monetag/callback/route.ts:9-11 | a falsy telegram id or ad type is exactly the 400 case, and writes nothing |
| `MonetagCallback.UnknownUserRejected` | app/api/monetag/callback/route.ts:16-24 | an id that no row holds gives 404 and writes nothing |
| `MonetagCallback.CallbackCredits` | app/api/monetag/callback/route.ts:16-44 | for the row whose telegram id `Number.parseInt` reads from the request, number or text: the callback is rewarded iff a reward is configured and its `add_transaction` as an `ad_reward` described `Watched <adType> ad` succeeds; then the tables are that call's result, with one ledger row appended, the row's balance and total grown by the reward, no other row changed and the response reporting it; otherwise the answer is 500 and nothing is written |
| `MonetagCallback.RewardedAppends` | app/api/monetag/callback/route.ts:26-44 | a rewarded callback appends one ledger row worth the reported points |
| `MonetagCallback.Post` | app/api/monetag/callback/route.ts:5-49 | the handler's steps against the store give the response and tables of `Callback`, and keep the store valid |
| `AddReward.Reward` | app/api/wallet/add-reward/route.ts:4-54 | the add-reward handler as a function of the tables: its response and the tables after it |
| `AddReward.MissingFieldsRejected` | app/api/wallet/add-reward/route.ts:8-10 | a falsy telegram id, type or amount (0 included) is exactly the 400 case, and writes nothing |
| `AddReward.UnknownUserRejected` | app/api/wallet/add-reward/route.ts:15-23 | an id that no row holds gives 404 and writes nothing |
| `AddReward.RewardCredits` | app/api/wallet/add-reward/route.ts:15-49 | for the row whose telegram id `Number.parseInt` reads from the request, number or text: the request is credited iff the amount parses and `add_transaction` for the row with that amount, type and description (null when falsy) succeeds; then the tables are that call's result and the response reports the row after the credit; otherwise the answer is 500 and nothing is written |
| `AddReward.CreditReadBack` | app/api/wallet/add-reward/route.ts:39-43 | after the credit, the re-read by id finds the credited row, whose balance grew by the amount and whose total grew by its positive part; the single new ledger row carries the amount, type and description |
| `AddReward.UnknownTypeRejected` | app/api/wallet/add-reward/route.ts:26-36 | a type outside the four gives 500 and writes nothing: with the CHECK violation's message when the amount fits `decimal(10, 2)`, and with `numeric field overflow` when it does not |
| `AddReward.Post` | app/api/wallet/add-reward/route.ts:4-54 | the handler's steps against the store, credit then re-read, give the response and tables of `Reward`, and keep the store valid |

## Left out

- HMAC-SHA-256 and UTF-8 encoding are not modelled. They are fields of `InitData.Crypto` that every lemma quantifies over. `crypto.randomBytes(4)`, the `gen_random_uuid()` default and Postgres `random()` are inputs (`TelegramAuth.Randomness`; the `draws` of `ReferralCode.GenerateReferralCode`).
- Parsing the raw init-data string (`URLSearchParams` and percent-decoding) is not modelled. The handler receives the already-decoded pairs.
- `request.json()` is not modelled: bodies arrive decoded. `JSON.parse` of the `user` field is the `parseUser` input, where `None` stands for a throw and gives the catch-all 500.
- `localeCompare` is modelled as code-point order. The two differ only for keys where a locale's collation disagrees with code points.
- Every `add_transaction` call in the source also passes `p_metadata`, but the procedure declares no such parameter. The database would reject these calls by signature. The model lets them reach the four-parameter procedure, which is what the callers evidently intend. The login route ignores the bonus call's result, so a failed bonus leaves the tables as they were. `revenue` and `metadata` have no effect.
- `Ledger.CreditRow`: the UPDATE adds the unrounded `p_amount` (declared `decimal` with no scale) and rounds the sum to two places, half away from zero. The model takes the amount already rounded to cents, as the INSERT stores it. The two differ for an exact half-cent amount whose sum has the opposite sign: from a balance of -0.01, an amount of 0.005 stores a ledger row of 0.01 but leaves the balance at -0.01, while the model credits it to 0.00.
- Floating point is not modelled. Points (`reward`, the config constants) are integers, and `canWithdraw` takes a real. `Number.parseFloat(amount)` is the `parseFloat` input, giving cents after Postgres rounds to two places, or `None` for NaN. The float sum in the stats route is an exact sum of cents. `toFixed`, `toLocaleString` and `formatPoints` are not modelled.
- JSON numbers are integers only. `String(n)` is not modelled for numbers whose text uses an exponent.
- Request fields are assumed to be strings, integers, null or absent (`JsValues.Value`). Booleans, objects and arrays are not modelled; for example `[]` is truthy while `String([])` is empty, and no value of the model behaves like that.
- `uuid` keys are abstract naturals (`Schema.UserId`). `created_at` and `updated_at` are not modelled.
- Not modelled: row-level-security policies, indexes, the `exec_sql` RPC and the probe query. Their outcomes are the `Migrations.Outcome` inputs. The SQL text the migrations carry is modelled by the Schema, Ledger, ReferralCode and Leaderboard modules, not executed.
- Concurrent requests and the race between two first logins are not modelled. Each handler runs alone on the store.
- `Leaderboard.ViewComplete`: SQL leaves the order of users with equal totals open, and the model keeps table order. So the lemma promises the listing only of users who earned strictly more than the 100th row.
- The leaderboard route (`app/api/leaderboard/route.ts:13`) calls `rpc("refresh_leaderboard")` before every read, but no migration defines that function, and the call's error is ignored. The view is modelled as computed from the current table, which is what a refresh would give.
- `Schema.Message` gives the primary message of each error only. The SQLSTATE code, `details` and `hint` that the client library also returns are not carried.
- Logging (`console.log` and `console.error`) is not modelled. The `transaction_id` of the add-reward response is always null, because the procedure returns `void`, and it is not carried.
- `ReferralCode.GenerateReferralCode` requires exactly eight draws, each in `[0, 1)`, as `random()` promises. Double-precision rounding of `random() * 36 + 1` is not modelled.
- The `referee` bonus (250 by default) is configured but never paid by any handler. It appears only in `Config.DefaultRewards`.
- The `referrer` setting (500 points by default) is unused too. The login route pays a hard-coded `p_amount: 5.0` (`app/api/auth/telegram/route.ts:87`), which is `TelegramAuth.ReferralBonusCents`, 500 cents. The 500 of `Config.DefaultRewards` is a different number that only happens to match.
- `lib/config.ts` falls back to an empty bot token, while the login route falls back to `"test_token"`. The route reads the environment itself, and `TelegramAuth.BotToken` follows the route.
