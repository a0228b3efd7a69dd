# Bill splitter: the bill service core in Dafny

This project models the core of the bill service of the bill-splitter
application, a C++ HTTP service that records shared events (a dinner, a
trip, a shared house), their participants and their expenses, and works out
who owes whom. It proves properties of that model. The model covers:

- **The split calculator** (`SplitCalculator` in `split.dfy`, `Settlements` in `settlements.dfy`):
  - the equal, percentage and custom expense splits;
  - the balance fold shared by the per-user balance summary and the event settlement;
  - the greedy debtor/creditor matcher that turns balances into settlements.
- **The request validators**:
  - expenses (`ExpensesController` in `expenses.dfy`);
  - participants (`ParticipantsController` in `participants.dfy`);
  - events (`EventsController` in `events.dfy`), with the `updates` object the event update builds.
- **The shared helpers**:
  - `trim` and `isValidUUID` (`Utils` in `utils.dfy`);
  - the optional-member steps and the ISO 8601 date pattern (`Validation` in `validation.dfy`).
- **The authentication helpers** (`AuthMiddleware` in `auth.dfy`): bearer token extraction, the JWT shape check and the base64 decoder.
- **Redis value quoting** (`RedisClient` in `redis.dfy`).
- **Shared result types** (`Wrappers` in `wrappers.dfy`): `Option` and `Result`.

A request body is a map from member names to JSON scalars. A validator is a
function returning either the parsed request or the error the service would
report. Amounts are mathematical reals.

The settlement algorithm is written as methods with loops, as in the
service. Each method is proved equal to a functional definition, or to the
predicates that state what the settlement promises.

The expense fold calls the share calculator without custom shares. So an
expense whose split type is "percentage" or "custom" credits its payer and
debits nobody (`SplitCalculator.ExpenseCases`). The zero-sum property
(`SplitCalculator.BalancesSumToZero`) is stated for equally split expenses
paid by a participant, the case in which it holds.

## Model

| member | source | states |
|---|---|---|
| Utils.Trim | services/bill-service/src/utils.cpp:50-56 | the result is empty exactly when every character is one of " \t\n\r\f\v"; otherwise it is a slice of the input that neither starts nor ends with such a character, with only such characters before and after it |
| Utils.FindFirstNotSpace | services/bill-service/src/utils.cpp:51-52 | "not found" exactly when the string is all whitespace; otherwise the position of a non-space character with only whitespace before it |
| Utils.FindLastNotSpace | services/bill-service/src/utils.cpp:54 | "not found" exactly when the string is all whitespace; otherwise the position of a non-space character with only whitespace after it |
| Utils.TrimOfClean | services/bill-service/src/utils.cpp:50-56 | a string that neither starts nor ends with whitespace is its own trim |
| Utils.TrimIdempotent | services/bill-service/src/utils.cpp:50-56 | trimming twice gives the same as trimming once |
| Utils.UuidByPosition | services/bill-service/src/utils.cpp:22-27 | a string is a valid UUID exactly when it has 36 characters, dashes at positions 8, 13, 18 and 23, and hex digits everywhere else |
| Utils.UuidByTemplate | services/bill-service/src/utils.cpp:22-27 | the same UUID check, stated as a character-by-character template (an independent reference definition) |
| Utils.UuidCaseInsensitive | services/bill-service/src/utils.cpp:23-25 | upper-casing or lower-casing a string does not change whether it is a valid UUID |
| Validation.DateFormatByShape | services/bill-service/src/expenses_controller.cpp:531-535 | a date passes exactly when it has one of the four shapes `DDDD-DD-DDTDD:DD:DD`, with an optional `.DDD`, with an optional `Z`; a valid date therefore has 19, 20, 23 or 24 characters |
| Validation.CoreByTemplate | services/bill-service/src/expenses_controller.cpp:533 | the date-and-time part of the pattern agrees with its template |
| Validation.FractionByTemplate | services/bill-service/src/expenses_controller.cpp:533 | the optional milliseconds and `Z` suffix agree with their four templates |
| ExpensesController.ValidateCreateExpenseRequest | services/bill-service/src/expenses_controller.cpp:398-465 | accepts exactly the bodies that meet every check. The first failing check decides the error, in the source's order: payer id string, amount number, description string, UUID payer, amount range, description length, split type string, known split type, date string, date pattern. On success the request holds the trimmed payer id, the amount in (0, 999999.99], a trimmed description of 1 to 255 characters, a valid or defaulted split type, and the trimmed `expense_date` member (empty when absent), which is empty or a valid date |
| ExpensesController.ValidateUpdateExpenseRequest | services/bill-service/src/expenses_controller.cpp:467-518 | accepts exactly the bodies whose present members pass their checks, and accepts an empty body. The first failing member decides the error, in the source's order: amount (not a number, out of range), description (not a string, too long), split type (not a string, unknown), date (not a string, bad pattern). On success the amount is present exactly when the body has one, and the description, split type and date are each the trimmed member, or empty when the body has none |
| ExpensesController.CreateAcceptedIsUpdateAccepted | services/bill-service/src/expenses_controller.cpp:398-518 | every body the create path accepts is accepted by the update path with the same amount, description and date |
| ExpensesController.BlankDescriptionOnlyOnUpdate | services/bill-service/src/expenses_controller.cpp:432-435 | a blank description is refused on create with the length error, but accepted on update, where it becomes the empty string |
| ExpensesController.BlankRefusedOnCreate | services/bill-service/src/expenses_controller.cpp:432-435 | replacing the description of an accepted create body by a blank one yields the length error |
| ExpensesController.BlankAcceptedOnUpdate | services/bill-service/src/expenses_controller.cpp:481-491 | the same blank description passes the update check and is stored empty |
| ParticipantsController.ValidateAddParticipantRequest | services/bill-service/src/participants_controller.cpp:345-389 | the first failing check decides the error, in the source's order: user id missing or not a string, user id not a UUID, share percentage not a number, share percentage outside 0 to 100, custom amount not a number, custom amount outside 0 to 999999.99. The body is accepted exactly when none fails, and then holds the trimmed user id and each share member's number, or 0 when it is absent |
| ParticipantsController.ValidateUpdateParticipantRequest | services/bill-service/src/participants_controller.cpp:391-427 | the share members are checked as on the add path, with the same four errors in the same order. When both pass but both values end up 0 (absent or an explicit zero, the empty body included), the body is refused with the nothing-to-update error. Otherwise it is accepted with each member's number, or 0 when absent |
| ParticipantsController.UpdateChecksAsAdd | services/bill-service/src/participants_controller.cpp:345-427 | the update check of a body equals the add check of the same body with a valid user id, plus the non-zero requirement, with the same parsed shares |
| EventsController.ValidateCreateEventRequest | services/bill-service/src/events_controller.cpp:291-350 | the name, description and event type are required strings, checked in that order; then the trimmed name must have 1 to 100 characters, the trimmed type must be one of the seven event types, and each date, when present, must be a string that is empty or matches the date pattern, each with its own error in that order. The body is accepted exactly when all of these pass, and then the start and end dates are the trimmed members, or empty when absent |
| EventsController.ValidateUpdateEventRequest | services/bill-service/src/events_controller.cpp:352-423 | accepts exactly the bodies whose present members are strings whose trims are empty or valid; the first failing member decides the error, in the order name, description, event type, status, start date, end date, with a type error before a value error; the empty body is accepted with every field empty; the result holds the trimmed members |
| EventsController.BuildUpdatesContents | services/bill-service/src/events_controller.cpp:206-213 | the updates object holds exactly the non-empty fields, each under its member name with its value |
| EventsController.UpdatesFromAcceptedBody | services/bill-service/src/events_controller.cpp:206-213 | for an accepted body the updates object holds exactly the members whose trimmed text is non-empty. Each holds its trimmed text, and the name, type, status and dates in it are valid |
| EventsController.UpdatesFromFields | services/bill-service/src/events_controller.cpp:206-213 | the same, from the parsed fields of the request |
| AuthMiddleware.ExtractToken | services/bill-service/src/auth_middleware.cpp:97-109 | the token is non-empty exactly when the header is longer than "Bearer " and starts with it, and then the header is "Bearer " followed by the token |
| AuthMiddleware.ExtractTokenRoundTrip | services/bill-service/src/auth_middleware.cpp:97-109 | extracting from "Bearer " plus a non-empty token gives the token back |
| AuthMiddleware.JwtStructureBySegments | services/bill-service/src/auth_middleware.cpp:198-202 | a token passes the structure check exactly when it is three non-empty base64url segments joined by two dots |
| AuthMiddleware.JwtSplit | services/bill-service/src/auth_middleware.cpp:198-202 | a token that passes splits into three segments |
| AuthMiddleware.JwtJoin | services/bill-service/src/auth_middleware.cpp:198-202 | three segments joined by dots pass |
| AuthMiddleware.JwtAlphabet | services/bill-service/src/auth_middleware.cpp:200 | a token that passes has exactly two dots and no `=`, `+` or `/` |
| AuthMiddleware.Sextet | services/bill-service/src/auth_middleware.cpp:179-183 | a character's table value is its index in the standard base64 alphabet, or -1 when it is not in it |
| AuthMiddleware.Sextets | services/bill-service/src/auth_middleware.cpp:186-187 | the values consumed are those of the longest prefix of alphabet characters; the first character after it is outside the alphabet |
| AuthMiddleware.DecodeStep | services/bill-service/src/auth_middleware.cpp:188-193 | shifting the accumulator by six bits and adding a value appends that value's six bits. A byte is emitted exactly when eight unread bits are available, and it is the next eight bits |
| AuthMiddleware.DecodeTurn | services/bill-service/src/auth_middleware.cpp:187-193 | one turn of the decoding loop keeps the decoded bytes equal to the complete octets of the bits consumed so far |
| AuthMiddleware.Base64Decode | services/bill-service/src/auth_middleware.cpp:176-196 | the output is the complete octets of the six-bit groups of the leading alphabet characters; an incomplete final octet is dropped, so the length is six times the number of consumed characters divided by eight |
| AuthMiddleware.DecodeStopsAtForeignChar | services/bill-service/src/auth_middleware.cpp:187 | nothing after the first character outside the alphabet (padding included) affects the output |
| AuthMiddleware.OctetExtract | services/bill-service/src/auth_middleware.cpp:191 | shifting right by the unread bit count and masking with 0xFF yields the next complete octet |
| RedisClient.Escape | services/bill-service/src/redis_client.cpp:272-284 | the quoting adds exactly one character per double quote |
| RedisClient.EscapedQuotesFollowBackslash | services/bill-service/src/redis_client.cpp:279 | every quote in an escaped string directly follows a backslash, and an escaped string never starts with a quote |
| RedisClient.EscapeWithoutQuotes | services/bill-service/src/redis_client.cpp:272-284 | a string without double quotes is returned unchanged |
| RedisClient.EscapeConcat | services/bill-service/src/redis_client.cpp:278-281 | escaping works character by character: escaping a concatenation concatenates the escapes |
| RedisClient.UnescapeEscape | services/bill-service/src/redis_client.cpp:272-284 | unescaping an escaped string gives the original back |
| RedisClient.EscapeInjective | services/bill-service/src/redis_client.cpp:272-284 | two different strings never escape to the same value |
| RedisClient.FindFrom | services/bill-service/src/redis_client.cpp:278 | the search finds the first quote at or after the start position, or reports that there is none |
| RedisClient.EscapeLoopStep | services/bill-service/src/redis_client.cpp:278-281 | replacing the quote found and skipping two characters leaves a longer escaped prefix followed by the untouched rest, so an inserted quote is never escaped again |
| RedisClient.EscapeTurn | services/bill-service/src/redis_client.cpp:278-281 | one turn of the replace loop keeps the escaped-prefix invariant and makes progress |
| RedisClient.EscapeString | services/bill-service/src/redis_client.cpp:272-284 | the loop's result is the character-by-character escape of its input, one character longer per quote |
| SplitCalculator.EqualShares | services/bill-service/src/split_calculator.cpp:13-18 | one share per participant id, in order, each owned by that id |
| SplitCalculator.KnownIds | services/bill-service/src/split_calculator.cpp:20-21 | the ids kept are exactly those that have a custom share |
| SplitCalculator.PercentageShares | services/bill-service/src/split_calculator.cpp:19-27 | shares go, in order, to exactly the ids with a listed percentage; each carries that percentage and that fraction of the total |
| SplitCalculator.CustomShares | services/bill-service/src/split_calculator.cpp:28-36 | shares go, in order, to exactly the ids with a listed amount; each carries that amount and its percentage of the total |
| SplitCalculator.CalculateExpenseShares | services/bill-service/src/split_calculator.cpp:5-39 | an equal split gives every id the same amount and percentage, whose multiples by the id count are the total and 100. A percentage or custom split with custom shares gives the shares above. Any other split type, or no custom shares, gives no shares, and so does an empty id list |
| SplitCalculator.EqualSplitSums | services/bill-service/src/split_calculator.cpp:13-18 | an equal split over at least one id hands out exactly the total and exactly 100 percent |
| SplitCalculator.PercentageSharesScale | services/bill-service/src/split_calculator.cpp:23 | percentage shares add up to the total times their summed percentages over 100 |
| SplitCalculator.PercentageSharesCover | services/bill-service/src/split_calculator.cpp:19-27 | shares that each take their percentage of the total, with percentages adding up to 100, add up to the total |
| SplitCalculator.PercentageSplitCoversTotal | services/bill-service/src/split_calculator.cpp:19-27 | when the listed percentages of the kept ids add up to 100, the percentage shares add up to the total |
| SplitCalculator.CustomSharesScale | services/bill-service/src/split_calculator.cpp:32 | custom shares' percentages add up to their summed amounts as a percentage of the total |
| SplitCalculator.CustomSplitCoversHundred | services/bill-service/src/split_calculator.cpp:28-36 | when the custom amounts add up to a non-zero total, their percentages add up to 100 |
| SplitCalculator.ParticipantIds | services/bill-service/src/split_calculator.cpp:130-137 | the collected ids are exactly the user ids of the participants that have one, each occurring as many times as there are participant rows carrying it |
| SplitCalculator.ParticipantIdsAppend | services/bill-service/src/split_calculator.cpp:130-137 | the ids of two runs of participant rows are the ids of the first run followed by those of the second, so the row order is kept |
| SplitCalculator.InitialBalances | services/bill-service/src/split_calculator.cpp:110-117 | one zero balance per participant user id and no other entry |
| SplitCalculator.DebitShares | services/bill-service/src/split_calculator.cpp:149-153 | debiting shares keeps the tracked ids and lowers each tracked balance by the total of that id's shares; untracked ids are ignored |
| SplitCalculator.ApplyExpense | services/bill-service/src/split_calculator.cpp:121-153 | one expense keeps the tracked ids and changes each balance by what that user paid minus the equal shares they owe |
| SplitCalculator.ExpenseCases | services/bill-service/src/split_calculator.cpp:122-147 | an expense without payer or amount, or any expense when no participant has an id, changes nothing; a counted expense whose split is not "equal" only credits its payer |
| SplitCalculator.CountedExpenseEffect | services/bill-service/src/split_calculator.cpp:143-153 | crediting the payer and debiting the computed shares changes every balance by the expense's effect on that user |
| SplitCalculator.EqualDebit | services/bill-service/src/split_calculator.cpp:149-153 | after an equal split, each id is debited its share once for every time it occurs among the participant ids |
| SplitCalculator.BalancesAfterNet | services/bill-service/src/split_calculator.cpp:120-155 | after folding all the expenses, every balance has moved by the sum of the expenses' effects on that user |
| SplitCalculator.CalculateUserBalances | services/bill-service/src/split_calculator.cpp:101-163 | one balance per participant user id and no other entry. Each balance is what that user paid minus the equal shares they owe, summed over the counted expenses |
| SplitCalculator.DebitSharesSum | services/bill-service/src/split_calculator.cpp:149-153 | debiting shares of tracked ids lowers the sum of all balances by the shares' total |
| SplitCalculator.ApplyExpenseSum | services/bill-service/src/split_calculator.cpp:143-153 | an equally split expense paid by a tracked user leaves the sum of the balances unchanged |
| SplitCalculator.BalancesSumToZero | services/bill-service/src/split_calculator.cpp:101-163 | when every counted expense is split equally and paid by a participant, the balances add up to zero |
| Settlements.Min | services/bill-service/src/split_calculator.cpp:188 | the minimum is one of the two amounts and no larger than either |
| Settlements.SplitParties | services/bill-service/src/split_calculator.cpp:170-177 | the debtors are exactly the ids with a balance below -0.01, each owed its magnitude. The creditors are exactly the ids with a balance above 0.01, each owed its balance. No id repeats |
| Settlements.Insert | services/bill-service/src/split_calculator.cpp:180-183 | inserting into a list sorted largest first keeps it sorted and adds exactly the new entry |
| Settlements.SortDescending | services/bill-service/src/split_calculator.cpp:180-183 | the result is sorted largest amount first and is a permutation of the input |
| Settlements.PermutationKeepsSide | services/bill-service/src/split_calculator.cpp:180-183 | any reordering of a collected side, in particular any largest-first order the unstable sort may produce, still holds exactly the parties of that side, each once and with an amount above the tolerance |
| Settlements.MatchTurn | services/bill-service/src/split_calculator.cpp:188-200 | one turn pays the smaller of the two open amounts from the current debtor to the current creditor. It keeps every party's remaining amount equal to its original amount minus what it has settled, keeps the settlements in list order, and moves past at least one party |
| Settlements.CoreTurn | services/bill-service/src/split_calculator.cpp:188-200 | one turn keeps each party's remaining amount equal to its original amount minus what it has settled, and keeps every settlement between the two lists |
| Settlements.OrderStep | services/bill-service/src/split_calculator.cpp:187-200 | a settlement between the current debtor and creditor, after settlements that involved no later party, keeps the settlements in list order |
| Settlements.MatchStart | services/bill-service/src/split_calculator.cpp:186 | before the first turn nobody has settled anything |
| Settlements.MatchDone | services/bill-service/src/split_calculator.cpp:187 | when one side is exhausted, the loop state gives the guarantees of the match |
| Settlements.MatchParties | services/bill-service/src/split_calculator.cpp:186-201 | every settlement goes from a listed debtor to a listed creditor for at least 0.01. Nobody pays or receives more than they are owed. With both sides non-empty there are between 1 and one fewer than the number of parties settlements, and none otherwise. Afterwards every debtor, or every creditor, is within 0.01 of settled. The first settlement pairs the two heads, and the payers and payees never move backwards through their lists |
| Settlements.ListToBalanceOrder | services/bill-service/src/split_calculator.cpp:180-200 | settlements that walk forward through the two largest-first lists pay from ever higher balances to ever lower ones |
| Settlements.HeadsFirst | services/bill-service/src/split_calculator.cpp:180-194 | after sorting, the first settlement runs from the lowest balance to the highest, for the smaller of their magnitudes |
| Settlements.DebtorsWithin | services/bill-service/src/split_calculator.cpp:196-199 | no user with a balance below -0.01 pays more than that balance's magnitude |
| Settlements.CreditorsWithin | services/bill-service/src/split_calculator.cpp:197-200 | no user with a balance above 0.01 receives more than that balance |
| Settlements.SettledSide | services/bill-service/src/split_calculator.cpp:187-201 | every debtor, or every creditor, ends within 0.01 of its balance |
| Settlements.OptimizeSettlements | services/bill-service/src/split_calculator.cpp:165-204 | for any balances, each settlement goes from a user below -0.01 to a user above 0.01, for at least 0.01. Nobody pays or receives more than their balance. There are no settlements unless both sides exist, and fewer than the number of parties otherwise. One side ends fully settled within 0.01. The first settlement pays the largest debt toward the largest credit. Later payers never have a lower balance than earlier ones, and later payees never a higher one. All of this holds whichever largest-first order the unstable sort puts equal amounts in |
| Settlements.CollectIds | services/bill-service/src/split_calculator.cpp:68-75 | the inner loop collects exactly the participants' user ids, in order |
| Settlements.DebitLoop | services/bill-service/src/split_calculator.cpp:90-94 | the share loop computes the functional debit of the shares |
| Settlements.ExpenseLoopTurn | services/bill-service/src/split_calculator.cpp:58-95 | one turn of the expense loop computes the functional application of that expense |
| Settlements.InitialBalancesStep | services/bill-service/src/split_calculator.cpp:47-54 | one more participant row adds a zero balance for its user id, if it has one, and changes nothing else |
| Settlements.InitialLoop | services/bill-service/src/split_calculator.cpp:47-54 | the first loop of the event settlement starts every participant user id at zero, exactly as the balance summary does |
| Settlements.EventBalances | services/bill-service/src/split_calculator.cpp:45-96 | the balance loops of the event settlement compute exactly the per-user balances of the balance summary |
| Settlements.CalculateEventSettlements | services/bill-service/src/split_calculator.cpp:41-99 | the settlements of an event satisfy every guarantee of the optimizer, the balance order included, for the event's per-user balances |

## Left out

- Floating point: amounts, percentages and balances are mathematical reals. IEEE-754 rounding is not modelled, so the exact sums proved here hold for the reals and only approximately for doubles.
- SplitCalculator.PercentOf: with a zero total the source's custom percentage is an infinity or NaN, which a real cannot hold; the model puts 0.0 there.
- SplitCalculator.CalculateExpenseShares: an equal split over no ids divides by zero in the source but pushes no shares, so the model returns no shares without computing the quotient.
- The database, Redis and HTTP layers: route handlers, SQL, the Redis connection and its commands, and the response builders. These are I/O; only the pure helpers they call are modelled.
- JWT signature and expiry checking (`verifyJWT`, `parseJWTPayload`): they call a JSON parser and the clock.
- The clock (`getCurrentTimestamp`) and the environment (`getEnvVar`): these are I/O.
- JSON type errors: a JSON member of the wrong type makes the library throw. The model's expense and participant rows are typed (`Option` fields), so it assumes well-typed rows.
- `participants` or `expenses` that are not JSON arrays are treated by the source as having no rows. The model takes sequences, so it covers that case as the empty sequence.
- The event id passed to `calculateUserBalances` is unused by the source and is not a parameter of the model.
- Iteration order: `std::map` visits keys in byte order. The model's partition visits them in any order, and every proved property holds for all orders.
- Sorting: `std::sort` is not stable, so the order of equal amounts is unspecified. The optimizer takes any largest-first reordering of each side, so every property proved about it holds whichever order equal amounts come in; the insertion sort `Settlements.SortDescending` shows that such an order exists.
- The JSON result of `calculateUserBalances` is a map from id to balance in the model.
- The events `updates` object is a map from member name to string.
- AuthMiddleware.Base64Decode: requires an ASCII input, because the source indexes a 128-entry table with the raw byte (undefined for bytes of 128 and above). Its `int` accumulator is unbounded in the model, whereas the source's left shift overflows a 32-bit int after a few characters (undefined behaviour); only the low bits the output reads are modelled.
- String lengths (the 100-character event name, the 255-character description) are counted in characters; the source counts UTF-8 bytes.
- RedisClient.Escape: only double quotes are escaped, as in the source; backslashes already in the input are kept, so the quoting is injective but an input ending in a backslash can still affect a surrounding quoted command.
- Settlements.OptimizeSettlements: the amount of each settlement after the first is bounded (at least 0.01, within both parties' balances) but is not stated as the smaller of the two amounts still open at that turn; `Settlements.MatchTurn` states that per turn.
- The settlements controller, the Node.js services and the mobile front end are not part of this model.
