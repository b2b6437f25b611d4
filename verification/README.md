# Koleka funding core in Dafny

This project models the crowdfunding site Koleka. It covers four parts.

- **Funding endpoint** (`POST /api/projects/:id/fund`). It checks the phone number and the amount, opens a storage transaction and reads the project. When an API key is set, it sends the payment to the mobile-money proxy and polls its status until the status is final or a deadline passes. It then inserts one pledge, increments the project's `raised` total and commits.
- **Status normaliser**. It finds a status or a reference id in provider replies of any shape. It then tests the status, ignoring case, against the provider's final-status words.
- **Display arithmetic** in the browser: the funded percentage and the "time ago" label.
- **Campaign listing**: the search filter and the three sort orders.

Modules, one file each:

- `JsValues` (`js_values.dfy`): the JavaScript values the code handles:
  - decoded JSON and truthiness;
  - `String()`;
  - ASCII case mapping;
  - the `\s` and `trim()` white-space set;
  - `Number()` results (`JsNumber`: a finite number or NaN; ±Infinity is left out).
- `PaymentStatus` (`payment_status.dfy`): `extractStatusValue`, `extractReferenceId`, `isFinalStatus` and `isSuccessfulStatus`.
- `Phone` (`phone.dfy`): `phoneIsValid`.
- `Poller` (`poller.dfy`): `pollNdaliPaymentStatus`.
  - The method `PollPaymentStatus` is proved equal to the function `PollSpec`.
  - What the poller promises is proved as lemmas about `PollSpec`.
  - `Date.now()` is a sequence of clock readings and each status query is a reply from a sequence.
- `Funding` (`funding.dfy`): the fund handler, as a `Ledger` class.
  - The ledger holds the `projects` and `pledges` tables as fields.
  - `BEGIN` takes a snapshot and `ROLLBACK` restores it.
  - The class invariant is that each project's `raised` equals the sum of its pledges.
  - The proxy is a `Gateway` value. It holds the API key, the reply to the initiation request, and the clock readings and replies the poller sees. A failing storage statement is a `DbFault` value.
- `Format` (`format.dfy`): `format.percent` and `format.timeAgo`. The current time is a parameter.
- `Listing` (`listing.dfy`): `applyFilters`.
  - It filters the loaded projects and sorts a fresh array copy in place with the page's comparator.
  - It then stores that copy in the `filtered` field of the `ProjectsPage` class.

Where the code and its design intent disagree, the model follows the code.

- **Failed payments are still recorded.** A poll that ends in a status other than SUCCESSFUL, or in a timeout, throws "Payment not successful" at `server.js:290`. The catch at `server.js:293` swallows it. The request then records the pledge with the simulated transaction.
  - The comments at `server.js:295-297` show this fallback was a deliberate choice for a demo. A payment system would roll back such a request with no pledge.
  - `Funding.Ledger.Fund` states what the code does: the response is `Funded` exactly when the phone, the amount, the project and the storage statements are all fine, whatever the proxy answers.
  - `Funding.ConfirmedOnlyBySuccessfulReply` states the conditions without which the transaction is never credited to the proxy, and `Funding.ConfirmedBySuccessfulReply` states that together they are enough, with the reference from the initiation reply.
- **Field names.** The listing code reads `project.ownerName` and `project.createdAt`. The rows served by `GET /api/projects` carry `owner_name` and `created_at` (`server.js:196`). With those rows the owner-name clause of the search never matches, and the default sort compares NaN.
  - `Listing` takes the fields as the code reads them. A missing owner name is `None` and an unreadable date is `None`.
  - `Listing.UndatedListIsInOrder` and the last postcondition of `Listing.ProjectsPage.ApplyFilters` show what then happens. The default order leaves the list as the server sent it, newest first by `ORDER BY created_at DESC`.

## Model

| member | source | states |
|---|---|---|
| PaymentStatus.ExtractStatusValue | server.js:111-120 | a status that is found is always truthy |
| PaymentStatus.StatusValueByPaths | server.js:111-120 | a falsy payload has no status; a non-empty string is its own status; any other payload yields the first truthy value among `status`, `payment.status`, `data.status`, `[0].status`, `result.status` |
| PaymentStatus.FirstPresentIsEarliest | server.js:114-118 | the path search returns the value of the earliest path whose value is truthy |
| PaymentStatus.FirstPresentNone | server.js:114-119 | the path search yields undefined exactly when no path has a truthy value |
| PaymentStatus.OrChainIsFirstPresent | server.js:159-166 | a chain of `\|\|` is truthy exactly when one operand is, and then it is the first truthy operand |
| PaymentStatus.NestedReferencesAreOrChain | server.js:163-165 | the last three operands of the `\|\|` chain read `data.referenceId`, `payment.referenceId` and `result.referenceId` with optional chaining |
| PaymentStatus.ReferenceIdIsOrChain | server.js:159-166 | the `\|\|` chain reads the six reference paths in the order written |
| PaymentStatus.ExtractReferenceId | server.js:156-167 | a falsy reply has no reference and a non-empty string is its own reference; otherwise the result is truthy exactly when one of `referenceId`, `reference_id`, `reference`, `data.referenceId`, `payment.referenceId`, `result.referenceId` is truthy, and then it is the first truthy one |
| PaymentStatus.UpperMatchesIgnoringCase | server.js:129-131 | upper-casing a string gives an upper-case word exactly when the string equals that word ignoring case |
| PaymentStatus.UpperInWords | server.js:129-131 | looking the upper-cased string up in a list of upper-case words is a case-insensitive search of that list |
| PaymentStatus.IsFinalStatus | server.js:127-132 | a status is final exactly when it is truthy and its `String()` form equals one of the eight final words ignoring case |
| PaymentStatus.FinalStatusIgnoresCase | server.js:127-132 | two string statuses that agree ignoring case are both final or both not; an empty or missing status is not final |
| PaymentStatus.IsSuccessfulStatus | server.js:122-125 | a status is successful exactly when it is truthy and its `String()` form equals "SUCCESSFUL" ignoring case; a successful status is also final |
| Phone.StripSeparators | server.js:36 | the cleaned string is never longer than the input; what it keeps is stated by StripSeparatorsDropsSeparators, StripSeparatorsKeepsTheRest, StripSeparatorsSplits and StripSeparatorsKeepsClean |
| Phone.StripSeparatorsDropsSeparators | server.js:36 | the cleaned string holds no white-space character and no dash |
| Phone.StripSeparatorsKeepsTheRest | server.js:36 | every other character is kept exactly as often as it occurs in the input |
| Phone.StripSeparatorsSplits | server.js:36 | stripping a concatenation concatenates the stripped parts, so the kept characters stay in their order |
| Phone.StripSeparatorsKeepsClean | server.js:36 | a string without white space and dashes is left unchanged |
| Phone.LocalAlternativeIsRedundant | server.js:37-38 | the pattern accepts exactly an optional '+' followed by 8 to 15 digits; the 0-leading alternative adds nothing |
| Phone.PhoneIsValid | server.js:34-39 | a phone is valid exactly when it is truthy and its `String()` form, without white space and dashes, is an optional '+' and 8 to 15 digits |
| Phone.PhoneValidity | server.js:34-39 | null and "" are invalid, and a white-space character or dash inserted anywhere in a string does not change the verdict |
| Phone.StringPhoneValidity | server.js:34-39 | for a string input the truthiness test is subsumed by the pattern |
| Poller.PollFrom | server.js:139-153 | from the loop test that reads `clock[i]` on, the poll sends no more queries than there are loop tests before the last reading, returns early only with a final status, and a rethrown error is the one the last query sent threw |
| Poller.PollSpec | server.js:136-154 | the whole poll, with the deadline set by the first reading: the same bounds, early return only with a final status, and the rethrown error is that of the last query |
| Poller.PollPaymentStatus | server.js:136-154 | the loop computes exactly the outcome and number of queries that `PollSpec` defines |
| Poller.PendingExtend | server.js:139-150 | one more non-final reply before the deadline extends the run of non-final replies |
| Poller.PollFromThrows | server.js:139-145 | from any loop test on, a rethrown error comes after only non-final replies, each before the deadline, and the failing query was also sent before the deadline |
| Poller.PollFromFinal | server.js:139-148 | from any loop test on, an early return comes after only non-final replies and carries the reply that first had a final status, with that status |
| Poller.PollFromTimesOut | server.js:139-153 | from any loop test on, a timeout comes after only non-final replies, once a loop test finds the deadline passed, and reports the last payload |
| Poller.PollThrows | server.js:139-145 | a query that throws is rethrown at once; every earlier query was sent before the deadline and answered with a non-final status |
| Poller.PollReturnsFinal | server.js:139-148 | the poll returns at the first reply with a final status, sent before the deadline, with that payload and that status, and sends no query after it |
| Poller.PollTimesOut | server.js:139-153 | when a loop test finds the deadline passed after only non-final replies, the result has `timedOut`, the last payload (or `{status:'UNKNOWN', reason:'timeout'}` without any query) and that payload's status or 'UNKNOWN' |
| Poller.TimedOutResult | server.js:152-153 | the result is marked timed out, its payload is never null (the synthetic `{status:'UNKNOWN', reason:'timeout'}` stands in for no payload), and its status is the last payload's status when it has a truthy one and 'UNKNOWN' otherwise; PollTimesOut and TimedOutIsNeverFinal state how the poll uses it |
| Poller.TimedOutIsNeverFinal | server.js:152-153 | a timed-out poll reports 'UNKNOWN' or a non-final status, never SUCCESSFUL; without any query the payload is `{status:'UNKNOWN', reason:'timeout'}` |
| Poller.PollIgnoresLaterReplies | server.js:139-149 | replies after the ones the poll consumes do not change its outcome |
| Funding.InitiationRequest | server.js:275-281 | the payment is requested for `String(phone)` and the amount, with the first eight characters of the project id as reference |
| Funding.ConfirmedReference | server.js:273-299 | the reference the proxy is credited with, when there is one, is truthy; ConfirmedOnlyBySuccessfulReply and ConfirmedBySuccessfulReply state exactly when there is one and that it is the initiation reply's reference id |
| Funding.ExpectedTransaction | server.js:264-299 | the transaction has status SUCCESS, the amount and `String(phone)`. Its provider is the proxy exactly when the payment was confirmed, with the confirmed reference as id; otherwise the provider is 'MTN MoMo (simulated)' and the id is 'TX-' and the upper-cased uuid head |
| Funding.ConfirmedOnlyBySuccessfulReply | server.js:273-291 | a confirmed payment needs an API key and an initiation reply carrying the reference. It also needs a poll that returned before the deadline, with the last reply it consumed having a SUCCESSFUL status |
| Funding.ConfirmedBySuccessfulReply | server.js:273-288 | with an API key, an initiation reply carrying a truthy reference id, and a poll that returns a SUCCESSFUL status, the proxy is credited with exactly that reference id |
| Funding.EveryGatewayProblemFallsBack | server.js:273-299 | each of these leaves the simulated transaction in place: a missing key, a failed initiation, a reply without a reference, a failed poll and a timed-out poll |
| Funding.AttemptPayment | server.js:264-299 | the payment step produces exactly `ExpectedTransaction` |
| Funding.RaisedAppend | server.js:301-310 | appending a pledge adds its amount to its own project's total and to no other project's |
| Funding.RaisedNonNegative | server.js:245-248 | with only positive pledges a project's total is never negative |
| Funding.Credit | server.js:307-310 | the increment changes only the named row, by exactly the amount, and adds or removes no row |
| Funding.PledgeKeepsLedgerValid | server.js:301-313 | inserting a positive pledge together with the matching `raised` increment keeps every total equal to the sum of its pledges |
| Funding.Ledger.WritePledge | server.js:301-318 | commits exactly when no statement fails. A commit appends the pledge and increments that project's total, and the updated row is returned. A failing statement rolls both writes back. The ledger stays consistent either way |
| Funding.Ledger.PayAndRecord | server.js:264-314 | after the project is read: 500 with nothing recorded when a write or COMMIT fails; otherwise the transaction of the payment step, one more pledge, the matching increment and the updated row. The ledger stays consistent |
| Funding.Ledger.Fund | server.js:240-322 | the response for each case: 400 for an invalid phone, then 400 for a non-positive or non-finite amount, 500 for a failing BEGIN or SELECT (a malformed id is a failing SELECT), 404 for a well-formed id with no project and 500 for a failing write or commit. A funded response carries the message, the updated project and the transaction of the payment step, and the state gains exactly one pledge and the matching increment. A refused request changes nothing. The ledger stays consistent |
| Format.Round | js/common.js:89 | `Math.round` gives the integer within half of its argument, halves rounded up |
| Format.Percent | js/common.js:87-90 | a falsy goal gives 0; otherwise a NaN raised amount gives NaN and a number gives a whole number between 0 and 100 (in exact arithmetic) |
| Format.PercentIsNearest | js/common.js:89 | in the model's exact arithmetic, for every non-zero goal with x = raised/goal·100: x below 0.5 shows 0, x from 99.5 up shows 100, and in between the percentage is x rounded to the nearest integer |
| Format.PercentSaturates | js/common.js:89 | for a positive goal, reaching the goal shows 100 and nothing raised shows 0 |
| Format.PercentMonotone | js/common.js:89 | for a positive goal the percentage never drops when more is raised |
| Format.Bucket | js/common.js:94-107 | the unit is one of m, h, d, w, mo, y and the count is never negative; only the year unit can show a count of 0 |
| Format.TimeAgo | js/common.js:91-93 | the label is empty exactly when the date is invalid |
| Format.BucketThresholds | js/common.js:94-107 | the unit is m below an hour, h below a day, d below 7 days, w below 35 days, mo below 360 days, y beyond, each with the count the code computes; minutes are never 0 |
| Format.FutureIsJustNow | js/common.js:94-97 | a date in the future is labelled "1m ago" |
| Format.ZeroOnlyJustBeforeAYear | js/common.js:104-107 | the count shown is 0 exactly when 360 to 364 days have passed |
| Format.ZeroYearsShown | js/common.js:104-107 | a date 360 days back is labelled "0y ago" |
| Format.BucketIntended | js/common.js:94-107 | the corrected bucketing always shows a count of at least 1 in the same unit |
| Format.IntendedDiffersOnlyInYearGap | js/common.js:104-107 | the corrected bucketing differs from the code only in the 360 to 364 day window |
| Listing.Trim | js/projects.js:60 | `trim()` result is empty exactly when the input is all white space, otherwise starts and ends with a non-space; it is the slice of the input after the leading white space, and only white space follows it |
| Listing.Query | js/projects.js:60 | the query is the search text from its first non-white-space character, lower-cased, up to a point after which only white space follows; it is empty exactly when the search text is blank, and it has no white space at either end and no upper-case ASCII letter |
| Listing.SortOf | js/projects.js:61 | a selected order is kept; an empty selection gives 'latest' |
| Listing.Matches | js/projects.js:62-69 | a project matches exactly when the query is empty or occurs in the lower-cased title, description or owner name |
| Listing.Contains | js/projects.js:65-67 | `includes` holds exactly when the part occurs at some index of the text |
| Listing.Filter | js/projects.js:62-69 | every kept project matches, the list never grows, and an empty query keeps the list as it is |
| Listing.FilterIsSubsequence | js/projects.js:62-69 | the filter keeps projects in their loaded order |
| Listing.FilterCounts | js/projects.js:62-69 | the filter keeps every matching project as often as it occurs and no other |
| Listing.SortKey | js/projects.js:72-78 | the goal order always has a key; the progress key exists whenever the raised amount is a number and lies between 0 and 100; the date key exists exactly when the date is readable |
| Listing.Compare | js/projects.js:71-79 | a positive result means both keys exist and b's is larger; a negative one means both exist and a's is larger |
| Listing.CompareFlips | js/projects.js:71-79 | the comparator is antisymmetric: swapping the arguments negates the result |
| Listing.CompareByKey | js/projects.js:71-79 | between two keyed projects the comparator puts b first exactly when b's key is larger |
| Listing.AdjacentOrderedIsSorted | js/projects.js:71-79 | when the comparator never yields NaN, neighbour order means the sort keys are non-increasing |
| Listing.KeysOfNumericProjects | js/projects.js:72-78 | the goal order always has keys. The progress order has them when every raised amount is a number. The date order has them when every date is readable |
| Listing.UndatedListIsInOrder | js/projects.js:78 | without readable dates the default order finds any list in order |
| Listing.InsertProject | js/projects.js:71 | one insertion pass keeps the elements, orders the prefix up to i and leaves a prefix already in order untouched |
| Listing.SortProjects | js/projects.js:71-79 | the sorted array is a permutation of the input with no neighbouring pair out of order, and an input already in order is left unchanged |
| Listing.ProjectsPage.ApplyFilters | js/projects.js:59-83 | `filtered` becomes a permutation of the matching projects for the trimmed, lower-cased search. It is sorted by the selected order ('latest' when none is selected), with non-increasing keys when no key is NaN. A filtered list already in order is kept as it is. `projects` is unchanged |

## Left out

- HTTP routing, request parsing, `fetch`, `readJsonOrText` and the response bodies' JSON encoding are not modelled. Each proxy call is a reply value.
- `uuidv4()` is left out. Its first group is a parameter of `Fund`.
- `Date.now()` and `sleep` are left out. The clock is a sequence of readings; the sleep interval only shows as readings growing. `Gateway.Ready` and `ClockRunsOut` assume the clock eventually passes the deadline.
- `parseInt` of the poll settings and their defaults (5 and 60 seconds) are left out. An unparsable setting gives a NaN timeout in the source; the model takes an integer timeout, and the interval shows only in the clock readings.
- `JsNumber` has no ±Infinity, which `Number()` gives for inputs such as "Infinity" or "1e400"; the fund handler's `toNumber` (`server.js:29-32`) already maps it to NaN, and the browser code would compute with it.
- `toNumber(amount)` is left out: `Fund` takes its result, a finite number or NaN (`JsNumber`).
- `pool.connect()` failing is left out; it happens before the handler's `try`. `client.release()` has no state in the model.
- A failing `ROLLBACK` is left out. On the 404 path (`server.js:256`) it runs inside the `try`, so its failure leads to the catch and a 500 response instead of 404. A failing `ROLLBACK` in the catch (`server.js:316`) leaves the request without a response.
- Ledger.Fund: a project id that is not a well-formed UUID makes the `SELECT` at `server.js:253` throw, because `projects.id` is a `UUID` column (`js/setup-db.js:21`), and the request gets 500. The model has no UUID syntax: such a request is the `SelectFails` fault, and `projectId !in projects` stands for a well-formed id with no row. Keys of `projects` are the canonical lower-case hyphenated spelling; PostgreSQL also accepts upper-case hex, braces and missing hyphens and finds the same row, which the model's exact-string lookup does not (it answers 404), so only the canonical spelling is modelled.
- The `pledges` row id and timestamp, and `NUMERIC(12,2)` rounding, are left out. Amounts are exact reals.
- Concurrent funding requests and the database's isolation are left out. The model runs one request at a time.
- The signup, project list, project detail and project creation routes are left out, as are the page routes.
- `validateMsisdn` and `validateAmount` are left out; the fund handler never calls them. `requirePayNdaliConfig` is left out too: the handler never calls it directly, and it is reached only through `initiateNdaliPayment` and `getNdaliPaymentStatus` (`server.js:75`, `server.js:93`) after the handler has checked the API key itself. The missing API key is the empty `apiKey`.
- Json numbers are integers, so `String()` of fractional numbers and of numbers from 1e21 up is not modelled. Integers above 2^53 are printed with every digit, whereas JavaScript prints its shortest round-trip digits (`String(2**60)` is "1152921504606847000", the model gives "1152921504606846976"); such numbers have at least 16 digits, so `PhoneIsValid` rejects them either way.
- Case mapping covers ASCII letters only. Unicode `toUpperCase`/`toLowerCase` is left out.
- Format.Percent: computes in exact reals, not IEEE double precision, and tests the truthiness of the goal after `Number()`. In double arithmetic 29 / 200 · 100 is 14.499999999999998, so `percent(29, 200)` is 14 where the model gives 15; likewise `percent(0.7, 20)` is 3 where the model gives 4. A truthy non-numeric goal such as "abc" gives NaN in the source and 0 in the model, and a string goal such as "0.00" is truthy yet numerically zero (100 for a positive raised amount and NaN for zero raised in the source, 0 in the model).
- Format.PercentIsNearest: holds for the model's exact arithmetic only; with double-precision division 29 of 200 gives a ratio just below 14.5, which rounds down to 14.
- `new Date(input)` parsing is left out; `TimeAgo` takes the parsed timestamp or `None`.
- Rendering, DOM access, `format.currency`, `localStorage` and `html/index.js` are left out.
- `Listing.SortProjects` does not claim full stability for arbitrary inputs. It claims only that a list already in order is left unchanged. The browser's sort algorithm is replaced by an insertion sort with the same comparator.

## Findings

| source | as written | input that shows it | evidently intended | confidence | as-written member | corrected member |
|---|---|---|---|---|---|---|
| js/common.js:104-107 | months below 12 use 30-day months, so the year branch starts at 360 days but counts 365-day years | a date 360 days before now is labelled "0y ago" | a count of at least 1, "1y ago" | not executed | Format.ZeroYearsShown | Format.BucketIntended |
