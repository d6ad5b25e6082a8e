# Verified model of the backend's sequential core

This project models, in Dafny, the parts of the chat/payment/task backend that
carry real logic:

- **Task executor command validation** (`TaskExecutor`): the allow-list of
  program prefixes, the sanitizer that deletes the five shell metacharacters
  (semicolon, ampersand, pipe, backtick, dollar sign), and the sanitize-then-check step of `executeCommand`, with the
  child process abstracted as a function parameter.
- **Chat history store** (`ChatController.ChatStore`): `processChat` appends a
  user entry and an AI entry and trims the history to its newest 1000 entries;
  `getHistory` returns `history.slice(-limit)`.
- **Transaction ledger** (`PaymentController.TransactionStore`):
  `processPayment` validates, builds a `completed` transaction, appends it and
  trims to 1000; `getTransactionHistory` applies the date and status filters and
  reports the count and total amount.
- **Log masking** (`Logger`): `maskSensitiveData` copies an object and hides the
  truthy values of `password`, `token`, `apiKey`, `secret` and `credit_card`.
- **Payment request checks** (`PaymentRoutes`): the `validatePaymentRequest`
  middleware and the timeframe check of the `/profit` handler.

Shared pieces: `Js` models JavaScript values, truthiness, property reads,
`Array.prototype.slice(start)` and `Array.prototype.filter`; `Retention` is the
"if longer than the cap, keep `slice(-cap)`" rule both stores use; `Wrappers`
holds `Option` and `Result`.

The pure code is written as functions. The two stores are classes whose `seq`
field the methods reassign, as the source reassigns its module-level arrays.
The masking loop is a method proved against the function `Masked`.

`executeCommand` sanitizes the command first (taskExecutor.js line 27) and
checks the sanitized string against the allow-list (line 29). Stripping can
therefore turn a command the allow-list refuses into one it accepts.
`StrippedCommandAccepted` and `ChainedCommandRuns` show this: `l;s` runs as
`ls`, and `ls; rm -rf /` runs as `ls rm -rf /`.

## Model

| member | source | states |
|---|---|---|
| `TaskExecutor.SanitizeCommand` | src/backend/services/taskExecutor.js:18-21 | the result contains none of the five metacharacters and is never longer than the input |
| `TaskExecutor.SanitizeDeletesExactlyMeta` | src/backend/services/taskExecutor.js:20 | every other character occurs in the result exactly as often as in the input; metacharacters occur zero times |
| `TaskExecutor.SanitizeKeepsOrder` | src/backend/services/taskExecutor.js:20 | the result is a subsequence of the input (kept characters stay in order) |
| `TaskExecutor.SanitizeIdempotent` | src/backend/services/taskExecutor.js:20 | sanitizing twice gives the same result as sanitizing once |
| `TaskExecutor.SanitizeKeepsCleanCommand` | src/backend/services/taskExecutor.js:20 | a command without metacharacters is returned unchanged |
| `TaskExecutor.SanitizeAppend` | src/backend/services/taskExecutor.js:20 | sanitizing a concatenation is the concatenation of the sanitized parts |
| `TaskExecutor.SanitizeJoinsAroundMeta` | src/backend/services/taskExecutor.js:20 | one metacharacter between two clean parts disappears and the parts are joined |
| `TaskExecutor.StartsWithAny` | src/backend/services/taskExecutor.js:14 | `some(p => command.startsWith(p))` holds iff some listed entry is a prefix of the command |
| `TaskExecutor.IsCommandAllowed` | src/backend/services/taskExecutor.js:5-15 | a command is allowed iff one of the ten allow-list entries is a raw string prefix of it |
| `TaskExecutor.AllowedClosedUnderExtension` | src/backend/services/taskExecutor.js:14 | any extension of an allowed command is allowed |
| `TaskExecutor.AllowedCommandStart` | src/backend/services/taskExecutor.js:5-15 | an allowed command opens with the first two characters of some allow-list entry |
| `TaskExecutor.PrefixAdmitsLongerProgram` | src/backend/services/taskExecutor.js:5-15 | `lsblk` is allowed because of `ls`; `rm -rf /` is refused with "Command not allowed" |
| `TaskExecutor.CheckCommand` | src/backend/services/taskExecutor.js:27-32 | refusal ("Command not allowed") exactly when the sanitized command fails the allow-list; an accepted command is the sanitized form, allowed and free of metacharacters |
| `TaskExecutor.DecisionDependsOnlyOnSanitized` | src/backend/services/taskExecutor.js:27-29 | two raw commands with the same sanitized form get the same decision |
| `TaskExecutor.StrippedCommandAccepted` | src/backend/services/taskExecutor.js:27-32 | `l;s` is not allowed as typed, yet it is accepted and run as `ls` |
| `TaskExecutor.ChainedCommandRuns` | src/backend/services/taskExecutor.js:20-32 | an allowed command, a metacharacter and any clean tail is accepted and run as the command followed by the tail |
| `TaskExecutor.ExecuteCommand` | src/backend/services/taskExecutor.js:24-53 | a refused command fails with "Command not allowed"; otherwise the process sees the sanitized command, and a successful result echoes it with the process output; a process error is passed through |
| `Js.SliceFrom` | src/backend/controllers/chatController.js:50 | `slice(start)`: length `min(-start, n)` for a negative start, `n - min(start, n)` otherwise, always a suffix |
| `Js.Filter` | src/backend/controllers/paymentController.js:51-64 | `filter` returns no more elements than it is given, all satisfying the predicate |
| `Js.FilterCounts` | src/backend/controllers/paymentController.js:51-64 | `filter` keeps every occurrence of a matching element and none of the others |
| `Js.FilterIsSubsequence` | src/backend/controllers/paymentController.js:51-64 | `filter` returns a subsequence of its input |
| `Js.FilterKeepsMatches` | src/backend/controllers/paymentController.js:51-64 | every matching element of the input is in the result |
| `Retention.Trim` | src/backend/controllers/chatController.js:35-37 | after the retention rule the store holds `min(n, cap)` entries, the newest ones in order, and is unchanged when it fits |
| `Retention.TrimKeepsNewestBatch` | src/backend/controllers/chatController.js:23-37 | a batch appended before trimming survives whole at the end of the store |
| `ChatController.AiEntry` | src/backend/controllers/chatController.js:29-32 | the stored `ai` entry carries the response's message, timestamp and context |
| `ChatController.ChatStore.constructor` | src/backend/controllers/chatController.js:4 | the history starts empty |
| `ChatController.ChatStore.ProcessChat` | src/backend/controllers/chatController.js:7-39 | the response is `"AI Response to: " + message` with the placeholder context; the history becomes the newest 1000 of old history + [user entry, ai entry], stays within 1000, grows by exactly those two when they fit, and ends with them |
| `ChatController.ChatStore.GetHistory` | src/backend/controllers/chatController.js:47-50 | a suffix of the history; the newest `min(limit, n)` for a positive limit, default 50, the whole history for 0, all but the first `-limit` for a negative limit |
| `PaymentController.DecimalString` | src/backend/controllers/paymentController.js:19 | the id's number part is a non-empty string of decimal digits, without a leading zero for a positive number, whose value (`DigitsValue`) is the clock reading |
| `PaymentController.MetadataOrEmpty` | src/backend/controllers/paymentController.js:24 | the result is always truthy; truthy metadata is kept as it is, and falsy metadata becomes exactly `{}` |
| `PaymentController.ApplyFilters` | src/backend/controllers/paymentController.js:47-64 | the result is exactly one `filter` of the store on `Matches` (every passing transaction, as often as it occurs, in store order, and nothing else): an order-preserving subsequence whose elements all pass, holding every passing transaction of the store; with no filters it is the store |
| `PaymentController.FilterStepsCompose` | src/backend/controllers/paymentController.js:50-64 | the three successive `filter` calls, each skipped when its filter is falsy, equal a single `filter` on `Matches`: a subsequence of the store that keeps every passing transaction with its multiplicity |
| `PaymentController.VolumePartition` | src/backend/controllers/paymentController.js:69 | the volume kept by a filter plus the volume it drops is the total volume |
| `PaymentController.FilteredVolumeSplit` | src/backend/controllers/paymentController.js:51-69 | the `totalVolume` reported for a set of filters plus the volume of the transactions they reject is the volume of the whole ledger |
| `PaymentController.TransactionStore.constructor` | src/backend/controllers/paymentController.js:4 | the ledger starts empty |
| `PaymentController.TransactionStore.ProcessPayment` | src/backend/controllers/paymentController.js:7-35 | falsy amount or currency fails with "Invalid payment data" and leaves the ledger unchanged; otherwise the new `completed` transaction copies amount and currency, defaults metadata to `{}`, is last in the ledger, and the ledger is the newest 1000 of old + [it] |
| `PaymentController.TransactionStore.GetTransactionHistory` | src/backend/controllers/paymentController.js:43-78 | returns a single `filter` of the ledger on `Matches`: exactly the matching transactions with their multiplicity, in store order; reads without changing the ledger; `totalTransactions` is their number and `totalVolume` the sum of their amounts; unfiltered, it returns the whole ledger |
| `Logger.MaskSensitiveData` | src/backend/logger.js:32-45 | the loop's result equals `Masked(data)` |
| `Logger.MaskedChangesOnlySensitiveFields` | src/backend/logger.js:35-42 | the copy has the same keys; truthy sensitive fields become `'********'`; other fields and falsy sensitive fields are unchanged |
| `Logger.MaskedLeavesNonObjects` | src/backend/logger.js:33 | a non-object is returned as it is |
| `Logger.MaskedIdempotent` | src/backend/logger.js:38-42 | masking a masked value changes nothing |
| `PaymentRoutes.ValidatePaymentRequest` | src/backend/routes/paymentRoutes.js:11-29 | falsy amount or currency gives 400 'Invalid request'; otherwise a non-number or non-positive amount gives 400 'Invalid amount'; `next()` exactly for a positive number amount and a truthy currency |
| `PaymentRoutes.ZeroAmountIsMissing` | src/backend/routes/paymentRoutes.js:14-26 | an amount of 0 gets 'Invalid request', not 'Invalid amount' |
| `PaymentRoutes.ValidatedRequestIsProcessed` | src/backend/routes/paymentRoutes.js:11-29 | a request passed to `next()` has a number amount and passes `processPayment`'s own check |
| `PaymentRoutes.ResolveTimeframe` | src/backend/routes/paymentRoutes.js:74-84 | an absent or empty timeframe means 'all'; any other given timeframe is passed on unchanged; accepted iff in {day, week, month, year, all}; a refused one gets the 400 'Invalid timeframe' answer and `getNetProfit` is not reached |
| `PaymentRoutes.BadTimeframeMessage` | src/backend/routes/paymentRoutes.js:78-81 | the refusal message is "Timeframe must be one of: day, week, month, year, all" |

Immutable Dafny values stand for "the caller's object is not mutated" in
`maskSensitiveData` and for the copy `[...transactions]` in
`getTransactionHistory`: the functions cannot change their inputs.

## Left out

- The child process: `exec` with its 30-second timeout and 1 MB output buffer is a foreign call. `ExecuteCommand` takes it as a function parameter, so timeouts and buffer overflow are not modelled.
- `executeBrowserTask`, `monitorTask` and `cancelTask` return constant placeholder objects. There is no task lifecycle or cancellation logic in the code to model.
- `getNetProfit` depends on `Date` calendar arithmetic and a floating-point fee, and `averageAmount` is a floating-point division. Neither is modelled. `History` has no `averageAmount`.
- Logging: the winston configuration and every logger call are I/O.
- HTTP glue is not modelled: the Express wiring, the chat and task route validators, status codes other than the two 400 answers, and the `process.exit` handlers. The React frontend is not modelled either.
- The async/Promise wrapping and try/catch rethrows are not modelled. Controller operations are synchronous and report errors as `Result` values.
- Clocks: `Date.now()` and `new Date().toISOString()` become method parameters. Id uniqueness is not modelled.
- Numbers are integers. Fractional amounts, `NaN` and `Infinity` are not modelled, so `typeof amount === 'number'` is `Num?`.
- JavaScript arrays and functions are not part of `Js.Value`. `maskSensitiveData` on an array or a function, and inherited (prototype) properties, are not modelled.
- `TaskExecutor.ExecuteCommand` takes a string. A missing or non-string `command` makes `replace` throw a `TypeError`, and that case is not modelled.
- `ChatController.ChatStore.GetHistory` takes an integer limit. A non-numeric query string, where `-limit` is `NaN` and the whole history is returned, is not modelled.
- `PaymentController.TransactionStore.ProcessPayment` takes the amount as an optional integer. A truthy non-number amount, which the middleware refuses before the controller, is not modelled.
- `PaymentController.TransactionStore.GetTransactionHistory`: date query strings are represented by what `new Date` makes of them: absent or empty, unparsable, or a millisecond time. Date parsing itself is not modelled.
- ChatController.ChatStore.ProcessChat: the message is modelled as a string. The chat route (chatRoutes.js lines 10 and 22) passes on any truthy `req.body.message`, which may be a number, an array or an object. `processChat` interpolates it into the reply (chatController.js line 14, so an object reads "[object Object]") and stores the raw value in the user entry (line 25). Non-string messages are not modelled.
- The chat reply's `confidence: 0.95` is stored as 95 hundredths. Chat timestamps are opaque strings.
