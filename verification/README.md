# The proxy core, modelled and proved in Dafny

This project models the decision-making core of a subscription proxy for language-model
accounts: a control plane that sells subscriptions and API keys, a Go proxy that chooses an
upstream account for each request, and a Rust proxy that keeps accounts, tokens, addresses
and logs on disk. `dafny verify dfyconfig.toml` checks everything.

## What is modelled

- **Dispatch and execution** (`StableSort`, `Access`, `Dispatch`, `Execution`): collecting
  (target, account) candidates, two stable sorts, the selection, and the walk over the
  candidates until one reply is final. Provider replies and log stamps are arbitrary inputs.
- **Account health** (`Timestamps`, `Health`, `AccountStore`): status, failure counter and
  cooldown deadline, kept as text in `Meta`, under every operation that touches them. The
  history of operations is the specification of the counter and the deadline.
- **Commerce and usage** (`PaidTime`, `Commerce`, `CommerceLedger`, `UsageLedger`): orders,
  payments, webhook events, subscriptions, keys, balances and quotas. A failed step saves
  nothing (internal/platform/store/file_store.go:35-50). Random identifiers are parameters.
- **Account files** (`AccountIndex`, `AccountSafety`, `AccountMachine`, `AccountRebuild`,
  `QuotaProtection`, `DeviceHistory`): the ordered index, the directory of account files and
  the writes between them, one write per step, with a lock, waiting upserts, file rewrites
  outside the lock, and a crash possible between any two writes.
- **Streams** (`Json`, `Sse`, `SseParser`, `ClaudeMessage`, `PlainCodec`): the Claude and Gemini
  event-stream printers, the content parser of the debug log, and the events in which the upstream
  streams a message. JSON is an encoder and decoder known only by two laws: decoding undoes
  encoding on what is written, and the text is one line in braces. `PlainCodec` shows that the
  laws can be met.
- **Self-contained algorithms** (`ProcessFamily`, `LogCleanup`, `Cidr`, `Blacklist`, `TokenDb`,
  `TokenLimits`, `TokenHistory`, `Curfew`, `Versions`).

Objects the source updates in place are classes whose methods are proved equal to a
specification function of the old state; what the source promises is then proved about that
function over single steps and over all runs, and each such function is tied to the rows, entries
and numbers themselves by a lemma that does not mention it. Loops of the source are loops with invariants.

## Where the code falls short of a simple promise

Each is proved, with its exact condition where it has one.

- A disabled upstream account does not stay disabled: a failed authentication, a token refresh, a
  refresh failure, an OAuth completion and a restore overwrite the status, and the refresh worker
  does not look at it (`Health.DisabledIff`, `Health.DisabledSurvives`, `Health.DisabledLost`,
  `Health.RefreshReactivates`).
- An exceeded quota counts towards the threshold but starts no cooldown, so the account stays
  eligible (`Health.CountedFailureCoolsIff`, `Health.QuotaNeverCools`,
  `Dispatch.CountedFailureSkippedIff`).
- The first attempt of an execution need not be the selected candidate, or even an eligible one
  (`Execution.FirstAttemptSelectedIff`, `Execution.DisabledTriedFirst`).
- The id of a new account may come from the request body (apps/control-plane/main.go:188-194) and
  is not checked, so it can repeat one (`AccountStore.UniqueKeptIff`). Then a call can be made with
  an earlier row than the one selected, and that row may be in cooldown
  (`Dispatch.CooldownNotSelected`, `Execution.CalledRowIff`, `Execution.CoolingRowCalled`).
- Completing a paid payment again buys another cycle; only the confirm path checks
  (`CommerceLedger.OncePerPaymentIff`, `CommerceLedger.RunOnceIff`,
  `CommerceLedger.PaidOnceBoughtTwice`).
- A batch delete of listed accounts passes through states in which entries have no file
  (`AccountSafety.DeleteAllSafe`, `AccountMachine.BatchDeleteExposes`).
- A reorder with a repeated known id duplicates its entry (`AccountSafety.ReorderSafe`), and the
  current account can be set to an id that is not listed (`AccountSafety.SetCurrentSafe`); among all
  requests nothing else breaks the core invariant but a new account under a listed id
  (`AccountMachine.ProperIff`).
- A rebuild after an interrupted add can list an email twice (`AccountRebuild.RebuiltEmailsIff`,
  `AccountRebuild.OrphanRepeatsEmail`).
- Token totals wrap in 32 bits per use (`TokenLimits.TotalExactIff`), validation does not look at
  `enabled` (`TokenLimits.EnabledIgnored`), and a renewal of kind "custom" never expires
  (`TokenLimits.RenewalExpiry`).
- The address limit can be exceeded by a use that was not validated or by lowering the limit
  (`TokenLimits.LimitKeptIff`, `TokenLimits.AlwaysLimitedIff`).
- In a process table with a cycle of parents a descendant can be missing from the family
  (`ProcessFamily.FamilyCompleteIff`, `ProcessFamily.CycleHidesDescendant`).
- A CIDR prefix above 32 is taken modulo 32 (`Cidr.LongPrefix`).
- A version part above 32 bits is dropped and the parts after it move up (`Versions.FaithfulIff`).
- Restoring the baseline or the version "current", or resetting, leaves no device entry current, so
  the one that recorded the bound profile can be deleted (`DeviceHistory.MarkKeptIff`,
  `DeviceHistory.RunMarkedIff`, `DeviceHistory.BaselineUnprotects`,
  `DeviceHistory.RestoreCurrentUnprotects`).

## Model

| member | source | states |
|---|---|---|
| `StableSort.SliceStable` | internal/platform/service/service.go:639-644 | the result is the input rearranged by a permutation, in order, ties in their original order |
| `StableSort.StableSortUnique` | internal/platform/service/service.go:583-585 | that specification admits one result: the permutation and the sorted list are determined |
| `StableSort.StableSortPermutes` | internal/platform/service/service.go:639-644 | sorting keeps every element and its multiplicity |
| `StableSort.SortedListingUnique` | internal/platform/service/service.go:639-644 | a list of given elements in a strict order is unique |
| `Timestamps.CivilRoundTrip` | internal/platform/service/oauth.go:408 | day number to Gregorian date and back is the identity, for all days |
| `Timestamps.NextDay` | internal/platform/service/oauth.go:408 | the days run along the Gregorian calendar: the date of the next day is the next date, by the lengths of the months and the leap-year rule, for all days |
| `Timestamps.DayZero` | internal/platform/service/oauth.go:408 | day zero is 1 January 1970 |
| `Timestamps.FormatShows` | internal/platform/service/oauth.go:475-485 | the text of a time, field by field: year, month, day, hour, minute and second, with their separators |
| `Timestamps.ParseFormat` | internal/platform/service/oauth.go:475-485 | a written timestamp reads back as the time truncated to the second, exactly when its year has four digits, and is unreadable otherwise |
| `Timestamps.FormatTrimmed` | internal/platform/service/oauth.go:475-485 | trimming a written timestamp before parsing never changes it, and it is never empty |
| `AccountStore.Store.RecordUsageOutcome` | internal/platform/service/oauth.go:370-420 | the outcome is applied to the first account of the id and to no other row; an unknown id fails and saves nothing |
| `AccountStore.Store.Judge` | internal/platform/service/oauth.go:383-413 | the switch on the error type, case by case, equals the account transition that the run lemmas are about |
| `AccountStore.ResultIsStored` | internal/platform/service/oauth.go:370-420 | an operation fails exactly for an unknown id, and otherwise returns the first row of the id as it then stands, every other row as it was |
| `AccountStore.Store.RefreshAccountTokens` | internal/platform/service/oauth.go:191-218 | new tokens, active status, counter zero, deadline gone, on that row only |
| `AccountStore.Store.CompleteOAuthSession` | internal/platform/service/oauth.go:126-176 | session and account change together and are both returned, or nothing is saved: an expired session is not even marked expired |
| `AccountStore.Store.MarkAccountInvalid` | internal/platform/service/oauth.go:220-260 | invalid status and failure texts on that row only (both operations of this shape) |
| `AccountStore.Store.RecordHealthCheck` | internal/platform/service/oauth.go:262-286 | a health check writes its own entries and leaves status, counter and deadline alone |
| `AccountStore.Store.MarkAccountHealthy` | internal/platform/service/oauth.go:288-311 | recovery of one row; a disabled account stays disabled |
| `AccountStore.Store.RestoreAccount` | internal/platform/service/oauth.go:313-333 | recovery of one row, disabled or not |
| `AccountStore.Store.ClearAccountCooldown` | internal/platform/service/oauth.go:335-351 | counter zero and deadline gone on that row, status kept |
| `AccountStore.Store.UpdateUpstreamAccount` | internal/platform/service/service.go:350-394 | the patch applied to one row; the only operation that may replace the whole Meta |
| `AccountStore.Store.AddUpstreamAccount` | internal/platform/service/service.go:143-173 | one row appended, trimmed and with the defaults of its provider, under the id it came with or else a random one; refused without provider or name |
| `AccountStore.AddedShows` | internal/platform/service/service.go:143-203 | what is added: refused exactly for a blank provider or display name; otherwise every field of the row in terms of what was given |
| `AccountStore.TableRunProjects` | internal/platform/service/oauth.go:370-420 | over every run on the table, accounts added and ids repeated or not, rows stay in place and each evolves as if alone under exactly the steps that reach it: those addressed to its id while no earlier row bears it |
| `AccountStore.UniqueKeptIff` | internal/platform/service/service.go:143-173 | ids stay unique if and only if the step is not the addition of a row whose id is already there: the id is not checked |
| `Health.CounterStep` | internal/platform/service/oauth.go:463-473 | the parsed counter after one operation: zero after a clearing one, one more after a counted failure, else unchanged, through the decimal text in Meta |
| `Health.CounterIsHistory` | internal/platform/service/oauth.go:370-420 | over every run without a Meta replacement the parsed counter is the number of counted failures since the last clearing operation (plus the initial one if none) |
| `Health.DeadlineStep` | internal/platform/service/oauth.go:402-409 | the parsed deadline after one operation: none, the truncated new one (if its year is writable), or unchanged |
| `Health.CountedFailureCoolsIff` | internal/platform/service/oauth.go:398-409 | a counted failure reaching the threshold puts an account that is not cooling into cooldown if and only if it is not an exceeded quota, the policy has a cooldown whose end can be written, and that end, to the second, lies ahead |
| `Health.QuotaNeverCools` | internal/platform/service/oauth.go:398-401 | any number of exceeded quotas raises the counter by that number and leaves the deadline as it was |
| `Health.DeadlineStoredIff` | internal/platform/service/oauth.go:370-420 | over every run without a Meta replacement a deadline is stored if and only if one was written since the last clearing operation, or there was none and the account began with one |
| `Health.CooldownInterval` | internal/platform/service/oauth.go:402-409 | when a cooldown starts at t the account cools exactly until a whole second more than cooldown minus 1 s and at most cooldown after t |
| `Health.DeadlineNeverEarlier` | internal/platform/service/oauth.go:402-409 | under a nondecreasing clock and policies no shorter, later operations that do not clear never move the deadline earlier |
| `Health.CooldownHolds` | internal/platform/service/oauth.go:487-493 | so the account is in cooldown at every moment before that deadline, whatever such operations follow |
| `Health.CooldownImpliesThreshold` | internal/platform/service/oauth.go:402-409 | under a fixed threshold a stored deadline implies the counter has reached it, in every run |
| `Health.FailuresBeforeCooldown` | internal/platform/service/oauth.go:370-409 | from a fresh account failures in a row store a deadline exactly from the threshold on; a threshold that is not positive means three |
| `Health.DisabledIff` | internal/platform/service/oauth.go:126-420 | over every run, patches included: disabled at the end if and only if the last step that wrote the status without looking at it was a patch to disabled, or there was none and the account began disabled |
| `Health.InvalidIff` | internal/platform/service/oauth.go:126-420 | over every run, patches included: invalid at the end if and only if the last step with a say in the status was a failed authentication, a refresh failure or a patch to invalid, or there was none and the account began invalid |
| `Health.ActiveIff` | internal/platform/service/oauth.go:126-420 | and active if and only if that step was a token refresh, an OAuth completion, a restore, a patch to active, or a success met while not disabled, or there was none and the account began active |
| `Health.EntryIsLastWritten` | internal/platform/service/oauth.go:126-420 | over every run without a Meta replacement each entry apart from counter, deadline and base URL is the text last written there: tokens, expiry, times, messages |
| `Health.ExpiredByLastIssue` | internal/platform/service/oauth.go:191-218 | once tokens were issued the account is expired exactly from the whole second of the last issued expiry on |
| `Health.FieldsAreLastPatched` | internal/platform/service/service.go:350-394 | over every run weight, priority, tier, name, email and models are what the last patch that gave a usable value gave, and id and provider never change |
| `Health.PatchedMeta` | internal/platform/service/service.go:350-394 | a patch replaces the whole Meta or none of it; a missing base URL is filled in from the provider |
| `Health.TimesIff` | internal/platform/service/oauth.go:475-500 | in cooldown until a readable deadline in the entry, expired from a readable expiry in the entry on |
| `Health.CounterIff` | internal/platform/service/oauth.go:463-473 | the counter is the positive number in the entry, and zero where there is no such number |
| `Health.RefreshDueIff` | apps/control-plane/oauth.go:405-433 | the refresh worker picks exactly the accounts of a provider with OAuth that have a refresh token and a readable expiry less than five minutes ahead |
| `Health.DisabledSurvives` | internal/platform/service/oauth.go:126-420 | a disabled account whose status is not patched stays disabled if and only if no step is a failed authentication, token refresh, refresh failure, OAuth completion or restore |
| `Health.RefreshReactivates` | apps/control-plane/oauth.go:405-433 | one token refresh reactivates a disabled account, and the refresh worker's test does not look at the status |
| `Health.DisabledLost` | internal/platform/service/oauth.go:386-397 | concrete run: one failed authentication, then one success, reactivates a disabled account |
| `Access.AcceptsIff` | internal/platform/service/service.go:465-502 | a request is accepted exactly when none of the objections, looked for in order, holds |
| `Access.AcceptedOnRows` | internal/platform/service/service.go:465-502 | acceptance and the grant read off the rows: the first active row of the key, the first row of its user, enabled, with quota and, unless in the VIP group, balance not below zero, a live subscription of both, the first row of the package |
| `Access.ValidateAPIKey` | internal/platform/service/service.go:465-502 | success exactly when the first row of the key is active, its user in good standing, its subscription live and its package known; then key, package and user; otherwise the error of the first objection |
| `Access.HasActiveSubscription` | internal/platform/service/commerce.go:601-609 | true exactly when some row entitles the user to the package now |
| `Dispatch.AllowedProviders` | internal/platform/service/service.go:566-593 | a provider serves the alias exactly when its last access entry lists the alias |
| `Dispatch.CollectTarget` | internal/platform/service/service.go:594-629 | one candidate per account of the target's provider, in table order |
| `Dispatch.Collect` | internal/platform/service/service.go:582-633 | exactly the permitted (target, account) pairs; without cross-provider fallback exactly those of the first permitted target that has an account |
| `Dispatch.CandidateShows` | internal/platform/service/service.go:594-629 | every candidate of a trace field by field off its row and target, with each skip reason if and only if: disabled; invalid; else a readable cooldown ahead; else a readable expiry passed and no way to refresh; else the model not sold; eligible exactly when none of these |
| `Dispatch.CandidatesRanked` | internal/platform/service/service.go:639-644 | one candidate stands before another if and only if its row and target rank higher: by the sum of priorities, by weight, by the target's priority, by target, by account |
| `Dispatch.Select` | internal/platform/service/service.go:582-657 | candidates in order, the first eligible one selected; failure exactly when no collected pair is usable, read off its row |
| `Dispatch.ExplainDispatch` | internal/platform/service/service.go:560-666 | the trace is right, and each failure happens exactly under its own condition |
| `Dispatch.CandidatesUnique` | internal/platform/service/service.go:639-644 | priority desc, weight desc, target order, account order is a strict order: the candidate list is the only possible one |
| `Dispatch.TraceUnique` | internal/platform/service/service.go:560-666 | a request at a moment has at most one trace |
| `Dispatch.SelectedIsBest` | internal/platform/service/service.go:639-657 | the selected candidate comes from a collected pair whose row is usable, and every other such pair comes after it, by the sum of priorities, weight, target and account |
| `Dispatch.SelectedRowIs` | internal/platform/service/service.go:630-657 | exactly one row of the table is the selected one, and it is eligible, whether ids repeat or not |
| `Dispatch.SelectedRowIff` | internal/platform/service/service.go:630-657 | a row is the selected one if and only if it carries the best of the usable collected pairs |
| `Dispatch.CooldownNotSelected` | internal/platform/service/service.go:616-627 | the row that is selected is never in cooldown; the id of a cooling row is selected if and only if another row repeats it and is the one selected |
| `Dispatch.CountedFailureSkippedIff` | internal/platform/service/service.go:616-627 | a counted failure reaching the threshold takes an eligible account out of dispatch exactly when it is no exceeded quota and its cooldown can be written and lies ahead; otherwise the account stays eligible |
| `Dispatch.CoolingAccountNotSelected` | internal/platform/service/oauth.go:402-409 | across modules: after such a failure at t no dispatch before the truncated deadline selects that row, whatever else happens on the table, additions included; its id is selected if and only if a later row repeats it and is the one selected |
| `Dispatch.InvalidatedNotSelected` | internal/platform/service/oauth.go:220-260 | across modules: after a failed authentication or refresh failure the row is not selected until an operation on its id activates it, meets a success or patches its status, whatever else happens on the table |
| `Execution.MovesOnIff` | apps/proxy-core-go/main.go:304-353 | the walk moves on exactly after a failed call, refused credentials, a refused quota, a failing server or an unknown model, each told by the error kind or, where that decides nothing, by the status code |
| `Execution.Attempt` | apps/proxy-core-go/main.go:174-217 | one candidate: one call with the account found, one usage log appended, and the walk goes on exactly on a call failure or retryable error |
| `Execution.ExecuteAgainstTrace` | apps/proxy-core-go/main.go:164-221 | attempts a prefix of the candidates, each call made with the first row of the candidate's id, appends exactly one log per attempt in order, and ends as the last reply dictates, or at the first candidate whose account, or else whose provider, is missing |
| `Execution.LogRecords` | apps/proxy-core-go/main.go:174-249 | every log field by field: of the candidate, and of the reply its status, code, message and class, each class if and only if |
| `Execution.ReplyEffect` | internal/platform/service/oauth.go:370-420 | what a reply does to its account: refused credentials and nothing else make it invalid, a completed call alone resets the counter, and a refused quota, a failing server and a failed call count one failure each |
| `Execution.RefusedNotSelected` | apps/control-plane/main.go:1055-1072 | across modules: once credentials were refused and the outcome recorded, the row is not selected until an operation on its id reactivates it |
| `Execution.SnapshotResolves` | apps/proxy-core-go/main.go:251-258 | against the snapshot a trace came from, account lookup succeeds for every candidate; which row it finds is said by the next row |
| `Execution.CalledRowIff` | apps/proxy-core-go/main.go:251-258 | the row found is never after the row the candidate was built from, and is the same if and only if no earlier row repeats its id |
| `Execution.SnapshotExecution` | apps/proxy-core-go/main.go:164-221 | so the walk ends with a delivered reply of the last candidate tried, named as such, a log that could not be stored, or every candidate tried; it stops early only on a final reply |
| `Execution.LogClasses` | apps/proxy-core-go/main.go:223-249 | every log but the last has a retryable class and is not completed; a completed log is last and has no error |
| `Execution.FirstAttemptSelectedIff` | apps/proxy-core-go/main.go:174 | the first attempt is the selected candidate if and only if the first candidate is eligible, as skip reasons are not read |
| `Execution.DisabledTriedFirst` | apps/proxy-core-go/main.go:174 | a request with a disabled account outranking an active one, ids unique: the walk tries the disabled one first |
| `Execution.CoolingRowCalled` | apps/proxy-core-go/main.go:251-258 | a request whose selected row is eligible and whose id is borne by an earlier row: the lookup finds that row, which is in cooldown |
| `UsageLedger.Store.AppendUsageLog` | internal/platform/service/service.go:668-708 | key last use, user charges and log all move together as the ledger function says |
| `UsageLedger.StepConserves` | internal/platform/service/service.go:668-708 | one append keeps balance plus positive stored costs, and quota plus positive tokens; other users untouched |
| `UsageLedger.Conservation` | internal/platform/service/service.go:668-708 | the same over every run of appends, and users not logged are untouched |
| `UsageLedger.VIPGeminiIsFree` | internal/platform/service/service.go:668-708 | a gemini model, in any letter case, is stored at zero cost for the VIP group and changes no balance |
| `UsageLedger.LogsAreStored` | internal/platform/service/service.go:668-708 | over every run the reported logs are stored in order, each at zero cost for a gemini model under the VIP group, else at the reported cost, else at two millionths a token |
| `UsageLedger.KeysAreStamped` | internal/platform/service/service.go:668-708 | over every run the first key of an id carries the time of the last log that names it, and nothing else about any key changes |
| `UsageLedger.OutOfFundsIff` | internal/platform/service/service.go:465-502 | after every run the user is in good standing exactly when charges have not outrun balance (VIP aside) and quota |
| `PaidTime.ExpiryAppend` | internal/platform/service/commerce.go:501-534 | a purchase extends the expiry if it lies ahead and restarts it from now otherwise |
| `PaidTime.Disjoint` | internal/platform/service/commerce.go:501-534 | paid intervals never overlap: no time is counted twice |
| `PaidTime.LiveIffCovered` | internal/platform/service/commerce.go:501-534 | live exactly when the moment lies in a paid interval |
| `PaidTime.NothingLost` | internal/platform/service/commerce.go:501-534 | time that has run plus time that remains equals time bought |
| `Commerce.Store.CreateCheckoutOrder` | internal/platform/service/commerce.go:276-338 | success exactly when an active package has the id and a key to bind is the user's; then one order and one payment that name each other, else nothing |
| `Commerce.CheckoutEffect` | internal/platform/service/commerce.go:276-338 | one order and one payment are appended, unpaid, naming each other, at the price and the trimmed cycle (monthly if blank) of the first active package of the id; nothing else changes |
| `Commerce.Store.CompletePayment` | internal/platform/service/commerce.go:457-563 | succeeds exactly when payment and order exist, and then changes payment, order, subscription, key and event together and returns order, payment and created key; otherwise nothing is saved |
| `Commerce.PaymentEffect` | internal/platform/service/commerce.go:457-563 | payment and order are marked paid now, one event is recorded, one subscription runs 365 days (yearly) or 30 days (anything else) longer, from its expiry if that lies ahead, and the key asked for is rebound or made; nothing else changes, and the records are reported as stored |
| `Commerce.CompletionFails` | internal/platform/service/commerce.go:457-563 | a completion fails exactly for want of the payment or of its order, and says which |
| `Commerce.Store.ReportPaid` | internal/platform/service/commerce.go:373-399 | the report of a paid order: with the user's latest key for the package when the order was to create one |
| `Commerce.LatestKeyIs` | internal/platform/service/commerce.go:373-399 | the key reported is the last of the user's keys for the package |
| `Commerce.ReportNames` | internal/platform/service/commerce.go:373-399 | the report of a paid order names that key where the order was to create one, none otherwise, and fails only for an unknown user |
| `Commerce.Store.Subscribe` | internal/platform/service/commerce.go:501-534 | the live subscription of the user and package is extended, a lapsed one restarted, a missing one created |
| `Commerce.Store.GrantKey` | internal/platform/service/commerce.go:536-560 | the bound key is rebound, or a new one created when asked for |
| `Commerce.Store.ConfirmUserOrderPayment` | internal/platform/service/commerce.go:340-371 | completes the payment of the user's own order, unless it is already paid, in which case it is reported; the result in every case |
| `Commerce.Store.AdminConfirmOrderPayment` | internal/platform/service/commerce.go:439-455 | the same for the order's owner, result included |
| `Commerce.Store.CreateUserAPIKey` | internal/platform/service/commerce.go:565-583 | a key is added exactly when the user has a live subscription to the package |
| `Commerce.MadeKeyIsGood` | internal/platform/service/commerce.go:565-583 | a key that a user makes is accepted exactly while the user is entitled to the package |
| `Commerce.Store.RevokeUserAPIKey` | internal/platform/service/commerce.go:585-599 | revokes and returns the user's own key of that id, or fails and changes nothing |
| `Commerce.RevokedKeyIsDead` | internal/platform/service/commerce.go:585-599 | a revoked key is accepted no more, and every other key as before |
| `CommerceLedger.CheckoutKeeps` | internal/platform/service/commerce.go:276-338 | a checkout keeps the whole ledger invariant |
| `CommerceLedger.PaymentKeeps` | internal/platform/service/commerce.go:457-563 | a payment, first or repeated, keeps the whole ledger invariant |
| `CommerceLedger.StepKeeps` | internal/platform/service/commerce.go:276-599 | so does every commerce operation |
| `CommerceLedger.ReachableInv` | internal/platform/service/commerce.go:276-599 | in every reachable store orders and payments are in bijection with equal amounts, paid exactly together; a paid order names an existing subscription of its user and package; each (user, package) has one subscription whose expiry is what the recorded events bought |
| `CommerceLedger.PaidTimeConserved` | internal/platform/service/commerce.go:501-534 | at every later moment: time covered plus time remaining is the opening span plus the cycles of the recorded events, and an active row entitles the user exactly in the paid intervals, exactly until the stored expiry; a row is active once something was bought or if it began so |
| `CommerceLedger.PaidDays` | internal/platform/service/commerce.go:619-626 | in every reachable store: time covered plus time remaining is the opening span plus 365 days for each recorded event on a yearly order and 30 days for each one on any other |
| `CommerceLedger.RunKeepsTerms` | internal/platform/service/commerce.go:276-338 | in every reachable store each order has the price and the cycle of a package on sale, and the packages are as they were |
| `CommerceLedger.KeyValidUntilExpiry` | internal/platform/service/service.go:465-502 | with user and package in good standing, a key of that package validates exactly until the stored expiry of the active subscription |
| `CommerceLedger.ConfirmPaidOrder` | internal/platform/service/commerce.go:364-366 | confirming an order that is paid changes nothing |
| `CommerceLedger.ConfirmUnpaidOrder` | internal/platform/service/commerce.go:340-371 | confirming an order that is not paid completes its payment, with the same result |
| `CommerceLedger.PaymentOnceIff` | internal/platform/service/commerce.go:457-563 | completing a payment keeps one recorded purchase per paid payment if and only if it was unpaid |
| `CommerceLedger.RunOnceIff` | internal/platform/service/commerce.go:276-599 | over every run from a store without orders each payment bought its cycle once if paid and never otherwise if and only if no step completed a payment that was already paid |
| `CommerceLedger.PaidOnceBoughtTwice` | internal/platform/service/commerce.go:457-563 | a run of one checkout and two completions of its payment: one payment, sixty days |
| `CommerceLedger.OncePerPaymentIff` | internal/platform/service/commerce.go:364-366 | of all operations exactly the repeated completion of a paid payment breaks that, as only the confirm path checks |
| `AccountIndex.Store.AddAccount` | apps/proxy-core-rust/src/modules/account.rs:701-744 | file first, then index; refused exactly for a listed email; the trace records the disk after each write |
| `AccountIndex.Store.UpsertAccount` | apps/proxy-core-rust/src/modules/account.rs:747-821 | a listed email is updated (or its file recreated when unreadable) and renamed in the index; an unlisted one is added; the written account is returned |
| `AccountIndex.Store.DeleteAccount` | apps/proxy-core-rust/src/modules/account.rs:824-858 | index first, then file; fails exactly for an unlisted id |
| `AccountIndex.Store.DeleteAccounts` | apps/proxy-core-rust/src/modules/account.rs:861-894 | every file first, the index last |
| `AccountIndex.Store.ReorderAccounts` | apps/proxy-core-rust/src/modules/account.rs:898-934 | one index write: listed known ids as given, then the rest in order |
| `AccountIndex.Store.ToggleProxyStatus` | apps/proxy-core-rust/src/modules/account.rs:1290-1322 | file first, then the first index entry of the id if there is one; fails and writes nothing exactly when the file cannot be read |
| `AccountSafety.AddSafe` | apps/proxy-core-rust/src/modules/account.rs:701-744 | an add keeps the core invariant at every write if and only if its email is listed (so refused) or its id is not; every entry keeps its file throughout |
| `AccountSafety.AddStores` | apps/proxy-core-rust/src/modules/account.rs:701-744 | an add stores a fresh account under the id and lists a matching entry at the end, current if there was none; no other file or entry changes |
| `AccountSafety.UpsertSafe` | apps/proxy-core-rust/src/modules/account.rs:747-821 | the same for the update path, unreadable files included |
| `AccountSafety.UpsertStores` | apps/proxy-core-rust/src/modules/account.rs:747-821 | an upsert of a listed email stores the given token, name and time, disabled only if it was disabled with the same token, every other field kept (or fresh where the file was unreadable), renames its entry, and changes no other file or entry |
| `AccountSafety.DeleteSafe` | apps/proxy-core-rust/src/modules/account.rs:824-858 | the same for single delete |
| `AccountSafety.DeleteRemoves` | apps/proxy-core-rust/src/modules/account.rs:824-858 | exactly the entries and the file of that id go; where it was current the first entry left becomes current |
| `AccountSafety.DeleteAllSafe` | apps/proxy-core-rust/src/modules/account.rs:878-893 | the batch keeps ids, emails and current throughout, but every entry keeps its file throughout if and only if no given id is listed |
| `AccountSafety.DeleteAllRemoves` | apps/proxy-core-rust/src/modules/account.rs:861-894 | exactly the entries and files of the given ids go, the rest in order; a current id among them gives way to the first entry left |
| `AccountSafety.ReorderFacts` | apps/proxy-core-rust/src/modules/account.rs:898-934 | the same entries afterwards; ids stay unique if and only if no known id is given twice |
| `AccountSafety.ReorderPermutes` | apps/proxy-core-rust/src/modules/account.rs:898-934 | without such repeats a permutation: the known ids first, as given, then the rest in their old order |
| `AccountSafety.ReorderSafe` | apps/proxy-core-rust/src/modules/account.rs:898-934 | so the core invariant is kept at every write if and only if no known id repeats |
| `AccountSafety.SetCurrentSafe` | apps/proxy-core-rust/src/modules/account.rs:1191-1198 | setting the current id is unchecked: sound if and only if the id is listed |
| `AccountSafety.ToggleProxySafe` | apps/proxy-core-rust/src/modules/account.rs:1290-1379 | a change of the proxy flag, file first and index second, keeps ids, emails, current id and files at every write |
| `AccountSafety.ToggleProxyStores` | apps/proxy-core-rust/src/modules/account.rs:1290-1322 | the flag is seen in the file and in the first entry of the id, and nothing else changes |
| `AccountSafety.ProtectStores` | apps/proxy-core-rust/src/modules/account.rs:1271-1280 | the protected models are seen in the first entry of the id, and nothing else changes |
| `AccountSafety.ProtectSafe` | apps/proxy-core-rust/src/modules/account.rs:1271-1280 | so does the index write of a quota update |
| `AccountMachine.ProperIff` | apps/proxy-core-rust/src/modules/account.rs:701-1379 | a request keeps the core invariant at every one of its writes if and only if it is not the addition of an unlisted email under a listed id, a reorder with a repeated known id, or the choice of an unlisted current id |
| `AccountMachine.StepSafe` | apps/proxy-core-rust/src/modules/account.rs:747-821 | each single write, lock acquisition, release and crash keeps the invariant for all writes still to come |
| `AccountMachine.RunSafe` | apps/proxy-core-rust/src/modules/account.rs:701-1379 | so does every run |
| `AccountMachine.InterleavingsKeepCore` | apps/proxy-core-rust/src/modules/account.rs:747-934 | under every interleaving of lock periods, upserts waiting between theirs included, and crashes anywhere: ids and emails unique, current id absent exactly when the index is empty and otherwise listed |
| `AccountMachine.InterleavingsKeepCovered` | apps/proxy-core-rust/src/modules/account.rs:701-858 | without a batch delete of a listed account, every entry has its file in every state |
| `AccountMachine.BatchDeleteExposes` | apps/proxy-core-rust/src/modules/account.rs:878-893 | a batch delete of a listed account followed by a crash leaves an entry without a file |
| `AccountMachine.SoloRun` | apps/proxy-core-rust/src/modules/account.rs:701-1379 | a proper request that meets no other runs through, does to the disk what its operation does, and leaves the lock free |
| `AccountMachine.RecoversFromCrash` | apps/proxy-core-rust/src/modules/account.rs:701-1379 | after a crash at any point every proper request can run through on the disk as it was left |
| `AccountRebuild.RebuildIndex` | apps/proxy-core-rust/src/modules/account.rs:455-510 | exactly one entry per readable file, most recently used first, then by email, in whatever order the directory was read |
| `AccountRebuild.RebuiltIsSound` | apps/proxy-core-rust/src/modules/account.rs:455-510 | from any crash state: unique ids, sound current id, a file for every entry, an entry for every readable listed account |
| `AccountRebuild.RebuiltEmailsIff` | apps/proxy-core-rust/src/modules/account.rs:455-510 | emails are unique after a rebuild if and only if the readable files' emails are |
| `AccountRebuild.RebuildDeterministic` | apps/proxy-core-rust/src/modules/account.rs:455-510 | with distinct emails the rebuilt index does not depend on the reading order |
| `AccountRebuild.OrphanRepeatsEmail` | apps/proxy-core-rust/src/modules/account.rs:701-744 | a crash inside an add, the add repeated, then a rebuild: the email is listed twice |
| `QuotaProtection.GroupMinimums` | apps/proxy-core-rust/src/modules/account.rs:1211-1222 | per group the least of 100 and its models' percentages |
| `QuotaProtection.ApplyProtection` | apps/proxy-core-rust/src/modules/account.rs:1211-1244 | a monitored group is protected exactly when it is low; the others stay as they were |
| `QuotaProtection.ThresholdIff` | apps/proxy-core-rust/src/modules/account.rs:1208 | the threshold is the configured unsigned number read as a signed one of 32 bits |
| `QuotaProtection.Accounts.UpdateAccountQuota` | apps/proxy-core-rust/src/modules/account.rs:1201-1286 | file and first index entry follow each other; the account-wide quota block is migrated away; unknown accounts fail and change nothing |
| `QuotaProtection.ReportEffect` | apps/proxy-core-rust/src/modules/account.rs:1201-1250 | what a report does: a monitored group is protected exactly when the threshold reaches a hundred or some reported model of it is at or below; a switch-off made for the quota is lifted; all else as it was |
| `QuotaProtection.ProtectionOrderFree` | apps/proxy-core-rust/src/modules/account.rs:1212-1221 | only which quotas are reported matters, not their order or repetition |
| `QuotaProtection.LastReportDecides` | apps/proxy-core-rust/src/modules/account.rs:1201-1250 | earlier reports leave no trace and repeating one changes nothing |
| `QuotaProtection.ProtectionMonotone` | apps/proxy-core-rust/src/modules/account.rs:1226-1244 | lower percentages, more reports or a higher threshold never unprotect a group |
| `DeviceHistory.Devices.BindDeviceProfileWithProfile` | apps/proxy-core-rust/src/modules/account.rs:1053-1087 | the profile is bound and becomes the one current entry; the first one ever becomes the baseline |
| `DeviceHistory.BindEffect` | apps/proxy-core-rust/src/modules/account.rs:1065-1087 | the earlier entries as they were, unmarked, and one marked entry with the profile, title and time |
| `DeviceHistory.Devices.RestoreDeviceVersion` | apps/proxy-core-rust/src/modules/account.rs:1095-1117 | which profile is restored, when it fails, and which entry is marked |
| `DeviceHistory.RestoreEffect` | apps/proxy-core-rust/src/modules/account.rs:1095-1117 | the profile that a restore binds: the baseline under its name, else that of the first entry of the id, else under "current" the one bound; and exactly the entries of that id marked |
| `DeviceHistory.Devices.DeleteDeviceVersion` | apps/proxy-core-rust/src/modules/account.rs:1120-1139 | succeeds exactly for an existing entry that is not current and not the baseline |
| `DeviceHistory.DeleteEffect` | apps/proxy-core-rust/src/modules/account.rs:1120-1139 | an id can be deleted if and only if it names an entry, is not the baseline's and names no marked one; then exactly its entries go |
| `DeviceHistory.Devices.RestoreOriginalDevice` | apps/proxy-core-rust/src/modules/account.rs:1156-1173 | binds the baseline and unmarks every entry of the current account, or fails and changes nothing |
| `DeviceHistory.ResetEffect` | apps/proxy-core-rust/src/modules/account.rs:1156-1173 | the baseline bound, where there is one, and every entry unmarked and otherwise as it was |
| `DeviceHistory.AppliedSound` | apps/proxy-core-rust/src/modules/account.rs:1065-1087 | binding keeps at most one current entry equal to the bound profile; without a history entry if and only if no other profile is marked current |
| `DeviceHistory.RunSound` | apps/proxy-core-rust/src/modules/account.rs:1065-1173 | over every run at most one entry is current and a current entry's profile is the bound profile |
| `DeviceHistory.BindThenRestore` | apps/proxy-core-rust/src/modules/account.rs:1095-1117 | a profile bound under an id comes back by restoring that id after any run that does not delete it |
| `DeviceHistory.DeletableIff` | apps/proxy-core-rust/src/modules/account.rs:1125-1131 | an entry can be deleted if and only if it is not the current one |
| `DeviceHistory.MarkKeptIff` | apps/proxy-core-rust/src/modules/account.rs:1065-1173 | while an entry is current, a step leaves one current if and only if it is neither a reset with a baseline nor a successful restore of an id that is not in the history |
| `DeviceHistory.RunMarkedIff` | apps/proxy-core-rust/src/modules/account.rs:1065-1173 | over every run some entry is current at the end if and only if one was at the start, or a step made one current, and no later step unmarked it |
| `DeviceHistory.BaselineUnprotects` | apps/proxy-core-rust/src/modules/account.rs:1095-1173 | after the first binding, restoring the baseline or resetting keeps that profile bound and makes its one entry deletable |
| `DeviceHistory.RestoreCurrentUnprotects` | apps/proxy-core-rust/src/modules/account.rs:1101-1115 | restoring "current" keeps the bound profile and makes every entry deletable |
| `ProcessFamily.Ancestors` | apps/proxy-core-rust/src/modules/process.rs:146-165 | exactly the parent chain up to ten levels, with or without cycles of parents |
| `ProcessFamily.ChainIff` | apps/proxy-core-rust/src/modules/process.rs:146-165 | the chain is what climbing from child to parent at most ten times reaches |
| `ProcessFamily.Descendants` | apps/proxy-core-rust/src/modules/process.rs:167-190 | exactly the known pids and what self reaches downwards outside them; every enqueue shrinks the unvisited pids |
| `ProcessFamily.Enqueue` | apps/proxy-core-rust/src/modules/process.rs:180-188 | a pid enters the queue at most once, and reached pids either wait or have all children in |
| `ProcessFamily.DescendantsAvoidChain` | apps/proxy-core-rust/src/modules/process.rs:146-188 | in an acyclic table no descendant of self is on its parent chain, so seeding the search with the chain loses nothing |
| `ProcessFamily.GetSelfFamily` | apps/proxy-core-rust/src/modules/process.rs:141-191 | the family is self, the parent chain up to ten levels and what self reaches downwards outside that chain; in an acyclic table exactly self, the chain and all descendants |
| `ProcessFamily.FamilyOfAcyclic` | apps/proxy-core-rust/src/modules/process.rs:141-191 | in an acyclic table nothing is lost by not walking through the chain |
| `ProcessFamily.CycleHidesDescendant` | apps/proxy-core-rust/src/modules/process.rs:141-191 | a table with a cycle of parents in which a descendant is missed |
| `ProcessFamily.FamilyCompleteIff` | apps/proxy-core-rust/src/modules/process.rs:141-191 | for every table: no descendant of self is missed if and only if every child of an ancestor that self also reaches downwards is on the chain itself |
| `ProcessFamily.GetTargetPids` | apps/proxy-core-rust/src/modules/process.rs:194-353 | exactly the recognised processes that are not this executable, not a tool and not family; in an acyclic table none is on the chain or a descendant |
| `Sse.ConvertLine` | internal/proxy/providers/claude.go:281-337 | one pass of the loop: event in force, first-chunk flag and output |
| `Sse.ConvertClaudeStream` | internal/proxy/providers/claude.go:268-345 | the output is the printed chunks of the scan, for all upstream lines |
| `Sse.PrintedIs` | internal/proxy/providers/claude.go:298-337 | each chunk is printed as one data line and a blank line, in order |
| `Sse.ChunkSays` | internal/proxy/providers/claude.go:298-337 | the JSON of a chunk: id, object, model, and one choice with the text and the role where it is named, or empty and stopped |
| `Sse.LineMeaning` | internal/proxy/providers/claude.go:281-337 | one line adds exactly its delta text or one [DONE], and keeps the chunk shape |
| `Sse.ScanMeaning` | internal/proxy/providers/claude.go:268-345 | the chunks carry the concatenated deltas; the role is on the first content chunk only; one [DONE] after a finish chunk per message_stop |
| `Sse.BuildGeminiStreamResponse` | internal/proxy/providers/gemini.go:280-318 | the three frames of content with role, finish and [DONE] |
| `Sse.ClaudeBodyContent` | internal/proxy/providers/claude.go:198-208 | the content of the non-streaming conversion is the concatenated text parts |
| `SseParser.ParseSseStream` | apps/proxy-core-rust/src/proxy/debug_logger.rs:67-128 | thinking and answer text are the concatenation of what each data line carries |
| `SseParser.LineReads` | apps/proxy-core-rust/src/proxy/debug_logger.rs:67-80 | a data line is read as what its payload decodes to, and as nothing where it does not or is the end mark; any other line is passed over |
| `SseParser.ParsePrinted` | apps/proxy-core-rust/src/proxy/debug_logger.rs:67-128 | reading any printed chunks gives back exactly their text |
| `SseParser.GeminiReadsBack` | apps/proxy-core-rust/src/proxy/debug_logger.rs:81-112 | a Gemini answer, however it is cut into candidates and parts, is read as its thoughts and its text, each in order |
| `SseParser.ClaudeStreamReadsBack` | internal/proxy/providers/claude.go:268-345 | reading the converted stream of any upstream lines gives the concatenation of their deltas |
| `ClaudeMessage.EventsMeaning` | internal/proxy/providers/claude.go:281-337 | a stream of upstream events becomes its text fragments and one [DONE] per stop, each fragment in any payload that decodes to it; other events, silent deltas included, add nothing |
| `ClaudeMessage.StreamedIsContent` | internal/proxy/providers/claude.go:198-345 | however the text parts of a message are fragmented, in whatever payloads, and whatever other events come between, the converted stream read back is the content of the non-streaming conversion, with one [DONE] |
| `SseParser.GeminiStreamReadsBack` | internal/proxy/providers/gemini.go:280-318 | the Gemini printer and the parser are inverse on content |
| `TokenDb.UserTokenDb.CreateToken` | apps/proxy-core-rust/src/modules/user_token_db.rs:157-222 | a row with zero counters and the expiry of its kind, or a failed insert on a repeated id or token |
| `TokenHistory.CreateEffect` | apps/proxy-core-rust/src/modules/user_token_db.rs:157-222 | column by column: an enabled, unused row with what was asked for and the expiry of its kind; refused exactly for a taken id or token string |
| `TokenDb.UserTokenDb.UpdateToken` | apps/proxy-core-rust/src/modules/user_token_db.rs:317-379 | exactly the given fields of that token change |
| `TokenHistory.UpdateEffect` | apps/proxy-core-rust/src/modules/user_token_db.rs:317-379 | column by column: the named columns and the time are written, every other kept |
| `TokenDb.UserTokenDb.RenewToken` | apps/proxy-core-rust/src/modules/user_token_db.rs:382-399 | new expiry from now, and enabled again |
| `TokenHistory.RenewEffect` | apps/proxy-core-rust/src/modules/user_token_db.rs:382-399 | column by column: kind, expiry in a day, week, thirty days or never, enabled, time |
| `TokenDb.UserTokenDb.DeleteToken` | apps/proxy-core-rust/src/modules/user_token_db.rs:402-407 | the token and, by cascade, its bindings and logs go; nothing else |
| `TokenHistory.DeleteEffect` | apps/proxy-core-rust/src/modules/user_token_db.rs:402-407 | exactly the rows of other tokens remain, in all three tables |
| `TokenDb.UserTokenDb.RecordTokenUsageAndIP` | apps/proxy-core-rust/src/modules/user_token_db.rs:436-499 | one transaction over three tables; it commits exactly when the token exists and the new keys are new |
| `TokenHistory.RecordEffect` | apps/proxy-core-rust/src/modules/user_token_db.rs:436-499 | row by row: one more request and the wrapped token sum on the token, one more on the binding of the address or a new one, one log as used |
| `TokenHistory.RecordsIff` | apps/proxy-core-rust/src/modules/user_token_db.rs:436-499 | a use is recorded if and only if its token exists, the log row is new, and so is the binding row unless the address is bound |
| `TokenHistory.RunTimed` | apps/proxy-core-rust/src/modules/user_token_db.rs:436-499 | over every run a token's last use is the time of its last log, and an address was first and last seen at the times of its first and last log |
| `TokenDb.UserTokenDb.ValidateToken` | apps/proxy-core-rust/src/modules/user_token_db.rs:503-568 | the first reason to refuse, in the order unknown, expired, address limit, curfew |
| `Curfew.CurfewIsCyclicInterval` | apps/proxy-core-rust/src/modules/user_token_db.rs:539-560 | the HH:MM string comparison is membership in the half-open interval from start to end on the 24-hour circle, eight hours ahead of UTC |
| `Curfew.ClockReads` | apps/proxy-core-rust/src/modules/user_token_db.rs:539-546 | the text of a time of day is its hour and its minute, two digits each |
| `Curfew.NumeralOrder` | apps/proxy-core-rust/src/modules/user_token_db.rs:547-555 | among numerals of one width string order is numeric order |
| `TokenLimits.RecordSound` | apps/proxy-core-rust/src/modules/user_token_db.rs:436-499 | recording a use keeps keys, foreign keys and all redundant counters right |
| `TokenLimits.RunSound` | apps/proxy-core-rust/src/modules/user_token_db.rs:157-499 | over every run: total_requests is the number of log rows and the sum of the bindings' counts, total_tokens_used the logged sum, each binding counts exactly the log rows of its address |
| `TokenLimits.ReachableSound` | apps/proxy-core-rust/src/modules/user_token_db.rs:157-499 | so in every database reached from the empty one |
| `TokenLimits.LimitKeptIff` | apps/proxy-core-rust/src/modules/user_token_db.rs:436-568 | a step keeps every token within max_ips if and only if a raw record finds its address bound or room left and a new limit is not below the bound addresses |
| `TokenLimits.RunKeepsLimit` | apps/proxy-core-rust/src/modules/user_token_db.rs:436-568 | runs of such steps keep every token within its limit |
| `TokenLimits.AlwaysLimitedIff` | apps/proxy-core-rust/src/modules/user_token_db.rs:436-568 | the limits hold at every point of a run if and only if every step is such |
| `TokenLimits.ServedRunsKeepLimit` | apps/proxy-core-rust/src/modules/user_token_db.rs:503-568 | in particular when every use is recorded right after acceptance and no limit is ever lowered |
| `TokenLimits.BindingsAreLoggedIPs` | apps/proxy-core-rust/src/modules/user_token_db.rs:514-537 | the bindings of a token are exactly the distinct addresses in its log |
| `TokenLimits.AcceptedIff` | apps/proxy-core-rust/src/modules/user_token_db.rs:503-568 | acceptance in terms of tokens and log alone, in every reachable database, both directions |
| `TokenHistory.RefusedIff` | apps/proxy-core-rust/src/modules/user_token_db.rs:503-568 | each refusal if and only if, in every reachable database: unknown, past expiry, as many logged addresses as the limit and not this one (with both numbers), curfew |
| `TokenLimits.EnabledIgnored` | apps/proxy-core-rust/src/modules/user_token_db.rs:503-568 | validation ignores enabled, name and description |
| `TokenLimits.RenewalExpiry` | apps/proxy-core-rust/src/modules/user_token_db.rs:382-399 | after a renewal: expired exactly after the day, week or thirty days; "custom" never expires |
| `TokenLimits.CreationExpiry` | apps/proxy-core-rust/src/modules/user_token_db.rs:171-177 | after creation: expired exactly after the lifetime of the kind, or after the custom moment |
| `TokenLimits.TotalExactIff` | apps/proxy-core-rust/src/modules/user_token_db.rs:450-456 | for non-negative counts the stored total is the true one if and only if no single use overflows 32 bits |
| `LogCleanup.DeleteExpired` | apps/proxy-core-rust/src/modules/logger.rs:135-150 | keeps exactly recent and undeletable files; bytes and counts are conserved |
| `LogCleanup.TrimToTarget` | apps/proxy-core-rust/src/modules/logger.rs:161-176 | stops at the target or when files run out, conserving bytes; the running total never goes below zero |
| `LogCleanup.CleanupOldLogs` | apps/proxy-core-rust/src/modules/logger.rs:89-187 | freed plus surviving bytes equal the initial bytes; the size pass runs exactly above the limit |
| `LogCleanup.KeptMembers` | apps/proxy-core-rust/src/modules/logger.rs:135-150 | the first pass in terms of membership |
| `LogCleanup.SizePassReaches` | apps/proxy-core-rust/src/modules/logger.rs:152-176 | after the size pass the total is at or below the target or only undeletable files are left |
| `LogCleanup.ShortestPrefix` | apps/proxy-core-rust/src/modules/logger.rs:152-176 | when all deletions succeed it removes the shortest oldest-first prefix that reaches the target |
| `Cidr.MaskMatch` | apps/proxy-core-rust/src/modules/security_db.rs:519-554 | masked equality is agreement on the top bits, for every prefix up to 32 |
| `Cidr.BlockOf` | apps/proxy-core-rust/src/modules/security_db.rs:519-554 | the classes are the aligned blocks of 2^(32-p) addresses |
| `Cidr.Nested` | apps/proxy-core-rust/src/modules/security_db.rs:519-554 | blocks are nested as the prefix grows |
| `Cidr.Extremes` | apps/proxy-core-rust/src/modules/security_db.rs:519-554 | prefix 32 is equality, prefix 0 matches everything |
| `Cidr.LongPrefix` | apps/proxy-core-rust/src/modules/security_db.rs:519-554 | a prefix above 32 acts as the length between 1 and 32 congruent to it |
| `Cidr.MatchIsMembership` | apps/proxy-core-rust/src/modules/security_db.rs:519-554 | on well-formed text the matcher decides exactly block membership |
| `Blacklist.SecurityDb.GetBlacklistEntryForIp` | apps/proxy-core-rust/src/modules/security_db.rs:463-516 | an entry exactly when an unexpired pattern equals or covers the address, the exact one preferred, the newest covering one otherwise; exactly one hit count rises |
| `Blacklist.SecurityDb.FindCovering` | apps/proxy-core-rust/src/modules/security_db.rs:500-513 | the newest row whose prefix covers the address |
| `Blacklist.SecurityDb.IsIpInWhitelist` | apps/proxy-core-rust/src/modules/security_db.rs:623-650 | true exactly when a pattern equals or covers the address |
| `Blacklist.QuadCovered` | apps/proxy-core-rust/src/modules/security_db.rs:463-554 | for well-formed text, covering is lying in the block |
| `Blacklist.PurgeIsExact` | apps/proxy-core-rust/src/modules/security_db.rs:467-471 | a row survives the purge exactly when it is not past its expiry |
| `Versions.CompareSemver` | apps/proxy-core-rust/src/constants.rs:31-46 | the padded lexicographic order of the parsed parts |
| `Versions.CompareVersion` | apps/proxy-core-rust/src/modules/version.rs:198-217 | the same order: the comparers agree |
| `Versions.CompareVersions` | apps/proxy-core-rust/src/modules/update_checker.rs:274-296 | true exactly when that order says greater |
| `Versions.IsNewVersion` | apps/proxy-core-rust/src/modules/version.rs:193-195 | true exactly from 1.16.5 on |
| `Versions.OrderReflexive` | apps/proxy-core-rust/src/constants.rs:31-46 | every version equals itself |
| `Versions.OrderFlips` | apps/proxy-core-rust/src/constants.rs:31-46 | swapping the arguments reverses the answer, so the order is total |
| `Versions.OrderTransitive` | apps/proxy-core-rust/src/constants.rs:31-46 | transitive, strictly so when one step is strict |
| `Versions.EqualIff` | apps/proxy-core-rust/src/constants.rs:31-46 | equal exactly when all parts agree, missing ones as zero |
| `Versions.LessIff` | apps/proxy-core-rust/src/constants.rs:31-46 | less exactly when at the first part that differs, zeros standing in, the number is smaller |
| `Versions.FaithfulIff` | apps/proxy-core-rust/src/constants.rs:31-46 | texts compare like the numbers in them if and only if every part fits 32 bits |
| `Versions.ResolveVersionConfig` | apps/proxy-core-rust/src/constants.rs:122-175 | the greatest of floor, local and remote, and the earliest of equals |

## Left out

- HTTP handlers, routing, cookies, CORS, pages, provider HTTP calls, OAuth exchange, PKCE and randomness: plumbing and foreign calls; replies, tokens and identifiers are parameters.
- JSON, Postgres and SQLite internals and file-system errors: tables are sequences, files a map, and JSON an abstract codec. Account writes never fail; log deletions may.
- Timestamps.ParseRFC3339: reads only zone Z without a fraction, the form that is written; other RFC 3339 forms in a hand-edited Meta are treated as unreadable.
- Each operation reads the clock once, where the code sometimes reads it several times within one call.
- Health.CooldownInterval: assumes a deadline whose year has four digits; Timestamps.ParseFormat and Health.DeadlineStep say what happens otherwise (the deadline is unreadable).
- Health.CounterIsHistory: assumes fewer than 2^63 steps, and no replacement of Meta, which UpdateUpstreamAccount can do.
- AccountStore.Store.AddUpstreamAccount: lower-casing and the providers' default models and base URL are parameters; the authentication mode, which is always the same, is not represented.
- AccountStore.Store.UpdateUpstreamAccount: the patch arrives as typed fields, and the provider's default models and base URL are parameters.
- Statuses, error types and Meta keys are datatypes; white space around an error type and keys the health operations never touch are not represented.
- Money, quota and cost are exact reals, where the code has float64; rounding is not modelled.
- UsageLedger.Store.AppendUsageLog: letter case is folded only as far as the ASCII prefix "gemini" can tell.
- CommerceLedger.ReachableInv: the spans of the subscriptions a store opens with do not end before they start and start no later than the run; active or not.
- Commerce.Store.CreateCheckoutOrder: the checkout link that the payment carries is not modelled.
- AssignSubscription, AddPackage, CreateAPIKey, session authentication, listings and profiles: easy or plain record updates. AssignSubscription can add a second row for a user and package, so it is outside the runs of CommerceLedger.
- Concurrent double confirmation of one payment and concurrent token validation: checks and actions are separate in the code; the claims are about sequential steps.
- Execution.ExecuteAgainstTrace: request conversion and the health outcome that the control plane derives from a log are not part of it.
- AccountIndex.Store.UpsertAccount: account fields that no index operation reads (quota, device, proxy and validation fields) are not in this model of the file.
- AccountMachine.InterleavingsKeepCore: no new account gets a listed id, reorders repeat no known id and the current account is set to a listed id; AccountMachine.ProperIff shows the conditions to be exact.
- AccountIndex.Store.ToggleProxyStatus: the reason and the time of switching off are not in this model of the file; finding an account forbidden writes the same index entry, its quota fields not being modelled there.
- Recovery of a damaged index file (byte-order marks, NUL prefixes, backups): text repair; only the rebuild is modelled.
- ProcessFamily.GetTargetPids: the Linux branch, with the name and path tests of a process as booleans; macOS and Windows detection is not modelled.
- ProcessFamily.GetSelfFamily: for tables that list each process once, as a map from pid does.
- ClaudeMessage.StreamedIsContent: a message and its stream are related by the fragments of the text parts; the other events are arbitrary lines without an event line of their own.
- Sse.ConvertClaudeStream: takes the scanner's lines as input; the scanner's 1 MB line limit and failing pipe writes are not modelled, and non-ASCII invalid UTF-8 cannot occur in a string here.
- convertGeminiToOpenAI and the request converters: field-by-field copying.
- LogCleanup.CleanupOldLogs: sizes are unbounded naturals, the listing is given, and reading metadata succeeds.
- Cidr.LongPrefix: describes a build without overflow checks; with them such a prefix stops the program.
- Blacklist.SecurityDb.GetBlacklistEntryForIp: rows of equal creation time are taken in table order, which SQLite does not promise; the deletion of expired rows is not allowed to fail.
- TokenDb: SQLite enforces the foreign keys, as the bundled library is built to; counters are unbounded where SQLite has 64 bits; Add32 wraps as in a build without overflow checks.
- Versions.ResolveVersionConfig: the version texts found locally and fetched are inputs; the X.Y.Z pattern search is not modelled.
- QuotaProtection.Accounts.UpdateAccountQuota: the mapping of model names to groups is an arbitrary function, and the reload signal is left out.
- AccountIndex, QuotaProtection and DeviceHistory each describe the fields of the account file that they read or write.
- DeviceHistory: writing the bound profile to the editor's storage file and capturing or generating a profile are left out; new version identifiers are fresh and not "baseline".
- TokenManager, rate limiting, the proxy pool, the scheduler, statistics queries, request-log queries, the log ring buffer, desktop commands and the web console: plumbing with only easy claims.
