# Verified model of the consulting-pm services

Dafny 4.11 models of the six parts of the platform that keep state over time, and proofs of what
their runs guarantee. `dafny verify dfyconfig.toml` checks everything.

| file | models |
|---|---|
| `Resources.dfy`, `AllocationAnswers.dfy`, `GuardPeaks.dfy`, `AllocationRace.dfy` | the over-allocation guard and the allocation handlers, serially and with check and commit interleaved, and exactly when the guard is wrong |
| `AuthTokens.dfy`, `AuthAnswers.dfy`, `TokenFamilies.dfy` | refresh-token rotation with families (the scheme of section 5.2.2.3 of RFC 6819), password-reset tokens, the database session |
| `RateLimit.dfy`, `AdmissionBounds.dfy`, `LateCalls.dfy`, `GatewayRuns.dfy` | the gateway's sliding-window limiter over an expiring sorted set, what it admits in and out of stamp order, and runs in which the two checks of requests interleave |
| `EventStream.dfy`, `StreamAnswers.dfy`, `DeliveryGuarantees.dfy`, `EventConsumer.dfy`, `PassAnswers.dfy` | one event stream, its consumer group, any number of consumer processes |
| `Money.dfy`, `InvoiceNumbers.dfy`, `Billing.dfy`, `BillingAnswers.dfy`, `InvoiceGuarantees.dfy`, `InvoiceLifecycle.dfy` | rounding, invoice figures, numbering, the status machine, payments and the overdue sweep |
| `Timelog.dfy`, `TimelogAnswers.dfy` | time entries, the timer, approval and its audit trail |

Each service is a class whose methods change its tables as the handlers do, step by step. A method's
contract ties the new tables and the answer to a function of the old ones (`Apply`, `Step`,
`CheckStep`); the theorems are about that function over every run, that is, every finite sequence of
requests with every answer the outside world may give. The `Answers` files pin that function down request by
request: when each answer is given, and what is then stored, in terms of the rows and literal constants. Tables are sequences of rows: rows are never removed
(deletion sets a column), so a row's position is its identifier. Clocks, random tokens, transaction failures,
lost replies, raising handlers and cancellations are parameters of the requests. Token hashing is injective.
Instants are integers, decimals are reals, stored amounts are integer cents.

Where code and documentation disagree the model follows the code:

- `login` never commits and the request session rolls back (services/auth/app/database.py:16-20), so a deployed
  service stores no refresh token. `Config.loginCommits` is false for that session and true for the intended
  one; every theorem holds for both, and `SessionsWorkIffLoginCommits` states the difference.
- The platform's own README, line 536, says reuse ends all of a user's sessions; the code ends one
  family. That leaves the user without a live token if and only if all the user's live tokens are of that family
  (`ReuseSignsOutIff`), and in some run another session goes on (`OtherFamilySurvivesReuse`).
- Line 161 of that README promises the guard on every update; an update without a percentage is not checked
  (`UpdateSafetyIsExact`, `UnsafeUpdateOverfillsARun`). The sum it promises over all overlapping rows is taken, and
  refuses some rows that fit every day; `GuardIsWrongIff` says which.
- Its line 542 gives each request its own member in the sorted set; the code uses the millisecond, so calls in one
  millisecond count once and share one verdict. With at most m calls in any millisecond a window admits at most n * m
  of them, n the smaller of the limit and the window's milliseconds (`CallsAreBounded`); some history reaches this
  (`CallBoundIsReached`), so a limiter's limit bounds calls if and only if n * m is within it (`LimitBoundsCallsIff`),
  and every limit does if and only if m is at most 1 or the window is zero (`EveryLimitBoundsCallsIff`).
- Its line 519 says stale messages are reclaimed; the reply of the reclaim is dropped, so a message is never handled
  again (`RaisedEntryIsNotRetried`, `UnackedEntryIsStuck`).
- Its line 135 answers a skipped state with 409; the code answers 422 (`Unprocessable`).
- Its line 149 lists a lifecycle of invoices. In the code payment and voiding act in every status
  (`StatusMovesExactly`): a draft can be paid (`DraftCanBePaid`), so can a void invoice (`VoidCanBePaid`,
  `VoidUntilPaid`), a paid one can be voided (`PaidCanBeVoided`), and a later payment replaces an earlier one
  (`PaymentsOverwrite`).
- The limiter reads its clock before it sends its commands, so checks can reach the server out of stamp order, and a
  window can admit more distinct milliseconds than the limit (`OvertakenArrivalExceedsTheLimit`). The skew bounds how
  many more (`GatewayAdmissionIsBounded`); up to a second of it, the limit itself holds if and only if the skew or the
  limit is at most 1, or the window has no more milliseconds than the limit (`LimitBoundsStampsIff`).
- Approval does not freeze an entry: the timer handlers look at no status, so its duration is that of the last accepted
  stop (`DurationIsTheLastStop`) and can be made anything (`AnyDurationIsReachable`).

## Model

| member | source | states |
|---|---|---|
| Resources.AllocationService.CheckOverAllocation | services/resources/app/routers/resources.py:26-50 | the loop over the rows decides by the total percentage of the selected rows plus the new one, and the conflict carries that total |
| Resources.AllocationService.CreateAllocation | services/resources/app/routers/resources.py:79-89 | role, then guard, then exactly one appended row; nothing changes on an error |
| Resources.AllocationService.UpdateAllocation | services/resources/app/routers/resources.py:119-143 | role, lookup, guard only when a percentage is sent (excluding the row itself, against its new end), then only the sent ones of percentage, end and notes change |
| Resources.AllocationService.DeleteAllocation | services/resources/app/routers/resources.py:153-166 | role, lookup, then only the deletion mark of that row changes |
| AllocationAnswers.CreateAnswer | services/resources/app/routers/resources.py:26-89 | a creation is accepted if and only if the role allows it and the percentages of the tenant's live rows of that user that meet the new period total at most 100 with it; otherwise the conflict carries that sum and nothing changes |
| AllocationAnswers.UpdateAnswer | services/resources/app/routers/resources.py:119-143 | an update with a percentage is accepted if and only if the other live rows of the same user that meet its start and its new end total at most 100 with it, the updated row never counting; one without is always accepted |
| AllocationAnswers.UpdateChanges | services/resources/app/routers/resources.py:140-143 | an accepted update changes the sent columns of that row and nothing else |
| AllocationAnswers.DeleteAnswer | services/resources/app/routers/resources.py:153-166 | when a deletion is answered how, and that it marks that row and nothing else |
| AllocationAnswers.DeletionFreesItsDays | services/resources/app/routers/resources.py:153-166 | a deletion lowers the user's load by the row's percentage on exactly the days it covers |
| Resources.SerialRunsKeepCapacity | services/resources/app/routers/resources.py:26-50 | in every serial run whose updates are safe, every user's live percentages covering any one day total at most 100, open ends included |
| Resources.UpdateSafetyIsExact | services/resources/app/routers/resources.py:131-142 | an update keeps capacity in every table if and only if it carries a percentage, sends no end, does not lengthen the row over a new day, or the row asks for nothing |
| Resources.UnsafeUpdateBreaks | services/resources/app/routers/resources.py:131-142 | an end-only update that adds a day to a non-zero row overfills the table in which that day is already full |
| Resources.UnsafeUpdateOverfillsARun | services/resources/app/routers/resources.py:131-142 | for every end-only update that is not safe, a run from no rows: two accepted creations within capacity, then the update, and the table is over capacity |
| Resources.OverlappingSetsFit | services/resources/app/routers/resources.py:38-50 | in those runs any set of one user's live rows that pairwise overlap by the guard's test totals at most 100 |
| Resources.CliqueSharesADay | services/resources/app/routers/resources.py:38-42 | rows that pairwise overlap by the guard's test all cover one common day |
| GuardPeaks.FitsIffPeaksFit | services/resources/app/routers/resources.py:34-50 | a row, new or in place of another, fits a table on every day if and only if it fits on the days it covers among its own start and the starts of the rows the guard selects |
| GuardPeaks.GuardIsWrongIff | services/resources/app/routers/resources.py:26-50 | for every creation and every update with a percentage, empty periods included: an accepted row fits, and a row that fits is refused if and only if the selected rows total more than 100 with it and no such day does |
| Resources.GuardIsExactOnCliques | services/resources/app/routers/resources.py:34-50 | a special case readable from the rows alone: when the rows the guard selects overlap pairwise, a non-empty new row is accepted if and only if the table still fits with it |
| Resources.GuardRejectsAFittingRow | services/resources/app/routers/resources.py:48-50 | in general the guard is conservative: it answers conflict with total 160 for a row that fits every day |
| AllocationRace.RaceIsBounded | services/resources/app/routers/resources.py:81-88 | with check and commit as separate steps, committed plus in-flight load on any day is at most 100 times the peak number of that user's requests in flight |
| AllocationRace.RaceBoundIsReached | services/resources/app/routers/resources.py:81-88 | for every k there is a run with k requests in flight that commits a load of 100 * k on one day |
| AllocationRace.OneAtATimeIsSerial | services/resources/app/routers/resources.py:81-88 | with at most one request of each user in flight the committed table stays within capacity |
| AllocationRace.CheckAndCommitIsCreate | services/resources/app/routers/resources.py:81-88 | a check and its commit in a row are the creation, whatever is in flight; a request commits at most once, and not after it is given up |
| AuthTokens.AuthService.Login | services/auth/app/services/auth_service.py:26-46 | the credential checks in order, then a token of a new family in the session, kept only if the session is committed |
| AuthTokens.AuthService.Refresh | services/auth/app/services/auth_service.py:48-82 | every branch; reuse commits the family revocation, an inactive user loses the flushed revocation, success commits revocation and successor together |
| AuthTokens.AuthService.Logout | services/auth/app/services/auth_service.py:84-89 | revokes the presented token if it is stored and live, otherwise changes nothing |
| AuthTokens.AuthService.LogoutAll | services/auth/app/services/auth_service.py:91-93 | revokes exactly the user's live tokens |
| AuthTokens.AuthService.ChangePassword | services/auth/app/services/auth_service.py:95-100 | a wrong current password changes nothing; otherwise the password changes and the user's live tokens are revoked |
| AuthTokens.AuthService.ForgotPassword | services/auth/app/services/auth_service.py:102-116 | a fresh one-hour reset token for a known address, nothing otherwise |
| AuthTokens.AuthService.ResetPassword | services/auth/app/services/auth_service.py:118-129 | only an unused, unexpired token of an existing user; password, use mark and revocations commit together |
| AuthTokens.AuthService.IssueTokenPair | services/auth/app/services/auth_service.py:131-160 | the access token carries the names and the merged permissions of the user's roles; one live refresh token with a fresh hash goes into the given or a fresh family, in the uncommitted session only |
| AuthAnswers.LoginSucceedsIff | services/auth/app/services/auth_service.py:26-46 | a login succeeds if and only if the slug names an active tenant and the address an active, undeleted user of it with that password; what it stores is one live token in a family of its own, good for the configured days, and the instant of the login |
| AuthAnswers.RefreshAnswer | services/auth/app/services/auth_service.py:55-76 | each answer to a presented stored token, as an if-and-only-if on its row, its expiry, and its user |
| AuthAnswers.UnknownTokenIff | services/auth/app/services/auth_service.py:55-61 | a token is unknown if and only if no stored row carries it |
| AuthAnswers.RefreshStores | services/auth/app/services/auth_service.py:72-82 | a successful refresh stores the revocation of that row and one live successor, good for the configured days, and nothing else |
| AuthAnswers.AccessIsTimed | shared/core/security/jwt.py:54-64 | an access token is issued in the second of the request and lives the configured minutes |
| AuthAnswers.LogoutAnswer | services/auth/app/services/auth_service.py:84-89 | exactly the live row with the presented token is revoked; the answer never tells |
| AuthAnswers.LogoutAllAnswer | services/auth/app/services/auth_service.py:91-93 | an active user's live tokens are revoked at that instant, and nothing else changes |
| AuthAnswers.ChangePasswordAnswer | services/auth/app/services/auth_service.py:95-100 | accepted if and only if the current password is right; then the new one is stored and the user's live tokens are revoked |
| AuthAnswers.ForgotPasswordAnswer | services/auth/app/services/auth_service.py:102-116 | a reset token is sent if and only if the tenant and its undeleted user exist, whether or not active, and lives one hour |
| AuthAnswers.ResetPasswordAnswer | services/auth/app/services/auth_service.py:118-129 | each answer to a stored reset token, as an if-and-only-if; success stores password, mark and revocations |
| AuthAnswers.UnknownResetIsInvalid | services/auth/app/services/auth_service.py:118-122 | a token no row carries is invalid and changes nothing |
| TokenFamilies.AccessIsCurrent | services/auth/app/services/auth_service.py:138-144 | every access token is issued to an active user and grants a permission if and only if a role the user has at that moment carries it; a committed refresh token beside it is the same user's |
| AuthTokens.FindToken | services/auth/app/repositories/token_repo.py:37-41 | finds a token with the hash, and reports none only if there is none |
| AuthTokens.FindReset | services/auth/app/repositories/token_repo.py:77-85 | finds an unused, unexpired reset token with the hash, and reports none only if there is none |
| TokenFamilies.FamilyIsAChain | services/auth/app/services/auth_service.py:48-100 | after every run, two tokens of one family belong to one user and the older one is revoked, so at most the newest is live |
| TokenFamilies.RotatedFromPredecessor | services/auth/app/services/auth_service.py:72-80 | in every run the second of two consecutive tokens of a family was issued by a successful refresh that presented the first, so families grow only by rotation |
| TokenFamilies.RunExtends | services/auth/app/repositories/token_repo.py:43-62 | over every run token rows are only added, and a row changes at most by its first revocation, which is never altered |
| TokenFamilies.RefreshSucceedsIff | services/auth/app/services/auth_service.py:55-82 | a refresh succeeds if and only if the JWT is valid and the token is stored, live, unexpired and its user active |
| TokenFamilies.RefreshIsAllOrNothing | services/auth/app/services/auth_service.py:55-82 | success revokes exactly the presented token, the newest of its family, and adds the family's one live token; reuse revokes exactly that family; any other answer changes nothing |
| TokenFamilies.ReuseKillsFamily | services/auth/app/services/auth_service.py:63-67 | presenting a revoked token is answered as reuse and no token of its family is live at any later point of any run |
| TokenFamilies.ReuseSignsOutIff | services/auth/app/services/auth_service.py:63-67 | reuse leaves the user no live token if and only if every live token of the user is of the presented token's family |
| TokenFamilies.OtherFamilySurvivesReuse | services/auth/app/services/auth_service.py:63-82 | a run from an empty token table: two logins of a user, reuse of the first token is detected, and the second session still refreshes |
| TokenFamilies.TokenRotatesOnce | services/auth/app/services/auth_service.py:63-80 | a token rotates at most once in any run, and presenting it again kills its family for good |
| TokenFamilies.SignedOutUntilLogin | services/auth/app/services/auth_service.py:91-100 | after logout-all, a password change or a reset, no token of the user refreshes until that user logs in |
| TokenFamilies.ResetWorksOnceInTime | services/auth/app/repositories/token_repo.py:77-89 | a reset succeeds only before its token's expiry, and every later use of the same token is refused |
| TokenFamilies.UncommittedLoginsLeaveNoToken | services/auth/app/database.py:16-20 | when the session does not commit logins, the token table stays empty over every run |
| TokenFamilies.SessionsWorkIffLoginCommits | services/auth/app/services/auth_service.py:45-46 | from an empty token table some refresh can succeed if and only if logins are committed |
| RateLimit.SlidingWindowRateLimiter.Check | services/gateway/app/rate_limit.py:13-28 | prune, add, count and expire as one step on one key; limited exactly when the count exceeds the limit |
| RateLimit.SlidingWindowRateLimiter.ApplyRateLimits | services/gateway/app/rate_limit.py:31-39 | the IP key first; the tenant key only if that passed and there is a tenant |
| RateLimit.CheckAnswer | services/gateway/app/rate_limit.py:13-28 | a check counts its own stamp and the unexpired ones less than 1000 ms per second of window older, is limited if and only if they exceed the limit, and is counted either way |
| RateLimit.ServeAnswer | services/gateway/app/rate_limit.py:31-39 | the IP check decides first; the tenant's is made if and only if it passed and there is a tenant, against the tenant's own limit; no other key is touched |
| RateLimit.MembersExact | services/gateway/app/rate_limit.py:18-19 | for stamps in any order, without expiry, a stamp is present if and only if after its last insertion every stamp t has v > t - 1000 W |
| RateLimit.KeyStateIsTheWindow | services/gateway/app/rate_limit.py:13-22 | when calls reach the server in stamp order, the expiring set is exactly the distinct stamps in (now - W, now] of the whole history; expiry is never observable |
| RateLimit.VerdictMatchesHistory | services/gateway/app/rate_limit.py:13-28 | in any interleaving of keys, calls in stamp order, the verdict equals that of a limiter that keeps and filters every call |
| RateLimit.StoreIsPerKey | services/gateway/app/rate_limit.py:17-22 | the store holds for each key exactly what that key's own calls produce |
| AdmissionBounds.AdmissionIsBounded | services/gateway/app/rate_limit.py:24-28 | when a key's calls reach the server in stamp order, in every window at most `limit` distinct milliseconds have an admitted call |
| AdmissionBounds.CountIsAtMostTheWindow | services/gateway/app/rate_limit.py:18-20 | the count never exceeds 1000 per second of window |
| AdmissionBounds.SilenceResets | services/gateway/app/rate_limit.py:18-25 | after a window of silence the next call is admitted under any limit of at least one |
| AdmissionBounds.SameMillisecondIsUnlimited | services/gateway/app/rate_limit.py:19 | any number of calls in one millisecond is admitted under a limit of one |
| AdmissionBounds.SameMillisecondSameVerdict | services/gateway/app/rate_limit.py:14-25 | calls of one key in one millisecond are all admitted or all refused |
| AdmissionBounds.CallsAreBounded | services/gateway/app/rate_limit.py:14-25 | in every window of a history with at most m calls in any millisecond, at most n * m calls are admitted, where n is the smaller of the limit and the window's milliseconds |
| AdmissionBounds.CallBoundIsReached | services/gateway/app/rate_limit.py:14-25 | for every window, limit and m a history with at most m calls in any millisecond reaches that bound in one window |
| AdmissionBounds.LimitBoundsCallsIff | services/gateway/app/rate_limit.py:14-25 | over all histories in stamp order with at most m calls in any millisecond, a limiter's own limit bounds the admitted calls of every window if and only if n * m is within the limit, n the smaller of the limit and the window's milliseconds |
| AdmissionBounds.EveryLimitBoundsCallsIff | services/gateway/app/rate_limit.py:14-25 | every limit does so if and only if m is at most 1 or the window is zero |
| LateCalls.ExpiryIsNeverSeen | services/gateway/app/rate_limit.py:13-22 | when stamps reach the server out of order by at most a second, the expiring set is the one that is only pruned |
| LateCalls.ClocksAgree | services/gateway/app/rate_limit.py:14-22 | if every call is executed within a second of reading the clock, a key that expires on the server's clock holds what it holds when expiry is measured on the stamps |
| LateCalls.LateAdmissionIsBounded | services/gateway/app/rate_limit.py:13-28 | with stamps out of order by at most skew <= 1000 ms, a window admits at most `limit` distinct milliseconds after its first skew ones; in all at most `limit`, and skew - 1 more if the skew is positive and the limit above 1 |
| LateCalls.LateCallExceedsTheLimit | services/gateway/app/rate_limit.py:14-22 | for every limit of at least 2 and less than the window's milliseconds, a history with one call overtaken by 2 ms has limit + 1 admitted milliseconds in one window |
| LateCalls.LimitBoundsStampsIff | services/gateway/app/rate_limit.py:13-28 | over all histories out of order by at most skew <= 1000 ms, the limit bounds the admitted milliseconds of every window if and only if skew <= 1, limit <= 1, or the window has no more milliseconds than the limit |
| LateCalls.KeyAdmissionIsBounded | services/gateway/app/rate_limit.py:13-28 | the same bounds for a key with a fixed limit in every run of calls on all keys |
| GatewayRuns.ServeIsTwoSteps | services/gateway/app/rate_limit.py:31-39 | a request served with nothing in between is its two steps in a row, with the same store and verdict |
| GatewayRuns.KeysSeeTheirRequests | services/gateway/app/rate_limit.py:34-39 | however the checks of concurrent requests interleave, an IP key sees every arrival from that address, a tenant key exactly the second checks of its tenant's waiting requests |
| GatewayRuns.TenantChecksHavePassed | services/gateway/app/rate_limit.py:34-39 | every second check is of a request that arrived earlier in the run with that tenant and passed its IP check |
| GatewayRuns.TenantCheckedOnce | services/gateway/app/rate_limit.py:34-39 | no request makes its second check twice |
| GatewayRuns.TenantSetIgnoresRefusedRequests | services/gateway/app/rate_limit.py:34-39 | after any interleaving the tenant's set depends only on the second checks, so on requests that passed the IP check |
| GatewayRuns.DelayBoundsSkew | services/gateway/app/rate_limit.py:14-22 | under a clock that never goes back, if every check reaches the server within a delay of reading the clock, the order of execution is out of stamp order by at most that delay |
| GatewayRuns.GatewayAdmissionIsBounded | services/gateway/app/rate_limit.py:31-39 | in every interleaved run whose checks reach the server out of stamp order by at most skew <= 1000 ms, the same bounds hold in any window for every address with perIp and every tenant with perTenant |
| GatewayRuns.OvertakenArrivalExceedsTheLimit | services/gateway/app/rate_limit.py:31-39 | a run in which one request is overtaken by 2 ms admits its address in perIp + 1 distinct milliseconds of one window |
| RateLimit.KeysAreDistinct | services/gateway/app/rate_limit.py:35-39 | IP keys and tenant keys never coincide and each determines its address or tenant |
| EventConsumer.Broker.Publish | shared/events/publisher.py:16-24 | appends the entry and trims approximately, never below 10,000 entries |
| EventConsumer.EventConsumer.HandleMessage | shared/events/consumer.py:69-78 | decode, dispatch, acknowledge: acknowledged only if there was no handler or it returned |
| EventConsumer.EventConsumer.PollOnce | shared/events/consumer.py:50-67 | one pass is a read without an answer, or a read, its messages in order, and a reclaim or a cancellation; the loop goes on after an error and ends after a cancellation anywhere in the pass |
| EventConsumer.EventConsumer.Start | shared/events/consumer.py:45-67 | the loop is the creation of the group, which may fail, and whole passes; it does not start if cancelled while the group is created, and ends early only after a cancelled pass |
| StreamAnswers.Published | shared/events/publisher.py:16-24 | publishing appends, and trims only what more than 10,000 later entries and the slack follow, up to just that |
| StreamAnswers.ReadDelivers | shared/events/consumer.py:51-57 | a read delivers the next retained entries after the cursor in order and without gaps, as many as asked for or there are; they become pending |
| StreamAnswers.HandledMessage | shared/events/consumer.py:69-78 | the head of a batch is acknowledged and leaves the pending list if and only if it can be decoded, its handler returns or it has none, and the acknowledgement arrives |
| StreamAnswers.AttemptTellsHow | shared/events/consumer.py:69-78 | the recorded result, as an if-and-only-if on the message, the handlers and whether the handler raised |
| StreamAnswers.Cancelled | shared/events/consumer.py:63-64 | a cancellation drops exactly the entries of the batch that were not attempted, and acknowledges nothing |
| StreamAnswers.Reclaimed | shared/events/consumer.py:80-92 | a reclaim hands nothing out and forgets at most pending entries gone from the stream |
| PassAnswers.AnsweredPass | shared/events/consumer.py:50-62 | an answered pass attempts every delivered entry in order until it is cancelled, acknowledges each if and only if its handler returned or it has none and the acknowledgement arrived, and keeps nothing for the next |
| PassAnswers.UnansweredPass | shared/events/consumer.py:51-67 | a pass whose read fails attempts nothing; what the server delivered all the same is never handled |
| PassAnswers.GoesOnIff | shared/events/consumer.py:49-67 | the loop goes on after a pass if and only if no cancellation hit it |
| PassAnswers.LoopIsPasses | shared/events/consumer.py:45-67 | the loop is the creation of the group, if it succeeds, and its passes one after the other |
| DeliveryGuarantees.HandledAtMostOnce | shared/events/consumer.py:48-61 | over any number of processes no entry is passed to the handler twice, and each process handles its entries in log order |
| DeliveryGuarantees.RetainedEntriesSplit | shared/events/consumer.py:51-61 | every retained entry is exactly one of undelivered, pending, acknowledged |
| DeliveryGuarantees.AckedIffHandled | shared/events/consumer.py:70-78 | an entry is acknowledged if and only if some attempt acknowledged it after its handler returned or found none |
| DeliveryGuarantees.RaisedEntryIsNotRetried | shared/events/consumer.py:69-92 | a run in which a handler raises, the entry is reclaimed and the group is read again: the entry has one attempt, is pending and in no batch |
| DeliveryGuarantees.UnackedEntryIsStuck | shared/events/consumer.py:77-92 | an entry whose attempt was not acknowledged is never handled again in any continuation and stays pending while retained |
| DeliveryGuarantees.LossTakesMaxlenLaterEntries | shared/events/publisher.py:16-24 | an entry that no process was given is gone only if at least 10,000 later entries were published |
| DeliveryGuarantees.KeepingUpLosesNothing | shared/events/consumer.py:51-62 | if the lag never exceeds 10,000, every delivered entry was handled, waits in a batch, or was dropped by a stopped process or a lost reply |
| Billing.BillingService.NextInvoiceNumber | services/billing/app/routers/billing.py:30-34 | counts up the tenant's counter of the year and prints the new count |
| Billing.BillingService.RecalculateTotals | services/billing/app/routers/billing.py:37-42 | subtotal is the sum over the items; tax and total are rounded separately; nothing else changes |
| Billing.BillingService.CreateInvoice | services/billing/app/routers/billing.py:104-113 | draws a number, then adds a draft with zero figures if the transaction commits |
| Billing.BillingService.AddLineItem | services/billing/app/routers/billing.py:146-171 | only on a draft of the tenant; appends the rounded line in the next position and recalculates |
| Billing.BillingService.SendInvoice | services/billing/app/routers/billing.py:181-193 | only a draft becomes sent |
| Billing.BillingService.RecordPayment | services/billing/app/routers/billing.py:204-216 | overwrites amount and date in any status; paid if the amount covers the total, else partially paid |
| Billing.BillingService.VoidInvoice | services/billing/app/routers/billing.py:226-236 | any status becomes void |
| Billing.BillingService.CheckOverdue | services/billing/app/tasks/invoice_tasks.py:26-40 | the select and the loop mark exactly the sent invoices whose due date is past |
| BillingAnswers.Answers | services/billing/app/routers/billing.py:104-236 | when every request is answered how, that a refused one changes nothing, and that an accepted one changes the addressed invoice alone |
| BillingAnswers.CreateDraws | services/billing/app/routers/billing.py:30-34 | a creation counts the tenant's year up by one, saved or not, and a saved one adds a draft with that number and no figures |
| BillingAnswers.NumberIsWritten | services/billing/app/routers/billing.py:34 | a number is INV-, the year's digits, a dash, and the count's digits with zeros in front up to four |
| BillingAnswers.AddedLine | services/billing/app/routers/billing.py:159-169 | in every run an accepted line carries quantity times price to the nearest cent, halves to even, stands last and raises the subtotal by its amount; tax and total are the nearest cents to their exact values |
| BillingAnswers.SubtotalIsNearProducts | services/billing/app/routers/billing.py:159-169 | in every run the subtotal of n items is within n half-cents of the sum of quantity times price |
| BillingAnswers.RecordedPayment | services/billing/app/routers/billing.py:212-214 | what a payment stores: the nearest cents paid, the instant, and paid if and only if it covers the total; the bill is unchanged |
| BillingAnswers.SentOrVoided | services/billing/app/routers/billing.py:181-236 | sending and voiding change the status alone |
| BillingAnswers.SweepMarks | services/billing/app/tasks/invoice_tasks.py:26-40 | the sweep marks the sent invoices of every tenant whose due date is before today, and nothing else |
| Money.NearestCent | services/billing/app/routers/billing.py:41 | rounding moves a value by at most half a cent, ties go to the even cent |
| BillingAnswers.RoundingIsNearestEven | services/billing/app/routers/billing.py:41 | rounding gives the one whole number that is nearest, and of two the even one |
| Money.RoundShifted | services/billing/app/routers/billing.py:41-42 | rounding commutes with adding whole cents except on a tie with an odd number, and then is off by one |
| InvoiceGuarantees.FiguresAddUpIff | services/billing/app/routers/billing.py:37-42 | total = subtotal + tax - discount if and only if the tax is no half-cent tie or subtotal - discount is even; otherwise one cent off |
| InvoiceGuarantees.FiguresCanBeOffByACent | services/billing/app/routers/billing.py:37-42 | 10.05 at 10 percent gives tax 1.00 and total 11.06 |
| InvoiceGuarantees.SubtotalIsExactAndNear | services/billing/app/routers/billing.py:159-169 | in every run the figures match the items, sort orders are 0..n-1, and the subtotal is within n half-cents of the unrounded value |
| InvoiceGuarantees.StepMoves | services/billing/app/routers/billing.py:156-236 | the only status moves any handler makes; outside draft nothing but status and payment changes |
| InvoiceGuarantees.NoReturnToDraft | services/billing/app/routers/billing.py:156-191 | over every run an invoice that left draft never returns, and its items, figures, number, due date and rate are fixed |
| InvoiceLifecycle.StatusMovesExactly | services/billing/app/routers/billing.py:181-236 | for every request and status before it, each status after it if and only if a condition on the request, the bill and the old status; paid exactly on an accepted payment of at least the total, or if it was paid and neither paid nor voided |
| InvoiceLifecycle.StatusIsTheLastDecision | services/billing/app/routers/billing.py:204-236 | over every run the status of a paid, partially paid, void or overdue invoice is that of the last accepted payment or voiding, read off the requests and the fixed bill |
| InvoiceLifecycle.StatusOfSent | services/billing/app/routers/billing.py:204-236 | over every run a sent invoice ends with its last accepted payment or voiding; without one it is overdue if and only if some sweep of the run came after its due date, and sent otherwise |
| InvoiceLifecycle.VoidUntilPaid | services/billing/app/routers/billing.py:204-236 | a void invoice is void throughout a run if and only if no payment on it is accepted in the run |
| InvoiceLifecycle.DraftCanBePaid | services/billing/app/routers/billing.py:212-214 | a run from no invoices in which an empty draft, never sent, is paid by any amount |
| InvoiceLifecycle.VoidCanBePaid | services/billing/app/routers/billing.py:212-214 | a run from no invoices in which a void invoice becomes paid by any amount |
| InvoiceLifecycle.PaidCanBeVoided | services/billing/app/routers/billing.py:226-236 | a run from no invoices that ends with a void invoice that still carries its payment |
| InvoiceGuarantees.StatusTellsPayment | services/billing/app/routers/billing.py:212-214 | in every run paid means the stored amount covers the total, partially paid that it does not exceed it, and is below it if payments are whole cents |
| InvoiceGuarantees.StoredPartialPayment | services/billing/app/models/billing.py:67 | a partial payment is stored below the total if and only if it is more than half a cent below it |
| InvoiceLifecycle.StoredPaymentCanReachTotal | services/billing/app/routers/billing.py:212-214 | a run with a total of 1.00 and a payment of 0.995: partially paid, with a stored payment equal to the total |
| InvoiceGuarantees.PaymentsOverwrite | services/billing/app/routers/billing.py:212-214 | a second payment leaves the ledger as if the first had not been made |
| InvoiceGuarantees.LaterSweepAbsorbs | services/billing/app/tasks/invoice_tasks.py:26-40 | a sweep after an earlier sweep gives what it alone would give |
| InvoiceNumbers.ParsePrint | services/billing/app/routers/billing.py:34 | parsing undoes printing for every year and count, also above 9999 |
| InvoiceNumbers.PrintParse | services/billing/app/routers/billing.py:34 | printing undoes parsing for every well-formed number |
| InvoiceGuarantees.NthNumberIsN | services/billing/app/routers/billing.py:30-34 | the n-th number drawn for a tenant in a year in any run of the process is n |
| InvoiceGuarantees.NumbersNeverRepeat | services/billing/app/routers/billing.py:27-34 | no tenant gets the same number twice in any run of the process |
| Timelog.TimelogService.GetEntry | services/timelog/app/routers/timelog.py:25-36 | finds exactly the tenant's live entry with the identifier |
| Timelog.TimelogService.CreateEntry | services/timelog/app/routers/timelog.py:62-75 | a new draft of the caller with the sent project, duration and details, and no timer |
| Timelog.TimelogService.UpdateEntry | services/timelog/app/routers/timelog.py:88-103 | lookup, owner, draft, then only the sent ones of date, duration, description, billable flag and task change |
| Timelog.TimelogService.DeleteEntry | services/timelog/app/routers/timelog.py:107-119 | lookup, owner, draft, then only the deletion mark changes |
| Timelog.TimelogService.StartTimer | services/timelog/app/routers/timelog.py:123-133 | a live entry whose timer has not been started, in any status |
| Timelog.TimelogService.StopTimer | services/timelog/app/routers/timelog.py:137-151 | needs a started timer, in any status; an instant without a time zone fails and changes nothing |
| Timelog.TimelogService.SubmitEntry | services/timelog/app/routers/timelog.py:155-173 | only a draft, and with exactly one trail record |
| Timelog.TimelogService.ApproveEntry | services/timelog/app/routers/timelog.py:177-198 | role first, only a submitted entry, and with exactly one trail record |
| Timelog.TimelogService.RejectEntry | services/timelog/app/routers/timelog.py:202-225 | role first, only a submitted entry, and with exactly one trail record carrying the notes |
| TimelogAnswers.Answers | services/timelog/app/routers/timelog.py:25-225 | when every request is answered how, as if-and-only-ifs on role, owner, entry, status and timer; a refused one changes nothing, an accepted one its entry alone |
| TimelogAnswers.CreateAnswer | services/timelog/app/routers/timelog.py:62-75 | a creation adds the sent entry of the caller, a draft without timer |
| TimelogAnswers.Updated | services/timelog/app/routers/timelog.py:100-103 | an update changes the sent fields alone |
| TimelogAnswers.Removed | services/timelog/app/routers/timelog.py:107-119 | a removal changes the deletion mark alone |
| TimelogAnswers.Timed | services/timelog/app/routers/timelog.py:123-151 | a start stores its instant; a stop stores its own and the whole minutes since, at least one |
| TimelogAnswers.Decided | services/timelog/app/routers/timelog.py:155-225 | submission, approval and rejection change the status and add the one record of who decided, with the notes of a rejection |
| Timelog.StatusIsTheTrail | services/timelog/app/routers/timelog.py:161-225 | in every run each entry's trail is the one trail of its status, durations are at least 1, and a deleted entry is a draft without a trail |
| Timelog.DeletedIsFrozen | services/timelog/app/routers/timelog.py:25-36 | a deleted entry and its trail never change again |
| Timelog.DecisionIsFinal | services/timelog/app/routers/timelog.py:176-225 | an approved or rejected entry keeps its status and trail over every run |
| Timelog.HandedDurationChangesIff | services/timelog/app/routers/timelog.py:136-151 | the duration of a submitted, approved or rejected entry changes if and only if a stop is accepted whose span is not within the minutes recorded so far |
| Timelog.DurationIsTheLastStop | services/timelog/app/routers/timelog.py:122-151 | over every run the duration of such an entry is the whole minutes (at least one) of the last accepted stop, or the old one if there is none |
| Timelog.AnyDurationIsReachable | services/timelog/app/routers/timelog.py:122-151 | from every live entry in any status, at most two timer requests give it any duration of at least 1, with its status and all trails unchanged |
| Timelog.ApprovedDurationCanChange | services/timelog/app/routers/timelog.py:122-151 | a run in which an entry whose timer was never started is approved with 30 minutes and later has 90 |
| Timelog.StoppedMinutes | services/timelog/app/routers/timelog.py:144-149 | a stop records d if and only if the span has d whole minutes, or less than two and d is 1 |

## Left out

- The encoding, signature and identifiers of JWTs: an access token is its claims, and a presented refresh token is valid or not as the request says.
- Two-factor handlers, user and tenant administration: `Administer` replaces the users and tenants tables by any others.
- Descriptive columns that no rule reads (roles on projects, client addresses, currencies, periods) and update timestamps.
- Concurrent rows in auth, billing and timelog: their handlers run one at a time; only allocations have interleaved steps.
- Concurrent updates of one allocation: two updates can combine columns that neither checked.
- Other streams of a consumer: streams do not influence each other, so the model is one stream; work on another stream only delays a process.
- Other processes during `EventConsumer.Start`: that method runs one process alone; the delivery theorems are over every interleaving.
- Redelivery counters and consumer names in the pending list: nothing reads them.
- Invoice-number uniqueness over several worker processes or restarts: the counter is per process; a unique constraint in the database covers it.
- The 28-digit precision of decimals, column overflow, and the database's rounding of quantities, prices and rates to their columns.
- Floating-point rounding in the timer's division by 60: minutes are exact, truncated towards zero.
- Checks delayed by more than a second, and a server clock that differs from the gateway's: key expiry is measured on the stamps of the calls, which `ClocksAgree` justifies only up to a second of delay.
- HTTP routing, proxying, caching, health checks, mail, object storage, task scheduling, projects, clients, comments, attachments, notifications, leave requests, billing rates: no state whose guarantees span several calls.
