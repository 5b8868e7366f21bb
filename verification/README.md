# AI-Automated-office: a verified model of its stateful core

This project models the parts of the repository that carry state, concurrency, arithmetic or structure, and proves what
they keep and where they fall short. Every statement below holds for all inputs, all runs or all interleavings; where
the code does not meet a property, the exact condition under which it does is proved instead, in both directions; the one
exception stands under "Left out".

| file | models |
|---|---|
| `DeviceFlow.dfy` | the device authorization grant (sections 3.2 to 3.5 of RFC 8628) with the code challenge of section 4.6 of RFC 7636: any number of concurrent exchanges and verifications, one step per database statement |
| `Calendar.dfy`, `Proration.dfy`, `Billing.dfy` | Go's normalising date arithmetic, the price of changing plan, and the subscription status machine with renewal and the grace period pass |
| `BillingAmounts.dfy` | what subscriptions are charged, in terms of the prices that plans list |
| `BillingOverlap.dfy` | renewals, passes and changes of plan that overlap, one step per database statement, any of which may be refused |
| `Departments.dfy`, `DepartmentTable.dfy` | the tree linked in place from a listing of departments, and the parent-pointer table under overlapping service calls |
| `LogQuery.dfy` | log files per day: seeding, skipping files by date, filtering, sorting and paging |
| `Inventory.dfy` | the three atomic stock statements as a ledger |
| `EnterpriseLifecycle.dfy`, `EnterpriseOverlap.dfy` | the enterprise status machine and its audit log, as calls one after the other and as calls that overlap |
| `SkillTemplate.dfy` | choosing an endpoint and filling its placeholders from an unordered map |
| `ClaudeMd.dfy` | generating CLAUDE.md and splicing a new skill section into it |
| `Base64Url.dfy`, `SqlLiteral.dfy` | re-padding and decoding of token payloads (section 5 of RFC 4648), and quoting of SQL literals (section 5.3 of ISO/IEC 9075-2) |
| `Common.dfy`, `Text.dfy` | Option and Result; the text operations of Go's `strings` package |

Conventions. A table is a map from its key; a row is a value. A concurrent service is a state machine whose steps are
single SQL statements, and a call's local variables (its copy of the row) are part of the state. Beside the state machine
stands a class whose methods update the fields as the source does; each method is proved to do exactly what the machine's
steps do when nothing interrupts them. UUID parsing, SHA-256, case folding, JSON reading of a payload, random codes, clock
readings and the outcome of database writes are arguments or arbitrary functions. Time is counted in whole seconds
(nanoseconds in the log), amounts are real numbers. Texts are sequences of characters, which stand for Go's UTF-8 bytes:
the markers and placeholders searched for are whole characters, so positions correspond.

Places where the code does less than its names and messages suggest, each with the exact condition:

- A verifier that lost a race is told "success" although another user is bound (`RacingVerifierIsToldSuccess`,
  `AcknowledgedVerifierIsBoundIff`), because the number of affected rows is not looked at.
- The plan set by an upgrade or downgrade is never stored, so a second change is priced from the original plan
  (`StoredChangesTelescopeIff`).
- A subscription renewed early is quoted more than the full price difference (`QuoteWithinDifferenceIff`).
- Twelve monthly periods can end later than one yearly period (`TwelveMonthsAreAYearIff`).
- Overlapping renewals charge one period twice, a pass or a change of plan can undo a renewal, and a refused save or
  insertion leaves a charge without period or a period without charge (`TilingKeptIff`).
- Overlapping calls can leave a live department under a deleted parent (`ParentsStayLiveIff`); the tree then shows it at
  the top, and no call can make the tree lose one (`TreeLosesNothing`).
- Skipping log files by date loses entries that were stamped away from UTC across midnight
  (`SeededSkippingIsSoundIff`), and reading a file with malformed text does not end (`ReadingEndsIff`).
- The checked stock adjustment inserts a missing row with a negative quantity (`StockStaysNonNegativeIff`).
- A status change whose log write fails is stored without a log row (`LogLeadsToStatusIff`), and of overlapping calls the
  one with an older copy can make a cancelled enterprise active again (`CancelledStaysIff`).
- A parameter value that writes another parameter's placeholder makes the filled path depend on map order
  (`OrderIsIrrelevantIff`).
- A custom field's key that holds a question mark is not the key that is set (`ExecutedStatementReadsKeyIff`).
- A skill whose name begins with the words of the example heading writes that heading into its own section, and
  updating CLAUDE.md then makes it grow (`SectionHoldsHeadingIff`, `UpdateAgainUnchangedIff`).

## Model

| member | source | states |
|---|---|---|
| DeviceFlow.AtMostOneToken | api/internal/service/device_auth_service.go:96-175 | however exchange and verify calls interleave, with lost replies and failed statements, no two exchanges of one device code return tokens |
| DeviceFlow.TokenIsEarned | api/internal/service/device_auth_service.go:96-175 | a returned token is for the user whose own verification bound the code; the request came from the client that created it, passed an expiry check and met a stored challenge |
| DeviceFlow.TokenAnswersRequest | api/internal/service/device_auth_service.go:65-75 | a returned token answers the request that created its code: the same client, checked within 900 seconds, and with a non-empty verifier that meets the challenge of that request under its method, if it had one |
| DeviceFlow.CodesComeFromRequests | api/internal/service/device_auth_service.go:47-79 | every stored code was created by an accepted request of the run |
| DeviceFlow.RunKeepsInvariant | api/internal/repository/device_auth_repo.go:33-81 | every run keeps the invariant relating each call's possibly stale copy to the current row: columns fixed, flags only rising, one winner and one binding per code |
| DeviceFlow.StepKeepsInvariant | api/internal/repository/device_auth_repo.go:33-81 | so does each single step, and rows only grow in the sense of the flags |
| DeviceFlow.ReachableRowsAreWellFormed | api/internal/repository/device_auth_repo.go:61-81 | in every reachable table exchanged implies verified, and verified holds exactly when a user is bound |
| DeviceFlow.BoundUserNeverChanges | api/internal/repository/device_auth_repo.go:61-68 | no continuation of a run rebinds or unbinds a code, clears its exchanged flag, or alters its client or expiry |
| DeviceFlow.AcknowledgedVerifierIsBoundIff | api/internal/service/device_auth_service.go:185-208 | a verifier whose update goes through is told "success" whatever it meets, and in every continuation is bound exactly when the row it met was unverified or bound to the same user |
| DeviceFlow.RacingVerifierIsToldSuccess | api/internal/repository/device_auth_repo.go:61-68 | a run in which two verifiers are told "success" and only the first is bound |
| DeviceFlow.UndisturbedExchange | api/internal/service/device_auth_service.go:96-175 | from any state an uninterrupted exchange returns tokens exactly when both fields are given and the stored row admits the request; then the row is used up, and otherwise nothing changes |
| DeviceFlow.UndisturbedRefusal | api/internal/service/device_auth_service.go:97-139 | a refused exchange is told the one error that says why, each characterised in both directions: expired exactly when the code exists and its time is over, pending exactly when it is in time, the client is right and no user is bound, and so on |
| DeviceFlow.ExpiredIsFinal | api/internal/service/device_auth_service.go:112-114 | after "expired", no run continues with tokens for the code but to calls that had passed their checks before |
| DeviceFlow.PendingCanBeGrantedIff | api/internal/service/device_auth_service.go:120-126 | after "pending", some continuation grants the same request, with a verifier for the challenge, exactly when the code has not been used up meanwhile |
| DeviceFlow.UndisturbedVerify | api/internal/service/device_auth_service.go:185-208 | from any state an uninterrupted verification binds exactly when the code exists and is unverified, whether or not it has expired |
| DeviceFlow.PkceAdmitsExactlySameDigest | api/internal/service/device_auth_service.go:240-259 | a hashed challenge (also with no method given) admits exactly the verifiers with the same digest |
| DeviceFlow.OtherChallengeMethods | api/internal/service/device_auth_service.go:240-250 | "plain" admits exactly the challenge itself, and an unknown method admits nothing |
| DeviceFlow.ChallengeDecodesToDigest | api/internal/service/device_auth_service.go:256-259 | a computed challenge decodes to exactly the digest |
| DeviceFlow.DeviceAuthRepo.Save | api/internal/repository/device_auth_repo.go:33-35 | inserts the row unless either code is taken |
| DeviceFlow.DeviceAuthRepo.MarkVerified | api/internal/repository/device_auth_repo.go:61-68 | binds only an unverified row and reports nothing when no row matched |
| DeviceFlow.DeviceAuthRepo.MarkExchanged | api/internal/repository/device_auth_repo.go:70-81 | compare-and-set: succeeds exactly when it raised the flag |
| DeviceFlow.DeviceAuthService.GenerateDeviceCode | api/internal/service/device_auth_service.go:47-88 | succeeds exactly with a client and fresh codes; then stores one unbound row with the client, challenge and method asked for that expires after 900 seconds; failure stores nothing |
| DeviceFlow.DeviceAuthService.ExchangeToken | api/internal/service/device_auth_service.go:96-175 | result and table are those of the state machine's four uninterrupted steps, and an error is the one that says why |
| DeviceFlow.DeviceAuthService.VerifyDeviceCode | api/internal/service/device_auth_service.go:185-208 | result, error and table are those of the state machine's two uninterrupted steps; a bad user id changes nothing |
| Calendar.DateOf | api/internal/service/billing_service.go:44-57 | every day number is the number of a valid Gregorian date |
| Calendar.FirstDayIsDayNumber | api/internal/service/billing_service.go:44-50 | counting month by month agrees with the closed leap-year formula for the day number of any month's first day |
| Calendar.MonthLengths | api/internal/service/billing_service.go:46-50 | months but February have 30 and 31 days in turn, starting over in August |
| Calendar.FourCenturies | api/internal/service/billing_service.go:46-50 | the calendar repeats every 400 years of 146097 days |
| Calendar.DateRoundTrip | api/internal/service/billing_service.go:56-57 | no two dates share a day number, so a date written and read again is the same |
| Calendar.MonthLater | api/internal/service/billing_service.go:49 | one month later is as many days later as the starting month has, from any day, including 29 to 31 |
| Calendar.YearLater | api/internal/service/billing_service.go:47 | one year later is 366 days later exactly when the span crosses a leap day, and 365 otherwise |
| Calendar.SteadyMonths | api/internal/service/billing_service.go:262-266 | repeated months keep the day of the month while every month passed has that day |
| Calendar.SlippedMonths | api/internal/service/billing_service.go:262-266 | after the first month that is too short, repeated months stay a month ahead on the overflowed day |
| Calendar.TwelveMonthsAreAYearIff | api/internal/service/billing_service.go:262-266 | twelve monthly renewals end where one yearly renewal does exactly when the eleven months between all have the starting day |
| Calendar.AddDateMovesLocalDate | api/internal/service/billing_service.go:262-266 | moving by date keeps offset and time of day and moves the local date by the calendar |
| Proration.QuoteIsShare | api/internal/service/billing_service.go:192-236 | the quote is the price difference times the share of the period that is ahead |
| Proration.QuoteSign | api/internal/service/billing_service.go:192-236 | the quote is positive (negative) exactly when the plan becomes dearer (cheaper) and time is left |
| Proration.QuotesTelescope | api/internal/service/billing_service.go:192-236 | at one instant quotes are antisymmetric, and changing in two steps costs the direct change |
| Proration.QuoteWithinDifferenceIff | api/internal/service/billing_service.go:192-236 | the quote stays within the full difference exactly when the period has begun (or the prices are equal) |
| Proration.QuoteShrinksWithTime | api/internal/service/billing_service.go:211-235 | waiting never makes a quote larger, also before the period has begun |
| Billing.DowngradeEncodesQuote | api/internal/service/billing_service.go:163-180 | type and non-negative amount of a downgrade record together encode exactly the signed quote |
| Billing.TwoPassesSettle | api/internal/service/billing_service.go:369-409 | for any subscriptions, two passes at one instant reach a fixpoint: a third counts 0 and changes nothing |
| Billing.OnePassSettlesIff | api/internal/service/billing_service.go:369-409 | one pass is enough exactly when no active subscription is overdue by more than the grace period |
| Billing.RowsStayInOrder | api/internal/service/billing_service.go:62-71 | over every run, active rows have no grace end, and past due and suspended rows have one seven days after the period end |
| Billing.PastDueHistory | api/internal/service/billing_service.go:385-393 | a past due subscription was made so by a pass after its period end, and stayed so since |
| Billing.SuspensionHistory | api/internal/service/billing_service.go:385-405 | a suspended subscription was made past due by one pass and suspended by a later one, more than seven days after the same period end, without a renewal between |
| Billing.PeriodLength | api/internal/service/billing_service.go:250-266 | a period is never empty and lasts the days of its first month, or 365 or 366 days |
| Billing.TilesCoverOnce | api/internal/service/billing_service.go:250-266 | consecutive periods cover every instant between first start and last end exactly once, and nothing else |
| Billing.ChargesTileTime | api/internal/service/billing_service.go:250-303 | over every run the charges of a subscription cover time from its start to its stored period end without gap or overlap, however early or late it is renewed |
| Billing.StoredChangesTelescopeIff | api/internal/repository/billing_repo_impl.go:75-89 | since the plan is not stored, two stored changes cost what the direct change costs exactly when the first was free |
| Billing.BillingRepo.SaveSubscription | api/internal/repository/billing_repo_impl.go:75-89 | writes every column but plan and enterprise, and nothing when the row is missing |
| Billing.BillingRepo.FindActiveOrPastDueSubscriptions | api/internal/repository/billing_repo_impl.go:91-97 | copies of exactly the active and past due rows, each once |
| Billing.BillingService.Subscribe | api/internal/service/billing_service.go:38-104 | stores one active row and one pending charge of the price that the plan lists for the cycle, due at its start, or nothing when the plan is missing |
| Billing.BillingService.RenewSubscription | api/internal/service/billing_service.go:238-303 | the next period starts at the stored period end, the row becomes active, its grace end is cleared, and the price that the plan lists for the cycle is charged |
| Billing.BillingService.ProcessOne | api/internal/service/billing_service.go:377-405 | one loaded copy, up to date or not, is saved with at most one step of the status machine, and counted exactly when its status changed |
| Billing.BillingService.ProcessGracePeriod | api/internal/service/billing_service.go:369-409 | returns exactly the number of subscriptions whose status changed, and the table is the pass over every billable row |
| Billing.BillingService.UpgradePlan | api/internal/service/billing_service.go:106-144 | succeeds exactly when the subscription and both plans exist, appends one pending record of the signed quote and leaves every stored subscription as it was |
| Billing.BillingService.DowngradePlan | api/internal/service/billing_service.go:146-190 | succeeds exactly when the subscription and both plans exist, appends one pending record that encodes the signed quote and leaves every stored subscription as it was |
| BillingAmounts.ChargesAreListed | api/internal/service/billing_service.go:77-85 | over every run each charge has the listed price of its subscription's plan for its cycle: the yearly one for "yearly", the monthly one otherwise, and the basic price where that is 0 |
| BillingAmounts.MonthlyPriceIsIrrelevant | api/internal/service/billing_service.go:220-233 | changing only monthly prices changes no charge and no quote of a yearly subscription whose plans list a yearly price, over any run |
| BillingOverlap.TilingKeptIff | api/internal/service/billing_service.go:250-300 | throughout a run, however calls overlap and whichever statements are refused, a subscription's charges cover its start to its stored period end exactly once, exactly when no renewal, pass or change of plan saves a copy whose period end has moved and no save of a renewal or charge is refused |
| BillingOverlap.StepTilesIff | api/internal/service/billing_service.go:250-300 | the same for one statement, as a condition on the state before it |
| BillingOverlap.SecondRenewalBreaks | api/internal/service/billing_service.go:239-274 | of two renewals that loaded the same period, the second to save breaks the tiling |
| BillingOverlap.StepShaped | api/internal/service/billing_service.go:250-274 | whatever overlaps, rows and copies keep their start and a later period end |
| BillingOverlap.QuietTiling | api/internal/service/billing_service.go:286-300 | when no charge is about to be inserted, the stored charges alone do the tiling |
| BillingOverlap.UndisturbedRenewal | api/internal/service/billing_service.go:238-303 | uninterrupted, the steps of a renewal are the renewal event of a run |
| BillingOverlap.UndisturbedSubscribe | api/internal/service/billing_service.go:38-104 | uninterrupted, the steps of a new subscription are its event of a run |
| BillingOverlap.UndisturbedPlanChange | api/internal/service/billing_service.go:106-190 | so are the steps of an upgrade or downgrade, with one clock reading |
| BillingOverlap.UndisturbedPassStep | api/internal/service/billing_service.go:369-405 | a pass does to each subscription, when it comes to it, what the whole pass does |
| Departments.GroundedMeansNoCycle | api/internal/service/department_service.go:201-212 | a department on a cycle of parents is one from which following parents never ends |
| Departments.ForestHoldsGroundedOnce | api/internal/service/department_service.go:187-215 | the tree of any listing with distinct ids holds a department exactly once if following its parents ends, and not at all if it hangs on a cycle |
| Departments.TreeBelow | api/internal/service/department_service.go:201-212 | below a department stand exactly the listed departments whose parent it is, in listing order |
| Departments.TreesKeepOrder | api/internal/service/department_service.go:201-212 | siblings stand in the order in which the listing hangs them |
| Departments.HungAtMembers | api/internal/service/department_service.go:201-212 | hung at a place are exactly the listed departments with that parent (at the top: with no listed parent), none twice |
| Departments.LinkedShows | api/internal/service/department_service.go:187-215 | nodes linked as the listing says show, through the heap, the tree of every department off the cycles |
| Departments.MakeNodes | api/internal/service/department_service.go:188-194 | one fresh childless node for every id |
| Departments.LinkOne | api/internal/service/department_service.go:201-212 | appends one node under its parent's node or the root and leaves all other children as they are |
| Departments.BuildTree | api/internal/service/department_service.go:187-215 | the linked root shows exactly the forest of the listing |
| DepartmentTable.TreeLosesNothing | api/internal/service/department_service.go:19-50 | however the statements of create, edit and delete calls interleave, the tree holds each live department of the enterprise exactly once and nothing else |
| DepartmentTable.NoCycleOfParents | api/internal/service/department_service.go:19-50 | no reachable table has a cycle of parents, deleted rows included |
| DepartmentTable.MovesKeepWorld | api/internal/service/department_service.go:105-170 | every interleaving keeps rows keyed by id, parents known and of the same enterprise, and parent walks finite |
| DepartmentTable.MoveKeepsParentsLiveIff | api/internal/service/department_service.go:19-170 | one statement keeps every live parent live exactly when it is not an overtaken write: an insertion below a parent now gone, a revival below one, or the deletion of a department that has got a child |
| DepartmentTable.ParentsStayLiveIff | api/internal/service/department_service.go:19-170 | throughout a run, however its calls interleave, every live department's parent is live exactly when no write is overtaken |
| DepartmentTable.TreesFollowParents | api/internal/service/department_service.go:172-215 | then every listed department with a parent hangs under it |
| DepartmentTable.SiblingsByName | api/internal/repository/department_repo_impl.go:49-53 | siblings stand by name, as the listing does |
| DepartmentTable.SerialIs | api/internal/service/department_service.go:140-170 | an uninterrupted call changes the table only when its checks hold on that same table |
| DepartmentTable.SerialKeepsParentsLive | api/internal/service/department_service.go:140-170 | an uninterrupted call keeps every live department's parent live and of the same enterprise |
| DepartmentTable.SerialsKeepParentsLive | api/internal/service/department_service.go:19-170 | so does every run of calls that do not overlap |
| DepartmentTable.SerialTreesFollowParents | api/internal/service/department_service.go:172-215 | after such a run every listed department with a parent hangs under it |
| DepartmentTable.OverlapCanOrphan | api/internal/service/department_service.go:140-170 | an interleaving of a create and a delete that leaves a live department under a deleted parent |
| DepartmentTable.DepartmentRepo.Create | api/internal/repository/department_repo_impl.go:25-27 | inserts one live row unless the id is taken |
| DepartmentTable.DepartmentRepo.Update | api/internal/repository/department_repo_impl.go:29-31 | replaces the live row by the copy; a row deleted meanwhile is missed or brought back |
| DepartmentTable.DepartmentRepo.Delete | api/internal/repository/department_repo_impl.go:33-35 | marks the row deleted only within its enterprise |
| DepartmentTable.DepartmentRepo.ListByEnterprise | api/internal/repository/department_repo_impl.go:49-53 | lists the live departments of the enterprise by name, each once |
| DepartmentTable.DepartmentService.Create | api/internal/service/department_service.go:19-50 | succeeds exactly when every argument is in order and the parent is live; every refusal has its error and changes nothing; keeps the table valid |
| DepartmentTable.DepartmentService.Update | api/internal/service/department_service.go:105-138 | succeeds exactly when the department is live and the arguments are in order, and changes name and manager as given, never the parent |
| DepartmentTable.DepartmentService.SetManager | api/internal/service/department_service.go:71-103 | succeeds exactly when the department is live and the arguments are in order, and sets or clears the manager only |
| DepartmentTable.DepartmentService.Delete | api/internal/service/department_service.go:140-170 | succeeds exactly on a live department without live children; every refusal has its error and changes nothing |
| DepartmentTable.DepartmentService.GetTree | api/internal/service/department_service.go:172-185 | on every reachable table, orphans included, the linked tree shows a forest that holds each live department of the enterprise exactly once |
| LogQuery.SkippingIsSoundIff | api/internal/repository/debug_log_repo.go:147-194 | skipping files by date changes no query's matches exactly when every entry lies within the UTC day its file is named after and undated files hold none |
| LogQuery.SkippingKeepsMatches | api/internal/repository/debug_log_repo.go:169-193 | under that condition the files kept give the same filtered entries, in order, as all files |
| LogQuery.SeededSkippingIsSoundIff | api/internal/repository/debug_log_repo.go:110-194 | in a directory that seeding wrote, skipping is sound for every query exactly when every entry was filed on its UTC date |
| LogQuery.UtcStampsAreUtcDated | api/internal/repository/debug_log_repo.go:117 | entries with UTC stamps always are |
| LogQuery.OffsetShiftsTheDay | api/internal/repository/debug_log_repo.go:117 | otherwise it is filed a day later exactly when late enough in the day for its eastern offset, and a day earlier when early enough for its western one |
| LogQuery.ReadingEndsIff | api/internal/repository/debug_log_repo.go:196-217 | reading a file ends exactly when it holds no malformed text, and then keeps every well-typed entry |
| LogQuery.FirstPagesArePrefix | api/internal/repository/debug_log_repo.go:89-107 | the first n pages put together are the first n times page-size entries |
| LogQuery.PagesCoverTheLog | api/internal/repository/debug_log_repo.go:57-108 | the pages that Query returns, put together, are the matching entries of the files it reads, each as often as logged, in order of time; and all that a full scan matches exactly when no skipped file holds a match |
| LogQuery.MatchesIffAllMet | api/internal/repository/debug_log_repo.go:230-259 | the filter lets exactly the entries through that meet every criterion that is set, written out field by field; one that is not set asks nothing |
| LogQuery.PagesHold | api/internal/repository/debug_log_repo.go:57-108 | the pages of a query hold an entry that meets all criteria as often as the files read have it logged, and no other entry |
| LogQuery.OneCriterionMore | api/internal/repository/debug_log_repo.go:237-257 | setting one criterion more keeps exactly the entries that meet it, each as often as before |
| LogQuery.WindowKeepsWithin | api/internal/repository/debug_log_repo.go:231-236 | where skipping is sound, setting a time window keeps exactly the entries within it |
| LogQuery.KeptIffTouched | api/internal/repository/debug_log_repo.go:169-193 | with a window that holds any instant, a file is read exactly when its name is a day that shares an instant with it |
| LogQuery.NothingMissedWhen | api/internal/repository/debug_log_repo.go:169-193 | no query without a window misses a match, nor any query when all entries lie in reach |
| LogQuery.TotalIgnoresPage | api/internal/repository/debug_log_repo.go:74-107 | every page of a query reports the same total and is cut from the same entries in the same order |
| LogQuery.LibraryContractsCanBeMet | api/internal/repository/debug_log_repo.go:79-87 | what is assumed of the library, a sort to an ordered permutation and a fixed listing of a directory, can be met |
| LogQuery.DebugLogRepo.ResolveFiles | api/internal/repository/debug_log_repo.go:147-194 | keeps exactly the files whose day the window touches, and all files without a window |
| LogQuery.DebugLogRepo.ReadFile | api/internal/repository/debug_log_repo.go:196-217 | the well-typed entries of the file, in order, or no end exactly when it holds malformed text |
| LogQuery.DebugLogRepo.ApplyFilter | api/internal/repository/debug_log_repo.go:219-259 | the matching entries, in order |
| LogQuery.DebugLogRepo.Query | api/internal/repository/debug_log_repo.go:57-108 | one page of the answer, whose entries all meet every criterion set, and the total of all pages; or no end exactly when a file it reads holds malformed text |
| LogQuery.DebugLogRepo.GroupByDate | api/internal/repository/debug_log_repo.go:115-119 | groups hold exactly each written date's entries, in order |
| LogQuery.DebugLogRepo.Seed | api/internal/repository/debug_log_repo.go:110-145 | appends each day's entries to that day's file in order, touches no other file, and keeps the directory one that skipping can be judged on |
| LogQuery.LinesOnConcat | api/internal/repository/debug_log_repo.go:116-119 | the lines of a day keep the order of the entries |
| Inventory.LedgerBalances | api/internal/repository/inventory_repo_impl.go:21-51 | over every interleaving a quantity is the last accepted upsert's value (or the start) plus all accepted deltas since |
| Inventory.CheckedAdjustment | api/internal/repository/inventory_repo_impl.go:38-51 | a refused checked adjustment changes nothing; an accepted one leaves a non-negative quantity exactly when the row existed or the delta is not negative |
| Inventory.StockStaysNonNegativeIff | api/internal/repository/inventory_repo_impl.go:38-51 | over runs of checked adjustments and non-negative upserts, stock stays non-negative throughout exactly when no negative adjustment meets a missing row |
| Inventory.OrderOfAdjustmentsIsIrrelevant | api/internal/repository/inventory_repo_impl.go:31-36 | accepted unchecked adjustments give the same quantities in every order |
| Inventory.OtherColumns | api/internal/repository/inventory_repo_impl.go:21-51 | an upsert stores safety stock and stock in transit as given, adjustments keep them and insert none, the first enterprise stays, and no other row changes |
| Inventory.InventoryRepo.Upsert | api/internal/repository/inventory_repo_impl.go:21-29 | sets the row but keeps a stored row's enterprise, and answers with what is stored |
| Inventory.InventoryRepo.AdjustQuantity | api/internal/repository/inventory_repo_impl.go:31-36 | is the atomic statement of the ledger |
| Inventory.InventoryRepo.AdjustQuantityWithCheck | api/internal/repository/inventory_repo_impl.go:38-51 | is the atomic checked statement, and fails exactly when that affects no row |
| EnterpriseLifecycle.RecordReplaysChanges | api/internal/service/enterprise_service.go:162-186 | over every run, whatever writes fail, an enterprise's stored changes are an unbroken walk through the transition table from trial to its status, and its record holds the readings that the first (subscribed, expired) or last (suspended, frozen) of them kept |
| EnterpriseLifecycle.LogHoldsChangesIff | api/internal/service/enterprise_service.go:188-197 | its log holds every stored change exactly when no log write of its own failed |
| EnterpriseLifecycle.LogLeadsToStatusIff | api/internal/service/enterprise_service.go:184-197 | throughout a run its log leads from trial to its status exactly when no log write of its own fails |
| EnterpriseLifecycle.TimesAgreeWithLog | api/internal/model/enterprise.go:63-71 | then a record has a time for a status exactly when its log has a row into it, and the time is not later than that row's own creation time |
| EnterpriseLifecycle.IdentityIsAsAsked | api/internal/service/enterprise_service.go:45-57 | over every run a stored enterprise has the group, name and code of the creation that stored it |
| EnterpriseLifecycle.CodesStayDifferent | api/internal/service/enterprise_service.go:40-43 | over every run no two stored enterprises have the same code |
| EnterpriseLifecycle.TransitionsByTarget | api/internal/model/enterprise.go:9-38 | the transition table, said by where each status is entered from |
| EnterpriseLifecycle.PathsEndInCancelled | api/internal/model/enterprise.go:9-16 | in such a log nothing follows cancelled and nothing leads back to trial |
| EnterpriseLifecycle.CancelledIsFinal | api/internal/model/enterprise.go:9-38 | whatever writes fail, a cancelled enterprise and its log stay as they are for the rest of a run of calls that do not overlap |
| EnterpriseOverlap.CancelledStaysIff | api/internal/service/enterprise_service.go:145-197 | with calls that overlap, a cancelled enterprise stays cancelled in every continuation exactly when no call in progress holds a copy or a target status that is not cancelled |
| EnterpriseOverlap.OverlapRevives | api/internal/service/enterprise_service.go:145-186 | a run in which a change that loaded the row before the cancellation makes the enterprise active after it |
| EnterpriseOverlap.LogsStayPermitted | api/internal/service/enterprise_service.go:153-195 | whatever overlaps, every log row is a transition of the table |
| EnterpriseOverlap.UndisturbedChange | api/internal/service/enterprise_service.go:135-200 | uninterrupted, the steps of a change of status are the change event of a run |
| EnterpriseOverlap.UndisturbedCreate | api/internal/service/enterprise_service.go:45-64 | so are the steps of a creation |
| EnterpriseLifecycle.FailedLogWriteLeavesGap | api/internal/service/enterprise_service.go:184-197 | a change whose log write fails leaves a log that no longer leads to the stored status |
| EnterpriseLifecycle.EnterpriseService.Create | api/internal/service/enterprise_service.go:29-76 | stores a trial enterprise with the group, name and code given exactly when they are in order and the code is free; when its schema cannot be set up it is stored all the same and an error returned |
| EnterpriseLifecycle.EnterpriseService.ChangeStatus | api/internal/service/enterprise_service.go:135-200 | succeeds exactly when the transition is in the table and both writes succeed; names the first check that failed otherwise |
| SkillTemplate.OrderIsIrrelevant | cli/cmd/skill.go:244-250 | for brace-free keys and values in which every opening brace is closed: when no parameter of the path writes another's placeholder, every order of visiting the parameters ends with each named placeholder filled, all other text untouched, and the same parameters left |
| SkillTemplate.OrderIsIrrelevantIff | cli/cmd/skill.go:244-250 | and only then, as long as no parameter of the path writes its own placeholder |
| SkillTemplate.OrderMatters | cli/cmd/skill.go:244-250 | two orders differ whenever a parameter of the path writes the placeholder of another that has none in the template or does not write its own |
| SkillTemplate.SelfWritersCanAgree | cli/cmd/skill.go:244-250 | parameters that write their own placeholders can write each other's and give the same result in both orders |
| SkillTemplate.RequestIsDeterminedIff | cli/cmd/skill.go:230-250 | so with the enterprise filled in first, path and remaining parameters do not depend on map order exactly under the same condition on that path |
| SkillTemplate.ConsumedOrSent | cli/cmd/skill.go:235-258 | under that condition each parameter other than the enterprise is sent unchanged exactly when the path has no placeholder for it, so it is consumed or sent, never both and never neither |
| SkillTemplate.PathIsClosed | cli/cmd/skill.go:241-243 | filling in the enterprise keeps the path's braces closed, and its placeholders but for those that the enterprise writes |
| SkillTemplate.EnterpriseIsFilled | cli/cmd/skill.go:241-243 | with an enterprise known no placeholder for it is left, unless the enterprise writes one; without, the path is the endpoint as it is |
| SkillTemplate.OrderMattersWithBraces | cli/cmd/skill.go:244-250 | an instance: a value that writes a later parameter's placeholder gives different paths and parameters in two orders |
| SkillTemplate.ReplaceFillsHoles | cli/cmd/skill.go:247 | replacing a placeholder in the text fills the holes of that name and no other text |
| SkillTemplate.FillPath | cli/cmd/skill.go:244-250 | the loop visits every parameter once, in some order |
| SkillTemplate.BuildRequest | cli/cmd/skill.go:230-258 | endpoint, method and parameters of the request: an action's endpoint unless empty, POST by default |
| ClaudeMd.GenerateSkillsSection | cli/cmd/init.go:202-220 | the section is the heading followed by each skill's text in order |
| ClaudeMd.SkillTextShows | cli/cmd/init.go:205-217 | a skill's text shows its name in the title, its description below, and a list of parameters exactly when it has any |
| ClaudeMd.ParamLineShows | cli/cmd/init.go:209-214 | a parameter's line shows name, type and, at its end, whether it is required |
| ClaudeMd.SkillsInOrder | cli/cmd/init.go:205-218 | skills are written in their order |
| ClaudeMd.GenerateClaudeMD | cli/internal/generator/claude_md.go:27-51 | header, the same section, and the examples |
| ClaudeMd.HeaderShows | cli/internal/generator/claude_md.go:29-32 | the header names enterprise, endpoint and role on a line each, in this order |
| ClaudeMd.UpdateFile | cli/cmd/init.go:160-189 | splices when both headings are there in order, and generates otherwise |
| ClaudeMd.UpdateKeepsSurroundings | cli/cmd/init.go:173-178 | the text before the skill heading and from the example heading on is kept; the skill heading stays first where it was, and the result can be spliced again |
| ClaudeMd.ExampleHeading | cli/cmd/init.go:173-178 | no heading arises where the parts meet: the first example heading of the result is the one kept exactly when the section writes none |
| ClaudeMd.UpdateAgainUnchangedIff | cli/cmd/init.go:173-178 | updating again with the same skills changes nothing exactly when the section does not write the example heading |
| ClaudeMd.ThirdUpdateUnchangedIff | cli/cmd/init.go:160-189 | from any text at all a third update in a row changes nothing exactly when the section does not write that heading or the file is never spliced |
| ClaudeMd.SectionHoldsHeadingIff | cli/cmd/init.go:202-220 | the section writes the example heading exactly when a name, description, parameter name or type holds it, or a name begins with its words |
| ClaudeMd.FirstUpdateOfGenerated | cli/internal/generator/claude_md.go:27-51 | the first update of a generated file adds exactly two line breaks before the examples |
| Base64Url.RepadGivesPadded | cli/cmd/auth.go:29-35 | for every byte string, re-padding the unpadded encoding gives exactly the padded encoding |
| Base64Url.DecodeRecovers | cli/cmd/auth.go:29-39 | so decoding recovers the bytes |
| Base64Url.EncodedLength | cli/cmd/auth.go:30-35 | an encoder never writes a length of 1 modulo 4 |
| Base64Url.QuadSpellsTheBits | cli/cmd/auth.go:36 | four letters spell the 24 bits of three bytes, first bits first |
| Base64Url.LettersAreTheAlphabet | cli/cmd/auth.go:36 | the letters are the URL-safe alphabet in its order |
| Base64Url.LengthOneModFourFails | cli/cmd/auth.go:30-39 | text whose letters, line breaks aside, number 1 modulo 4 is never decoded, re-padded or not |
| Base64Url.EncodeRawInjective | api/internal/service/device_auth_service.go:256-259 | different bytes have different encodings |
| Base64Url.ExtractReadsPayload | cli/cmd/auth.go:24-45 | the enterprise id is read from exactly the payload bytes that were encoded |
| Base64Url.ExtractFindsNothing | cli/cmd/auth.go:25-39 | a token without a second part, or with one that cannot be decoded, gives no id |
| SqlLiteral.ReadsAsIff | api/internal/repository/custom_field_repo.go:127-129 | a text reads as the literal s followed by a rest exactly when it is the quoted s and then that rest, and the rest does not start with a quote |
| SqlLiteral.QuoteIsInjective | api/internal/repository/custom_field_repo.go:127-129 | different texts have different literals, none the beginning of another with something other than a quote after it |
| SqlLiteral.FieldStatementReadsKey | api/internal/repository/custom_field_repo.go:82-83 | as formatted, the statement's key literal reads as exactly the key, whatever the key, and the fixed text after it is untouched |
| SqlLiteral.ExecutedStatementReadsKeyIff | api/internal/repository/custom_field_repo.go:82-86 | as executed, with question marks bound from left to right, it reads as exactly the key if and only if the key holds no question mark |

## Left out

- DeviceFlow: JWT signing, refresh tokens, the user lookup and UUID parsing are one outcome argument; scopes, polling interval and FindByUserCode are not modelled.
- DeviceFlow: the loops that draw random codes (`generateUserCode`, `generateRandomString`, `GenerateCodeVerifier`); codes are arguments, and a collision is an insert error.
- Billing: GenerateBill, Refund, payment configuration and revenue summaries; they would only add easy members.
- Billing: float64 rounding; amounts are real numbers.
- Billing.ChargesTileTime: speaks of calls that do not overlap (TilingKeptIff of those that do), and does not model the enterprise column of billing records nor the fractions of a second that the first charge's times have and the stored period texts have not.
- BillingOverlap: an answer that is lost after its statement ran; an insertion of a plan or a deletion of a row meanwhile.
- Calendar: changes of a zone's offset within a period (daylight saving); a moment keeps its offset, as a parsed RFC 3339 text does.
- DepartmentTable: UpdateFields and RestoreFields, which other services may call with any column, and read errors of the database.
- LogQuery.DebugLogRepo.Query: does not model the 64-bit wrap-around of (page - 1) * pageSize, nor unreadable files, which the code skips.
- LogQuery.DebugLogRepo.Seed: does not model file system errors; a time that JSON cannot write stops it as in the code.
- LogQuery: directories and names without the .jsonl suffix are not in the listing.
- Inventory: timestamps, lookups, transfers and orders that issue several statements.
- EnterpriseLifecycle: contact fields, GetStatusLog, and the contract and service-order status tables of the same shape, whose batch updates write the status directly.
- EnterpriseOverlap: how far a log leads to the status when calls overlap, beyond that its rows are permitted transitions; failures of the schema steps.
- SkillTemplate.OrderIsIrrelevantIff: excludes parameters of the path whose value writes their own placeholder, for which the condition is sufficient but not necessary (SelfWritersCanAgree), and whether the order matters depends on whether two substitutions happen to commute.
- SkillTemplate.OrderIsIrrelevant: excludes keys with braces and values that leave a brace open, which may join with the text behind them to a placeholder.
- SkillTemplate: the check of required parameters, token refresh, file upload and sending; a value that is no string is given with the text it is printed as.
- ClaudeMd: reading and writing the files, fetching skills, agent.md, and extractServerURL.
- SqlLiteral.ExecutedStatementReadsKeyIff: the library that executes the statement (gorm.io/gorm) is not part of this model; it is taken to number the question marks of a statement without named values from left to right, and settings in which a backslash escapes are not considered.
- SqlLiteral: quoting of identifiers; the loop over fields, one statement each.
- The HTTP handlers, middleware, workflow, order, quota, export and command line user interface.
