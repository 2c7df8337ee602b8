# b2b-saas-demo: deal lifecycle, commissions and tenant-scoped services in Dafny

This project models the server core of a multi-tenant B2B SaaS demo. Every
organization owns deals. A deal moves through the stages PROSPECT, ACTIVE,
CLOSED and LOST. Closing a deal credits a commission to the organization's
first user.

Around that engine sit smaller services:
- user administration, where admins or users themselves may edit a profile and nobody may delete their own account;
- per-user calendar slots;
- commission reports;
- a KPI dashboard;
- the request validators and enums they all share.

Every Prisma table becomes in-memory state, and every query an operation on
it:
- The services that write tables are classes. `Deals.DealsService`, `Users.UsersService` and `Calendar.CalendarService` hold map and sequence fields, and their methods carry `modifies` clauses.
- Each method is proved equal to a pure step function over a value of the same state (`DealLifecycle.ChangeStage`, `Users.UpdateUser`, ...), or states its new state outright. The lemmas about the service are proved about those functions.
- The read-only report services (`Commissions`, `Kpis`) are pure folds over the table rows.

Time (`new Date()`) is a `now` parameter. Money and rates are exact `real`
numbers.

Modules:
- `Common`: the DealStage and UserRole enums with their wire names; the error kinds; pagination.
- `Records`: the rows of the deal, commission-entry, user and audit-log tables.
- `Ordering`: selection and ordering, the model of `findMany({ where, orderBy })`.
- `DealDto`: the zod schemas and class-validator DTOs of `deal.dto.ts`.
- `DealLifecycle`: the stage machine, the commission formula and the deal-store step functions, with the lifecycle lemmas.
- `Deals`: the `DealsService` class.
- `Users`, `Calendar`: their service classes and step functions.
- `Commissions`, `Kpis`: the report services.

## Model

| member | source | states |
|---|---|---|
| Common.ParseStage | packages/dtos/src/common.ts:9-14 | a parsed stage name is the wire name of the stage returned |
| Common.StageNamesRoundTrip | packages/dtos/src/common.ts:9-14 | every stage parses back from its name, and DealStage has exactly the four values PROSPECT, ACTIVE, CLOSED and LOST |
| Common.StageNamesDistinct | packages/dtos/src/common.ts:9-14 | different stages have different wire names |
| Common.ParseRole | packages/dtos/src/common.ts:4-7 | a parsed role name is the wire name of the role returned |
| Common.RoleNamesRoundTrip | packages/dtos/src/common.ts:4-7 | every role parses back from its name, and UserRole has exactly ADMIN and USER |
| Common.ParsePagination | packages/dtos/src/common.ts:46-49 | accepted iff page >= 1 and 1 <= limit <= 100; absent fields default to 1 and 10; a rejection is a validation error |
| Common.PaginationRoundTrip | packages/dtos/src/common.ts:46-49 | every valid pagination is accepted unchanged when both fields are supplied |
| Common.PaginationDefaults | packages/dtos/src/common.ts:47-48 | an empty query yields page 1, limit 10 |
| Records.FindById | apps/api/src/modules/commissions/commissions.service.ts:29-32 | the joined row (`include`) is a row of the table with that id; if there is none, no row has that id |
| DealDto.ParseCreateDeal | packages/dtos/src/deal.dto.ts:15-22 | CreateDealSchema: accepted iff the title length in UTF-16 code units is in 2..200, amount > 0 and rate is in [0,100]; stage defaults to PROSPECT and rate to 10; the other fields are copied |
| DealDto.ValidateCreateDealDto | packages/dtos/src/deal.dto.ts:47-74 | CreateDealDto: accepted iff the title length as class-validator counts it is in 2..200, amount >= 0 (`@Min(0)`) and rate is in [0,100]; an accepted body keeps its title, amount, closeDate and description, and stage and rate take the same defaults |
| DealDto.CreateDealRoundTrip | packages/dtos/src/deal.dto.ts:15-22 | every valid create request is accepted unchanged from its own body |
| DealDto.CreateDealDefaults | packages/dtos/src/deal.dto.ts:18-19 | a body with only title and amount gets stage PROSPECT and rate 10 |
| DealDto.Utf16Length | packages/dtos/src/deal.dto.ts:16 | zod's string length: at least one and at most two units per character, exactly one each iff no character lies outside the Basic Multilingual Plane |
| DealDto.ValidatorLength | packages/dtos/src/deal.dto.ts:48-50 | `@MinLength`/`@MaxLength`'s length: at most one per character, exactly one each iff there is no variation selector |
| DealDto.TitleChecksAgree | packages/dtos/src/deal.dto.ts:16-50 | on titles without astral characters or variation selectors both lengths are the character count, so the schema's and the DTO's title checks agree |
| DealDto.AstralTitleSplitsChecks | packages/dtos/src/deal.dto.ts:16-50 | a one-emoji title meets zod's minimum of 2 and fails `@MinLength(2)` |
| DealDto.SchemaStricterThanDto | packages/dtos/src/deal.dto.ts:15-74 | a body the schema accepts and whose title passes the DTO's length check is accepted identically by the DTO; a body only the DTO accepts has amount 0 or a title the schema's length check refuses |
| DealDto.PlainTitleSchemaStricter | packages/dtos/src/deal.dto.ts:15-74 | for titles of ordinary characters, whatever the schema accepts the DTO accepts identically, and they differ only on amount 0 |
| DealDto.SchemaAdmitsEmojiTitle | packages/dtos/src/deal.dto.ts:15-74 | a create body titled with one emoji passes the schema and is refused by the DTO on its title |
| DealDto.DtoAdmitsZeroAmount | packages/dtos/src/deal.dto.ts:53-55 | a zero-amount deal is rejected by the schema and accepted by the DTO |
| DealDto.ParseUpdateDeal | packages/dtos/src/deal.dto.ts:24-31 | UpdateDealSchema: every field is optional; a supplied one must meet the create bounds (title counted in UTF-16 units); an accepted patch is returned unchanged |
| DealDto.ValidateUpdateDealDto | packages/dtos/src/deal.dto.ts:76-105 | UpdateDealDto: the same, with amount >= 0 and the title counted as class-validator counts it |
| DealDto.UpdateFieldsOptional | packages/dtos/src/deal.dto.ts:76-105 | the empty patch and a patch setting only `stage` are both accepted |
| DealDto.ParseStageChange | packages/dtos/src/deal.dto.ts:33-36 | accepted iff a stage is given; closeDate is optional and copied |
| DealDto.ValidateDealFiltersDto | packages/dtos/src/deal.dto.ts:116-138 | the filters are accepted iff the given amount bounds are >= 0, and then returned unchanged |
| DealLifecycle.ValidateStageTransition | apps/api/src/modules/deals/deals.service.ts:142-153 | passes iff the move is one of the four allowed edges; otherwise fails with "Invalid stage transition from X to Y" |
| DealLifecycle.StageMachineShape | apps/api/src/modules/deals/deals.service.ts:142-153 | every self-transition fails; CLOSED and LOST are terminal; CLOSED is reachable only from ACTIVE; allowed moves go strictly forward; a move passes iff its target is in the allowed list |
| DealLifecycle.CommissionAmount | apps/api/src/modules/deals/deals.service.ts:156 | for a non-negative amount and a rate in [0,100] the commission lies in [0, amount] |
| DealLifecycle.CommissionExamples | apps/api/src/modules/deals/deals.service.ts:156 | 50000 at 15% gives 7500; 10000 at 20% gives 2000 |
| DealLifecycle.LedgerAppend | apps/api/src/modules/deals/deals.service.ts:67 | appending entries of other deals changes neither a deal's commission sum nor its entry count |
| DealLifecycle.LedgerAppendOne | apps/api/src/modules/deals/deals.service.ts:67 | appending one entry adds its amount to its own deal's sum and nothing to any other deal's |
| DealLifecycle.NoEntriesNoCommission | apps/api/src/modules/deals/deals.service.ts:67 | a deal with no ledger entries has commission sum 0 |
| DealLifecycle.CreateDeal | apps/api/src/modules/deals/deals.service.ts:17-26 | a fresh id; the deal is stored under it with the caller's organization and the request's fields; the ledger is untouched |
| DealLifecycle.ApplyPatch | apps/api/src/modules/deals/deals.service.ts:86-89 | id, organization and creation time are kept; the update time is `now`; each supplied field overwrites |
| DealLifecycle.UpdateDeal | apps/api/src/modules/deals/deals.service.ts:77-92 | NotFound and no change iff the deal is missing or of another organization; otherwise only that deal is rewritten; the ledger is untouched |
| DealLifecycle.RemoveDeal | apps/api/src/modules/deals/deals.service.ts:128-140 | NotFound and no change iff the deal is missing or of another organization; otherwise exactly that deal is deleted |
| DealLifecycle.FindOne | apps/api/src/modules/deals/deals.service.ts:55-75 | found iff the deal is of the organization; isClosed iff the stage is CLOSED; commissionAmount is the sum of the deal's ledger amounts |
| DealLifecycle.CommissionEntries | apps/api/src/modules/deals/deals.service.ts:155-172 | one entry for the deal when its organization has a user, none otherwise |
| DealLifecycle.ChangeStage | apps/api/src/modules/deals/deals.service.ts:94-126 | an error leaves the store unchanged; members and the id counter are never changed; store validity is kept |
| DealLifecycle.ChangeStageTenantIsolation | apps/api/src/modules/deals/deals.service.ts:95-101 | a deal that is missing or of another organization gives NotFound and no change |
| DealLifecycle.ChangeStageRejectsInvalid | apps/api/src/modules/deals/deals.service.ts:104 | an invalid transition gives the transition error before any write: deal and ledger unchanged |
| DealLifecycle.ChangeStageWritesOnlyTarget | apps/api/src/modules/deals/deals.service.ts:115-118 | a valid move rewrites only the target deal, with the new stage and `now` as update time |
| DealLifecycle.NextCloseDate | apps/api/src/modules/deals/deals.service.ts:106-113 | a supplied close date wins; a move to CLOSED without one stamps `now`; any other move without one keeps the previous date |
| DealLifecycle.ChangeStageCloseDate | apps/api/src/modules/deals/deals.service.ts:106-113 | closeDate: `now` on a move to CLOSED without a date; a supplied date for any stage; otherwise the previous value |
| DealLifecycle.ChangeStageCommission | apps/api/src/modules/deals/deals.service.ts:121-123 | moves to ACTIVE or LOST append nothing; a move to CLOSED appends exactly one entry `{dealId, first user, amount*rate/100}`, or nothing when the organization has no user |
| DealLifecycle.CloseRaisesCommissionTotal | apps/api/src/modules/deals/deals.service.ts:121-123 | closing an ACTIVE deal raises its findOne commission sum by exactly amount*rate/100 |
| DealLifecycle.StepKeepsBudget | apps/api/src/modules/deals/deals.service.ts:94-126 | one changeStage call adds at most one entry for a deal, and only by consuming that deal's not-yet-closed status |
| DealLifecycle.AtMostOneCommission | apps/api/src/modules/deals/deals.service.ts:94-126 | over any sequence of changeStage calls, a deal gains at most one commission entry (an update in between can reopen it, see ReopenThenCloseCreditsTwice) |
| DealLifecycle.CreateBypassesMachine | apps/api/src/modules/deals/deals.service.ts:17-26 | create may start a deal directly in CLOSED, without a closeDate and without a commission entry |
| DealLifecycle.UpdateBypassesMachine | apps/api/src/modules/deals/deals.service.ts:77-92 | update may set a PROSPECT deal directly to CLOSED, an edge the machine forbids, without a commission |
| DealLifecycle.ReopenThenCloseCreditsTwice | apps/api/src/modules/deals/deals.service.ts:77-126 | update may set a CLOSED deal back to ACTIVE, and a changeStage to CLOSED then appends a second entry for the same deal, so the at-most-one bound covers changeStage calls only |
| DealLifecycle.ScenarioRequest | packages/dtos/src/deal.dto.ts:15-22 | the scenario's create body parses with the defaults filled in |
| DealLifecycle.MoveOutcome | apps/api/src/modules/deals/deals.service.ts:106-123 | the full result and next store of a valid move |
| DealLifecycle.ScenarioCreated | apps/api/src/modules/deals/deals.service.ts:17-26 | creating the scenario deal stores a PROSPECT deal of 10000 at 20% without a close date, owned by the organization, and leaves the ledger empty for it |
| DealLifecycle.ScenarioActivate | apps/api/src/modules/deals/deals.service.ts:94-126 | PROSPECT to ACTIVE without a close date changes only stage and updatedAt and writes no commission |
| DealLifecycle.ScenarioClose | apps/api/src/modules/deals/deals.service.ts:106-123 | ACTIVE to CLOSED on a 10000 / 20% deal sets closeDate to now, appends exactly one 2000 entry for the first member, and findOne then reports 2000 and isClosed |
| DealLifecycle.ScenarioLost | apps/api/src/modules/deals/deals.service.ts:142-152 | CLOSED to LOST is refused with "Invalid stage transition from CLOSED to LOST" and the store is unchanged |
| DealLifecycle.EndToEnd | apps/api/src/modules/deals/deals.service.ts:17-126 | create, then ACTIVE (no entry), then CLOSED (one 2000 entry, closeDate `now`); findOne then reports 2000 and isClosed; a later move to LOST is rejected without change |
| DealLifecycle.DealMatches | apps/api/src/modules/deals/deals.service.ts:29-45 | a matching deal belongs to the organization, has the requested stage and meets each non-zero amount bound; without filters exactly the organization's deals match |
| DealLifecycle.ZeroAmountBoundsIgnored | apps/api/src/modules/deals/deals.service.ts:35-39 | a minAmount or maxAmount of 0 filters exactly as if absent (truthiness test) |
| Deals.DealsService.constructor | apps/api/src/modules/deals/deals.service.ts:15 | an empty deal table and ledger over the given membership |
| Deals.DealsService.Create | apps/api/src/modules/deals/deals.service.ts:17-26 | the tables become exactly `CreateDeal` of the old tables |
| Deals.DealsService.FindAll | apps/api/src/modules/deals/deals.service.ts:28-53 | exactly the organization's deals passing the filters, each once, newest createdAt first |
| Deals.DealsService.FindOne | apps/api/src/modules/deals/deals.service.ts:55-75 | the result of `DealLifecycle.FindOne`, the ledger summed by a loop |
| Deals.DealsService.Update | apps/api/src/modules/deals/deals.service.ts:77-92 | the tables become exactly `UpdateDeal` of the old tables |
| Deals.DealsService.ChangeStage | apps/api/src/modules/deals/deals.service.ts:94-126 | the result and tables are exactly `DealLifecycle.ChangeStage` of the old tables, so all its lemmas apply |
| Deals.DealsService.CalculateCommission | apps/api/src/modules/deals/deals.service.ts:155-172 | the ledger grows by exactly `CommissionEntries` of the deal |
| Deals.DealsService.Remove | apps/api/src/modules/deals/deals.service.ts:128-140 | the tables become exactly `RemoveDeal` of the old tables |
| Users.ToUserResponse | apps/api/src/modules/users/users.service.ts:109-119 | copies id, name, email, role, organization and timestamps |
| Users.ResponseIndependentOfPassword | apps/api/src/modules/users/users.service.ts:109-119 | the response does not depend on the password hash |
| Users.CreateUser | apps/api/src/modules/users/users.service.ts:10-22 | a fresh id in the caller's organization; role defaults to USER; existing users are unchanged |
| Users.FindOneUser | apps/api/src/modules/users/users.service.ts:33-43 | found iff the user is in the organization; NotFound otherwise |
| Users.FindProfile | apps/api/src/modules/users/users.service.ts:45-62 | found iff the user is in the organization; carries the organization's id and name |
| Users.ApplyUserPatch | apps/api/src/modules/users/users.service.ts:82-87 | id, organization, hash and creation time are kept; supplied name, email and role overwrite |
| Users.UpdateUser | apps/api/src/modules/users/users.service.ts:64-88 | Forbidden for a non-admin, non-self caller, checked before the lookup; otherwise NotFound outside the organization; otherwise only the target is rewritten |
| Users.RemoveUser | apps/api/src/modules/users/users.service.ts:90-107 | self-removal is Forbidden whether or not the user exists; otherwise NotFound outside the organization; otherwise exactly that user is deleted |
| Users.UpdateChangesOnlyTarget | apps/api/src/modules/users/users.service.ts:82-87 | a successful update leaves every other user as it was and implies admin-or-self |
| Users.UpdateMayChangeOwnRole | apps/api/src/modules/users/users.service.ts:64-87 | a USER can update its own role to ADMIN (role is among the writable fields) |
| Users.RemoveSelfAlwaysForbidden | apps/api/src/modules/users/users.service.ts:92-94 | removing oneself always fails with Forbidden and no change |
| Users.RemoveThenNotFound | apps/api/src/modules/users/users.service.ts:96-106 | after a successful removal the user is no longer found |
| Users.UsersService.constructor | apps/api/src/modules/users/users.service.ts:8 | an empty user table over the given organization names |
| Users.UsersService.Create | apps/api/src/modules/users/users.service.ts:10-22 | the table becomes exactly `CreateUser` of the old one |
| Users.UsersService.FindAll | apps/api/src/modules/users/users.service.ts:24-31 | exactly the organization's users as responses, each once, newest createdAt first |
| Users.UsersService.FindOne | apps/api/src/modules/users/users.service.ts:33-43 | the result of `FindOneUser` |
| Users.UsersService.GetProfile | apps/api/src/modules/users/users.service.ts:45-62 | the result of `FindProfile` |
| Users.UsersService.Update | apps/api/src/modules/users/users.service.ts:64-88 | the result and table are exactly `UpdateUser` of the old table |
| Users.UsersService.Remove | apps/api/src/modules/users/users.service.ts:90-107 | the result and table are exactly `RemoveUser` of the old table |
| Calendar.ApplySlotPatch | apps/api/src/modules/calendar/calendar.service.ts:50-55 | id, owner and creation time are kept; each supplied field overwrites and the rest stay |
| Calendar.EmptyPatchKeepsSlot | apps/api/src/modules/calendar/calendar.service.ts:50-55 | an empty patch changes only the update time |
| Calendar.CalendarService.constructor | apps/api/src/modules/calendar/calendar.service.ts:7 | an empty slot table |
| Calendar.CalendarService.Create | apps/api/src/modules/calendar/calendar.service.ts:9-18 | a fresh slot owned by the caller with the requested times, even if end precedes start; isBooked defaults to false |
| Calendar.CalendarService.FindAll | apps/api/src/modules/calendar/calendar.service.ts:20-27 | exactly the caller's slots, each once, by start ascending |
| Calendar.CalendarService.FindOne | apps/api/src/modules/calendar/calendar.service.ts:29-39 | found iff the slot exists and is the caller's; NotFound otherwise |
| Calendar.CalendarService.Update | apps/api/src/modules/calendar/calendar.service.ts:41-56 | NotFound and no change unless the slot is the caller's; otherwise only that slot gets the patched fields |
| Calendar.CalendarService.Remove | apps/api/src/modules/calendar/calendar.service.ts:58-70 | NotFound and no change unless the slot is the caller's; otherwise exactly that slot is deleted |
| Commissions.Matching | apps/api/src/modules/commissions/commissions.service.ts:10-26 | an entry is kept iff its deal is the organization's and every given user, deal and date filter holds |
| Commissions.ToRows | apps/api/src/modules/commissions/commissions.service.ts:37-47 | one row per entry, copying the deal's title, amount and rate and the user's name |
| Commissions.FindAll | apps/api/src/modules/commissions/commissions.service.ts:9-48 | as many rows as matching entries; every row is the row of an entry of the organization passing every filter, every such entry has a row, newest createdAt first |
| Commissions.MatchingRows | apps/api/src/modules/commissions/commissions.service.ts:37-47 | rows built one for one from exactly the matching entries: every row is the row of a matching entry and every matching entry has a row |
| Commissions.SortedRows | apps/api/src/modules/commissions/commissions.service.ts:34 | ordering the matches keeps exactly the same entries and sorts them newest first |
| Commissions.NoOrgDeal | apps/api/src/modules/commissions/commissions.service.ts:60-62 | a zero deal count means no deal of the organization |
| Commissions.NoDealsNoCommissions | apps/api/src/modules/commissions/commissions.service.ts:84-90 | without deals of the organization every commission sum is 0 |
| Commissions.SummaryZeroDefaults | apps/api/src/modules/commissions/commissions.service.ts:84-90 | an organization without deals gets 0 for every summary figure |
| Commissions.NoOrgDealCount | apps/api/src/modules/commissions/commissions.service.ts:60-62 | no deal of the organization means a zero deal count |
| Commissions.GetSummary | apps/api/src/modules/commissions/commissions.service.ts:50-91 | totalDeals is the organization's deal count; total, month and year figures are the sums of the entries on its deals created since no bound, the month start and the year start; the average rate is the mean of its deals' rates, 0 without deals |
| Commissions.SummaryWindows | apps/api/src/modules/commissions/commissions.service.ts:51-77 | with non-negative entries, 0 <= this month <= this year <= total |
| Commissions.RateSumBounds | apps/api/src/modules/commissions/commissions.service.ts:79-82 | the summed rates lie between 0 and 100 times the deal count |
| Commissions.MeanRateBounds | apps/api/src/modules/commissions/commissions.service.ts:79-82 | such a mean lies in [0,100] |
| Commissions.SummaryRateBounds | apps/api/src/modules/commissions/commissions.service.ts:79-82 | the summary's average rate is a valid rate |
| Commissions.OrgUsers | apps/api/src/modules/commissions/commissions.service.ts:94-105 | exactly the organization's users, without duplicates when ids are unique |
| Commissions.UserRows | apps/api/src/modules/commissions/commissions.service.ts:105-119 | one row per user, in order |
| Commissions.GetByUser | apps/api/src/modules/commissions/commissions.service.ts:93-120 | one row per user of the organization, entry-less users included; total and count are the user's ledger sum and count; the average rate is the sum of the rates of the deals behind the user's entries divided by their count, and 0 without entries |
| Commissions.NoEntriesNoTotal | apps/api/src/modules/commissions/commissions.service.ts:106 | a user without entries has total 0 |
| Commissions.UserRateSumBounds | apps/api/src/modules/commissions/commissions.service.ts:108-110 | a user's summed rates lie between 0 and 100 times the user's entry count |
| Commissions.ByUserRateBounds | apps/api/src/modules/commissions/commissions.service.ts:108-110 | every per-user average rate is a valid rate |
| Commissions.AmountForUsersAdd | apps/api/src/modules/commissions/commissions.service.ts:106 | adding a user adds exactly that user's total |
| Commissions.UserRowsPartition | apps/api/src/modules/commissions/commissions.service.ts:106 | the rows' totals sum to the ledger amount credited to those users |
| Commissions.NoUsersNoAmount | apps/api/src/modules/commissions/commissions.service.ts:106 | no users, no amount |
| Commissions.ByUserPartition | apps/api/src/modules/commissions/commissions.service.ts:93-120 | the per-user totals add up to all commission credited to the organization's users |
| Commissions.UserTotalAppend | apps/api/src/modules/commissions/commissions.service.ts:106 | a new entry raises only its own user's total, by its amount |
| Commissions.ClosingCreditsFirstMember | apps/api/src/modules/deals/deals.service.ts:155-172 | closing a deal raises the first member's getByUser total by the commission and leaves everyone else's unchanged |
| Kpis.StagesPartitionDeals | apps/api/src/modules/kpis/kpis.service.ts:15-49 | the four stage counts add up to the organization's deal count |
| Kpis.NoDealsNoRevenue | apps/api/src/modules/kpis/kpis.service.ts:62 | without deals the revenue is 0 |
| Kpis.Summary | apps/api/src/modules/kpis/kpis.service.ts:15-67 | the deal count, revenue and commission total of the organization; average deal size and rate are revenue and rate sum over the count, and the conversion rate is the CLOSED count over the count times 100; all three are 0 without deals |
| Kpis.SummaryZeroDefaults | apps/api/src/modules/kpis/kpis.service.ts:59-67 | an organization without deals gets 0 for every summary figure, the divisions included |
| Kpis.PercentageBounds | apps/api/src/modules/kpis/kpis.service.ts:66-72 | a guarded share of a part of the total lies in [0,100] |
| Kpis.ConversionBounds | apps/api/src/modules/kpis/kpis.service.ts:39-66 | the conversion rate lies in [0,100] |
| Kpis.StageRowsContents | apps/api/src/modules/kpis/kpis.service.ts:68-73 | every row is a stage with deals, with that stage's count, amount and share, and every such stage has a row |
| Kpis.StageRowsStages | apps/api/src/modules/kpis/kpis.service.ts:44-49 | every row's stage is one of the listed stages |
| Kpis.StageRowsOrdered | apps/api/src/modules/kpis/kpis.service.ts:44-49 | rows follow the order of the listed stages |
| Kpis.ListedStageRows | apps/api/src/modules/kpis/kpis.service.ts:44-49 | over a list naming every stage in enum order, a row exists for a stage iff it has deals, each row carries its stage's figures, and no stage appears twice |
| Kpis.Breakdown | apps/api/src/modules/kpis/kpis.service.ts:44-73 | a row exactly for each stage with deals, at most one per stage, with count, summed amount and guarded percentage |
| Kpis.PercentageAdd | apps/api/src/modules/kpis/kpis.service.ts:72 | shares of the same total add |
| Kpis.StageRowsSums | apps/api/src/modules/kpis/kpis.service.ts:68-73 | the rows' counts and percentages sum to those of the listed stages |
| Kpis.CountOverStages | apps/api/src/modules/kpis/kpis.service.ts:44-49 | the counts over the four stages are the four stage counts |
| Kpis.BreakdownTotals | apps/api/src/modules/kpis/kpis.service.ts:68-73 | the breakdown counts sum to totalDeals and, when there are deals, the percentages to 100 |
| Kpis.PercentageWhole | apps/api/src/modules/kpis/kpis.service.ts:72 | the whole is 100 percent |
| Kpis.ConversionIsClosedShare | apps/api/src/modules/kpis/kpis.service.ts:66-72 | the conversion rate equals the CLOSED row's percentage, and is 0 when there is no CLOSED row |
| Kpis.OrgAudit | apps/api/src/modules/kpis/kpis.service.ts:52-54 | exactly the organization's audit entries |
| Kpis.LowerAscii | apps/api/src/modules/kpis/kpis.service.ts:79 | `toLowerCase` character by character |
| Kpis.ReplaceFirst | apps/api/src/modules/kpis/kpis.service.ts:79 | `replace` keeps the length |
| Kpis.ReplaceFirstAbsent | apps/api/src/modules/kpis/kpis.service.ts:79 | without an underscore the action is unchanged |
| Kpis.ReplaceFirstAt | apps/api/src/modules/kpis/kpis.service.ts:79 | only the first occurrence is replaced; everything after it, later underscores included, is kept |
| Kpis.FirstIndex | apps/api/src/modules/kpis/kpis.service.ts:79 | the position of the first occurrence |
| Kpis.ReplaceFirstRemovesOne | apps/api/src/modules/kpis/kpis.service.ts:79 | the rewrite removes exactly one underscore |
| Kpis.ReplaceFirstPointwise | apps/api/src/modules/kpis/kpis.service.ts:79 | character by character, only the first occurrence of the pattern is replaced |
| Kpis.DescribeUserLoggedIn | apps/api/src/modules/kpis/kpis.service.ts:79 | USER_LOGGED_IN is described as "<name> performed user logged_in" |
| Kpis.Describe | apps/api/src/modules/kpis/kpis.service.ts:79 | "<name> performed " followed by the action's wire name, lower-cased, with only its first '_' turned into a space |
| Kpis.ToActivity | apps/api/src/modules/kpis/kpis.service.ts:75-81 | an activity keeps the entry's id, action name, entity and time, and describes it with the name of the user who acted |
| Kpis.ToActivities | apps/api/src/modules/kpis/kpis.service.ts:75-81 | one activity per audit entry, in order |
| Kpis.NewestAudit | apps/api/src/modules/kpis/kpis.service.ts:52-56 | the organization's entries, all of them, newest first |
| Kpis.RecentActivity | apps/api/src/modules/kpis/kpis.service.ts:52-57 | min(10, number of the organization's entries) activities |
| Kpis.RecentActivityOrdered | apps/api/src/modules/kpis/kpis.service.ts:52-81 | every activity describes an entry of the organization, newest first |
| Kpis.RecentActivityIsNewest | apps/api/src/modules/kpis/kpis.service.ts:55-56 | an entry left out is no newer than any entry shown |
| Kpis.GetDashboard | apps/api/src/modules/kpis/kpis.service.ts:9-83 | revenueTrend is empty; at most 10 activities; breakdown counts sum to totalDeals and percentages to 100; conversion rate in [0,100] |

## Left out

- Persistence, HTTP and dependency injection are not modelled: Prisma, the controllers, guards and decorators, and the JWT/auth layer. A query is an operation on the in-memory tables, and each service call is atomic and sequential. Concurrent `changeStage` calls (a read-modify-write race) are not modelled.
- Password hashing (bcrypt) is a foreign call. `Users.CreateUser` takes the hash as a parameter.
- The clock is a `now` parameter. The start of the month and of the year in getSummary are parameters too, not computed from a calendar.
- Money is exact `real`, so JavaScript double rounding in `amount * commissionRate / 100` and in the sums and means is not reproduced.
- Dates are integer times. The ISO-string conversion in `mapToDealResponse`, `mapToCalendarSlotResponse` and the activity's `createdAt` is the identity here. Parsing of date filter strings, and rejection of malformed ones, is not modelled.
- An empty-string `closeDate` (falsy in the source) is modelled as an absent one.
- Zod and class-validator report every failed field. The model reports the first failed check only, as `Invalid(field)`. Email and datetime format checks are library calls and are not modelled.
- The Prisma schema is not part of this model. Column defaults are taken to be the create-schema defaults. `@updatedAt` is taken to set the update time to `now` on every write. The referential action on delete (commission entries of a deleted deal, slots of a deleted user) is not modelled.
- Database order:
  - The organization's "first user" in `calculateCommission` (a `findFirst` without `orderBy`) is the head of that organization's member list.
  - `getByUser` rows follow the user table's order.
  - Ties in `orderBy` are broken arbitrarily.
  - The order of `groupBy` rows, unspecified in the source, is taken to be the enum order.
- `Kpis.GetDashboard`: the `filters` argument is ignored, as in the source, and `revenueTrend` is always empty.
- DealDto.SchemaStricterThanDto: the schema does not accept only what the DTO accepts. zod counts a title in UTF-16 code units; class-validator counts characters and skips variation selectors. So a title with characters outside the Basic Multilingual Plane or with variation selectors can pass one check and fail the other. `DealDto.SchemaAdmitsEmojiTitle` shows one such body. The inclusion is proved for ordinary titles only (`DealDto.PlainTitleSchemaStricter`).
- DealDto.ValidatorLength: follows validator.js's `isLength`, which subtracts surrogate pairs and U+FE0E/U+FE0F from the UTF-16 length. The library version is not pinned here.
- Users.CreateUser: the request, `password` included, is spread into the row written (users.service.ts:13-19). The Prisma schema is not part of this model. The model assumes the write succeeds. If the user table has no `password` column, the source's create fails on every call with Prisma's unknown-argument error. The other writers of users send only `passwordHash`, which suggests it has none. The model does not capture that failure.
- DealLifecycle.ApplyPatch: an explicit `null` in an update body passes `@IsOptional()` and reaches Prisma. Prisma clears `closeDate` or `description` and rejects a null `title` or `amount`. A patch field here is present or absent, so a clear is not expressible and `null` is not modelled.
- Users.ApplyUserPatch: an explicit `null` for name, email or role passes `@IsOptional()` and is not modelled; a patch field is present or absent.
- Calendar.ApplySlotPatch: an explicit `null` for a slot field passes `@IsOptional()` and is not modelled; a patch field is present or absent.
- `Users.UpdateUser`: when the caller's own row is missing, the source dereferences null. The model returns an internal error.
