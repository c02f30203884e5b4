# Verified model of the operations core

This project models the deterministic core of a construction-operations application and proves
properties of it with Dafny 4.11. `dafny verify dfyconfig.toml` checks everything.

Money is exact: cents, percents and weights are real numbers, and the places where the program
rounds (`Math.round`, halves going up) are written out. Logs and files are sequences and strings;
time stamps are integers. Code that updates things in place is modelled by methods and classes
whose contracts equate their result with a specification function; the properties are lemmas about
those functions. Beside them stand lemmas that say branch by branch what such a function gives, in
terms of the inputs and without its helpers (`AmountsMeaning`, `BlockedIff`, `AltitudeMeans`,
`HeaderIsFirstCreation`, `StoredRow`, `SurfacingMeans`, `KeywordScoreMeans` and the like).

| file | what it models |
|---|---|
| `Sequences.dfy`, `Text.dfy`, `Rounding.dfy` | `filter`, the stable `sort`, the insertion-ordered `Map`; `trim`, `split`, `join`, `includes`, `replace`; `Math.round` |
| `PaymentMilestones.dfy`, `PaymentLaws.dfy` | the payment-schedule calculator and its arithmetic |
| `PaymentValidation.dfy`, `PaymentTheorems.dfy` | the schedule validator, and calculator and validator together |
| `PaymentMeaning.dfy` | amounts, issues, warnings and verdict said in plain sums and numbers |
| `Projections.dfy`, `ProjectionLaws.dfy` | the per-project read model as a fold over the event log |
| `ProjectionCache.dfy`, `ProjectionCacheLaws.dfy` | the request handlers as interleaved steps: append, read the log, stage, rename |
| `EventStore.dfy` | the JSON-lines event store and its file format |
| `EventLogs.dfy`, `AuditedLogs.dfy` | the in-memory log, the log on a file, reopening, the read-audited wrapper |
| `KbIngestion.dfy`, `KbLaws.dfy` | batch ingestion and review of tier-2 cost rows |
| `RelayCards.dfy` | drift classification and the 24-hour rule for relay cards |
| `PolicyGate.dfy`, `PolicyGateLaws.dfy`, `PolicyGateDecision.dfy` | the altitude policy gate and its audit-trail check |
| `Attention.dfy` | the home attention sections |
| `Blend.dfy` | operating-gradient blends |
| `RateCard.dfy` | text normalisation, keyword scores and the rate-card match |

Where the program does less than one would hope, the model keeps the program's behaviour and a
lemma gives the witness or the exact condition:

* Recalculating a percent-only schedule can make the last share negative, and such a schedule is
  then refused (`RecalculatedCanBeNegative`). It is allowed exactly when the rounded shares other
  than the residual's do not exceed the contract (`RecalculatedIsAllowed`, `NonNegativeIff`).
* Recalculation never rewrites a fixed milestone and looks amounts up by id, so a second calculation
  reports a change exactly for a fixed milestone whose stored cents are stale and for a percent
  milestone whose last namesake has another amount (`SecondPassReportsNoChange`).
* Overlapping handlers can leave a projection file behind the log (`LostUpdate`); exactly when is
  `VisibleFileCurrentIff`.
* A batch that is in order but whose event is not writes its rows and then fails
  (`FailedCallLeavesFile`, with the call `NamelessActorLeavesRows`). A row that was approved and
  later rejected keeps its approval flags (`FlagsTellHistory`). A source reference of white space
  passes the check for an empty one and is stored empty (`StoredRow`).
* The altitude a model suggests can reach the gate's verdict, through the compact-prompt rule or
  through an unidentified packet; `TrustBoundary` is the exact condition under which it cannot.
* Negative weights let a blend leave the range of the scores (`NegativeWeightsEscape`); a mix never
  does exactly when no archetype weighs less than nothing in sum (`StaysInRangeIff`). A
  maximum rule reacts to an archetype of any weight, even none (`MaxIgnoresWeights`).

## Model

| member | source | states |
|---|---|---|
| `PaymentMilestones.ComputePaymentScheduleAmounts` | src/payments/paymentMilestones.ts:152-195 | the calculator, working through shared records and a filtered and sorted view of them, returns for every milestone in input order its id, terms and stored amount, whether the amount changed, and an amount within half a cent of 100 times its dollars if it is fixed, or of its share if it is a percent milestone that does not take the residual |
| `PaymentMilestones.Reconcile` | src/payments/paymentMilestones.ts:161-184 | pushing the residual onto the last record of the sorted percent view changes the record at the residual index of the list and no other |
| `PaymentMilestones.ResidualIndex` | src/payments/paymentMilestones.ts:164-184 | the residual goes to the percent share of greatest sort order, the latest in the input on ties; there is none exactly when there is no percent share |
| `PaymentMilestones.LastEntry` | src/payments/paymentMilestones.ts:164-184 | the stable sort of the filtered view ends with exactly that record |
| `Rounding.Round` | src/payments/paymentMilestones.ts:409-417 | rounding to cents is the nearest integer, halves going up |
| `PaymentLaws.Conservation` | src/payments/paymentMilestones.ts:152-195 | whenever the schedule reconciles (percents total 100 within EPSILON, no fixed cents), the counted amounts add up to the contract total exactly |
| `PaymentLaws.OnlyLastShareMoves` | src/payments/paymentMilestones.ts:152-195 | at most one amount differs from the milestone's own rounded share: the latest percent share of greatest sort order, by exactly the residual |
| `PaymentLaws.ResidualBound` | src/payments/paymentMilestones.ts:174-184 | the residual is at most half a cent per percent share plus what EPSILON allows |
| `PaymentLaws.SharesRound` | src/payments/paymentMilestones.ts:409-417 | the rounded shares miss the exact share of their percent total by at most half a cent each |
| `PaymentLaws.WholeCents` | src/payments/paymentMilestones.ts:152-195 | a whole contract total gives whole cents everywhere |
| `PaymentLaws.AmountsIgnoreStored` | src/payments/paymentMilestones.ts:152-195 | the amounts depend on the terms only, not on the stored amounts |
| `PaymentValidation.ValidatePaymentSchedule` | src/payments/paymentMilestones.ts:45-129 | the validator blocks exactly the issues that are due, in the order of the passes and as often as they are due, raises the due warnings likewise, pairs every warning with its acknowledgment and allows exactly when nothing is blocked |
| `PaymentValidation.ValidateMilestones` | src/payments/paymentMilestones.ts:68-108 | the loop over the milestones appends, milestone by milestone, exactly the shape, parent, duplicate-id and stale-amount issues and the acknowledgment warnings |
| `PaymentValidation.ValidatePercentAllocation` | src/payments/paymentMilestones.ts:236-263 | a percent issue is blocked exactly when percent shares are present and miss 100 by more than EPSILON |
| `PaymentValidation.ValidateComputedScheduleTotal` | src/payments/paymentMilestones.ts:265-288 | a total issue is blocked exactly when the looked-up amounts of the counted milestones miss the contract total |
| `PaymentValidation.ValidateDepositCapRule` | src/payments/paymentMilestones.ts:319-381 | a deposit-cap rule adds exactly its issue and its warning; `PaymentMeaning.RuleIssueMeans` says when and what they are |
| `PaymentValidation.ValidateJurisdictionRules` | src/payments/paymentMilestones.ts:290-317 | the loop over the rules appends, rule by rule, exactly the issues and warnings of each |
| `PaymentValidation.ValidateContractTotalChange` | src/payments/paymentMilestones.ts:383-407 | a changed contract total warns |
| `PaymentValidation.ValidateMilestoneShape` | src/payments/paymentMilestones.ts:197-234 | a malformed milestone or one with a wrong parent is blocked |
| `PaymentValidation.ByIdLooksUp` | src/payments/paymentMilestones.ts:55-57 | the id-keyed map of amounts gives every milestone the amount of the last one that shares its id |
| `PaymentValidation.IssueMeans` | src/payments/paymentMilestones.ts:45-129 | of amounts given per milestone: an issue is due exactly when the total, some milestone, the percents, the schedule or some rule gives it |
| `PaymentValidation.MilestoneIssueMeans` | src/payments/paymentMilestones.ts:68-97 | a milestone gives exactly the issues of a wrong parent, bad fields, an id used before and stored cents other than the looked-up ones |
| `PaymentTheorems.AllowedIffAcceptable` | src/payments/paymentMilestones.ts:45-129 | a schedule is allowed if and only if it is acceptable, said of every milestone's own amount without any lookup |
| `PaymentTheorems.AllowedPromises` | src/payments/paymentMilestones.ts:45-129 | soundness: distinct ids, stored amounts equal to the computed ones and non-negative, counted cents exactly the positive total, deposits within both caps |
| `PaymentTheorems.MixedScheduleBound` | src/payments/paymentMilestones.ts:236-288 | an allowed schedule with percent shares has fewer fixed cents than rounding and EPSILON can hide |
| `PaymentTheorems.RecalculateIdempotent` | src/payments/paymentMilestones.ts:18-43 | recalculating twice is recalculating once, even with repeated ids |
| `PaymentTheorems.SecondPassReportsNoChange` | src/payments/paymentMilestones.ts:18-43 | after one pass of any schedule a second calculation reports a change exactly for a fixed milestone whose stored cents are stale and for a percent milestone whose last namesake has another amount; with distinct ids no percent milestone has one |
| `PaymentTheorems.RecalculatedIsAllowed` | src/payments/paymentMilestones.ts:18-43 | completeness: a percent-only schedule, once recalculated, is allowed exactly when no recalculated amount is negative |
| `PaymentTheorems.NonNegativeIff` | src/payments/paymentMilestones.ts:152-195 | which holds exactly when the rounded shares other than the residual's do not exceed the contract |
| `PaymentTheorems.RecalculatedCanBeNegative` | src/payments/paymentMilestones.ts:174-184 | a percent-only schedule of one cent whose residual makes the last share negative, and which is refused once recalculated |
| `PaymentMeaning.AmountsMeaning` | src/payments/paymentMilestones.ts:152-195 | without the calculator: a fixed milestone gets the whole cents nearest to 100 times its dollars, halves up; a percent milestone the whole cents nearest to total times percent over 100, but for the residual of a schedule that reconciles |
| `PaymentMeaning.ReconciledIff` | src/payments/paymentMilestones.ts:161-184 | a schedule reconciles exactly when some percent share counts, the percents sum to between 99.999999 and 100.000001 and the fixed shares to no cent; its counted cents then sum to the total |
| `PaymentMeaning.RuleIssueMeans` | src/payments/paymentMilestones.ts:319-381 | a rule blocks nothing exactly when it does not concern the schedule or the deposits stay within both its amount and its percentage of the contract rounded to the nearest cent; the issue carries the lesser of the two |
| `PaymentMeaning.BlockedIff` | src/payments/paymentMilestones.ts:45-129 | exactly which issues are blocked, each with its condition and the numbers it carries, in plain sums |
| `PaymentMeaning.IssuesInOrder` | src/payments/paymentMilestones.ts:59-118 | issues stand in the order of the passes |
| `PaymentMeaning.MilestoneIssuesInOrder` | src/payments/paymentMilestones.ts:68-97 | each of the four checks blocks a milestone at most once, in their order |
| `PaymentMeaning.AllowedIffReady` | src/payments/paymentMilestones.ts:45-129 | a schedule is allowed exactly when it is ready, said in plain sums: positive whole total, good fields, own ids, stored cents computed, percents at 100, counted cents the total, deposits within both caps |
| `PaymentMeaning.WarnedIff` | src/payments/paymentMilestones.ts:45-129 | exactly which warnings are raised, each with its condition and what it carries |
| `PaymentMeaning.AcknowledgmentMeans` | src/payments/paymentMilestones.ts:98-108 | a warning asks for the acknowledgment of its milestone, of its rule and jurisdiction, or of the whole schedule |
| `PaymentMeaning.RecalculatedMeans` | src/payments/paymentMilestones.ts:18-43 | recalculating stores the amount of the last namesake and the time in a percent milestone, and changes nothing else |
| `Projections.RebuildProjectProjection` | src/persistence/projections.ts:126-258 | the rebuild loop returns the declarative projection of the log, or nothing when the project was never created |
| `Projections.FoldEvents` | src/persistence/projections.ts:145-236 | after every event the three maps, the actuals and the last activity are those of the log read so far |
| `Projections.ApplyEvent` | src/persistence/projections.ts:145-236 | one event updates the maps and counters as its kind demands, overwriting and resetting included |
| `Projections.FindCreation` | src/persistence/projections.ts:130-133 | the first creation event, or none |
| `ProjectionLaws.ProjectionLists` | src/persistence/projections.ts:238-257 | the three lists show each capture, scaffold and decision of the log exactly once, as sorted permutations of their maps |
| `ProjectionLaws.TiesKeepFirstAppearance` | src/persistence/projections.ts:238-257 | summaries of the same time are listed in the order in which their ids first appeared |
| `ProjectionLaws.CaptureMeaning` | src/persistence/projections.ts:150-173 | a capture shows, field by field, its last recording, the first 200 characters of its transcript, and the last review after it |
| `ProjectionLaws.ScaffoldMeaning` | src/persistence/projections.ts:174-198 | a scaffold shows, field by field, its last generation, counts exactly the refinements after it and is dated by the last of them |
| `ProjectionLaws.DecisionMeaning` | src/persistence/projections.ts:199-222 | a decision shows, field by field, its last draft, and is approved exactly when an approval follows it, with the approver and time of the last one |
| `ProjectionLaws.ActualsMeaning` | src/persistence/projections.ts:223-229 | actuals are the exact count and sum of the recorded ones and date the last of them |
| `ProjectionLaws.ProjectionHeader` | src/persistence/projections.ts:130-148 | a projection exists exactly when the log creates the project; it counts every event and dates the latest time stamp |
| `ProjectionLaws.HeaderIsFirstCreation` | src/persistence/projections.ts:238-257 | project id, tenant, project and client name, jurisdiction, archetype hint and creation time are each that of the first creation event |
| `ProjectionLaws.ListsAreInTimeOrder` | src/persistence/projections.ts:238-257 | the three lists stand in order of capture, generation and drafting time |
| `ProjectionCache.EveryInterleaving` | scripts/serve-v15-vertical-slice.ts:470-557 | in every interleaving of handler steps, every handler and every visible file keep the invariant |
| `ProjectionCache.FileCurrentIff` | src/persistence/projections.ts:345-357 | a file is current exactly when no event of its project was appended after its writer read the log |
| `ProjectionCache.AppendKeepsInv` | scripts/serve-v15-vertical-slice.ts:558-700 | an append keeps every snapshot's meaning |
| `ProjectionCache.RenameKeepsInv` | src/persistence/projections.ts:271-286 | a rename keeps the invariant, makes what the writer staged visible and leaves the other files alone |
| `ProjectionCache.SnapshotStays` | scripts/serve-v15-vertical-slice.ts:470-557 | a handler reads the whole log at one step, and no later step of anybody changes what it has read |
| `ProjectionCache.SerialIsCurrent` | scripts/serve-v15-vertical-slice.ts:1257-1300 | when handlers do not overlap, every file is the rebuild of the whole log whenever none is at work |
| `ProjectionCacheLaws.VisibleFile` | src/persistence/projections.ts:345-357 | with the real projection: a visible file is the projection of a prefix of the log restricted to its project, and the prefix holds the writing handler's own events |
| `ProjectionCacheLaws.VisibleFileCurrentIff` | src/persistence/projections.ts:345-357 | with the real projection: exactly when a visible file is up to date |
| `ProjectionCacheLaws.SerialCacheIsExact` | scripts/serve-v15-vertical-slice.ts:1257-1300 | with the real projection: handlers that do not overlap keep the cache exact |
| `ProjectionCacheLaws.LostUpdate` | src/persistence/projections.ts:345-357 | a schedule of two handlers after which the file lacks the second event |
| `EventStore.PersistenceEventStore.Append` | src/persistence/eventStore.ts:142-158 | a valid event extends a newline-terminated store by exactly itself; an invalid one changes nothing |
| `EventStore.PersistenceEventStore.ReadAll` | src/persistence/eventStore.ts:160-197 | reading yields the valid events of the file in order, and none for a missing file |
| `EventStore.PersistenceEventStore.ReadWhere` | src/persistence/eventStore.ts:199-211 | the filtered reads are the filter of the events |
| `EventStore.PersistenceEventStore.Tail` | src/persistence/eventStore.ts:213-222 | a negative count is an error; otherwise the last events, newest first |
| `EventStore.PersistenceEventStore.Rewrite` | src/persistence/eventStore.ts:260-278 | a rewrite with valid events replaces the store by exactly them, one line each; one invalid event and nothing is written |
| `EventStore.AppendRoundTrip` | src/persistence/eventStore.ts:142-197 | reading after an append to a newline-terminated file gives the old events and the new one |
| `EventStore.AppendToAny` | src/persistence/eventStore.ts:142-197 | on a torn file the complete lines stay, and the new line is read together with the torn rest |
| `EventStore.ReadsThroughGarbage` | src/persistence/eventStore.ts:160-197 | whatever lines lie between, a file reads as exactly its valid events in order |
| `EventStore.PaddedEventReads` | src/persistence/eventStore.ts:160-197 | an event is read through white space on either side of it |
| `EventStore.RewriteRoundTrip` | src/persistence/eventStore.ts:260-278 | rewriting and reading back is the identity on valid events, and the file ends in a newline |
| `EventLogs.MemoryEventLog.Perform` | src/blackboard/eventLog.ts:21-61 | every call answers and changes the log as the specification does |
| `EventLogs.JsonlEventLog.Perform` | src/blackboard/fileEventLog.ts:10-51 | so does the log on a file, which keeps file and memory in step; an append adds exactly the line of its event to the file and no other call touches it |
| `EventLogs.JsonlEventLog.AppendEvent` | src/blackboard/fileEventLog.ts:24-31 | an append adds the event to file and memory alike and notifies the subscribers of the time |
| `EventLogs.OpenJsonlEventLog` | src/blackboard/fileEventLog.ts:53-73 | opening loads exactly the file's events in order, or fails on the first malformed line |
| `EventLogs.LoadAfterAppend` | src/blackboard/fileEventLog.ts:53-73 | a file that loads still loads after an append, with the event at the end, exactly when the event is event-like |
| `EventLogs.FirstWithIdIsEarliest` | src/blackboard/eventLog.ts:41-43 | a query by id finds the earliest event of that id, and nothing only if there is none |
| `EventLogs.WindowIsTail` | src/blackboard/eventLog.ts:25-32 | a window is a tail of the events in range: the last `limit`, all without a limit, all but the first ones for a negative limit |
| `EventLogs.QueriesMean` | src/blackboard/eventLog.ts:41-56 | a query lists exactly the events of the entity or of the correlation, or all, in the order of the log |
| `EventLogs.WindowsMean` | src/blackboard/eventLog.ts:25-56 | a bounded query answers with the tail of what the unbounded one lists within the bounds |
| `EventLogs.SubscriptionsMean` | src/blackboard/eventLog.ts:34-61 | an append notifies those subscribed at the time; subscribing twice is subscribing once; unsubscribing removes the one handler |
| `EventLogs.LineMeans` | src/blackboard/fileEventLog.ts:53-73 | a line of white space is skipped, an event-like one loads its event, any other fails |
| `EventLogs.ForeignLineEndsLoad` | src/blackboard/fileEventLog.ts:53-73 | a file with lines ended by a return and a newline loads like one ended by newlines |
| `EventLogs.LogIsItsAppends` | src/blackboard/eventLog.ts:21-61 | over every run a log holds what it held and then exactly the appended events in order |
| `AuditedLogs.Call` | src/blackboard/eventLog.ts:12-19 | either log behind the interface answers as the specification does |
| `AuditedLogs.ReadAuditLog.Record` | src/audit/readLog.ts:60-86 | an entry with a non-negative count is added, any other refused |
| `AuditedLogs.AuditedEventLog.Perform` | src/audit/readLog.ts:88-137 | the wrapper answers as the log does; each of the four reads adds one entry with its target and the number of events returned, any other call none |
| `AuditedLogs.RunLog` | src/blackboard/fileEventLog.ts:10-51 | over every run of calls either log gives the specification's answers, hence equal ones |
| `AuditedLogs.RunAudited` | src/audit/readLog.ts:88-137 | over every run the wrapper gives the same answers and leaves exactly the trail of the run |
| `AuditedLogs.TrailMatchesReads` | src/audit/readLog.ts:88-137 | the trail has one entry per read, in the order of the reads, naming actor and target |
| `AuditedLogs.SubscribersDoNotMatter` | src/blackboard/fileEventLog.ts:44-49 | subscriptions never influence an answer to a query |
| `AuditedLogs.OpenAndRun` | src/blackboard/fileEventLog.ts:10-73 | an opened log answers from the file's events and leaves a file that says what its memory says |
| `AuditedLogs.RunReopened` | src/blackboard/fileEventLog.ts:10-73 | whatever events the file held at first: a log reopened from its file at any point answers as one that was never closed; it opens exactly when the file loads and reopens exactly when all its events are event-like |
| `KbIngestion.KbStore.IngestRows` | src/persistence/kbIngestion.ts:252-353 | ingestion has exactly the outcome and the effect of the specified step |
| `KbIngestion.BatchLoop` | src/persistence/kbIngestion.ts:282-309 | the loop over the batch, with its two id sets, builds exactly the batch's rows and finds a fault exactly when one is there |
| `KbIngestion.FirstFitMeans` | src/persistence/kbIngestion.ts:282-313 | no fault is found exactly when every row is fit, no id repeats in the batch and none is taken |
| `KbIngestion.KbStore.CollectIds` | src/persistence/kbIngestion.ts:242-250 | the ids in use are the non-empty ids of the file |
| `KbIngestion.KbStore.ReviewRow` | src/persistence/kbIngestion.ts:375-417 | a review has exactly the outcome and the effect of the specified step |
| `KbIngestion.RowIndex` | src/persistence/kbIngestion.ts:380-411 | a review finds the first row with its row and ingestion ids |
| `KbLaws.StoredRow` | src/persistence/kbIngestion.ts:199-240 | a stored row carries its ingestion, its rank and the three prices of its input each in its own place, waits for the founder at internal pricing, was never reviewed, and holds the texts of its input without the white space around them; its source reference is empty exactly when the given one is blank |
| `KbLaws.StoredId` | src/persistence/kbIngestion.ts:285-291 | a row is stored under the id it was given, trimmed, or under its ingestion and its place in the batch in decimal |
| `KbLaws.MadeIdsDiffer` | src/persistence/kbIngestion.ts:285-291 | ids made for two rows of a batch never clash |
| `KbLaws.AcceptedIff` | src/persistence/kbIngestion.ts:252-313 | exactly which batches are written: not empty, rank 1 to 7, every row with its four texts, some price and none negative, ids distinct and free |
| `KbLaws.IngestionAddsRows` | src/persistence/kbIngestion.ts:315-330 | an ingestion that succeeds puts one row for every input behind the old ones |
| `KbLaws.IngestionAddsEvent` | src/persistence/kbIngestion.ts:331-353 | and one event behind the old ones, with the event id, tenant, actor, time, ingestion, source file, rank and number of inputs of the call |
| `KbLaws.HalfDoneIff` | src/persistence/kbIngestion.ts:315-353 | an accepted batch leaves rows without an event exactly when the ingestion id, event id, source file or actor id is empty, the role or tenant none of the known ones, or the time not ISO 8601 |
| `KbLaws.TimeIff` | src/persistence/events.ts:858-859 | which times are ISO 8601: date and time, at most nine decimals, offset |
| `KbLaws.ReviewDoes` | src/persistence/kbIngestion.ts:375-417 | what each review action does to the earliest row of both ids, and which fields it leaves |
| `KbLaws.ReviewRefusedIff` | src/persistence/kbIngestion.ts:380-411 | a review is refused exactly when no row has both ids |
| `KbLaws.FailedCallLeavesFile` | src/persistence/kbIngestion.ts:252-353 | a refused call changes nothing; a failed ingestion has written rows exactly when its batch was in order and its event was not |
| `KbLaws.NamelessActorLeavesRows` | src/persistence/kbIngestion.ts:311-345 | a call with an empty actor id that writes its row and then fails, where the same call with an id succeeds |
| `KbLaws.ReviewIsLocal` | src/persistence/kbIngestion.ts:375-417 | a review keeps the order, the ids and every row but the one it names |
| `KbLaws.IdsStayDistinct` | src/persistence/kbIngestion.ts:252-417 | over every run the row ids stay pairwise distinct |
| `KbLaws.RowCountsAgree` | src/persistence/kbIngestion.ts:252-353 | over every run with fresh ingestion ids, the rows carrying an event's ingestion id number exactly its row count |
| `KbLaws.RowOrigin` | src/persistence/kbIngestion.ts:252-417 | a row of the next state was there untouched, is the reviewed row, or is new with a new id |
| `KbLaws.FlagsTellHistory` | src/persistence/kbIngestion.ts:375-417 | over every run from any file with distinct ids: a row needs the founder exactly when it did at first and no review of the run approved it, is priced as a range once approved and as at first otherwise, and has the status of its last review |
| `KbLaws.IngestedFlagsTell` | src/persistence/kbIngestion.ts:375-417 | a row ingested in the run needs no founder review exactly when it is priced as a range, exactly when some review approved it |
| `RelayCards.ClassifyDailyLogDrift` | src/persistence/driftAdapter.ts:112-203 | the severity follows the precedence of the facts and the reported parts are those of the facts, capped at three |
| `RelayCards.SeverityMeans` | src/persistence/driftAdapter.ts:112-203 | exactly which facts make a day a block, a warning, a caution or an information |
| `RelayCards.ReportedMeans` | src/persistence/driftAdapter.ts:112-203 | exactly which sentences a description of each severity holds, and that each lists the first three of its items |
| `RelayCards.ReportedInOrder` | src/persistence/driftAdapter.ts:112-203 | each sentence once and in their order |
| `RelayCards.SurfacingMeans` | src/persistence/relayCardSurfacer.ts:84-143 | exactly when a drift surfaces for which reason, and what the card then says |
| `RelayCards.DayReachesOffice` | src/persistence/relayCardSurfacer.ts:84-143 | exactly which extracted facts lead to a card, given the history |
| `RelayCards.Surface` | src/persistence/relayCardSurfacer.ts:174-204 | a run only adds cards to its history |
| `RelayCards.WarnCardsAreSpaced` | src/persistence/relayCardSurfacer.ts:84-204 | over every run, whatever the clock does, a warn-caused card comes more than 24 hours after every earlier card of its entry |
| `RelayCards.WarnCardsPerWindow` | src/persistence/relayCardSurfacer.ts:84-204 | a window of w milliseconds holds at most 1 + w div 86400001 warn-caused cards per entry |
| `RelayCards.WindowBoundIsTight` | src/persistence/relayCardSurfacer.ts:105-113 | the bound is reached, and exactly 24 hours is still a duplicate |
| `RelayCards.SeriousDriftIsCovered` | src/persistence/relayCardSurfacer.ts:84-204 | with non-decreasing time every processed warn or block drift leaves a card of its entry dated within the last 24 hours |
| `PolicyGate.ValidateW1AuditTrail` | src/altitude/gate.ts:700-751 | the multi-pass check returns exactly the first fault in the order of its passes |
| `PolicyGate.FindDuplicate` | src/altitude/gate.ts:700-715 | the first repeated validator id, and the set of ids seen |
| `PolicyGateLaws.AuditAcceptsIff` | src/altitude/gate.ts:700-751 | the check accepts a result list exactly when its ids are the expected nine in order and all fields are well formed |
| `PolicyGateLaws.AcceptsIff` | src/altitude/gate.ts:700-751 | the same for any expected list without repetition: the length follows from the passes by pigeonhole |
| `PolicyGateLaws.AuditPassesIff` | src/altitude/gate.ts:577-677 | the audit validator passes in a run of the gate exactly when no measured duration is negative |
| `PolicyGateLaws.AllowedIffAllPass` | src/altitude/gate.ts:577-677 | a packet is allowed exactly when every validator passes |
| `PolicyGateLaws.AllowsOnly` | src/altitude/gate.ts:840-905 | exactly when the gate allows a commit, and that it never allows a draft |
| `PolicyGateLaws.FinalIsLowest` | src/altitude/gate.ts:141-190 | the final altitude is the lowest only for a blackboard update without action and without matched escalation |
| `PolicyGateDecision.AltitudeMeans` | src/altitude/gate.ts:29-50 | on the packet: L4 exactly for a compliance workflow or a recording among two parties without everybody's consent; otherwise L3 exactly for a send, a money mutation or a route to the owner; otherwise L2, L1 and L0 exactly by the lists of workflows and actions |
| `PolicyGateDecision.EscalationsMean` | src/altitude/gate.ts:151-174 | when each of the three escalations matches, on the packet |
| `PolicyGateDecision.ReviewMeans` | src/altitude/gate.ts:824-838 | which review a packet needs, on the packet |
| `PolicyGateDecision.AllowedActions` | src/altitude/gate.ts:840-905 | which action an allowed packet gets: frontier review, owner approval, human review, commit or internal summary, on the packet |
| `PolicyGateLaws.MissingConsentBlocksRecording` | src/altitude/gate.ts:840-905 | a matched missing-consent escalation always ends in a blocked recording |
| `PolicyGateLaws.MoneyAndSendsNeedApproval` | src/altitude/gate.ts:840-905 | a money mutation or an external send never ends in an action that allows |
| `PolicyGateDecision.AllowedIffInOrder` | src/altitude/gate.ts:192-677 | exactly which packets the gate allows: no duration is negative, and the packet has sourced prices, approved sends, consented recordings, redacted roles, a complete source basis, honest labels, attributable learning, and keeps the token budget and the prompt size |
| `PolicyGateDecision.BlockingPrecedence` | src/altitude/gate.ts:840-905 | which blocking action a packet gets, said of the packet: the first thing out of order by the safety lane's precedence |
| `PolicyGateDecision.RefusedOtherwise` | src/altitude/gate.ts:840-905 | which action a refused packet gets when nothing is blocked by name |
| `PolicyGateDecision.OutcomeFollowsResults` | src/altitude/gate.ts:577-677 | the ten results stand in their order; critical ids and reasons are those of the failed results in that order |
| `PolicyGateDecision.DraftsMean` | src/altitude/gate.ts:405-511 | exactly which learning signals are drafted, with what they carry |
| `PolicyGateDecision.FaultMeans` | src/altitude/gate.ts:700-751 | what the reported audit fault says of the result list, and that nothing graver is wrong with it |
| `PolicyGateDecision.CriticalList` | src/altitude/gate.ts:577-612 | a validator is listed as critically failed exactly when the packet lacks what it asks for |
| `PolicyGateDecision.LearningVerdict` | src/altitude/gate.ts:376-511 | learning signals are well formed exactly when the packet is identified or nothing is to be learnt |
| `PolicyGateDecision.TokenVerdicts` | src/altitude/gate.ts:529-561 | the token validator fails critically exactly over the cap, reporting the greater of used and estimated tokens and the cap, and uncritically exactly for a prompt that must be compact |
| `PolicyGateDecision.TrustBoundary` | src/altitude/gate.ts:577-677 | the suggested altitude cannot influence the outcome if and only if the compact-prompt rule is not in force and the packet is identified, relabelled by the gate or without its source basis |
| `PolicyGateDecision.SuggestionStopsAtGate` | src/altitude/gate.ts:577-677 | noninterference: two packets that differ in the suggestion only get the same outcome, whatever non-negative durations the two runs measure |
| `PolicyGateDecision.DurationsDoNotMatter` | src/altitude/gate.ts:577-677 | two runs of one packet have the same outcome whatever non-negative durations they measure |
| `PolicyGateLaws.CompactRuleLeaks` | src/altitude/gate.ts:529-561 | when the compact-prompt rule is in force, some two suggestions get different reasons |
| `PolicyGateLaws.UnidentifiedLeaks` | src/altitude/gate.ts:405-511 | an unidentified packet without another draft gets different failures for some two suggestions |
| `Attention.AppendUnique` | src/attention/attentionArtifact.ts:561-573 | appending fills the target with fresh items up to the limit and remembers exactly their ids |
| `Attention.FillSection` | src/attention/attentionArtifact.ts:587-593 | two appends fill a section as one list of candidates would |
| `Attention.ComposeHomeAttentionSections` | src/attention/attentionArtifact.ts:575-596 | the composer returns the greedy specification: each section is the first fresh items of its candidates |
| `Attention.SectionsNeverRepeat` | src/attention/attentionArtifact.ts:575-596 | no id appears twice within or across the sections, and the limits are respected |
| `Attention.FreshCovers` | src/attention/attentionArtifact.ts:561-573 | every candidate is taken or has an id that is taken or seen |
| `Attention.OneThingIsTop` | src/attention/attentionArtifact.ts:581-583 | the one thing is a live item that needs the user and is outranked by no other; a fallback takes its place exactly when there is none |
| `Attention.TopPlaced` | src/attention/attentionArtifact.ts:598-614 | the top item of a placement has its greatest priority |
| `Attention.OutranksIff` | src/attention/attentionArtifact.ts:598-614 | which of two items is shown first: by priority, then time, then collation of the ids |
| `Attention.SectionsAreRanked` | src/attention/attentionArtifact.ts:575-614 | each section shows live items first, none before one that outranks it, and then fallback items of the section by falling priority |
| `Attention.ShownItems` | src/attention/attentionArtifact.ts:584-593 | what may stand on deck and in pulse |
| `Attention.FallbackIsShown` | src/attention/attentionArtifact.ts:584-593 | a fallback item of a section is missing only when its id is shown above or the section is full |
| `Attention.CrowdedOutOnlyByRank` | src/attention/attentionArtifact.ts:575-596 | a live item that needs the user is missing above only when on deck is full of such items that it does not outrank |
| `Attention.LiveItemsOverflowIntoPulse` | src/attention/attentionArtifact.ts:591-593 | a live item shown nowhere was crowded out of pulse by live items it does not outrank |
| `Blend.BlendAxisScores` | src/operating-gradient/blend.ts:22-31 | the loop returns the rounded weighted sum, or the error of the first unknown archetype |
| `Blend.BlendArchetypeAxes` | src/operating-gradient/blend.ts:38-46 | one blended score per axis, from normalised weights; the errors in their order |
| `Blend.ResolveBlendScores` | src/operating-gradient/blend.ts:87-89 | one score per blend rule |
| `Blend.ResolveBlendedPosture` | src/operating-gradient/blend.ts:80-102 | normalising again for every rule changes nothing: the posture is that of normalising once |
| `Blend.PostureRefused` | src/operating-gradient/blend.ts:11-31 | a mix has no posture exactly when its weights sum to nothing or less, or else some archetype is unknown; the error names the first of them |
| `Blend.PostureMix` | src/operating-gradient/blend.ts:11-20 | a posture keeps the archetypes in their order with weights in proportion that sum to one |
| `Blend.PostureAxes` | src/operating-gradient/blend.ts:33-46 | each axis shows a whole number of hundredths nearest to the weighted mean, halves up |
| `Blend.PostureRules` | src/operating-gradient/blend.ts:48-89 | each rule shows an attained maximum over its axes, or the average of its axes to the nearest hundredth |
| `Blend.PosturePrimary` | src/operating-gradient/blend.ts:91-102 | the primary archetype of a posture is that of the heaviest entry, the earliest on ties |
| `Blend.NormalizeTwice` | src/operating-gradient/blend.ts:11-20 | normalised weights sum to one and normalising is idempotent |
| `Blend.BlendIsRoundedMean` | src/operating-gradient/blend.ts:22-35 | a blended score is the exact weighted mean, rounded to hundredths |
| `Blend.MeanMeans` | src/operating-gradient/blend.ts:11-31 | the mean times the sum of the weights is the sum of the weighted scores |
| `Blend.AxisWithinBounds` | src/operating-gradient/blend.ts:22-35 | when no archetype weighs less than nothing in sum, a blended score lies between the least and greatest score of the archetypes that have weight |
| `Blend.NonNegativeEntries` | src/operating-gradient/blend.ts:11-20 | a mix without negative weights has no archetype of negative weight |
| `Blend.StaysInRangeIff` | src/operating-gradient/blend.ts:11-46 | for every accepted mix: no table and no axis drive its posture out of the range of its archetypes' scores if and only if no archetype has a negative weight, its entries taken together |
| `Blend.TotalsByArchetype` | src/operating-gradient/blend.ts:22-31 | what holds between two weighted sums for every archetype holds for the whole mix |
| `Blend.ScaleInvariant` | src/operating-gradient/blend.ts:11-20 | scaling all weights changes neither the posture nor the error |
| `Blend.OrderDoesNotMatter` | src/operating-gradient/blend.ts:80-102 | permuting the mix changes no score, nor whether it is accepted |
| `Blend.TwiceRoundedIsClose` | src/operating-gradient/blend.ts:65-77 | the twice-rounded average is within a hundredth of the exact mean |
| `Blend.WeightedAtMostMax` | src/operating-gradient/blend.ts:48-77 | over the same axes the weighted average never exceeds the maximum rule |
| `Blend.MaxIgnoresWeights` | src/operating-gradient/blend.ts:48-77 | a maximum rule reaches a threshold exactly when some archetype of the mix does on some axis, whatever its weight |
| `Blend.MaxOverAxes` | src/operating-gradient/blend.ts:53-75 | the greatest score of any entry on any axis of a rule |
| `Blend.PrimaryIsEarliestHeaviest` | src/operating-gradient/blend.ts:91-94 | the primary archetype is the heaviest entry, the earliest on ties |
| `Blend.NegativeWeightsEscape` | src/operating-gradient/blend.ts:11-46 | a posture out of range: weights 2 and -1 blend the scores 5 and 1 to 9 |
| `RateCard.NormalizedIsWords` | src/estimator/rateCard.ts:290 | normalised text is the words of the text one space apart, and the second replace is redundant |
| `RateCard.NormalizeIsIdempotent` | src/estimator/rateCard.ts:290 | normalising is idempotent |
| `RateCard.NormalizedCharacters` | src/estimator/rateCard.ts:290 | normalised text holds exactly the letters and digits of the text in lower case, and beside them only spaces |
| `RateCard.NormalizeDistributes` | src/estimator/rateCard.ts:290 | normalising distributes over joining by a space |
| `RateCard.ScoreKeywords` | src/estimator/rateCard.ts:271-287 | the loop returns the sum of the keyword scores |
| `RateCard.KeywordScoreMeans` | src/estimator/rateCard.ts:271-287 | a keyword scores its number of words when they stand side by side in the description, otherwise one when the description has some word of it up to a plural, otherwise nothing |
| `RateCard.ScoreAdds` | src/estimator/rateCard.ts:271-287 | the score of a line is the sum over its keywords |
| `RateCard.TokensAreWords` | src/estimator/rateCard.ts:273 | the tokens of a normalised description are its words |
| `RateCard.ScoreNeverDrops` | src/estimator/rateCard.ts:271-287 | writing more words around a description never lowers a line's score |
| `RateCard.MatchTenantRateCardLineDetailed` | src/estimator/rateCard.ts:247-265 | the matcher returns the specified match: the first line of that id, otherwise the best keyword line in scope |
| `RateCard.BestInScope` | src/estimator/rateCard.ts:258-263 | the loop with a running best and its score returns the specified best line |
| `RateCard.ExactIdWins` | src/estimator/rateCard.ts:249-253 | the match is by id exactly when an id is given and some line has it, up to case and white space; it is then the earliest such line, whatever its scope |
| `RateCard.BestIsEarliestMaximal` | src/estimator/rateCard.ts:258-265 | the keyword match is the earliest line of maximal positive score, and there is none exactly when no line scores |
| `RateCard.KeywordMatchMeans` | src/estimator/rateCard.ts:247-265 | of the whole matcher: without a line of the id, the match is the earliest line in scope of maximal score, and there is none exactly when no line in scope scores |
| `RateCard.ScopeMeans` | src/estimator/rateCard.ts:256-257 | a line is in scope exactly when it has the scope tag and its unit is the asked one up to case and outer white space |
| `RateCard.IdMeans` | src/estimator/rateCard.ts:249-253 | a line has an id exactly when both are the same up to case and outer white space, and a blank id is none |
| `RateCard.MatchSurvivesMoreWords` | src/estimator/rateCard.ts:247-265 | a match is never lost by writing more words, and the new line scores at least as much |
| `RateCard.MatchSeesWordsOnly` | src/estimator/rateCard.ts:247-265 | case and punctuation of the description do not matter |

## Left out

- IEEE-754 rounding, NaN and infinities: payments and blends use real numbers; in the gate a duration is an integer or not finite.
- Time stamps are integers, not ISO strings; parsing dates is not part of this model.
- JSON is an encoding without newlines and outer white space that decodes back to its input; `validatePersistenceEvent` is a predicate, written out for the ingestion event only.
- Locale collation of ids is any strict weak order; other comparisons of strings are by equality.
- Lower- and upper-casing cover ASCII letters only.
- Texts of issues, warnings, errors and drafts; only which ones appear and the values they carry.
- `Array.prototype.sort` is any stable sort by the comparator, given as insertion sort.
- Projections assume one tenant per project id; the rebuild filters by correlation id only, as the program does.
- Endpoints other than the five handlers; some, such as src/api/lib/eventEmit.ts, append without rebuilding a projection.
- Payloads of log events that no modelled query or fold looks at are one opaque field.
- Disk failures, and torn final lines as an input to the event store's append except in `AppendToAny`.
- The tier-2 file is a sequence of rows; malformed lines, other tenants' files and a disk failure between the rows and their event are out.
- Columns of a stored cost row that are constant or copied unread: tenant, layer, version, category, currency, notes, sheet and the like.
- Ids and time stamps of audit entries, `applyQuery`, and the freezing of entries.
- That an append to the log on a file writes the file before it changes memory; the two are only seen together.
- Subscribers that throw or that call back into the log.
- Ids and texts of relay cards; the English-language extraction of daily-log facts, whose result is an arbitrary input.
- Gate and schema version stamps, corrected-field lists and draft texts of the policy gate; the names of its validators are labels, of which only matters that none is empty.
- `canDeleteMilestone`, permission and authority matrices, dogfood tenants and other one-branch lookups.
- The gradient table and the rate-card table are arbitrary data; a blend rule without axes is excluded, as no rule of the table lacks them.
- HTTP parsing, authentication, transcription, rendering and the orchestrator.
- MatchTenantRateCardLineDetailed: the default table of a tenant is not modelled, the rates are a parameter.
