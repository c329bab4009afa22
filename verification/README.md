# Verified model of review-service

review-service keeps one appraisal per request. It creates the appraisal when an inbound event moves the request to
`appraisal`, lets callers edit it concurrently over HTTP, values apartments from four analogs, and on completion writes
a `report.ready` event to an outbox that a polling relay publishes. This project models the two parts of the service
that are hard to get right, and proves what they guarantee:

- **The lifecycle** as a concurrent, crash-prone protocol. `Machine` is a state machine over the database, the HTTP
  operations in flight, the inbound consumer with its dedup marks, and the relay. Everything that is not decided by the
  code (who moves next, clocks, fresh ids, lost or late acknowledgements, crashes, restarts, expiring marks) is in a
  label, so a lemma about every sequence of labels is a lemma about every interleaving.
- **The valuation** (`Valuation`): five adjustment steps per analog, then a weighted reconciliation with rounding.

They meet in `ApplyApartmentCalculation` (module `ApplyService`).

## How it is organised

| file | contents |
|---|---|
| `Domain.dfy`, `Apartment.dfy` | the entities |
| `Tables.dfy` | each SQL statement as a function of the whole database |
| `Machine.dfy` | the state machine: sessions, consumer, relay, schedules |
| `CoreInvariant.dfy`, `SessionInvariant.dfy` | what every step keeps |
| `Lifecycle.dfy`, `Patches.dfy` | linearizability, answers, lost patches, freeze, outbox bijection |
| `EventOrigin.dfy`, `ComparableFreeze.dfy`, `RowFreeze.dfy` | exactly when an event agrees with the completed row, and when a comparable or the row can still change |
| `EntryOrigin.dfy` | where comparables come from, and when they are exactly the entries of the calculation the row holds |
| `InboundSafety.dfy`, `OutboundSafety.dfy` | consumer safety, cache transparency, end to end |
| `DedupExact.dfy` | exactly which logs the dedup cache is safe and transparent for |
| `PublishingOrder.dfy`, `RelayDrain.dfy` | exactly when the topic follows the outbox ids; how fast a backlog drains |
| `Witnesses.dfy` | schedules on which the stronger claims fail |
| `Database.dfy`, `Site.dfy`, `Service.dfy`, `Workers.dfy`, `ApplyService.dfy` | the imperative code: tables and dedup store as mutable objects, repository and service methods, consumer and relay loops |
| `Rounding.dfy`, `Valuation.dfy`, `Reconciliation.dfy`, `Invariances.dfy`, `Audit.dfy`, `Formulas.dfy` | the valuation, its loops, its laws, and its arithmetic between the fields of a result |

The imperative methods run at a `Site`. Before every call into Postgres, Redis or Kafka, a script lets the other
parties take any number of steps and gives the call a fault: none, lost without effect, or effective with a lost
acknowledgement. The site's ghost `trace` records every step, and its invariant says that the world is the run of that
trace, so whatever is proved of all schedules holds of what the methods do. With an empty script nobody interferes and
nothing fails; several methods then promise their exact sequential effect.

## Assumptions

- Every SQL statement is one atomic step, and so is the transaction of `Complete`. `GetByID` is two steps, a missed
  write and its existence probe are two steps. An error may be reported after the effect took place.
- Time stamps and identifiers are opaque and compared for equality only. `updated_at` is not monotone in the code:
  a completion stamps before it writes and its guard ignores the stamp. Where a lemma needs clocks at all it assumes
  `DistinctStamps`, that the versions of one row carry pairwise different stamps; `RepeatedStampThaws` shows what
  happens otherwise, and `SaveAfterCompletion` says exactly when.
- The dedup results ask of the inbound log that an event id is reused only for a request that an earlier relevant
  message asked for (`FirstsFresh`). `SafeIff` and `TransparentIff` prove this to be the exact condition on the log; an
  event id that stands for one request (`EventIdsConsistent`) is the usual case of it.
- Outbox ids are taken at insert and become visible at commit, in any order. `RelayOrder` says exactly which orders the
  relay publishes by id (`InTime`); ids that become visible in increasing order are one case (`IncreasingInTime`).
- One partition of `request.events` with one consumer, and one relay.
- Money is exact (`real`); `math.Pow` is a parameter of which at most positivity on positive bases is assumed.

README.md:10-13 of the service says the calculation engine is absent and that the market value is entered by hand. The
code has the engine and writes the market value from it; the model follows the code. README.md:31-32 says a completed
appraisal rejects comparables; a delete that checked the status before the completion still goes through
(`ComparableCanVanish`), and `ComparablesCanGoIff` states exactly when. The event of a completion is built from an
earlier read (`EventCanBeStale`), and `EventCurrentIff` states exactly when it agrees with the row.

## Model

| member | source | states |
|---|---|---|
| Lifecycle.Linearizable | internal/service/appraisal.go:71-191 | under every interleaving of Update, UploadReport, applied calculations and Complete, each row is the state of an appraisal that served its committed requests one at a time |
| Lifecycle.AtomicCommit | internal/repository/postgres.go:112-162 | every commit is its operation applied to the version right before it; a save committed on exactly the version it had read |
| Patches.NoPatchLost | internal/service/appraisal.go:86-98 | each column holds what the last committed operation that provides it asked for; the row is completed if and only if a completion committed; updated_at is the last commit's stamp |
| Patches.LatestIsLast | internal/service/appraisal.go:86-95 | "last that provides a column" means one that provides it with none later, and nothing only if none provides it |
| Lifecycle.SuccessCommitsOnce | internal/service/appraisal.go:100-112 | an operation that reports success committed exactly once, on its own row, with its own request |
| Lifecycle.FailureCommitsNothing | internal/service/appraisal.go:100-110 | not found, invalid status and conflict mean nothing was committed; only a storage error is ambiguous |
| Lifecycle.RefusalsJustified | internal/service/appraisal.go:72-84 | not found means no version of the row existed at the read (a delete may also have missed its comparable); invalid status means the row is completed |
| Lifecycle.ComparableAnswers | internal/service/appraisal.go:193-250 | the step that answers an operation on comparables has its effect: added under an appraisal in progress, deleted where it was there, or refused without any change |
| Lifecycle.UpdateAnswersAtomically | internal/service/appraisal.go:97-112 | the appraisal Update returns is the serial state right after it |
| Lifecycle.CompleteAnswers | internal/service/appraisal.go:130-149 | the appraisal Complete returns has the closed row's keys, status and times, and is the whole row when nothing landed between read and write |
| Lifecycle.ConflictHasCause | internal/repository/postgres.go:296-305 | every conflict is caused by another operation's commit on the row between the read and the failed write |
| Lifecycle.SaveMissesIffOvertaken | internal/repository/postgres.go:113-126 | the optimistic lock misses if and only if a commit landed since the read |
| Lifecycle.RealTimeOrder | internal/service/appraisal.go:71-150 | an operation that began after another committed reads, and so commits, after it |
| Lifecycle.CompletionIsFinal | README.md:29-30 | completed is final and completed_at never changes, whatever the clocks do |
| Lifecycle.Frozen | README.md:31-32 | once completed, no later step of any operation changes any column or adds a version |
| Lifecycle.SaveAfterCompletion | internal/service/appraisal.go:176-178 | a save lands on a completed row if and only if the copy it holds carries the row's stamp |
| RowFreeze.RowCanChangeIff | internal/service/appraisal.go:176-178 | whatever the clocks do, some continuation changes the row of a completed appraisal if and only if a pending save carries its stamp |
| Lifecycle.CompletionColumns | internal/repository/postgres.go:139-143 | completed_at is set exactly when the status is completed, and then equals updated_at |
| Lifecycle.AtomicCompletion | internal/repository/postgres.go:130-177 | in every reachable state completed appraisals and outbox rows match one to one through the request; each step completes nothing, or one row together with one outbox row for it; a completion reports success exactly in the second case, and otherwise changed nothing |
| EventOrigin.Provenance | internal/domain/events.go:44-62 | an event's ids and completion time are the completed row's, its appraiser and report key those of the version the completion had read; they are the closed row's if and only if the row right before the completion still had them |
| EventOrigin.ColumnsSince | internal/service/appraisal.go:86-95 | from a version on, appraiser and report key are the last provided since, or that version's |
| EventOrigin.EventCurrentIff | internal/service/appraisal.go:115-136 | an event names the completed row's appraiser if and only if the last operation committed between read and completion that provides one provides the one read, or none does; likewise the report key |
| ComparableFreeze.StepRemovesIff | internal/repository/postgres.go:179-207 | a step changes the comparables of a completed appraisal if and only if it executes a delete, of a caller or of a calculation's clean-up, that hits; it never adds one |
| ComparableFreeze.ComparablesSettle | internal/repository/postgres.go:179-207 | after completion comparables only shrink, and are constant for ever once nothing threatens them |
| ComparableFreeze.ComparablesCanGoIff | internal/service/appraisal.go:228-250 | some continuation removes a comparable of a completed appraisal if and only if a pending delete names one it has, or a pending calculation would replace one and a pending save carries the row's stamp |
| ComparableFreeze.OnlyDueDeletes | internal/service/appraisal.go:313-317 | with distinct stamps, if and only if a delete already due names one it has |
| EntryOrigin.ComparablesSourced | internal/service/appraisal.go:313-332 | under every interleaving each comparable was added by a caller of its appraisal or is an entry of a calculation committed on it |
| EntryOrigin.LeftAloneIsExact | internal/service/appraisal.go:298-334 | if a calculation saves on a current copy and then its appraisal is left to it and none of its statements fails, it ends with a row that holds it and comparables that are exactly its entries, whatever happens elsewhere |
| CoreInvariant.CoreInvKept | internal/repository/postgres.go:30-207 | every write keeps: versions form a chain of guarded commits, one commit per session, unique requests, comparables of existing appraisals, outbox rows in bijection with completions |
| CoreInvariant.OneWay | internal/repository/postgres.go:139-143 | along a row's history completed stays completed with the same completion time |
| SessionInvariant.InvReachable | internal/service/appraisal.go:71-335 | in every reachable state each operation in flight holds a committed version of its row, and each reported outcome matches what the operation did to the history |
| SessionInvariant.MissMeansOvertaken | internal/repository/postgres.go:124-126 | a save that misses held a copy older than the row |
| InboundSafety.ConsumerSafety | internal/kafka/consumer.go:67-138 | whatever the crash points and redeliveries: each relevant event below the committed offset has an appraisal, each mark is of a message handled with all before it, no request has two appraisals, and every appraisal was asked for by a delivered relevant event |
| InboundSafety.AppraisalAskedFor | internal/kafka/consumer.go:101-117 | every appraisal goes back to a delivered event of type request.status_changed, with an event id, whose new status is appraisal, for its request |
| InboundSafety.MarkedHaveAppraisals | internal/dedup/redis.go:29-43 | if an event id stands for one request, every message with a marked event id has its appraisal |
| DedupExact.SafeIff | internal/kafka/consumer.go:119-136 | no run over a log loses a committed relevant event if and only if the log reuses an event id only for requests asked for before |
| DedupExact.ReuseLoses | internal/kafka/consumer.go:119-126 | for every other log some run ends with a relevant event below the committed offset and no appraisal, which the consumer without the cache creates |
| InboundSafety.CacheTransparent | internal/kafka/consumer.go:119-136 | with the dedup set, whatever marks expire and whenever, the database ends as it would for a consumer that creates on every delivery |
| DedupExact.TransparentIff | internal/dedup/redis.go:29-43 | the cache makes no difference in any run over a log under exactly the same condition |
| InboundSafety.SkippedStep | internal/dedup/redis.go:29-35 | a create skipped for a mark would have found the appraisal and done nothing |
| OutboundSafety.EndToEnd | internal/outbox/relay.go:81-92 | over any run, all report.ready messages of one request are the same event, and each traces back to a completed appraisal and to a delivered request.status_changed event that moved its request to appraisal |
| PublishingOrder.RelayOrder | internal/outbox/relay.go:50-94 | the topic without adjacent repeats is a prefix of the outbox by id if and only if each id exceeded everything published when it became visible and nothing was published above an id that became visible after the poll; then the marked rows are a prefix too, and at most one row is published but not marked |
| PublishingOrder.IncreasingInTime | migrations/000002_create_outbox_table.up.sql:3-5 | ids that become visible in increasing order are always in time |
| PublishingOrder.LateIdGoesBack | internal/outbox/relay.go:81-92 | any id that becomes visible below a published one and is published itself puts the topic out of order |
| PublishingOrder.PollAligned | internal/outbox/relay.go:51-57 | whenever the marked rows are the first in id order, a poll reads exactly the rows that follow them |
| RelayDrain.BatchTakes | internal/outbox/relay.go:51-57 | a poll takes the whole backlog, or a hundred of it |
| RelayDrain.TickRuns | internal/outbox/relay.go:81-93 | an undisturbed tick publishes its batch in order and marks exactly it |
| RelayDrain.Drain | internal/outbox/relay.go:28-41 | with U unpublished rows and no errors k ticks leave max(0, U - 100 k) |
| RelayDrain.DrainTime | internal/outbox/relay.go:12-13 | the backlog is empty after k ticks if and only if k is at least U / 100 rounded up |
| Witnesses.RepeatedStampThaws | internal/service/appraisal.go:176-178 | with a repeated stamp a save changes a completed row |
| Witnesses.EventCanBeStale | internal/service/appraisal.go:115-136 | an event may name an appraiser the completed row no longer has, with distinct stamps |
| Witnesses.ComparableCanVanish | internal/repository/postgres.go:196-207 | a delete checked before the completion removes a comparable after it |
| Witnesses.LateIdOvertaken | migrations/000002_create_outbox_table.up.sql:3-5 | an id that becomes visible late is published after a larger one |
| Witnesses.UnorderedButInTime | internal/outbox/relay.go:51-57 | two ids that become visible out of order before a poll are published in order |
| Witnesses.ReusedEventIdDropsRequest | internal/kafka/consumer.go:119-126 | one event id for two requests loses the second for good |
| Witnesses.OverlapKeepsBoth | internal/service/appraisal.go:313-332 | any two calculations can overlap so that the entries of both are left beside the second one's result |
| Witnesses.CompletionLeavesNone | internal/service/appraisal.go:298-332 | a completion between the save and the inserts leaves a completed row that holds the calculation and never has a comparable |
| Stores.Database.Create | internal/repository/postgres.go:30-46 | the insert happens if and only if the request has no appraisal yet, and reports which |
| Stores.Database.ListComparables | internal/repository/postgres.go:86-107 | every comparable of the appraisal once, oldest first, and nothing else |
| Stores.ListingHolds | internal/repository/postgres.go:87-92 | a listing holds each comparable of the appraisal once, nothing else, oldest first |
| Stores.Database.Update | internal/repository/postgres.go:112-128 | the row changes, in the saved columns only, exactly when the stamp matches |
| Stores.Database.Complete | internal/repository/postgres.go:130-162 | row and outbox change together or, through the rollback, not at all |
| Stores.Database.AddComparable | internal/repository/postgres.go:179-194 | the insert happens only under an appraisal in progress |
| Stores.Database.DeleteComparable | internal/repository/postgres.go:196-207 | exactly the named comparable of that appraisal goes |
| Stores.Database.SelectBatch | internal/outbox/relay.go:51-78 | the unpublished rows in id order, the first hundred if there are more |
| Stores.Database.MarkPublished | internal/outbox/relay.go:89-91 | exactly the row with that id becomes published |
| Stores.Smallest | internal/outbox/relay.go:55-57 | ORDER BY id LIMIT n: n smallest ids, or all |
| Services.PostgresRepository.GetByID | internal/repository/postgres.go:48-68 | two statements of one session; without interference the row with its comparables, or not found |
| Services.PostgresRepository.NotFoundOrConflict | internal/repository/postgres.go:296-305 | not found if and only if the row does not exist at the probe, else conflict; it changes nothing |
| Services.PostgresRepository.Update | internal/repository/postgres.go:112-128 | the save of an edited copy under its old stamp; undisturbed, a hit writes it, a miss changes nothing and tells a missing row from a conflict |
| Services.PostgresRepository.Complete | internal/repository/postgres.go:130-162 | the completion transaction, with its outcome |
| Services.PostgresRepository.AddComparable | internal/repository/postgres.go:179-194 | the guarded insert; undisturbed, every outcome with its error, a missing appraisal told from a completed one |
| Services.PostgresRepository.DeleteComparable | internal/repository/postgres.go:196-207 | the unguarded delete, with its outcome |
| Services.AloneEffects | internal/service/appraisal.go:86-230 | column by column what each operation, alone, leaves of an appraisal in progress, its outbox row and its comparables, and what it answers |
| Services.AppraisalService.Update | internal/service/appraisal.go:71-113 | with any interference and faults the call is one Update session that ends with the returned result; alone, it patches exactly the provided fields of an appraisal in progress |
| Services.AppraisalService.Complete | internal/service/appraisal.go:115-150 | one Complete session; alone, it closes the row and adds its event |
| Services.AppraisalService.UploadReport | internal/service/appraisal.go:152-191 | one UploadReport session; alone, it stores the key of an appraisal in progress |
| Services.AppraisalService.AddComparable | internal/service/appraisal.go:193-226 | one AddComparable session; a conflict in the insert becomes an invalid status |
| Services.AppraisalService.DeleteComparable | internal/service/appraisal.go:228-250 | one DeleteComparable session; alone, it deletes the comparable or reports not found |
| Workers.Consumer.CreateFromRequest | internal/service/appraisal.go:25-45 | on success the request has an appraisal; created tells whether it is new |
| Workers.Consumer.ProcessedIff | internal/kafka/consumer.go:96-138 | handled alone, a message creates an appraisal if and only if it is a readable request.status_changed event to appraisal with an unmarked event id, its request has none and the id is free; which row that is; and that nothing else changes |
| Workers.Consumer.Process | internal/kafka/consumer.go:96-138 | irrelevant messages change nothing and may be committed; a relevant one may be committed only once its request has an appraisal |
| Workers.Consumer.Run | internal/kafka/consumer.go:67-87 | a run of the consumer; every relevant message below the committed offset has its appraisal; alone, it handles every message it is given |
| Workers.OutboxRelay.PublishBatch | internal/outbox/relay.go:50-94 | the topic grows by a prefix of the batch read at the poll, the whole batch on success; undisturbed, the backlog loses exactly the batch |
| Workers.OutboxRelay.Run | internal/outbox/relay.go:28-41 | the topic only grows; undisturbed, k ticks leave max(0, U - 100 k) |
| ApplyService.ApplyCalculationService.DeleteOld | internal/service/appraisal.go:315-317 | without interference exactly the listed comparables of the appraisal go |
| ApplyService.ApplyCalculationService.AddEntries | internal/service/appraisal.go:318-332 | without interference exactly the entries are added, under the fresh ids |
| ApplyService.ApplyCalculationService.CalculateApartment | internal/service/apartment_calc.go:18-69 | an invalid input is rejected before any read; otherwise the configuration is read, which can fail, and the result is that of the stored configuration when there is one and else of the default |
| ApplyService.ApplyCalculationService.ApplyApartmentCalculation | internal/service/appraisal.go:270-335 | one session of the machine under any interference and fault, also at the read of the configuration; an invalid input is reported as such without a write; alone, the row changes in market value, calculation data and stamp only, to the result under the stored configuration or else the default, its comparables are exactly the four entries, and all else stays |
| ApplyService.AppliedTwice | internal/service/appraisal.go:298-332 | of two applications in a row the row edits and comparables of the first leave no trace, for any entries |
| ApplyService.ApplyTwice | internal/service/appraisal.go:313-332 | repeating leaves exactly four comparables, those of the second calculation, and keeps notes, appraiser, report key and other appraisals |
| Rounding.RoundToMonotone | internal/service/apartment_calc.go:231-234 | rounding is monotone |
| Rounding.RoundToOdd | internal/service/apartment_calc.go:231-234 | rounding is odd |
| Rounding.RoundToIdempotent | internal/service/apartment_calc.go:231-234 | rounding twice is rounding once |
| Rounding.RoundToNearest | internal/service/apartment_calc.go:231-234 | the result is within half a unit of the last place |
| Rounding.RoundUnique | internal/service/apartment_calc.go:231-234 | rounding gives the nearest integer, on a tie the one further from zero, and this determines it |
| Rounding.RoundTies | internal/service/apartment_calc.go:231-234 | n and a half units of the last place become n + 1 of them, for any number of places, and symmetrically below zero |
| Rounding.RoundToExact | internal/service/apartment_calc.go:231-234 | a value that has the places already stays |
| Rounding.FormatParse | internal/service/apartment_calc.go:236-238 | the printed text is a decimal within half a hundredth of the value |
| Rounding.FormatExact | internal/service/apartment_calc.go:236-238 | the text reads back as the value if and only if the value has at most two decimals |
| Valuation.IndexDistricts | internal/service/apartment_calc.go:73-76 | the map looks up, for every name, what a scan of the list finds |
| Valuation.IndexRepairs | internal/service/apartment_calc.go:78-82 | the map looks up, for every id or name, what a scan of the list finds |
| Valuation.LocationStep | internal/service/apartment_calc.go:120-144 | the location factor, through the map and the fallback price, is the one by scan |
| Valuation.RepairStep | internal/service/apartment_calc.go:158-164 | the repair delta through the map is the one by scan |
| Valuation.AdjustAll | internal/service/apartment_calc.go:99-195 | the first loop fills every slot with its analog's adjustment and sums the adjustments |
| Valuation.WeighAll | internal/service/apartment_calc.go:199-212 | the second loop sets every weight, keeps the rest of each slot, and accumulates the weighted price |
| Valuation.Validate | internal/service/apartment_calc.go:54-61 | accepts exactly a positive area and four analogs with positive price and area |
| Valuation.CalculateWithConfig | internal/service/apartment_calc.go:71-229 | the two loops over the result slots give the specified result |
| Reconciliation.DistrictInForce | internal/service/apartment_calc.go:73-76 | the last entry with a name counts, 0 without one |
| Reconciliation.RepairInForce | internal/service/apartment_calc.go:78-82 | the last class with that id or name counts, also when an id is another class's name |
| Reconciliation.WeightsSumToOne | internal/service/apartment_calc.go:202-209 | the unrounded weights of any n >= 2 analogs sum to exactly 1, in both branches |
| Reconciliation.WeightsInRange | internal/service/apartment_calc.go:202-209 | they lie between 0 and 1 / (n - 1) |
| Reconciliation.LessAdjustedWeighsMore | internal/service/apartment_calc.go:202-209 | a smaller total adjustment never gets a smaller weight |
| Reconciliation.ReportedBetween | internal/service/apartment_calc.go:197-214 | the reported price lies between the rounded smallest and largest adjusted prices |
| Reconciliation.ReportedSumExact | internal/service/apartment_calc.go:193-224 | the reported sum of adjustments is the sum of the reported adjustments |
| Reconciliation.ReportedWeights | internal/service/apartment_calc.go:202-211 | the four reported weights sum to 1 within 0.0002 |
| Reconciliation.ReportedTotal | internal/service/apartment_calc.go:214-215 | the total is within 0.005 (area + 1) of the unrounded weighted price times the area |
| Reconciliation.PrintedTotalReadsBack | internal/service/appraisal.go:294-295 | the market value written to the appraisal reads back as exactly the reported total |
| Formulas.ResultFollows | internal/service/apartment_calc.go:112-189 | the five prices of each reported analog follow from each other, the input and the configured lists: bargaining percent, district prices with fallback, powers of the areas, repair unit costs times conditions with fallback, floor matrix |
| Formulas.RepairMonotone | internal/service/apartment_calc.go:157-183 | a dearer repair of the subject raises the price after the repair step, a dearer repair of the analog lowers it |
| Formulas.ReconciliationFollows | internal/service/apartment_calc.go:193-225 | with S the reported sum, p the adjusted prices and M the adjustments: 3 S price is the sum of (S - M) p within 0.015 S, 3 S weight is S - M within 0.00015 S, without adjustments all count alike, and the total is price times area to the cent |
| Formulas.CentreDiffers | internal/service/apartment_calc.go:114-145 | two configurations that differ in one district price give different results on every input that uses it |
| Formulas.ConfigurationMatters | internal/service/apartment_calc.go:63-68 | there is a valid input on which two configurations differ |
| Formulas.SeedIsDefault | migrations/000003_create_formula_configs_table.up.sql:12-58 | the default configuration in the code is the one the migration stores |
| Formulas.DefaultDistricts | migrations/000003_create_formula_configs_table.up.sql:18-25 | the default district prices, as found by the lookup |
| Formulas.DefaultRepairs | migrations/000003_create_formula_configs_table.up.sql:32-38 | the default repair costs, by id and by name |
| Audit.ReportAudits | internal/service/apartment_calc.go:112-192 | each reported coefficient and adjustment follows from the reported prices before and after its step, in every mode and configuration; the repair line if and only if the bargaining percent is below 100, the mode is direct, or there is no repair delta; at exactly 100 the first prices are zero |
| Invariances.LocationModesAgree | internal/service/apartment_calc.go:125-141 | the location mode never changes the result, for any configuration |
| Invariances.AreaPriceSign | internal/service/apartment_calc.go:112-155 | the price after the area step has the sign of 100 minus the bargaining percent |
| Invariances.RepairModes | internal/service/apartment_calc.go:166-183 | the two repair modes agree on positive prices and otherwise differ by exactly the repair delta |
| Invariances.RepairChains | internal/service/apartment_calc.go:166-183 | per analog: below 100 percent the modes give the same chain, otherwise the post-repair prices differ by exactly the delta |
| Invariances.RepairModesAgreeIff | internal/service/apartment_calc.go:166-183 | whole calculations agree if and only if every analog has a bargaining percent below 100 or no repair delta |
| Invariances.OrderIrrelevant | internal/service/apartment_calc.go:102-219 | reordering the analogs keeps the sum of adjustments, the price and the total |
| Invariances.ReportsFollowAnalogs | internal/service/apartment_calc.go:102-211 | and reorders the per-analog results, up to the index |
| Invariances.CurrencyChange | internal/service/apartment_calc.go:112-212 | scaling prices and repair costs by c > 0 keeps every adjustment and weight and scales the unrounded price by c |
| Invariances.ScaleConstantIrrelevant | internal/service/apartment_calc.go:96-155 | any positive scale constant gives the same result |
| Invariances.MatchingAnalogsAgree | internal/domain/apartment.go:56-105 | with the default configuration, analogs that match the subject and share a bargained price give that price, rounded |

## Left out

- HTTP handlers, routing, request validation, authorization, Swagger, CORS, pagination, logging, configuration, start and stop: they hold no state that the properties above are about.
- List and get endpoints: they only read.
- The formula configuration table: plain upserts. What a calculation reads from it is a parameter, of which no well-formedness is assumed; the default it saves when it finds nothing is not kept.
- JSON encoding: events, calculation data and comparable data are datatypes; a decoding failure is a kind of message. Marshalling the calculation is taken to succeed.
- The presigned URL and the format of object keys: the key is a parameter, and presigning either works or fails.
- The Kafka message key and topic of a published row: the outbox invariant fixes them to the request id and `review.events`.
- IEEE floating point: amounts are exact reals, so NaN, infinities and last-bit errors are not captured, nor is the real `math.Pow`.
- NUMERIC(15, 2): the rounding and overflow of `market_value` in Postgres; the column holds the text it was given.
- The precision of stamps: a stamp written is the stamp read back.
- Several partitions, consumers or relays at once: their orders would not be those of one log.
- Snapshots inside one statement: the guarded insert of a comparable and a racing completion are ordered, as if serializable.
- Timing and fairness of tickers and restarts: only the number of ticks a backlog takes is stated.
- Consumer.Run: the endless loop is bounded by a number of rounds, any number.
- OutboxRelay.Run: the endless loop is bounded by a number of ticks, any number.
