# Verified model of the immigration assessment backend

The backend scores immigration profiles against versioned rules, sells a monthly quota for it, and keeps the
rules up to date by ingesting official sources. This project models its stateful core and proves what that
core keeps over whole runs. Time is an integer clock handed to every step, one committed transaction is one
step, scores and deltas are integers counting cents, and constraint violations are steps that do not happen.

Code that updates rows in place is modelled by classes whose methods are proved against functions on values;
the theorems are about those functions.

| file | what it holds |
|---|---|
| `Calendar`, `Entitlements`, `BillingRules`, `BillingService`, `BillingTheorems` | the entitlement table as a temporal table over a log of applied plans, the monthly quota, Stripe webhooks |
| `Assessments` | creating assessments under idempotency keys, on top of billing |
| `Timeline` | program versions and their validity periods, written by three services, read by scoring |
| `Sorting`, `Rules`, `ScoreEngine`, `ScoreTheorems`, `ScoreArithmetic`, `Signals` | the two-pass score engine, its payload, its arithmetic, and the views rebuilt from stored items |
| `Breaker`, `SourceHealth`, `CircuitBreaker` | one abstract failure counter, refined by source quarantine and by the LLM circuit breaker |
| `IngestionRun`, `OverlappingRecounts`, `SteadyRuns`, `StaleRecounts` | interleaved item tasks and the recounts of their run, undivided and overlapping |
| `Pipeline`, `PipelineTheorems`, `PipelineWitnesses`, `RunPipeline` | one item from the gate to a published version, and a whole run carried out by such steps |
| `Retry`, `Jobs` | error classes, retry decisions, job rows and chains of retried executions |
| `RateLimit` | the fixed-window limiter, with its two stores |
| `RecentItems` | the bounded list of recent ids in the web client |

## What the code does that its names do not promise

Each of these is proved, with the exact condition where the property holds in part.

- A failed webhook delivery is committed with whatever it wrote. Since every delivery first seeds the two default
  plans, that is never anything but its own event (`BillingTheorems.FailedDeliveryLeavesNoTrace`). The handler alone
  needs the seeding: it leaves no trace for every table and delivery exactly when the catalogue has the free plan, or
  no plan that a price could resolve to (`BillingTheorems.FailuresLeaveNoTraceExactly`).
- Quota is committed before the assessment is stored, and nothing looks at the program before the insertion does.
  An accepted request with a new key that runs to its end is stored exactly if its program exists
  (`Assessments.StoredExactlyForAProgram`); for another program one key consumes again at every request
  (`Assessments.OneKeyCanConsumeTwice`). Consumptions are assessments plus such losses
  (`Assessments.AcceptancesAreAssessments`).
- A forced activation takes effect only while at most one active version overlaps the target, since the overlap
  query raises on two (`Timeline.ActivationTakesEffect`, `Timeline.ForcingCanFail`).
- A publication is refused while an active version of its program starts at or after it, because archiving would
  break the table's range constraint; after one that succeeds, the lookup finds nothing for earlier instants
  (`Timeline.LookupAfterPublish`).
- The stored signals of a blocked assessment differ from the engine's lists exactly when an applying group has a
  blocking outcome with a positive delta (`Signals.RebuiltSignalsAgree`).
- A run can be left running although all its tasks have ended and recorded their outcomes, in two ways. The recount
  before a dead letter can fail, so that no recount follows the outcome, even with one item and no overlap
  (`StaleRecounts.UncountedRunCanBeLeftRunning`). Or recounts overlap: each commits only the columns it changed against
  the row it had loaded. In every state of every run the row is settled exactly if the last recount that changed its
  status had read no open item (`OverlappingRecounts.SettledExactly`, `OverlappingRecounts.LeftRunningExactly`).
- With a recount made for every task, being left running takes an item that starts again, or an attempt that fails
  before its start is committed (`StaleRecounts.RetriedRunCanBeLeftRunning`,
  `StaleRecounts.EarlyFailureCanLeaveRunning`): without both, a run whose outcomes were recorded is settled
  (`SteadyRuns.NeverLeftRunning`). Counters can end short even then (`StaleRecounts.CounterCanBeLeftShort`); without
  retries a counter is right exactly if the last recount that changed it came after every outcome it counts
  (`SteadyRuns.CountersExactlyWithoutRetries`).
- A skip of unchanged bytes keeps its item's digest, which a fresh item does not have, so known content can be
  published again: after any run that only ever extracts one digest, exactly if the item that is then the newest
  finished one was never carried to its end and did not have the digest before (`PipelineTheorems.RepublishesExactly`,
  `PipelineWitnesses.OneDigestTwoVersions`).
- A source document is unique per program version and address, so a step that would not publish raises exactly if
  the latest version has a document of that address (`PipelineTheorems.ReviewRaisesExactly`). A second manual review
  for one version fails and counts against the source's health (`PipelineTheorems.SecondReviewFails`,
  `PipelineWitnesses.TwoReviewsOneFailure`).
- Marking a job failed is unconditional: a completed job is lost exactly when a later execution dead-letters it. Its
  score stays (`Jobs.CompletedJobIsLostExactlyByDeadLetter`); a roadmap is marked failed with its job, unless the
  handler raises in between (`Jobs.CompletedRoadmapIsLostExactlyByDeadLetter`).
- A counter whose expire step is lost never admits more than what was left of one limit
  (`RateLimit.LostExpireNeverReopens`).

## Model

| member | source | states |
|---|---|---|
| `Calendar.InstantIsOrderIsomorphic` | apps/billing/services.py:521-527 | comparing timestamps field by field is comparing positions on the integer clock, equality included |
| `Calendar.CalendarWindowIsClockWindow` | apps/billing/services.py:521-527 | the calendar's month window, December included, is the clock's window and contains its own instant |
| `Calendar.WindowsTile` | apps/billing/services.py:521-527 | month windows tile the timeline: an instant is in another's window exactly when both have the same window |
| `Entitlements.TableRefinesLog` | apps/billing/services.py:454-475 | at every instant, past ones included, the rows active for a user are the features of the last plan applied by then |
| `Entitlements.AtMostOneRowPerFeature` | apps/billing/repositories.py:138-159 | two different rows never grant a feature to a user at one instant |
| `Entitlements.NeverWithoutGrants` | apps/billing/services.py:227-239 | a user to whom a plan was ever applied always has an active row from then on |
| `Entitlements.StrictClockKeepsKeysUnique` | apps/billing/models.py:123-131 | with a clock that never repeats, no run of plan applications meets the table's unique constraint |
| `BillingService.BillingRepository.HasActiveEntitlements` | apps/billing/repositories.py:118-136 | the scan finds a row exactly when the user has a grant at the instant |
| `BillingService.BillingRepository.DeactivateActiveEntitlements` | apps/billing/repositories.py:161-165 | closes exactly the rows active at the instant, in place, and no other |
| `BillingService.BillingRepository.GetOrCreateUsageCounter` | apps/billing/repositories.py:248-275 | returns the stored counter, or stores and returns one at zero |
| `BillingService.BillingRepository.UpsertSubscription` | apps/billing/repositories.py:195-246 | after the field-by-field update the row holds the new values whether or not it existed |
| `BillingService.BillingService.ApplyPlanEntitlements` | apps/billing/services.py:454-475 | the close-then-create loop carries out one application of the plan log and touches no other table |
| `BillingService.BillingService.EnsureUserAccessBaseline` | apps/billing/services.py:227-239 | applies the free plan exactly when nothing is active, and commits it |
| `BillingService.BillingService.ConsumeAssessmentQuota` | apps/billing/services.py:67-103 | decides and counts one request as the specification says, every table included, and commits |
| `BillingService.BillingService.SyncSubscriptionObject` | apps/billing/services.py:300-357 | resolves plan and owner, stores the subscription and applies the plan, raising where the source raises |
| `BillingService.BillingService.HandleStripeEvent` | apps/billing/services.py:241-277 | dispatches an event to the right sync, with the handled flag and all that was written before raising |
| `BillingService.BillingService.ProcessStripeWebhook` | apps/billing/services.py:167-225 | one delivery: acknowledgement and new tables, committed even when the handler raises |
| `BillingTheorems.EntitlementsFollowPlanLog` | apps/billing/services.py:454-475 | over any run of accesses, consumptions and webhooks, every query at every instant agrees with the plan log |
| `BillingTheorems.BaselineTakesEffectOnce` | apps/billing/services.py:227-239 | after a user's first access, the baseline changes nothing in any longer run |
| `BillingTheorems.CountersCountAcceptances` | apps/billing/repositories.py:248-275 | each monthly counter is the number of limited acceptances in its month and never passes the free limit, whatever plans change |
| `BillingTheorems.CurrentCounterIsTheOneConsumed` | apps/billing/repositories.py:277-290 | the counter listed as current at an instant is the one a consumption then would use, and no other |
| `BillingTheorems.FeatureLookup` | apps/billing/services.py:477-519 | a feature query answers exactly by the plan in force: its spec when the plan has the feature, only specs of that plan |
| `BillingTheorems.ConsumeDecision` | apps/billing/services.py:67-103 | the whole decision table: Pro is always accepted with priority, anyone else exactly while the month has room |
| `BillingTheorems.ReplaysAreStutterSteps` | apps/billing/services.py:167-225 | dropping every delivery after the first settled one of its event leads to the same tables |
| `BillingTheorems.FailedDeliveryTouchesOnlyItsEvent` | apps/billing/services.py:167-225 | a failed delivery changes no entitlement, subscription or counter and settles nothing, given a plan to fall back to |
| `BillingTheorems.FailedDeliveryLeavesNoTrace` | apps/billing/services.py:167-225 | on whatever catalogue, the seeding that starts a delivery included, a failed delivery changes no entitlement, subscription or counter and settles nothing |
| `BillingTheorems.SeedingIsIdempotent` | apps/billing/services.py:428-452 | seeding leaves both default plans, and a second seeding changes neither plans nor prices |
| `BillingTheorems.FailuresLeaveNoTraceExactly` | apps/billing/services.py:375-401 | without the seeding that starts every delivery, failures would leave no trace for all tables and deliveries if and only if the catalogue can fall back |
| `BillingTheorems.OnlySettlingDeliveriesMatter` | apps/billing/services.py:167-225 | billing ends as if only the deliveries that settled an event had been made |
| `BillingTheorems.EventsSettleOnce` | apps/billing/repositories.py:324-339 | no event settles twice, and none that had settled before |
| `BillingTheorems.OwnersNeverChange` | apps/billing/services.py:359-373 | a stored subscription keeps its owner through every later run |
| `BillingTheorems.SyncDecidesThePlan` | apps/billing/services.py:375-401 | after a sync the owner's active rows are exactly those of the synced plan, or of the free plan after a cancellation |
| `Assessments.RunProjects` | apps/assessments/services.py:43-101 | a run of requests, visits and webhooks is a billing run, so every billing theorem holds of it |
| `Assessments.SnapshotVersionsAreConsecutive` | apps/assessments/repositories.py:54-81 | a user's snapshot versions are 1..n, one per assessment, in order |
| `Assessments.KeysStayUnique` | apps/assessments/services.py:43-101 | no run stores two assessments under one key of one user |
| `Assessments.QuotaIsConserved` | apps/assessments/services.py:43-101 | consumptions for a key are its assessment, at most one, plus those cut off or refused for their program |
| `Assessments.AcceptancesAreAssessments` | apps/assessments/services.py:43-101 | a user's limited and unlimited acceptances add up to the user's assessments and those same losses |
| `Assessments.StoredExactlyForAProgram` | apps/assessments/services.py:54-72 | an accepted request with a new key that runs to its end is stored exactly if its program exists; its quota is spent either way |
| `Assessments.OneKeyCanConsumeTwice` | apps/assessments/models.py:64-68 | a run in which one key, asked twice for a program that does not exist, consumes twice and stores nothing |
| `Assessments.AssessmentsService.LatestSnapshotVersion` | apps/assessments/repositories.py:54-63 | the maximum of the user's snapshot versions, zero without any |
| `Assessments.AssessmentsService.Create` | apps/assessments/services.py:43-101 | one request on the real rows: known key, refused quota, interruption, unknown program, or a new snapshot and assessment |
| `Timeline.OverlapIffSharedInstant` | apps/immigration_rules/repositories.py:146-163 | the overlap query holds exactly when two periods share an instant |
| `Timeline.ActiveVersionsAreDisjoint` | apps/immigration_rules/services.py:102-189 | in every run of create, update, activate and publish, active versions of one program never overlap |
| `Timeline.LookupIsUnambiguous` | apps/assessments/repositories.py:121-145 | the scoring lookup has at most one candidate and returns it; its ordering decides nothing |
| `Timeline.ActivationTakesEffect` | apps/immigration_rules/services.py:159-189 | what an activation does to every row, exactly when at most one version overlaps (none without force); otherwise nothing |
| `Timeline.ForcingCanFail` | apps/immigration_rules/services.py:159-189 | a reachable table in which a forced activation changes nothing |
| `Timeline.LookupAfterPublish` | apps/ingestion/publisher.py:107-163 | after a publication the lookup finds the new version from its instant on and nothing before |
| `Timeline.PublicationsTile` | apps/ingestion/repositories.py:317-323 | publications alone leave one period per version, each ending where the next starts |
| `Timeline.EveryInstantHasOneTile` | apps/ingestion/publisher.py:107-163 | from the first publication on, every instant lies in exactly one of those periods |
| `Timeline.VersionStore.CreateProgramVersion` | apps/immigration_rules/services.py:102-132 | stores the row or reports the conflict, unchanged after a rollback |
| `Timeline.VersionStore.UpdateProgramVersion` | apps/immigration_rules/services.py:134-157 | patches the row in place or restores it |
| `Timeline.VersionStore.ActivateProgramVersion` | apps/immigration_rules/services.py:159-189 | activates, archives the others when forced over one conflict, or changes nothing |
| `Timeline.VersionStore.PublishVersion` | apps/ingestion/publisher.py:107-163 | the archive loop and the new row, or a rollback when a constraint refuses one |
| `Sorting.SortForgetsOrder` | apps/assessments/engine.py:131-132 | with unique keys, every order of the same elements sorts to the same list |
| `Sorting.SortMap` | apps/assessments/engine.py:131-132 | sorting commutes with any relabelling that keeps the keys |
| `ScoreEngine.Engine.EvaluateGroupConditions` | apps/assessments/engine.py:301-342 | checks in sorted order and the any/all verdict, raising exactly when some condition cannot be evaluated |
| `ScoreEngine.Engine.EvaluateBlockingPass` | apps/assessments/engine.py:233-264 | the nested loops collect the blocking outcomes of the groups that apply, in order |
| `ScoreEngine.Engine.EvaluateScoringPass` | apps/assessments/engine.py:266-299 | the nested loops record every scoring outcome, with its delta exactly when its group applies |
| `ScoreEngine.Engine.EvaluateProfile` | apps/assessments/engine.py:123-175 | sorting, payload, both passes and normalisation together compute the specified result, or raise |
| `ScoreTheorems.ReorderingChangesNothing` | apps/assessments/engine.py:131-175 | reordering groups, and conditions inside groups, leaves the whole result unchanged, breakdown order and payload included |
| `ScoreTheorems.PayloadFixesTheScore` | apps/assessments/engine.py:177-231 | rule sets with equal payloads give every profile the same score, raw score, band, flags and multisets of items and messages |
| `ScoreTheorems.SegmentsKeepTheirItems` | apps/assessments/engine.py:266-299 | groups with equal payload entries contribute the same multiset of items and deltas and raise alike |
| `ScoreTheorems.OutcomeOrderMovesOnlyWithinAGroup` | apps/assessments/engine.py:217-225 | reordering outcomes keeps the payload, and each group's segment keeps its place and its items |
| `ScoreArithmetic.RawIsTotal` | apps/assessments/engine.py:151-152 | the raw score is the sum of the deltas of the groups that apply |
| `ScoreArithmetic.RawIsWithinRange` | apps/assessments/engine.py:409-431 | it lies between the worst and best possible sums and meets each exactly in the worst and best case |
| `ScoreArithmetic.ScoreIsNearestCent` | apps/assessments/engine.py:433-435 | within range the clamp never fires and the score is the nearest cent, halves up, in whole numbers |
| `ScoreArithmetic.ScoreOfGroups` | apps/assessments/engine.py:409-435 | scores lie in 0.00..100.00; 0.00 without deltas, so an empty range never earns 100.00; best case exactly 100.00, worst exactly 0.00 |
| `ScoreArithmetic.ScoreIsWithinRange` | apps/assessments/engine.py:123-175 | every result the engine returns, blocked or not, is within those bounds |
| `ScoreArithmetic.UnblockedResult` | apps/assessments/engine.py:151-175 | raw score, score, band and eligibility of any result that is not blocked |
| `ScoreArithmetic.ScalingKeepsTheScore` | apps/assessments/engine.py:409-435 | multiplying every delta by a positive number changes the raw score alone, by that factor |
| `ScoreArithmetic.MoreAppliesNeverLowers` | apps/assessments/engine.py:151-175 | when groups start applying only if they cannot lower and stop only if they cannot raise, nothing falls: raw, score, band, eligibility |
| `Signals.BreakdownResponse` | apps/assessments/services.py:254-313 | the view's loop: every entry in order, positive factors and critical gaps by the stored flags |
| `Signals.AppendSignals` | apps/roadmaps/services.py:189-203 | one item's contribution to both lists |
| `Signals.ProviderPayload` | apps/roadmaps/services.py:213-240 | the roadmap's loop builds the same two lists |
| `Signals.RebuiltSignalsAgree` | apps/assessments/services.py:254-313 | lists rebuilt from items stored in any order are the engine's, as multisets, if and only if no applying group has a blocking outcome with a positive delta |
| `Signals.BandsAgree` | apps/roadmaps/services.py:205-211 | the three band functions agree on every score, and with the band of every result |
| `Breaker.BlockedExactlyAtThreshold` | apps/ingestion/gateway.py:120-138 | over any run, a block exists exactly when consecutive failures have reached the threshold |
| `Breaker.FailureRateBound` | apps/ingestion/services.py:154-160 | without a success, a span holds at most threshold + span / hold failing attempts, from any state |
| `Breaker.FailureRateBoundIsTight` | apps/ingestion/gateway.py:120-138 | the bound is attained for every threshold, hold and span |
| `SourceHealth.SourceRow.ResetHealth` | apps/ingestion/repositories.py:351-355 | returns the row to the healthy state |
| `SourceHealth.Gateway.MarkSourceFailure` | apps/ingestion/gateway.py:38-64 | through driver errors the failure takes effect once or never, with doubling waits, and is the abstract failure step |
| `SourceHealth.SchedulerAgreesWithGate` | apps/ingestion/repositories.py:50-57 | the scheduler picks an active source exactly when the gate would let it through |
| `CircuitBreaker.CircuitBreakerState.RecordFailure` | apps/roadmaps/llm.py:42-45 | although it leaves an unset opening time alone, it is the abstract failure step |
| `CircuitBreaker.ResilientProvider.GenerateRoadmap` | apps/roadmaps/llm.py:176-202 | one call is one attempt of the abstract breaker; where the answer and the provider name come from |
| `CircuitBreaker.CallsRefineBreaker` | apps/roadmaps/llm.py:176-202 | a list of calls to one provider object is a run of the abstract breaker, its failures the failing calls to the primary |
| `CircuitBreaker.FailedPrimaryCallsBound` | apps/roadmaps/llm.py:161-202 | the calls that reach the primary of one provider object and fail there are within the rate bound |
| `IngestionRun.RunSession.FinalizeRun` | apps/ingestion/services.py:322-364 | the three counts and the branch on open items, committed as the columns changed since loading; on a row still as loaded, exactly the recount |
| `IngestionRun.VerdictOfRecount` | apps/ingestion/services.py:322-364 | running exactly while an item is open, completed exactly when all succeeded, and the counts partition the items |
| `IngestionRun.RowIsTheLastRecount` | apps/ingestion/tasks.py:38-103 | with undivided recounts, in every state: the row is what the last committed recount made of the items at its event, and settled if and only if it read no open item |
| `IngestionRun.RunSettles` | apps/ingestion/tasks.py:38-103 | with undivided recounts, once all tasks have ended: an accurate row, running only through an item whose error handler failed, unless some task's last recount failed |
| `OverlappingRecounts.ColumnsFollowTheirLastChange` | apps/ingestion/services.py:322-364 | in every interleaving each column holds what the last recount that changed it read, at the event where it read it |
| `OverlappingRecounts.SomeRecountIsFresh` | apps/ingestion/tasks.py:38-103 | once every task has ended with a recount, one of them read the items as they finally are |
| `OverlappingRecounts.ColumnExactly` | apps/ingestion/services.py:322-364 | in every state a column is right if and only if the last recount that changed it read what the items amount to; without one, if and only if there is nothing to count, or an open item in a started run |
| `OverlappingRecounts.ColumnWhenCounted` | apps/ingestion/tasks.py:38-103 | with every task ended by its recount, a column that no recount changed is right |
| `OverlappingRecounts.SettledExactly` | apps/ingestion/services.py:345-350 | in every state of every run the row is settled if and only if the last recount that changed its status had read no open item |
| `OverlappingRecounts.LeftRunningExactly` | apps/ingestion/services.py:345-350 | all tasks ended and all outcomes recorded, the run is left unsettled if and only if that recount read an open item, another task's outcome being recorded later, or there was none, some task's last recount having failed |
| `SteadyRuns.SteadyRunSettledExactly` | apps/ingestion/services.py:322-364 | while no item starts again and no attempt fails before its start is committed: at every moment the run is settled if and only if some committed recount had read no open item |
| `SteadyRuns.NeverLeftRunning` | apps/ingestion/services.py:322-364 | however recounts overlap, such a run is settled once every task has ended with its recount and every outcome is recorded |
| `SteadyRuns.SettledIsExactWithoutRetries` | apps/ingestion/repositories.py:104-120 | without retries a settled row is right at every moment of every run: nothing is open, and it is completed exactly when every item succeeded |
| `SteadyRuns.CountersExactlyWithoutRetries` | apps/ingestion/services.py:333-350 | without retries, in every state, a counter is right if and only if the last recount that changed it read after the outcome of every item it counts; without one, if and only if there is none to count |
| `StaleRecounts.CounterCanBeLeftShort` | apps/ingestion/services.py:345-350 | two successful items, no retry, and a run completed with one of two counted |
| `StaleRecounts.RetriedRunCanBeLeftRunning` | apps/ingestion/services.py:345-350 | three items that all succeed in the end, one on its retry, every attempt failing after its start, and a run left running |
| `StaleRecounts.EarlyFailureCanLeaveRunning` | apps/ingestion/services.py:148-151 | two items, none started twice, one failing before its start is committed, and a run left running |
| `StaleRecounts.UncountedRunCanBeLeftRunning` | apps/ingestion/tasks.py:60-68 | one item that succeeds, both recounts of its task failing, no overlap, and a run left running |
| `Pipeline.IngestionPipelineService.Publish` | apps/ingestion/publisher.py:49-83 | publishes when allowed and changed and attaches the document, or reports the constraint that refused a row |
| `Pipeline.IngestionPipelineService.ExecuteProcessing` | apps/ingestion/services.py:141-298 | gate, raw digest, extraction, fallback, publication and marks with their commits; what is committed when it raises |
| `Pipeline.IngestionPipelineService.ProcessRunItem` | apps/ingestion/services.py:117-139 | either the whole step takes effect or the rollback and the error handler do |
| `PipelineTheorems.CompletedExactlyWhenPublished` | apps/ingestion/services.py:214-298 | an item ends completed exactly when a version was published, exactly under the listed inputs, and then from the deterministic extraction |
| `PipelineTheorems.VersionsEqualCompletions` | apps/ingestion/publisher.py:49-60 | over any run, versions created equal items completed |
| `PipelineTheorems.StepReportsToItsRun` | apps/ingestion/services.py:300-320 | the item statuses a step leaves are those the run protocol takes for a return, a handled error and an unhandled one |
| `PipelineTheorems.StepIsAnAttempt` | apps/ingestion/services.py:300-320 | what a step does to its source's health is one attempt of the abstract breaker, and other sources are untouched |
| `PipelineTheorems.HealthRefinesBreaker` | apps/ingestion/repositories.py:343-355 | over any run each source's health is a run of the abstract breaker |
| `PipelineTheorems.FailingFetchesBound` | apps/ingestion/services.py:154-160 | so the failures counted against a source within a span are bounded |
| `PipelineTheorems.RawSkipKeepsTheItemsDigest` | apps/ingestion/services.py:165-180 | after a skip of unchanged bytes by the newest finished item, an extraction counts as changed if and only if that item's digest is not its own |
| `PipelineTheorems.DigestsAfterRun` | apps/ingestion/services.py:165-180 | after any run that only extracts one digest, an item has it exactly if some step carried the item to its end, and else what it had |
| `PipelineTheorems.RepublishesExactly` | apps/ingestion/repositories.py:357-376 | when known content is published again, in terms of the item that is newest among the finished ones: whether the run carried it to its end, and its digest before |
| `PipelineTheorems.KnownContentIsNotRepublished` | apps/ingestion/diff_engine.py:22-36 | a source that keeps yielding its newest digest publishes nothing while no finished item runs again and no item loses the digest to a skip |
| `PipelineWitnesses.OneDigestTwoVersions` | apps/ingestion/services.py:165-180 | three steps from an empty history that publish one digest twice |
| `PipelineTheorems.ReviewRaisesExactly` | apps/ingestion/publisher.py:62-83 | past the fetch, a step that would not publish raises if and only if the latest version has a document of its address |
| `PipelineTheorems.DocumentsStay` | apps/ingestion/models.py:236-242 | a document key once taken stays taken through every run |
| `PipelineTheorems.SecondReviewFails` | apps/ingestion/services.py:259-278 | after one step that finished without publishing, and any run that keeps the latest version, the next one for it raises and counts as a failure |
| `PipelineWitnesses.TwoReviewsOneFailure` | apps/ingestion/services.py:300-320 | two low-confidence downloads of a program with a version: one recorded, one failure |
| `RunPipeline.BeginThenEnd` | apps/ingestion/services.py:148-160 | with nothing in between, the two commits of a step are the whole step |
| `RunPipeline.MovesMatch` | apps/ingestion/tasks.py:38-103 | any list of starts, ends, early failures, recount events and steps of other runs keeps the items of the sources and the items of the run alike |
| `RunPipeline.RowFollowsTheSources` | apps/ingestion/services.py:322-364 | recounts overlapping with each other and with processing: each column is what the sources' items amounted to when the last recount that changed it read them |
| `RunPipeline.SettledRowTellsTheOutcome` | apps/ingestion/repositories.py:104-120 | without retries, a row settled at any moment of a whole run is completed exactly when the pipeline left each item completed, skipped or for review, and none is open |
| `RunPipeline.SingleTriesAreSteady` | apps/ingestion/tasks.py:60-68 | with one try per task and no early failure, the events of any moves start no item twice and fail no attempt before its start |
| `RunPipeline.SingleTriesTellTheOutcome` | apps/ingestion/tasks.py:38-103 | so such a whole run, each task ended with its recount and each outcome recorded, ends with a row that tells the outcome, whatever overlapped |
| `RunPipeline.RowTellsTheOutcome` | apps/ingestion/tasks.py:38-103 | with retries and undivided recounts, all tasks ended: the row counts what the pipeline left in the sources' items, completed exactly when all succeeded, unless some task's last recount failed |
| `Retry.HandlersAgree` | app/core/retry.py:8-26 | every error is definitive or transient, and score, roadmap and ingestion handlers dead-letter alike |
| `Jobs.Worker.Process` | apps/assessments/services.py:123-145 | ready work is left alone; otherwise what each point of failure leaves behind |
| `Jobs.Worker.HandleFailure` | apps/roadmaps/tasks.py:98-191 | what the two failure handlers mark before they retry, dead-letter, or raise themselves |
| `Jobs.Worker.RunTask` | apps/assessments/tasks.py:28-87 | one delivery: marks, work, marks, and the handler at whatever point it raises |
| `Jobs.ExecutionEnds` | apps/assessments/tasks.py:96-190 | how one execution ends and what that ending says about both rows |
| `Jobs.RetriesEnd` | apps/assessments/tasks.py:96-190 | at most max_retries + 1 executions, the exact total wait, and the state of both rows for every ending |
| `Jobs.BackoffIsBounded` | apps/assessments/tasks.py:177-190 | k executions wait 2^(k-1) - 1 seconds in all, at most 2^max_retries - 1 |
| `Jobs.CompletedJobHasItsResult` | apps/assessments/services.py:123-145 | after any executions of any number of tasks, a completed job has its completed work with a result |
| `Jobs.CompletedJobIsLostExactlyByDeadLetter` | apps/common/repositories.py:129-148 | exactly which later executions take a completed score job out of that status, its score staying |
| `Jobs.CompletedRoadmapIsLostExactlyByDeadLetter` | apps/roadmaps/tasks.py:165-191 | the same for a roadmap job, and exactly when the roadmap is marked failed with it |
| `RateLimit.EveryCounterWillExpire` | app/core/rate_limit.py:70-86 | under any interleaving, a counter without expiry waits for exactly one expire step, and only such a counter |
| `RateLimit.HitsAreWindowed` | app/core/redis.py:23-46 | counts go up by one and restart only at instants a window length apart |
| `RateLimit.WindowAdmitsItsFirstHits` | app/core/rate_limit.py:70-86 | in every run a window admits at most the limit, namely its first hits up to the limit |
| `RateLimit.SpanAdmitsAtMostTwiceTheLimit` | app/core/rate_limit.py:70-86 | any closed span of one window length admits at most twice the limit |
| `RateLimit.LostExpireNeverReopens` | app/core/rate_limit.py:70-86 | without its expire step a counter never reopens |
| `RateLimit.InMemoryRedis.Incr` | app/core/redis.py:23-29 | deletes an expired entry, then counts, keeping the expiry and every other key |
| `RateLimit.InMemoryRedis.Expire` | app/core/redis.py:31-38 | sets the expiry of a live entry and reports whether there was one |
| `RateLimit.RateLimiter.AllowFallbackRequest` | app/core/rate_limit.py:89-99 | one decision of the locked fallback store |
| `RateLimit.RateLimiter.Check` | app/core/rate_limit.py:28-53 | which store decides, what it stores, and the refusal when failing closed |
| `RateLimit.FallbackDecidesAlike` | app/core/rate_limit.py:70-99 | both stores decide every list of requests alike |
| `RecentItems.TruncatingEachTimeLosesNothing` | frontend/src/lib/recent-items.ts:26-38 | truncating at every addition equals keeping the history without repetitions and truncating once |
| `RecentItems.RecentSplits` | frontend/src/lib/recent-items.ts:34-38 | later additions come first and are removed from what was there before |
| `RecentItems.RankIsTheNumberOfLaterItems` | frontend/src/lib/recent-items.ts:34-38 | an item stands right after the different items added since |

## Left out

- SQL, row locks and races on single rows: tables are maps and sequences, queries are predicates, one commit is one step. A start loads the run and commits in one step; a recount loads, reads and commits in three.
- Foreign keys other than an assessment's program: a webhook that names a user without an account is applied, where the database would refuse it and the mark of the failure with it.
- Plan seeding within a run: the catalogue is a constant of each run, as the first seeding leaves it, and no constraint refuses the seeding; text from the payment provider is an enumeration after trimming and case folding.
- Subscription metadata, the conversion metric, checkout sessions and the far end of the calendar (year 9999).
- One reading of the clock per step: the source reads it again between statements.
- Profile normalisation: the engine is modelled from the normalised profile on; how text becomes a number is a parameter.
- Binary floating point and not-a-number: numbers are exact reals, Decimal quotients are exact before rounding.
- JSON serialisation and SHA-256: the canonical payload and the content digests are taken to be injective.
- The payment provider, HTTP fetching, storage, text extraction and the language model: parameters that answer or raise.
- Country and program creation, version labels beyond their uniqueness, silver sections and extraction rows: a refusal by their constraints is one of the ways a step raises.
- A database error before the quarantine gate, except in `RunPipeline`: elsewhere steps raise only after the gate, which the rate bound needs.
- Overlapping attempts on one source: a step reads the gate, the digests and the versions when it ends, whatever came between its start and its end. Overlapping executions of one job are taken one after the other.
- Workers killed by the hard time limit: their item or job stays as last committed.
- Trace ids, durations, start and completion times of runs and items, queue priorities, metrics and logging.
- Explicit nulls and existence checks in the version endpoints, and the rule group, condition and outcome editors.
- Roadmap contracts beyond the presence of steps, profile matching, authentication, middleware, pages, seed scripts and migrations.
