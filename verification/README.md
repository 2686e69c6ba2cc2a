# Origin 247: verified model of its core algorithms

This project models five parts of Origin 247 in Dafny and proves what they promise.

- **The spread matcher** distributes the volumes of generators over consumers in rounds. Each round
  takes the first consumer group with demand left and, for each member, the first preference group
  with volume left, and moves the same amount along every route, or single units when that amount is
  zero. Proved: safety and tightness of each round, exact conservation, the linear bound on rounds,
  strict priority, the stop condition, who is served in each round, fairness to both sides over a whole
  run, and exactly which priorities are safe.
- **The event-sourced certificate ledger** folds events into balances and keeps read models in step
  with the stored events. Proved: conservation of energy with its exact condition, independence from
  the listing of events, balances as sums over the events, agreement of read models with the log, which
  events are refused and why, and that batches refine sequences.
- **The synchronisation with the blockchain** selects stored events, queues them by certificate, sends
  them in blocks and records the outcome. Proved over every run of requests and passes, with every
  answer of the blockchain: ordered at-most-once delivery, every certificate under the id it was issued
  under, nothing skipped, bounded attempts, the exact meaning of the synchronisation flag and of an empty
  selection, that retries end while nothing is requested, and exactly which certificates a pass of any limit, and job after job, then leave unsynchronised
  although the blockchain accepts everything.
- **The life cycle of energy transfer requests** is driven by three background jobs and by validator replies in any
  order. Proved over every interleaving: one issuance and one transfer at most, transfers only of
  certified, validated requests between different parties, and which verdict a request
  gets from the first decisions of its validators.
- **Windowed aggregation** sums or averages readings over windows of fixed length. Proved: frames tile
  the range, every reading belongs to one frame, every value is that of its window's readings, sums are
  conserved, and exactly when they are not.

Each part has a specification on values, lemmas about it, and, where the program works on objects that it
updates in place, classes whose methods are proved to do what the specification says.

| part | specification and lemmas | objects and loops |
|---|---|---|
| spread matcher | `SpreadRound`, `SpreadRoundFacts`, `SpreadLinks`, `SpreadRoundSafety`, `SpreadRepeats`, `SpreadRun`, `SpreadPriority`, `SpreadNeighbours`, `SpreadFairness`, `SpreadChoice`, `SpreadTally`, `SpreadSummary`, `SpreadOutcome` | `SpreadMatcher` |
| ledger | `CertificateEvents`, `CertificateAggregate`, `CertificateLedger`, `CertificateStore`, `CertificateStoreFacts`, `CertificateBatch`, `CertificateRequests` | `CertificateRepositories`, `OffChainCertificateService` |
| synchronisation | `BatchQueue`, `SyncProtocol`, `SyncHistory`, `SyncLog`, `SyncLine`, `SyncStore`, `SyncBlock`, `SyncPass`, `SyncQuiet`, `SyncRun`, `SyncRecords`, `SyncOutcome`, `SyncExamples` | `BlockchainSynchronization` |
| transfer requests | `RequestStates`, `TransferTasks`, `TransferRun`, `TransferVerdict` | `EnergyTransferRequests`, `TransferServices` |
| windows | `Durations`, `WindowedAggregate` | `WindowedAggregate` |

`Arithmetic`, `Sequences`, `StableSort` and `Wrappers` are shared. `dafny verify dfyconfig.toml` checks everything.

## Hypotheses

- The theorems about runs of the matcher need volumes that are not negative and a priority that links no two ids
  more than once; that this is exactly what their safety needs is itself proved, and the matcher is modelled without.
- Stored events get strictly increasing times. The retry limit and the block sizes are at least one.
  The blockchain returns an id for every issued event of an accepted block. Storing never fails.
- Operations of the certificate service are atomic. Requests are served between passes and while a call to the
  blockchain is under way; its answers are arbitrary.
- The selection is that of the Postgres repository, where one event with too many attempts fails its certificate
  even if its last attempt succeeded. The in-memory repository has no limit and another test.
- Each of the three jobs of the transfer requests runs one at a time. Requests are shared objects, as in the in-memory repository.
- Windows have a fixed, positive length.

Where documentation and code differ, the code is modelled: a transfer from an address to itself adds energy, and
without a start a reading on the first window boundary is dropped.

## Model

| member | source | states |
|---|---|---|
| `SpreadMatcher.SpreadMatcher` | packages/origin-247-claim/src/algorithms/spreadMatcher.ts:86-158 | for every priority and all volumes, the result summarises a run of fewer than 10,000 rounds that ends exactly when no route is left: the matches are the summed round matches, the leftovers are the entities with a positive volume in input order, and every entity ends with the volume that the rounds leave it; the error means that 10,000 rounds were played, which cannot be with fewer than 5,000 entities, no negative volume and a priority that links no two ids more than once |
| `SpreadMatcher.MarketIsSound` | packages/origin-247-claim/src/algorithms/spreadMatcher.ts:86-102 | data without negative volumes and a priority that links no two ids more than once give a run to which all theorems about runs apply |
| `SpreadMatcher.LeftoverIsLive` | packages/origin-247-claim/src/algorithms/spreadMatcher.ts:151-156 | where no volume is negative, exactly the entities with any volume are left over |
| `SpreadMatcher.LeftoverMembers` | packages/origin-247-claim/src/algorithms/spreadMatcher.ts:151-156 | for all volumes, exactly the entities with a positive volume are left over |
| `SpreadMatcher.CloneEntities` | packages/origin-247-claim/src/algorithms/spreadMatcher.ts:89-102 | the matcher works on one new object for each entity passed in, so equal ids do not merge entities |
| `SpreadMatcher.PrepareEntitiesForRoundInput` | packages/origin-247-claim/src/algorithms/spreadMatcher.ts:311-339 | exactly the entities with volume stay, in order and grouped by id, and their routes are reset |
| `SpreadMatcher.RecordRoutes` | packages/origin-247-claim/src/algorithms/spreadMatcher.ts:290-293 | every entity lists the other ends of exactly its routes, in route order |
| `SpreadMatcher.GetRoundInput` | packages/origin-247-claim/src/algorithms/spreadMatcher.ts:268-303 | the routes are those of the first usable groups, recorded at both ends, together with the entities that have any |
| `SpreadMatcher.BigNumMinBy` | packages/origin-247-claim/src/algorithms/spreadMatcher.ts:365-379 | the first entity whose volume divided by its number of routes is smallest |
| `SpreadMatcher.ComputeSafeDistribution` | packages/origin-247-claim/src/algorithms/spreadMatcher.ts:208-220 | the entity with the smallest share and that share |
| `SpreadMatcher.MatchRound` | packages/origin-247-claim/src/algorithms/spreadMatcher.ts:225-259 | the same amount along every route, or single units from the chosen entity when that amount is zero |
| `SpreadMatcher.ApplyMatches` | packages/origin-247-claim/src/algorithms/spreadMatcher.ts:131-137 | every entity ends with its volume less what the matches draw from it |
| `SpreadMatcher.SumMatches` | packages/origin-247-claim/src/algorithms/spreadMatcher.ts:171-201 | the summed matches are those of the table of pair totals |
| `SpreadMatcher.PlayRound` | packages/origin-247-claim/src/algorithms/spreadMatcher.ts:116-140 | one pass through the loop: it plays a round exactly when there is a route, and leaves the volumes after that round |
| `SpreadRoundFacts.FirstUsableEntriesIsFirst` | packages/origin-247-claim/src/algorithms/spreadMatcher.ts:345-363 | the chosen priority group has somebody with volume and no earlier group has |
| `SpreadRoundFacts.RouteOrigin` | packages/origin-247-claim/src/algorithms/spreadMatcher.ts:276-288 | every route of a round joins a live member of the first usable group with a live member of its first usable preference group |
| `SpreadRoundFacts.CartesianAt` | packages/origin-247-claim/src/algorithms/spreadMatcher.ts:381-383 | the routes of an entry go through its first entities and, for each of them, through the second ones |
| `SpreadRoundSafety.SafeAmountIsLargest` | packages/origin-247-claim/src/algorithms/spreadMatcher.ts:203-220 | an amount can be moved along all routes at once without overdrawing anybody if and only if it is at most the computed one |
| `SpreadRoundSafety.UniformRound` | packages/origin-247-claim/src/algorithms/spreadMatcher.ts:255-258 | in the uniform branch an entity loses the amount times its number of routes, which is at most what it has |
| `SpreadRoundSafety.UnitRound` | packages/origin-247-claim/src/algorithms/spreadMatcher.ts:233-253 | in the unit branch the chosen entity ends at exactly zero, every served neighbour gives one unit, nobody else is touched |
| `SpreadRoundSafety.RoundIsSafe` | packages/origin-247-claim/src/algorithms/spreadMatcher.ts:225-259 | no round draws more from an entity than it has, or a negative amount |
| `SpreadRoundSafety.MatchesFollowRoutes` | packages/origin-247-claim/src/algorithms/spreadMatcher.ts:225-259 | every match of a round lies on a route, and has positive volume if no volume is negative |
| `SpreadRoundSafety.NothingFromNothing` | packages/origin-247-claim/src/algorithms/spreadMatcher.ts:311-339 | an entity without volume takes no part in a round, even when other volumes are negative |
| `SpreadLinks.CountInRoutes` | packages/origin-247-claim/src/algorithms/spreadMatcher.ts:276-288 | two entities are joined in a round at most as often as the priority links their ids |
| `SpreadLinks.DistinctIdsAreUnambiguous` | packages/origin-247-claim/src/algorithms/spreadMatcher.ts:15-19 | a priority that lists no id twice in a group links no two ids more than once |
| `SpreadRepeats.AmbiguityOverdraws` | packages/origin-247-claim/src/algorithms/spreadMatcher.ts:233-250 | whenever two ids are linked more than once, one consumer with three units and two generators with one unit each are overdrawn in the first round |
| `SpreadRepeats.RepeatedPreferenceOverdraws` | packages/origin-247-claim/src/algorithms/spreadMatcher.ts:233-250 | one entry whose preference group lists an id twice already links two ids twice: the first of two generators with one unit gives two |
| `SpreadRepeats.SafeExactlyWhenUnambiguous` | packages/origin-247-claim/src/algorithms/spreadMatcher.ts:225-303 | the rounds of a priority overdraw nobody, whatever the entities and volumes, if and only if the priority links no two ids more than once |
| `SpreadRun.RoundsBalance` | packages/origin-247-claim/src/algorithms/spreadMatcher.ts:104-141 | whatever the priority, an entity always has what it had less what the rounds drew from it |
| `SpreadRun.RunConserves` | packages/origin-247-claim/src/algorithms/spreadMatcher.ts:104-141 | at any point of a run, what an entity had is what the rounds drew from it plus what it has left, and nothing is negative |
| `SpreadRun.VolumesFall` | packages/origin-247-claim/src/algorithms/spreadMatcher.ts:131-137 | volumes never grow during a run |
| `SpreadRun.UniformThenUnits` | packages/origin-247-claim/src/algorithms/spreadMatcher.ts:225-259 | a uniform round that exhausts nobody keeps the routes and is followed by a unit round |
| `SpreadRun.RoundsAheadFalls` | packages/origin-247-claim/src/algorithms/spreadMatcher.ts:106-141 | every round lowers the bound on the rounds still to come |
| `SpreadRun.RoundBound` | packages/origin-247-claim/src/algorithms/spreadMatcher.ts:106-141 | any run takes at most two rounds for each entity |
| `SpreadPriority.MatchesServeInOrder` | packages/origin-247-claim/src/algorithms/spreadMatcher.ts:268-303 | for every match of a run, all earlier priority groups and all generators of the consumer's earlier preference groups end with nothing left |
| `SpreadPriority.EarlierGroupsEndEmpty` | packages/origin-247-claim/src/algorithms/spreadMatcher.ts:268-303 | if a consumer receives anything, the consumers of all groups before the first that lists it end with nothing left |
| `SpreadPriority.StopsExactlyWhenStuck` | packages/origin-247-claim/src/algorithms/spreadMatcher.ts:116-127 | there is no route exactly when no member of the first group with unmet demand has a generator with volume in any preference group |
| `SpreadFairness.EqualStandingNeighbours` | packages/origin-247-claim/src/algorithms/spreadMatcher.ts:278-293 | consumers of equal standing have the same neighbours, and every generator lists the earlier one first |
| `SpreadFairness.EqualPreferenceNeighbours` | packages/origin-247-claim/src/algorithms/spreadMatcher.ts:278-293 | generators that every preference group lists together have the same neighbours, and every consumer lists the earlier one first |
| `SpreadFairness.RoundIsFair` | packages/origin-247-claim/src/algorithms/spreadMatcher.ts:225-259 | of two entities with the same neighbours, all of which list one of them first, a round draws as much from that one as from the other, or one unit more to empty an entity of the opposite side |
| `SpreadFairness.RunIsFair` | packages/origin-247-claim/src/algorithms/spreadMatcher.ts:225-303 | over a whole run the earlier of two consumers of equal standing with volume left never receives less, and at most one unit more for each generator that the run empties |
| `SpreadFairness.RunIsFairToGenerators` | packages/origin-247-claim/src/algorithms/spreadMatcher.ts:225-303 | over a whole run the earlier of two generators of equal preference with volume left is never used less, and at most one unit more for each consumer that the run satisfies |
| `SpreadChoice.UnitRoundServesFirst` | packages/origin-247-claim/src/algorithms/spreadMatcher.ts:233-253 | when some entity has less volume than routes, and none lacks a unit for each route, the first such entity in the consumers followed by the generators gives one unit to each of its neighbours in their order while its volume lasts; a negative volume leaves out that many of the last neighbours |
| `SpreadChoice.UniformRoundCarries` | packages/origin-247-claim/src/algorithms/spreadMatcher.ts:255-258 | otherwise every route, in order, carries the same amount: the smallest quotient of volume and routes, cut off towards zero |
| `SpreadChoice.ChosenStandsFirst` | packages/origin-247-claim/src/algorithms/spreadMatcher.ts:365-379 | the entity that measures a round has the smallest share of all that have a route, and everybody with a route before it in the two lists has a larger one |
| `SpreadChoice.EarlierConsumerFirst` | packages/origin-247-claim/src/algorithms/spreadMatcher.ts:225-303 | of two consumers of equal standing, the one that stands first in the list and asks for no more than the other never ends with more left; if both ask for the same it never receives less, whether or not they are satisfied |
| `SpreadChoice.EarlierGeneratorFirst` | packages/origin-247-claim/src/algorithms/spreadMatcher.ts:225-303 | the same for two generators of equal preference |
| `SpreadTally.TallyKeepsTotals` | packages/origin-247-claim/src/algorithms/spreadMatcher.ts:171-201 | summing by pairs keeps every pair's and every entity's total |
| `SpreadTally.TallySumsPairs` | packages/origin-247-claim/src/algorithms/spreadMatcher.ts:171-201 | every pair occurs once among the summed matches, with a positive volume that is its total |
| `SpreadSummary.SummaryIsExact` | packages/origin-247-claim/src/algorithms/spreadMatcher.ts:171-201 | for all volumes, the summed matches are, for each first entity in the order of its first match and for each entity it is matched with in that order, the total of their matches |
| `SpreadSummary.RoundsInOrder` | packages/origin-247-claim/src/algorithms/spreadMatcher.ts:151 | the matches are summed round by round |
| `SpreadOutcome.MatchesConserve` | packages/origin-247-claim/src/algorithms/spreadMatcher.ts:131-157 | exact conservation: initial volume is the returned matches touching the entity plus its leftover |
| `StableSort.SortIsOrdered` | packages/origin-247-certificate/src/offchain-certificate/certificate.aggregate.ts:23 | sorting permutes the events and orders them |
| `StableSort.OrderedIsUnique` | packages/origin-247-certificate/src/offchain-certificate/certificate.aggregate.ts:23 | with distinct times there is one ordered listing |
| `StableSort.SortKeepsTies` | packages/origin-247-certificate/src/offchain-certificate/certificate.aggregate.ts:23 | events with equal times stay in their order |
| `CertificateAggregate.LogOrderIndependence` | packages/origin-247-certificate/src/offchain-certificate/certificate.aggregate.ts:22-43 | any listing of events with distinct times gives the same certificate or the same error |
| `CertificateAggregate.EnergyOfLog` | packages/origin-247-certificate/src/offchain-certificate/certificate.aggregate.ts:133-207 | owned and claimed energy together are the issued value plus whatever was transferred from an address to itself |
| `CertificateAggregate.ConservedExactlyWhen` | packages/origin-247-certificate/src/offchain-certificate/certificate.aggregate.ts:144-151 | energy is conserved if and only if nothing was moved from an address to itself |
| `CertificateAggregate.SelfTransferAddsEnergy` | packages/origin-247-certificate/src/offchain-certificate/certificate.aggregate.ts:144-151 | ten units become fifteen by a transfer of five from an address to itself |
| `CertificateAggregate.BalancesNotNegative` | packages/origin-247-certificate/src/offchain-certificate/certificate.aggregate.ts:133-207 | no balance of an accepted log with non-negative values is negative |
| `CertificateAggregate.ClaimersAgreeWithClaims` | packages/origin-247-certificate/src/offchain-certificate/certificate.aggregate.ts:171-207 | an address's claimed total is the sum of its entries among the claims |
| `CertificateLedger.BalancesOfLog` | packages/origin-247-certificate/src/offchain-certificate/certificate.aggregate.ts:133-207 | every address of an accepted log holds what was issued and sent to it, less what it sent to others and claimed, as sums over the events, and has claimed the sum of its claims; what it sends to itself counts as received |
| `CertificateLedger.RefusedExactly` | packages/origin-247-certificate/src/offchain-certificate/certificate.aggregate.ts:223-270 | after accepted events a further one is refused with an error if and only if the sums over the events before it, and its own addresses, say so |
| `CertificateLedger.AcceptedExactly` | packages/origin-247-certificate/src/offchain-certificate/certificate.aggregate.ts:22-43 | a log in order is accepted if and only if none of its events is refused after those before it |
| `CertificateLedger.FirstRefusal` | packages/origin-247-certificate/src/offchain-certificate/certificate.aggregate.ts:22-43 | the error of a log is that of its first refused event |
| `CertificateLedger.SyncedExactly` | packages/origin-247-certificate/src/offchain-certificate/certificate.aggregate.ts:272-303 | a log without refused events makes a synchronised certificate if and only if it has as many records of success as events for the blockchain, and is refused for too many if and only if it has more |
| `CertificateLedger.ReadModelOfLog` | packages/origin-247-certificate/src/offchain-certificate/certificate.aggregate.ts:83-131 | the id and details of an accepted log are those of its issuance, claims and transactions are those that its events tell of in the order of their times, and the blockchain id is that of the last record of an issuance |
| `CertificateStoreFacts.AppendConsistent` | packages/origin-247-certificate/src/offchain-certificate/offchain-certificate.service.ts:289-319 | every single operation, accepted or rejected, keeps all read models equal to the fold of their stored events, and keeps the rows of attempts for exactly the synchronisable events |
| `CertificateStoreFacts.IssueAccepted` | packages/origin-247-certificate/src/offchain-certificate/offchain-certificate.service.ts:95-108 | an issuance is never rejected |
| `CertificateStoreFacts.FirstEvent` | packages/origin-247-certificate/src/offchain-certificate/certificate.aggregate.ts:26-35 | a certificate's first event is accepted if and only if it is its issuance |
| `CertificateBatch.BatchRefinesSequence` | packages/origin-247-certificate/src/offchain-certificate/offchain-certificate.service.ts:232-297 | a batch is accepted exactly when its commands would all be accepted one by one, and then leaves the same store; otherwise only the recorded commands change |
| `CertificateBatch.BatchRefinesSequenceAtOtherTimes` | packages/origin-247-certificate/src/offchain-certificate/offchain-certificate.service.ts:232-297 | the same when the batch and the sequence create their events at different times, which is then all they differ in |
| `CertificateBatch.BatchConsistent` | packages/origin-247-certificate/src/offchain-certificate/offchain-certificate.service.ts:321-339 | batches, accepted or rejected, keep the read models in step with the log |
| `CertificateBatch.BatchIssueAccepted` | packages/origin-247-certificate/src/offchain-certificate/offchain-certificate.service.ts:182-213 | a batch of issuances is always accepted and keeps the read models in step |
| `CertificateRequests.ServeAnswers` | packages/origin-247-certificate/src/offchain-certificate/offchain-certificate.service.ts:95-297 | whatever is requested, its commands are recorded in order; if every certificate accepts its share, exactly one event for each command is stored, with the values and addresses of the command, under the next ids and times, with a fresh row and in the read models, and everything else stays; otherwise nothing but the commands is stored |
| `OffChainCertificateService.AggregateHasId` | packages/origin-247-certificate/src/offchain-certificate/certificate.aggregate.ts:83-87 | the certificate built from the events of an id carries that id, which is the key it is saved under |
| `OffChainCertificateService.OffChainCertificateService.CreateAggregate` | packages/origin-247-certificate/src/offchain-certificate/offchain-certificate.service.ts:289-297 | the aggregate is that of the stored events followed by the new ones |
| `OffChainCertificateService.OffChainCertificateService.Propagate` | packages/origin-247-certificate/src/offchain-certificate/offchain-certificate.service.ts:303-319 | the read model, the event, its row and the row it updates all change as the specified step says |
| `OffChainCertificateService.OffChainCertificateService.IssueWithoutValidation` | packages/origin-247-certificate/src/offchain-certificate/offchain-certificate.service.ts:95-108 | the stored state and the outcome are those of the specified issuance |
| `OffChainCertificateService.OffChainCertificateService.TransferOrClaimWithoutValidation` | packages/origin-247-certificate/src/offchain-certificate/offchain-certificate.service.ts:115-132 | the same for a transfer or a claim |
| `OffChainCertificateService.OffChainCertificateService.RecordOutcome` | packages/origin-247-certificate/src/offchain-certificate/offchain-certificate.service.ts:134-180 | the same for the records of persisted events and of errors |
| `OffChainCertificateService.OffChainCertificateService.CreateAggregates` | packages/origin-247-certificate/src/offchain-certificate/utils/batch.utils.ts:15-23 | one aggregate for every group, or none at all when some group is rejected |
| `OffChainCertificateService.OffChainCertificateService.PropagateMany` | packages/origin-247-certificate/src/offchain-certificate/offchain-certificate.service.ts:321-339 | the models, events and rows of a batch are saved as the specified batch says |
| `OffChainCertificateService.OffChainCertificateService.BatchTransferOrClaim` | packages/origin-247-certificate/src/offchain-certificate/offchain-certificate.service.ts:215-287 | the stored state and the acceptance are those of the specified batch |
| `OffChainCertificateService.OffChainCertificateService.BatchIssueWithoutValidation` | packages/origin-247-certificate/src/offchain-certificate/offchain-certificate.service.ts:182-213 | the same for a batch of issuances, with the ids that were handed out |
| `CertificateRepositories.CommandRepository.SaveMany` | packages/origin-247-certificate/src/offchain-certificate/repositories/CertificateCommand/CertificateCommandInMemory.repository.ts:25-40 | commands are appended in order |
| `CertificateRepositories.CertificateEventRepository.GetByInternalCertificateId` | packages/origin-247-certificate/src/offchain-certificate/repositories/CertificateEvent/CertificateEventPostgres.repository.ts:32-40 | exactly the events of the certificate, in order |
| `CertificateRepositories.CertificateEventRepository.SaveMany` | packages/origin-247-certificate/src/offchain-certificate/repositories/CertificateEvent/CertificateEventInMemory.repository.ts:45-65 | events are appended under consecutive ids |
| `CertificateRepositories.CertificateEventRepository.UpdateAttempt` | packages/origin-247-certificate/src/offchain-certificate/repositories/CertificateEvent/CertificateEventPostgres.repository.ts:111-126 | every row under one of the ids is counted up once and gets the error, and no other row changes |
| `CertificateRepositories.CertificateEventRepository.FindAllToProcess` | packages/origin-247-certificate/src/offchain-certificate/repositories/CertificateEvent/CertificateEventPostgres.repository.ts:128-173 | the events returned are those of the selection predicate, by time, up to the limit |
| `CertificateRepositories.CertificateEventRepository.FailedCertificates` | packages/origin-247-certificate/src/offchain-certificate/repositories/CertificateEvent/CertificateEventPostgres.repository.ts:129-139 | the certificates with an event whose attempts reached the limit |
| `CertificateRepositories.CertificateEventRepository.GetBlockchainIdMap` | packages/origin-247-certificate/src/offchain-certificate/repositories/CertificateEvent/CertificateEventPostgres.repository.ts:185-202 | the blockchain ids recorded for the given certificates, a later record overwriting an earlier one |
| `SyncProtocol.InIdMap` | packages/origin-247-certificate/src/offchain-certificate/repositories/CertificateEvent/CertificateEventPostgres.repository.ts:185-202 | a certificate is in the map if and only if it was asked for and its issuance has been recorded |
| `SyncProtocol.LatestRecordWins` | packages/origin-247-certificate/src/offchain-certificate/repositories/CertificateEvent/CertificateEventPostgres.repository.ts:185-202 | the id in the map is that of the last record of the certificate's issuance |
| `CertificateRepositories.CertificateEventService.Save` | packages/origin-247-certificate/src/offchain-certificate/repositories/CertificateEvent/CertificateEvent.service.ts:17-40 | the event is appended, with a fresh row of attempts if and only if it is to be synchronised |
| `CertificateRepositories.CertificateEventService.SaveMany` | packages/origin-247-certificate/src/offchain-certificate/repositories/CertificateEvent/CertificateEvent.service.ts:42-67 | the same for many events |
| `CertificateRepositories.CertificateReadModelRepository.SaveMany` | packages/origin-247-certificate/src/offchain-certificate/repositories/CertificateReadModel/CertificateReadModelInMemory.repository.ts:21-32 | every saved model is found under its id and all other entries stay |
| `BatchQueue.PopTakesHeads` | packages/origin-247-certificate/src/offchain-certificate/synchronize/strategies/batch/events.batch-queue.ts:15-29 | a popped batch holds the first waiting event of every certificate and nothing else, and the rest keeps waiting |
| `BatchQueue.PopAscends` | packages/origin-247-certificate/src/offchain-certificate/synchronize/strategies/batch/events.batch-queue.ts:15-29 | a batch lists its certificates by ascending id |
| `BatchQueue.PopShortens` | packages/origin-247-certificate/src/offchain-certificate/synchronize/strategies/batch/events.batch-queue.ts:15-29 | popping shortens the longest waiting list by one |
| `BatchQueue.DrainReturnsAll` | packages/origin-247-certificate/src/offchain-certificate/synchronize/strategies/batch/events.batch-queue.ts:9-39 | draining returns each certificate's events in their order, each once, at most one per batch, in as many batches as the longest list has events |
| `BatchQueue.DrainSortsEvents` | packages/origin-247-certificate/src/offchain-certificate/synchronize/strategies/batch/events.batch-queue.ts:9-33 | draining the queue of some events returns exactly those events, each certificate's sorted by time |
| `BlockchainSynchronization.EventsBatchQueue.constructor` | packages/origin-247-certificate/src/offchain-certificate/synchronize/strategies/batch/events.batch-queue.ts:9-13 | the queue holds the sorted events by certificate |
| `BlockchainSynchronization.EventsBatchQueue.PopBatch` | packages/origin-247-certificate/src/offchain-certificate/synchronize/strategies/batch/events.batch-queue.ts:15-29 | the batch and the queue are those of the specified pop |
| `BlockchainSynchronization.EventsBatchQueue.RemoveEventsForCertificateIds` | packages/origin-247-certificate/src/offchain-certificate/synchronize/strategies/batch/events.batch-queue.ts:35-39 | exactly the given certificates leave the queue |
| `BlockchainSynchronization.PersistHandler.SynchronizeBatchBlock` | packages/origin-247-certificate/src/offchain-certificate/synchronize/handlers/issue-persist.handler.ts:24-68 | the store, the blockchain and the failed ids after a block are those of the specified block |
| `BlockchainSynchronization.PersistHandler.HandleBatch` | packages/origin-247-certificate/src/offchain-certificate/synchronize/handlers/issue-persist.handler.ts:70-87 | the same for all the blocks of a batch |
| `BlockchainSynchronization.BatchSynchronizeStrategy.GetEventsWithBlockchainId` | packages/origin-247-certificate/src/offchain-certificate/synchronize/strategies/batch/batch-synchronize.strategy.ts:80-107 | exactly the events of certificates whose issuance has been recorded, and the recorded ids of their certificates |
| `BlockchainSynchronization.BatchSynchronizeStrategy.SynchronizeKind` | packages/origin-247-certificate/src/offchain-certificate/synchronize/strategies/batch/batch-synchronize.strategy.ts:43-75 | sending one kind of events of a batch is the specified phase |
| `BlockchainSynchronization.BatchSynchronizeStrategy.SynchronizeBatch` | packages/origin-247-certificate/src/offchain-certificate/synchronize/strategies/batch/batch-synchronize.strategy.ts:37-76 | one turn of the loop is the specified round |
| `BlockchainSynchronization.BatchSynchronizeStrategy.Synchronize` | packages/origin-247-certificate/src/offchain-certificate/synchronize/strategies/batch/batch-synchronize.strategy.ts:29-78 | the whole loop is the specified pass |
| `BlockchainSynchronization.BlockchainSynchronizeTask.SynchronizeWithBlockchain` | packages/origin-247-certificate/src/offchain-certificate/synchronize/blockchain-synchronize.task.ts:26-54 | the job is the specified repetition of passes, at most fifty |
| `SyncProtocol.RoundShrinksQueue` | packages/origin-247-certificate/src/offchain-certificate/synchronize/strategies/batch/batch-synchronize.strategy.ts:37-76 | every turn of the loop shortens the longest waiting list, so the loop ends |
| `SyncProtocol.BlocksAreFull` | packages/origin-247-certificate/src/offchain-certificate/synchronize/handlers/transfer-persist.handler.ts:28-31 | the blocks of a batch hold its events in their order, and all but the last are full |
| `SyncLog.DeliveredIsPrefix` | packages/origin-247-certificate/src/offchain-certificate/synchronize/strategies/batch/batch-synchronize.strategy.ts:29-78 | when events are only attempted after everything before them is done, what is delivered is a prefix of what goes out |
| `SyncLog.RecordIsSound` | packages/origin-247-certificate/src/offchain-certificate/offchain-certificate.service.ts:303-319 | recording the outcome of an event that was ready keeps a certificate's log sound: order of attempts, bounds, known blockchain id, count of what is owed |
| `SyncLine.SuccessKeepsStanding` | packages/origin-247-certificate/src/offchain-certificate/synchronize/handlers/transfer-persist.handler.ts:45-61 | after a success the next event of the certificate is the first in line |
| `SyncLine.FailureKeepsStanding` | packages/origin-247-certificate/src/offchain-certificate/synchronize/handlers/transfer-persist.handler.ts:62-78 | after a failure whoever waited behind the failed event is accounted for by it |
| `SyncStore.RecordAccepted` | packages/origin-247-certificate/src/offchain-certificate/certificate.aggregate.ts:272-303 | the record of an outcome is never rejected, in particular not for too many persisted events |
| `SyncStore.ServeGrows` | packages/origin-247-certificate/src/offchain-certificate/offchain-certificate.service.ts:84-132 | whatever is requested meanwhile only appends new, unattempted events |
| `SyncBlock.SendBlockIsGood` | packages/origin-247-certificate/src/offchain-certificate/synchronize/handlers/transfer-persist.handler.ts:41-79 | a block leaves everything in place whatever the blockchain answers: no exception escapes, and exactly the certificates of a refused block have failed |
| `SyncPass.HandleBlocksIsGood` | packages/origin-247-certificate/src/offchain-certificate/synchronize/handlers/claim-persist.handler.ts:22-38 | a handler sends every event it is given, whatever fails |
| `SyncPass.ReadyHasBlockchainId` | packages/origin-247-certificate/src/offchain-certificate/synchronize/strategies/batch/batch-synchronize.strategy.ts:80-107 | an event that may be sent and is not the issuance has a blockchain id |
| `SyncPass.PhaseSendsAll` | packages/origin-247-certificate/src/offchain-certificate/synchronize/strategies/batch/batch-synchronize.strategy.ts:43-75 | no popped event is left out of its phase, neither for a failed certificate nor for lack of a blockchain id |
| `SyncPass.RoundIsGood` | packages/origin-247-certificate/src/offchain-certificate/synchronize/strategies/batch/batch-synchronize.strategy.ts:37-76 | one turn of the loop keeps the invariant, and what it calls the blockchain with is the issuances, then the transfers, then the claims of the popped batch, block by block |
| `SyncPass.RoundsAreGood` | packages/origin-247-certificate/src/offchain-certificate/synchronize/strategies/batch/batch-synchronize.strategy.ts:37-76 | the loop keeps the invariant and ends with an empty queue |
| `SyncRun.SelectionLinesUp` | packages/origin-247-certificate/src/offchain-certificate/repositories/CertificateEvent/CertificateEventPostgres.repository.ts:141-173 | the selected events of a certificate are a line without gaps: nothing before them is undone and unselected |
| `SyncRun.SelectionIsFull` | packages/origin-247-certificate/src/offchain-certificate/repositories/CertificateEvent/CertificateEventPostgres.repository.ts:141-173 | an event that could be selected is left out only when the limit is used up by earlier ones |
| `SyncRun.PassOutcome` | packages/origin-247-certificate/src/offchain-certificate/synchronize/strategies/batch/batch-synchronize.strategy.ts:29-78 | in one pass every selected event is attempted exactly once, or is stopped by an earlier event of its certificate that was attempted exactly once and failed; nothing is attempted twice, and the row of every event that was not selected stays as it is |
| `SyncRun.PassIsBounded` | packages/origin-247-certificate/src/offchain-certificate/repositories/CertificateEvent/CertificateEventPostgres.repository.ts:128-173 | a pass makes at most as many attempts as it selected events, which are no more than its limit |
| `SyncRun.EveryRun` | packages/origin-247-certificate/src/offchain-certificate/synchronize/strategies/batch/batch-synchronize.strategy.ts:29-107 | the invariant holds after every run of requests and passes with arbitrary answers of the blockchain, and no exception escapes |
| `SyncRun.DeliveryIsOrdered` | packages/origin-247-certificate/src/offchain-certificate/synchronize/strategies/batch/batch-synchronize.strategy.ts:29-107 | what the blockchain has accepted of a certificate is a prefix of its outgoing events in log order, each once |
| `SyncRun.SyncFlagIsExact` | packages/origin-247-certificate/src/offchain-certificate/certificate.aggregate.ts:272-303 | in every reachable state the flag is set if and only if the blockchain has accepted all outgoing events of the certificate |
| `SyncRun.ReadModelsAgree` | packages/origin-247-certificate/src/offchain-certificate/offchain-certificate.service.ts:289-339 | in every reachable state every stored read model is the fold of its stored events |
| `SyncRecords.RecordsAreReceipts` | packages/origin-247-certificate/src/offchain-certificate/synchronize/handlers/issue-persist.handler.ts:29-48 | over every run, the records of success in the log are exactly the receipts of the accepted calls, in their order |
| `SyncRecords.SuccessIsOnRecord` | packages/origin-247-certificate/src/offchain-certificate/synchronize/handlers/transfer-persist.handler.ts:45-60 | over every run, of the k-th event of every accepted call a record names that event and the call's hash, and of an issuance the k-th id that the blockchain returned |
| `SyncRecords.IssuedIdIsKept` | packages/origin-247-certificate/src/offchain-certificate/synchronize/handlers/issue-persist.handler.ts:29-48 | over every run, the certificate of the k-th event of an accepted issuance call has the k-th id that was returned for that call, in its read model and wherever its id is looked up |
| `SyncRecords.SentUnderReturnedId` | packages/origin-247-certificate/src/offchain-certificate/synchronize/strategies/batch/batch-synchronize.strategy.ts:50-75 | over every run, every transfer and claim goes out under the id that the blockchain returned for the issuance of its certificate in an earlier call |
| `SyncRun.NeverTooManyPersisted` | packages/origin-247-certificate/src/offchain-certificate/certificate.aggregate.ts:297-302 | no reachable request is refused because of too many persisted events |
| `SyncRun.AttemptsAreBounded` | packages/origin-247-certificate/src/offchain-certificate/repositories/CertificateEvent/CertificateEventPostgres.repository.ts:111-165 | no row ever counts more attempts than the limit |
| `SyncRun.NothingToSelect` | packages/origin-247-certificate/src/offchain-certificate/repositories/CertificateEvent/CertificateEventPostgres.repository.ts:128-173 | nothing is selected if and only if every certificate has an event whose attempts reached the limit or has been accepted in full |
| `SyncRun.PassMakesProgress` | packages/origin-247-certificate/src/offchain-certificate/repositories/CertificateEvent/CertificateEventPostgres.repository.ts:111-173 | a pass over a non-empty selection raises the total number of attempts |
| `SyncRun.RemainingFalls` | packages/origin-247-certificate/src/offchain-certificate/repositories/CertificateEvent/CertificateEventPostgres.repository.ts:111-173 | a pass over a non-empty selection strictly lowers the number of attempts that are left while nothing is requested; otherwise it lowers it by more than newly arrived events raise it |
| `SyncQuiet.PassIsCalm` | packages/origin-247-certificate/src/offchain-certificate/synchronize/strategies/batch/batch-synchronize.strategy.ts:29-107 | a pass during which nothing is requested adds no event that goes to the blockchain |
| `SyncRun.TaskMakesProgress` | packages/origin-247-certificate/src/offchain-certificate/synchronize/blockchain-synchronize.task.ts:26-46 | whatever is requested meanwhile, a job that still finds something after a number of passes has made at least that many attempts, of which there are at most the limit for each outgoing event |
| `SyncRun.TaskRunsDry` | packages/origin-247-certificate/src/offchain-certificate/synchronize/blockchain-synchronize.task.ts:26-46 | while nothing is requested, a job with as many passes as attempts are left ends with nothing selected |
| `SyncRun.RetriesEnd` | packages/origin-247-certificate/src/offchain-certificate/synchronize/blockchain-synchronize.task.ts:26-46 | retries end: such a job leaves every certificate with an event whose attempts reached the limit or accepted in full, whatever the blockchain answers |
| `SyncRun.TaskInParts` | packages/origin-247-certificate/src/offchain-certificate/synchronize/blockchain-synchronize.task.ts:26-46 | two jobs in a row do what one job with the passes of both does |
| `SyncRun.JobsEndRetries` | packages/origin-247-certificate/src/offchain-certificate/synchronize/blockchain-synchronize.task.ts:26-46 | the same end of retries for job after job with fifty passes each |
| `SyncOutcome.FailedForGood` | packages/origin-247-certificate/src/offchain-certificate/repositories/CertificateEvent/CertificateEventPostgres.repository.ts:128-165 | once an event of a certificate has reached the limit, with or without an error, no event of that certificate is attempted or accepted in any continuation of the run |
| `SyncOutcome.NeverSynchronised` | packages/origin-247-certificate/src/offchain-certificate/repositories/CertificateEvent/CertificateEventPostgres.repository.ts:128-165 | if such a certificate has an event that was not accepted, it never becomes synchronised |
| `SyncOutcome.AcceptingPassDelivers` | packages/origin-247-certificate/src/offchain-certificate/synchronize/strategies/batch/batch-synchronize.strategy.ts:29-78 | over a blockchain that accepts everything a pass attempts every event that it selects once and delivers it |
| `SyncOutcome.PassExactly` | packages/origin-247-certificate/src/offchain-certificate/repositories/CertificateEvent/CertificateEventPostgres.repository.ts:128-173 | over such a blockchain, and while nothing is requested, a pass with any limit leaves a certificate accepted in full if and only if it selects all of its events that are not done yet |
| `SyncOutcome.FailedExactly` | packages/origin-247-certificate/src/offchain-certificate/repositories/CertificateEvent/CertificateEventPostgres.repository.ts:128-165 | over such a blockchain, a pass with any limit leaves a certificate failed if and only if it had failed before or an event of it was selected for its last attempt |
| `SyncOutcome.SynchronisedExactlyWhen` | packages/origin-247-certificate/src/offchain-certificate/repositories/CertificateEvent/CertificateEventPostgres.repository.ts:128-173 | without a limit the certificate is accepted in full if and only if it had not failed before or was accepted in full already |
| `SyncOutcome.TurnDecides` | packages/origin-247-certificate/src/offchain-certificate/repositories/CertificateEvent/CertificateEventPostgres.repository.ts:128-173 | the first pass that selects an event of a certificate either accepts it in full, or leaves it with more attempts, or leaves it failed |
| `SyncOutcome.TaskDeliversExactly` | packages/origin-247-certificate/src/offchain-certificate/synchronize/blockchain-synchronize.task.ts:26-46 | over a blockchain that accepts everything, and while nothing is requested, a job with as many passes as attempts are left, each of 500 events, leaves a certificate accepted in full if and only if it was so before, or it had not failed and either no undone event of it is at its last attempt or the pass of its first turn selects all its undone events |
| `SyncOutcome.JobsDeliverExactly` | packages/origin-247-certificate/src/offchain-certificate/synchronize/blockchain-synchronize.task.ts:26-46 | the same for job after job of fifty passes |
| `SyncOutcome.SlackOfFirst` | packages/origin-247-certificate/src/offchain-certificate/repositories/CertificateEvent/CertificateEventPostgres.repository.ts:128-165 | no undone event of a certificate is at its last attempt if and only if the first one is not |
| `SyncExamples.FailedBySucceeding` | packages/origin-247-certificate/src/offchain-certificate/repositories/CertificateEvent/CertificateEventPostgres.repository.ts:128-165 | with one attempt allowed and everything accepted, a certificate that is issued, synchronised and then transferred never becomes synchronised again, although none of its events ever had an error |
| `SyncExamples.FailedByLimit` | packages/origin-247-certificate/src/offchain-certificate/repositories/CertificateEvent/CertificateEventPostgres.repository.ts:128-173 | with one attempt allowed and everything accepted, a certificate that had not failed never becomes synchronised when the limit of a pass, whatever it is, falls between its issuance and its transfer |
| `EnergyTransferRequests.EnergyTransferRequest.constructor` | packages/origin-247-transfer/src/EnergyTransferRequest.ts:234-246 | a new request awaits its issuance, or is skipped when its volume is zero |
| `EnergyTransferRequests.EnergyTransferRequest.NextState` | packages/origin-247-transfer/src/EnergyTransferRequest.ts:255-266 | the state changes if and only if it was the expected one |
| `EnergyTransferRequests.EnergyTransferRequest.IssuanceFinished` | packages/origin-247-transfer/src/EnergyTransferRequest.ts:122-127 | the request stores its certificate and awaits persistence, or is left alone when it was in another state |
| `EnergyTransferRequests.EnergyTransferRequest.Persisted` | packages/origin-247-transfer/src/EnergyTransferRequest.ts:129-137 | it awaits validation, or skips it when buyer and seller are the same |
| `EnergyTransferRequests.EnergyTransferRequest.StartValidation` | packages/origin-247-transfer/src/EnergyTransferRequest.ts:139-156 | every validator is pending, or the request passes at once when there is none |
| `EnergyTransferRequests.EnergyTransferRequest.UpdateValidationStatus` | packages/origin-247-transfer/src/EnergyTransferRequest.ts:163-200 | the record, the state and the code are those of the specified reply |
| `TransferTasks.ForEachChangesEach` | packages/origin-247-transfer/src/issue.service.ts:34-65 | when nobody throws, each request of a batch has undergone the change once and no other has changed |
| `TransferTasks.FindsExactly` | packages/origin-247-transfer/src/repositories/EnergyTransferRequestInMemory.repository.ts:42-47 | a request is found if and only if it is in the state and fewer requests than the limit are so before it, and what is found is in the order of the repository |
| `TransferRun.EndIssuanceChangesEach` | packages/origin-247-transfer/src/issue.service.ts:38-64 | after a successful issuance the k-th request has the k-th certificate id and the state that follows; after a failure all are in error |
| `TransferRun.DecisionIsFirst` | packages/origin-247-transfer/src/EnergyTransferRequest.ts:173-182 | a validator's decision is the status of its first reply that is not pending |
| `TransferRun.ReplyIsJudged` | packages/origin-247-transfer/src/EnergyTransferRequest.ts:182-197 | a reply leaves a request passed, refused or waiting according to everything decided so far |
| `TransferRun.EveryRun` | packages/origin-247-transfer/src/EnergyTransferRequest.ts:113-213 | the invariant holds after every interleaving of the three jobs and the replies, and no state change is asked for in the wrong state |
| `TransferRun.HandedOverAtMostOnce` | packages/origin-247-transfer/src/EnergyTransferRequest.ts:113-213 | a request is handed over for issuance at most once and for transfer at most once |
| `TransferRun.SentOnlyWhenValid` | packages/origin-247-transfer/src/transfer.service.ts:34-54 | whatever is sent has its certificate, goes from the seller to a different buyer, and was found valid by every validator |
| `TransferRun.PassesExactlyWhen` | packages/origin-247-transfer/src/EnergyTransferRequest.ts:163-200 | a request passes validation if and only if every validator's first decision is that it is valid, whatever the order of replies |
| `TransferRun.RefusedExactlyWhen` | packages/origin-247-transfer/src/EnergyTransferRequest.ts:189-192 | it is refused if and only if some validator's first decision is invalid or an error |
| `TransferVerdict.RefusedAsReplied` | packages/origin-247-transfer/src/EnergyTransferRequest.ts:182-197 | over every run a request whose validation has started is in error if and only if the earliest of its validators' first decisions that is not valid is an error, and invalid if and only if that decision is invalid |
| `TransferVerdict.ReplyIsAnswered` | packages/origin-247-transfer/src/EnergyTransferRequest.ts:167-199 | a reply succeeds if and only if it is of a validator of a started request that has not decided yet; the two other codes are told apart exactly, and with them nothing changes |
| `TransferVerdict.OnlyRepliesRefuse` | packages/origin-247-transfer/src/EnergyTransferRequest.ts:182-197 | no job puts a request in a refused state or takes it out of one |
| `TransferVerdict.IssuingStarts` | packages/origin-247-transfer/src/issue.service.ts:23-36 | a request goes on to its issuance if and only if it waits for it and fewer than a batch of requests wait before it; the batch is in the order of the repository |
| `TransferVerdict.IssuingEnds` | packages/origin-247-transfer/src/issue.service.ts:38-64 | the k-th request of a finished batch has the k-th certificate and skips its validation if and only if buyer and seller are the same; of a failed batch every request is in error with the message; nobody else changes |
| `TransferVerdict.ValidatingStarts` | packages/origin-247-transfer/src/validate.service.ts:42-55 | the waiting requests with fewer than a batch of others before them have exactly the validators pending, or pass at once when there are none; nobody else changes |
| `TransferVerdict.TransferringStarts` | packages/origin-247-transfer/src/transfer.service.ts:23-36 | the same for the requests that go on to their transfer |
| `TransferVerdict.TransferringEnds` | packages/origin-247-transfer/src/transfer.service.ts:38-53 | the requests of a finished batch are transferred, those of a failed one in error with the message; nobody else changes |
| `TransferVerdict.AsAsked` | packages/origin-247-transfer/src/repositories/EnergyTransferRequestInMemory.repository.ts:13-22 | after every run the i-th request has the seller, buyer and volume that were asked for i-th |
| `TransferServices.EnergyTransferRequestRepository.CreateNew` | packages/origin-247-transfer/src/repositories/EnergyTransferRequestInMemory.repository.ts:13-22 | the new request is appended under the next id |
| `TransferServices.EnergyTransferRequestRepository.FindByState` | packages/origin-247-transfer/src/repositories/EnergyTransferRequestInMemory.repository.ts:42-47 | the shared objects of the first requests in the state, up to the limit |
| `TransferServices.EnergyTransferRequestRepository.ForEach` | packages/origin-247-transfer/src/issue.service.ts:35-64 | going through a batch changes the shared requests as specified and stops at the first that throws |
| `TransferServices.TransferService.StartIssuing` | packages/origin-247-transfer/src/issue.service.ts:23-36 | the awaiting requests, up to the batch size, are in progress |
| `TransferServices.TransferService.EndIssuing` | packages/origin-247-transfer/src/issue.service.ts:38-64 | the batch ends as specified |
| `TransferServices.TransferService.StartValidating` | packages/origin-247-transfer/src/validate.service.ts:42-55 | the awaiting requests, up to the batch size, have their validators pending |
| `TransferServices.TransferService.UpdateValidationStatus` | packages/origin-247-transfer/src/validate.service.ts:74-101 | the request with the id is updated as specified, and nothing happens if there is none |
| `TransferServices.TransferService.StartTransferring` | packages/origin-247-transfer/src/transfer.service.ts:23-36 | the awaiting requests, up to the batch size, are in progress |
| `TransferServices.TransferService.EndTransferring` | packages/origin-247-transfer/src/transfer.service.ts:38-53 | the batch ends as specified |
| `Durations.RoundsUpTo` | packages/origin-247-claim/src/utils/Duration.ts:96-99 | a time rounds up to a boundary if and only if it lies in the window that ends there |
| `Durations.RoundDateFacts` | packages/origin-247-claim/src/utils/Duration.ts:91-94 | rounding down gives the boundary at or before the time, less than a window away |
| `WindowedAggregate.WindowIsOfItsReadings` | packages/origin-247-claim/src/utils/aggregate.ts:106-117 | for both methods, the i-th window has the start and end of the i-th frame, and its value is the sum, or the truncated average, of exactly the readings behind the start that lie behind the frame's lower boundary and not behind its end rounded up, or 0 if there are none |
| `WindowedAggregate.FrameSpansWindow` | packages/origin-247-claim/src/utils/aggregate.ts:39-51 | every frame lies in one window of the full length |
| `WindowedAggregate.WindowsSpan` | packages/origin-247-claim/src/utils/aggregate.ts:33-51 | the windows reach from the start that was asked for, or else the earliest reading, to the end that was asked for, or else the latest reading; without these there are none |
| `WindowedAggregate.GroupByInterval` | packages/origin-247-claim/src/utils/aggregate.ts:96-104 | every group holds exactly the values whose times round up to its key |
| `WindowedAggregate.AggregateReadings` | packages/origin-247-claim/src/utils/aggregate.ts:74-118 | the windows are those of the specified aggregation |
| `WindowedAggregate.FramesTile` | packages/origin-247-claim/src/utils/aggregate.ts:28-52 | the frames follow one another from the start to the end without gap or overlap, inner boundaries being window boundaries |
| `WindowedAggregate.EachTimeInOneFrame` | packages/origin-247-claim/src/utils/aggregate.ts:92-109 | a time belongs to a frame if and only if it is behind the first boundary and not behind the end rounded up, and then to one only |
| `WindowedAggregate.WindowsConserve` | packages/origin-247-claim/src/utils/aggregate.ts:28-117 | with a start, the window sums add up to the readings behind the start and not behind the end rounded up |
| `WindowedAggregate.WindowsWithoutStart` | packages/origin-247-claim/src/utils/aggregate.ts:39-42 | without a start, a reading on the boundary at which the windows begin belongs to no window |
| `WindowedAggregate.ConservedWithoutStart` | packages/origin-247-claim/src/utils/aggregate.ts:39-52 | without a start, readings of any sign are conserved if and only if the earliest is not on a window boundary, or lies behind the last window, or the readings at its time add up to zero |
| `WindowedAggregate.PositiveConservedWithoutStart` | packages/origin-247-claim/src/utils/aggregate.ts:39-52 | for positive readings the last of these cannot be |
| `WindowedAggregate.AlignedReadingIsLost` | packages/origin-247-claim/src/utils/aggregate.ts:39-109 | of two readings, the first on the full minute, only the second is counted |
| `WindowedAggregate.AverageOfWindow` | packages/origin-247-claim/src/utils/bigNumber.ts:11-12 | an average misses the exact quotient by less than one, towards zero |

## Left out

- SpreadFairness.RunIsFair: asks in addition that no group lists an id twice, because equal standing is a matter of one entry for each consumer.
- SpreadFairness.RunIsFairToGenerators: asks the same, because equal preference is a matter of one place in each group.
- SpreadChoice.EarlierConsumerFirst: asks the same of consumers, and SpreadChoice.EarlierGeneratorFirst of generators.
- SpreadMatcher: ids that coincide with names of an object's prototype, copying and omitting of further entity fields, and the text of the error.
- CertificateAggregate: creation time, block hash, device, generation times, metadata and claim data are dropped or kept as one opaque text; unknown event types cannot be written down; amounts are integers instead of decimal strings.
- OffChainCertificateService: the validators of commands (the values they ensure are hypotheses where needed), the event bus, queries, and the link from an event to the id of its command.
- OffChainCertificateService.OffChainCertificateService.BatchTransferOrClaim: builds its events once, where the program builds them again after validating; acceptance does not depend on their times.
- OffChainCertificateService.OffChainCertificateService.AppendEvent: gives a new event the id under which it will be stored, where the program leaves the id open until then; no aggregate depends on it.
- Concurrent operations on one certificate between reading its events and saving: the program takes no lock there.
- BlockchainSynchronization.PersistHandler: the three handlers are one class with a kind; a block's records are made one after the other, where the program starts them together; of the arguments of a call its events and the blockchain ids sent along are modelled, and not how they are encoded.
- SyncProtocol: an exception that escapes ends the modelled run; it is proved that none does. Events with equal times, whose order the query leaves open, are excluded by the hypothesis on times.
- TransferServices: the event bus, the error path after a malformed validator reply, copies that the Postgres repository saves over each other, and the commands of the validators themselves, whose replies are arbitrary.
- WindowedAggregate: months and years, daylight saving and locales; times are milliseconds and the time zone is a shift of all inputs; keys are times instead of their texts.
- The onchain module, the blockchain's contracts, queues, configuration, migrations, the demo application, the energy API, the matching repositories and claim reports: plumbing around the five parts, or members that would be easy.
