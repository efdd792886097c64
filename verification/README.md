# nonoka-im in Dafny

A model of the message pipeline of the nonoka-im instant-messaging backend and
proofs about it: how input that may be delivered any number of times becomes
messages that are stored exactly once, how an agent answers each of them at
most once, and how pages, routes, pushes and retries account for everything
they were given.

Protocols are step systems: a total function `Step` on a state and a label, and
a function `Run` that folds it over a sequence of labels. The labels are chosen
by an adversary, so a lemma about `Run(labels)` speaks about every interleaving
of any number of workers, relays, handlers and gateways, with redelivery,
crashes, lost replies, late actors and clock advance anywhere. MongoDB, Redis
and Kafka appear as state that is changed atomically by one command, one Lua
script or one transaction at a time. Code that updates objects or slices is a
class or a method with loops; its contract is stated with the same functions
that the step systems use.

| file | what it holds |
|---|---|
| `Domain.dfy` | users, topics, messages, event ids and client ids |
| `Sequences.dfy` | topic sequence numbers cached by many generators over one counter |
| `Storage.dfy` | collections under unique indexes, bulk inserts, transactions |
| `Persistence.dfy` | message workers as a step system, and the invariant every step keeps |
| `Outbox.dfy` | what it promises: messages and events, verdicts, sender cache |
| `Deliveries.dfy` | what repeated and interleaved deliveries of one message add up to |
| `Relay.dfy` | outbox relays under leases |
| `AgentRuns.dfy` | run rows that agent handlers race for |
| `Pipeline.dfy` | persistence, relay and the harnesses of any team of agents composed: the bound on replies |
| `Progress.dfy` | which requests of stored messages can still be brought to a stored reply |
| `GroupBatch.dfy` | the group message batcher |
| `Ordering.dfy` | sorted sequences of numbers |
| `Paging.dfy` | history and catch-up pages, and chains of pages |
| `HashRing.dfy` | the consistent hash ring |
| `Sessions.dfy` | the session index and its guarded scripts |
| `Connections.dfy` | the sharded connection manager and socket replacement |
| `Handler.dfy` | authentication on a gateway: manager and session index together |
| `Routing.dfy`, `Receipts.dfy` | the router with its cache, routed receipts, the receipt batcher |
| `PushPool.dfy` | the gateway's push pool and the static fan-out |
| `RetryQueue.dfy` | delayed push retries shared by all workers |
| `Mentions.dfy` | the two scanners of group mentions |

## Assumptions

These are hypotheses of the model, visible as preconditions, as guards of steps
or in the choice of types.

- A client message id is non-empty and is used for one logical message: two
  messages with the same id agree on sender and topic (`Domain.SameIdentity`).
  The text may differ, as it does when a model is asked twice.
- Message ids are fresh. The two users of a P2P topic differ and the sender is
  one of them.
- Digests stand for what they digest: event ids are triples of message id, topic
  and sender, client ids of replies are pairs of event and agent. Virtual nodes
  of the ring do not collide.
- The counter behind the sequence numbers never goes back, and increments fail
  at the 64-bit bound.
- Node ids contain no `|`. Connection ids are not reused.
- All relays read one clock.
- Agent ids tell agents apart; needed only where a reply is to be accepted (`Progress.DistinctIds`).

## Where properties one would expect do not hold

- A user key of the session index does not always name a node that some device
  of the user is routed to: the commands of the SetSession pipeline can be
  interleaved with those of another gateway. `Sessions.InterruptionBreaksKey` is
  the run. `Sessions.KeyAfterCommandIff` says exactly when the property holds
  after each command of a pipeline, whatever ran before it, and
  `Sessions.UninterruptedKeepsKey` that it holds when pipelines are not
  interrupted.
- A group message that a flush inserts can be reported as a duplicate, in two
  ways. When duplicates are the only write errors, every handler gets the verdict
  of the whole batch: `GroupBatch.MixedBatchMisreports`, exact condition on the
  documents and the stored rows in `GroupBatch.BatchVerdictFitsIff`. When some
  write failed, every item is saved again and meets its own row:
  `GroupBatch.FallbackMisreports`. `GroupBatch.GroupMessageBatcher.Flush` states
  for each item exactly when it happens.
- A claim does not make its handler the only one: a failed row and a stale row
  admit another. `AgentRuns.FailureAdmitsSecondWorker` and
  `AgentRuns.StaleRunAdmitsSecondWorker` are the runs, `AgentRuns.ClaimAdmitsIff`
  and `AgentRuns.SecondWorkerIff` the exact conditions on row and clock, and
  `AgentRuns.NobodyJoinsEarly` what is left over whole runs. The bound on replies
  does not rest on exclusive claims.
- A receipt that got through is pushed again if another gateway of its user got
  nothing through: `Routing.TwoGatewaysPushTwice`, with the exact condition in
  `Routing.GotThroughIsPushedAgainIff`.
- Without the agent outbox, a P2P message can be stored completely and reported
  fresh by no delivery: `Deliveries.CrossedDeliveriesBothDuplicate`. On the
  single-message paths a delivery is answered fresh exactly if all copies ever
  stored in the run carry its number (`Deliveries.FreshIffOnlyNumber`), so once
  they carry two numbers nobody was or will be
  (`Deliveries.TwoNumbersNobodyFresh`).
- A mention can be stored under another number than its group message, so that a
  history page shows both: `Deliveries.CrashSplitsMention`. The numbers agree
  exactly if the delivery that writes the mention stored the message itself: on
  the single-message paths `Deliveries.MentionAgreesIff`, with the condition
  before the write in `Deliveries.DeliveryStoresIff`; in batches
  `Deliveries.BatchedMentionAgreesIff` and `Deliveries.FirstOfClientGoesIn`.
- A message that asks two agents is not always answered by both: they share the
  run rows, and after one has completed the run the other is shut out for good.
  `Progress.SecondAgentIsShutOut` is the run, `Progress.CanBeAnsweredIff` the
  exact condition; a lone agent is never shut out
  (`Progress.LoneAgentCanAlwaysAnswer`).
- If SetSession fails, closing the replaced sockets can remove the device's last
  route: `Handler.Authenticate` says exactly when.

## Model

| member | source | states |
|---|---|---|
| `Sequences.RunIsSafe` | internal/msgworker/seq.go:44-87 | over every run of any number of generators with restarts and failed increments, all numbers issued lie between 1 and the counter, no number of a topic is issued twice by whichever calls, and each generator's NextSeq results grow |
| `Sequences.NumberIsFresh` | internal/msgworker/seq.go:44-69 | a number NextSeq returns was never issued for the topic before and is from then on |
| `Sequences.NextKeepsInv` | internal/msgworker/seq.go:44-69 | serving from the cached range, fetching a new one and failing all keep ranges disjoint, unissued and ahead of what the generator issued |
| `Sequences.BatchKeepsInv` | internal/msgworker/seq.go:72-87 | a batch taken straight from the counter is disjoint from every cached range and every number issued |
| `Sequences.BatchTakesBlock` | internal/msgworker/seq.go:72-87 | a batch that succeeds issues exactly the numbers after the counter, as many as asked for, and one that fails issues none |
| `Sequences.SharedCounter.Increment` | internal/msgworker/seq.go:57-68 | the counter moves by the increment, or by nothing, also when the reply is lost |
| `Sequences.SeqGenerator.NextSeq` | internal/msgworker/seq.go:44-69 | the method takes exactly the allocation step of the run semantics on its ranges and the shared counter |
| `Sequences.SeqGenerator.NextSeqBatch` | internal/msgworker/seq.go:72-87 | the method takes exactly the batch step; the numbers are consecutive and end at the counter |
| `Storage.MessageStorage.InsertDocs` | internal/msgworker/storage.go:643-648 | an unordered bulk insert tries every document under the unique indexes, in order, and reports each |
| `Storage.MessageStorage.Classify` | internal/msgworker/storage.go:649-668 | the scan over write errors: error if any is not a duplicate, duplicate if some are, fresh if there are none |
| `Storage.MessageStorage.Save` | internal/msgworker/storage.go:598-807 | a plain save of a P2P, group or system message: it adds nothing but copies of the message, one for each of the two users of a P2P topic, one for the user of a system feed, one under the sender for a group, and all of them exactly if it reports fresh; the verdict, and when the sender is cached |
| `Storage.MessageStorage.SaveWithAgentEvent` | internal/msgworker/storage.go:189-270 | these copies and the outbox row of the message, together or not at all, also when the commit's reply is lost; the cache is not rolled back |
| `Storage.MessageStorage.SaveMentionInbox` | internal/msgworker/storage.go:835-882 | only mentions of users the message mentions are added, and without an error each of them has one under this number or client id |
| `Persistence.RowStepsAreTheBulkInsert` | internal/msgworker/storage.go:598-673 | a handler's row writes, left undisturbed, are the bulk insert of the save method |
| `Persistence.OnlyClientIdsCollide` | internal/msgworker/storage.go:380-416 | the next row of a handler never meets its own sequence number in a unique index; only a client id stored by another delivery can reject it |
| `Persistence.SaveCachesIff` | internal/msgworker/storage.go:598-807 | in a transaction a handler may cache its sender any time, outside one exactly once all its rows were tried without an error, on a duplicate only for a P2P message |
| `Persistence.LookupFillsCache` | internal/msgworker/storage.go:1340-1412 | a lookup that found a row caches its sender under its topic and number |
| `Persistence.SaveInOrder` | internal/msgworker/storage.go:598-706 | all row writes of a save keep the indexes and the agreement of rows with the numbers taken for them |
| `Persistence.TransactionIsAtomic` | internal/msgworker/storage.go:189-270 | a transactional save leaves nothing, or all rows and the event; a duplicate verdict means another delivery was stored before |
| `Persistence.StepKeepsInv` | internal/msgworker/msgworker.go:604-688 | every step of every handler, lookup and expiry keeps the invariant that ties numbers, rows, caches and handlers together |
| `Persistence.RunKeepsInv` | internal/msgworker/msgworker.go:604-688 | the invariant holds after every run |
| `Outbox.StepKeepsOutbox` | internal/msgworker/storage.go:189-270 | every step keeps the correspondence of outbox rows and stored messages |
| `Outbox.ExactlyOnce` | internal/msgworker/storage.go:189-270 | with the outbox on, after any run a P2P or group message has no row and no event, or exactly one row per party under one message id and one number, and exactly one event |
| `Outbox.BothUsersHaveIt` | internal/msgworker/storage.go:598-646 | with the outbox on, after any run no inbox has a copy of a P2P message, or the two users of its topic have exactly one each, with its sender and client id, one message id, one number and a text that was produced under the client id |
| `Outbox.GroupHasItOnce` | internal/msgworker/storage.go:678-706 | likewise a group message has no row, or exactly one under its sender |
| `Outbox.SystemFeedHasItOnce` | internal/msgworker/storage.go:769-807 | outbox on or off, a system message has no copy, or exactly one in the inbox of the user of its feed |
| `Outbox.RowsAreAddressed` | internal/msgworker/storage.go:598-882 | outbox on or off, every row stored in a run is a copy of a produced message and lies in the inbox of a user of its topic, among the group messages under its sender, or among the mentions of a user it mentions |
| `Outbox.VerdictIsExact` | internal/msgworker/storage.go:648-706 | on the single-message paths a save is reported duplicate exactly when another delivery of its client id is stored, and fresh exactly when its own rows are the only copies |
| `Outbox.CacheNamesTheSender` | internal/msgworker/storage.go:349-374 | after any run a sender-cache entry names the sender of every row at its topic and number in all three collections, also when written on a duplicate or refilled by a lookup |
| `Deliveries.FreshIffOnlyNumber` | internal/msgworker/storage.go:598-706 | on the single-message paths, whenever a delivery was answered in a run, it was answered fresh exactly if every copy stored by the end of the run carries its number |
| `Deliveries.TwoNumbersNobodyFresh` | internal/msgworker/storage.go:598-706 | once the stored copies carry two numbers, no delivery of the message was or will be answered fresh |
| `Deliveries.CrossedDeliveriesBothDuplicate` | internal/msgworker/storage.go:598-673 | the run of two crossed P2P deliveries that store one copy each and are both answered duplicate |
| `Deliveries.MentionAgreesIff` | internal/msgworker/msgworker.go:651-670 | after any run on the single-message paths a mention is written under the number of its stored group message exactly if the delivery that writes it stored the message |
| `Deliveries.DeliveryStoresIff` | internal/msgworker/storage.go:678-706 | a delivery answered without an error, in a transaction or not, stores its group message exactly if no row of its client id was stored when it wrote |
| `Deliveries.BatchedMentionAgreesIff` | internal/msgworker/msgworker.go:651-670 | for a message saved in a batch and not answered with an error, its mentions carry the number of its stored row exactly if this flush stored it, that is, if it was answered fresh or misreported as a duplicate |
| `Deliveries.FirstOfClientGoesIn` | internal/msgworker/storage.go:736-765 | in a batch without faults exactly the first delivery of each client id not stored before is stored |
| `Deliveries.CrashSplitsMention` | internal/msgworker/msgworker.go:651-670 | the run in which a worker stops between message and mention and the redelivery stores the mention under a new number |
| `Relay.StepKeepsCalls` | internal/msgworker/storage.go:275-334 | publish calls made or still owed for a row never exceed its attempts, whatever relay acts however late |
| `Relay.PublishedWasSent` | internal/msgworker/storage.go:275-329 | after any run a published row was acknowledged by the broker, and its publish calls do not exceed its attempts |
| `Relay.CallsAreCounted` | internal/msgworker/storage.go:275-334 | after any run an event was claimed at least as often as relays called the broker for it |
| `Relay.PublishedIsFinal` | internal/msgworker/storage.go:313-334 | no later step of any relay changes a published row |
| `Relay.UnpublishedIsClaimable` | internal/msgworker/storage.go:313-334 | letting the clock run makes every unpublished row claimable, a claimed one within one lease |
| `Relay.EventCanBeDelivered` | internal/msgworker/storage.go:275-329 | from every state every event in the outbox can be brought to the agent topic without faults, after the older due ones |
| `Relay.ClaimTakesOne` | internal/msgworker/storage.go:313-323 | a successful claim takes exactly its row out of the due rows |
| `Relay.LeaseExcludes` | internal/msgworker/storage.go:313-323 | a claim of a row under lease, waiting for its time, or published changes nothing |
| `Relay.ClaimSucceedsIff` | internal/msgworker/storage.go:313-323 | the exact condition of a successful claim on the fields of the rows, and what it leaves |
| `Relay.ClaimsAreApart` | internal/msgworker/storage.go:313-334 | in every run, two successful claims of one event lie more than a minute apart or somebody gave the row back in between |
| `Relay.EnqueuedSince` | internal/msgworker/storage.go:255-265 | a new row is due at once and keeps the time it was made |
| `Relay.EarlierGoesFirst` | internal/msgworker/storage.go:313-323 | while an event that came earlier can be claimed, a later one cannot |
| `Relay.DeliveredIff` | internal/msgworker/storage.go:287-309 | after any run an event is acknowledged exactly if a publish call for it succeeded, and on the topic exactly if one did not fail before it took effect |
| `Relay.ClaimsDrain` | internal/msgworker/storage.go:275-323 | successive claims take distinct due rows and, as many as there are, all of them |
| `Relay.AgentOutbox.ClaimAgentEvent` | internal/msgworker/storage.go:313-323 | the oldest row is claimed that is pending with its time come or processing with its lease over, and leased for a minute; no claim means there is no such row |
| `Relay.AgentOutbox.RelayOne` | internal/msgworker/storage.go:287-309 | one iteration: which row it claims, whether the event was handed to the broker, and what a lost reply or a failed mark or release leaves of the row |
| `Relay.IterationIsSteps` | internal/msgworker/storage.go:287-334 | an iteration of the loop is a run of the step system, with the same row left behind and the relay free again |
| `Relay.AgentOutbox.RelayAgentEvents` | internal/msgworker/storage.go:275-334 | one relay round with faults of claims, publishing and updates, at most the limit or 32 rows: no event sent twice, the processed ones published, at most one more row touched, left marked, released for the backoff or a second, or processing until its lease ends as the failing iteration says, and an early end without error means nothing is due |
| `AgentRuns.PerformEffect` | internal/data/agent.go:49-84 | what any action of a handler can change about who acts for which event |
| `AgentRuns.RunHasSingleWorker` | internal/data/agent.go:49-81 | over every run, while a run row is in its first attempt and was never marked failed, at most one handler acts for its event; the exact conditions are the next three rows |
| `AgentRuns.ClaimAdmitsIff` | internal/data/agent.go:49-81 | from every state a newcomer's whole claim makes it act exactly if there is no row, the row is failed, or it is running and now is more than 180 000 ms past its start, or past its creation if it was never started; whoever acts goes on |
| `AgentRuns.SecondWorkerIff` | internal/data/agent.go:49-81 | while one handler acts for an event, an action makes another one act exactly if it finds the row failed, or running for more than 180 000 ms |
| `AgentRuns.SecondWorkerHasCause` | internal/data/agent.go:49-81 | in every run in which two handlers act for one event, one of them took over its row when it was failed or stale |
| `AgentRuns.NobodyJoinsEarly` | internal/data/agent.go:49-84 | in every run with a clock that does not go back and a row never marked failed, nobody starts to act within 180 000 ms of the creation of the row or of any later begin of work on it |
| `AgentRuns.RowWasMade` | internal/data/agent.go:75-81 | every row was made by a handler that found none |
| `AgentRuns.StopsActingIff` | internal/agent/app/harness.go:36-113 | a handler that acts goes on acting until it completes after its reply, fails before it, or crashes |
| `AgentRuns.AttemptsCountGrants` | internal/data/agent.go:52-60 | the attempts of a row are the number of times it was created, or taken back from failure or from being stale |
| `AgentRuns.TurnsAreRecorded` | internal/data/agent.go:98-100 | an event has a turn exactly if some handler recorded it after its reply |
| `AgentRuns.StaleRunAdmitsSecondWorker` | internal/data/agent.go:52-58 | the run in which a handler still at work is joined by another after its row went stale |
| `AgentRuns.FailureAdmitsSecondWorker` | internal/data/agent.go:49-81 | the run in which two handlers act for one event after a failure |
| `AgentRuns.ClaimActionsWork` | internal/data/agent.go:49-81 | a handler that starts on a missing or failed row, or one running for more than 180 000 ms, gets to work |
| `AgentRuns.ClosedStays` | internal/data/agent.go:49-84 | a completed run that no handler works on stays so, whatever handlers do |
| `Pipeline.RunKeepsInv` | internal/agent/app/harness.go:36-113 | the system composed for any team of agents keeps: every handler works for its agent on a delivered trigger, and every agent client id upstream answers one |
| `Pipeline.AtMostOneReply` | internal/agent/app/harness.go:36-157 | after any run of any team with duplicated events, double claims, failures and crashes, and whatever texts were produced, all stored replies of an agent to an event are copies of one message |
| `Pipeline.BotIsNeverAnswered` | internal/agent/app/harness.go:117-130 | no handler ever works on a message its own bot sent, and only on messages whose event was committed |
| `Pipeline.ConsumeStartsIff` | internal/agent/app/harness.go:36-130 | an agent starts on an event exactly if it reached the agent topic, somebody else sent the message, and the message mentions its bot in a group or is in a conversation with its bot |
| `Pipeline.HandledIsAddressed` | internal/agent/app/harness.go:117-130 | in every run whoever is at work is at work on a message that mentions its bot or is addressed to it |
| `Pipeline.StoredReplyWasSent` | internal/agent/app/harness.go:99-107 | every stored reply was sent by a handler at work, to the topic of its event, from its agent's bot, under the client id of the two, with the text it produced, which is not blank |
| `Pipeline.EventsAreAccountedFor` | internal/msgworker/storage.go:275-334 | in the composed system, too, a published event was committed and acknowledged, publish calls stay within attempts, and a claimed row is claimable again within one lease |
| `Pipeline.CommittedEventIsDue` | internal/msgworker/storage.go:255-265 | an event that a step commits has a new row, due at once |
| `Pipeline.ReplyHasTrigger` | internal/agent/app/harness.go:36-130 | a stored reply answers a stored message that asks its agent |
| `Pipeline.RepliesAreBounded` | internal/agent/app/harness.go:36-157 | after any run the stored replies number no more than the requests that stored messages make of the team's agents |
| `Progress.RequestCanBeAnswered` | internal/agent/app/harness.go:36-113 | from every state the invariant allows, a stored request is brought to a stored reply by a continuation without faults through relay, claim of a missing, failed or stale row, send and save, whatever the text unless it is blank, if the reply was sent or the run is not closed |
| `Progress.CanBeAnsweredIff` | internal/agent/app/harness.go:36-113 | after any run a stored request can still be brought to a stored reply exactly if its reply was sent or the run of its event is not completed with nobody at work; otherwise no continuation stores one |
| `Progress.LoneAgentCanAlwaysAnswer` | internal/agent/app/harness.go:36-113 | with one agent, from every reachable state every stored request can be answered |
| `Progress.SecondAgentIsShutOut` | internal/data/agent.go:49-84 | a run in which a message asks two agents and the second can never answer |
| `Progress.ReplyIsAccepted` | internal/agent/app/harness.go:99-107 | a reply is always well addressed and agrees with whatever was sent under its client id |
| `GroupBatch.GroupMessageBatcher.Add` | internal/msgworker/msgworker.go:246-275 | the item joins those pending or answered exactly once, and a full batch, and only that, is flushed |
| `GroupBatch.GroupMessageBatcher.CacheSenders` | internal/msgworker/storage.go:760-762 | the senders of the items are cached under their numbers |
| `GroupBatch.GroupMessageBatcher.AnswerOneByOne` | internal/msgworker/msgworker.go:304-333 | the fallback answers each item by its own save: an item the bulk write put in is answered duplicate exactly if its save does not fail, and no other item that goes in is |
| `GroupBatch.GroupMessageBatcher.WriteBatch` | internal/msgworker/storage.go:711-765 | the bulk write with its fallback: an answer per item, senders cached for the fresh ones, and exactly when an inserted item is answered duplicate |
| `GroupBatch.GroupMessageBatcher.Flush` | internal/msgworker/msgworker.go:280-339 | every item taken gets exactly one answer in order, fresh only if this flush inserted its row; with duplicates as the only errors the rows are those of inserting one by one; an inserted item is answered duplicate exactly if the bulk write put it in and the batch was mixed, or its second save did not fail |
| `GroupBatch.InsertManyResults` | internal/msgworker/storage.go:711-765 | an inserted document was absent before and is present after; a rejected one is in conflict with a stored row |
| `GroupBatch.BatchAnswers` | internal/msgworker/storage.go:736-765 | the verdict of a batch keeps, for each item, the promise made to its handler |
| `GroupBatch.NoFailuresNoFaults` | internal/msgworker/storage.go:736-765 | a bulk write without failed documents has the effect of one without faults |
| `GroupBatch.AllInsertedIff` | internal/msgworker/storage.go:736-765 | without faults all documents go in exactly if none is in conflict with a stored row or another document |
| `GroupBatch.AllRejectedIff` | internal/msgworker/storage.go:736-765 | without faults none goes in exactly if each is in conflict with a row stored before |
| `GroupBatch.DuplicateMeansStored` | internal/msgworker/storage.go:678-765 | with numbers never reused, an item answered duplicate has its client id stored |
| `GroupBatch.BatchVerdictFitsIff` | internal/msgworker/storage.go:736-765 | the batch verdict fits every item exactly if no document is in conflict with a stored row or another document, or all are in conflict with stored rows |
| `GroupBatch.MixedBatchMisreports` | internal/msgworker/storage.go:736-765 | a batch with a redelivery under a new number whose other, new message goes in and is answered duplicate |
| `GroupBatch.FallbackMisreports` | internal/msgworker/msgworker.go:323-334 | a batch with a failed write whose other message goes in, is saved again and answered duplicate |
| `Paging.TopOfCutUnion` | internal/msgworker/storage.go:1002-1133 | cutting both sources at limit + 1 before merging loses nothing: the page is that of the whole union, and whether more is left can still be told |
| `Paging.Reverse` | internal/msgworker/storage.go:1127-1130 | the in-place reversal of the page |
| `Paging.GetHistory` | internal/msgworker/storage.go:1002-1133 | a page is exactly the limit largest numbers below end_seq of messages and mentions, 50 for a limit not between 1 and 100, ascending, messages winning; has_more is exact |
| `Paging.MergedPageCatchesUp` | internal/service/message.go:155-169 | two lists cut at the limit, merged with repeats, sorted and cut again, skip no number up to the end of the page |
| `Paging.MergeAndSort` | internal/service/message.go:212-243 | the merge keeps every number of both lists in nondecreasing order and then cuts |
| `Paging.GetNewer` | internal/msgworker/storage.go:967-992 | the forward pull over both sources is such a page for the limit asked, 50 if it is not between 1 and 100, with entries from the source they name |
| `Paging.PullMessages` | internal/service/message.go:102-193 | backward and forward modes with their numbers for the limit asked, 50 if it is not between 1 and 100, values and anchors, the empty reply on failed queries and the tolerated failure of the mention query |
| `Paging.WalkCoversAll` | internal/service/message.go:136-186 | paging back to the end returns every message stored throughout, whatever is inserted between pages or between the two queries of a page |
| `Paging.WalkNeverRepeats` | internal/service/message.go:136-186 | and none on two pages |
| `Paging.WalkTerminates` | internal/service/message.go:136-186 | no backward chain goes on for ever |
| `Paging.ForwardCoversAll` | internal/service/message.go:124-175 | forward pulls anchored at the last number returned, until has_more is false, skip no stored number |
| `Paging.ForwardTerminates` | internal/service/message.go:124-175 | and move strictly up from page to page, so that no chain goes on past the largest number |
| `Paging.PageBack` | internal/service/message.go:136-186 | asking on with next_seq as end_seq until has_more is false is a complete backward walk, whatever is inserted meanwhile |
| `Paging.ReadHistory` | internal/service/message.go:136-186 | so every number that all requests could see is on exactly one page |
| `Paging.PageForward` | internal/service/message.go:124-175 | asking on after the last number returned is a complete forward walk |
| `Paging.CatchUpAll` | internal/service/message.go:124-175 | so no number that all requests could see is skipped |
| `HashRing.OwnerIsUnique` | internal/gateway/registry.go:242-259 | the first point clockwise from a key belongs to one node |
| `HashRing.RemovalKeepsOtherOwners` | internal/gateway/registry.go:221-239 | removing a node moves only the keys it owned |
| `HashRing.AdditionTakesOnlyForItself` | internal/gateway/registry.go:202-218 | adding a node moves keys only to that node |
| `HashRing.RingIsDetermined` | internal/gateway/registry.go:202-239 | slice and map depend only on the set of nodes, however it was built up |
| `HashRing.AddThenRemove` | internal/gateway/registry.go:202-239 | adding and removing a node restores slice and map |
| `HashRing.ConsistentHash.Add` | internal/gateway/registry.go:202-218 | the ring stays sorted and holds exactly the points of its nodes |
| `HashRing.ConsistentHash.Remove` | internal/gateway/registry.go:221-239 | likewise after removing a node's points |
| `HashRing.ConsistentHash.Get` | internal/gateway/registry.go:242-259 | binary search returns the owner by the clockwise specification, the empty string on an empty ring |
| `HashRing.SelectByConsistentHash` | internal/gateway/registry.go:301-322 | the choice among a list is the owner in the set of its ids, so its order does not matter |
| `Sessions.ScriptTestIsNodeTest` | internal/gateway/session.go:106-151 | the delete script's string test finds exactly the values whose node part is the node |
| `Sessions.NodeOfValue` | internal/gateway/session.go:207-216 | the node part of a stored value is the node it was made from, also for legacy values |
| `Sessions.ValueIsInjective` | internal/gateway/session.go:207-216 | a stored value determines node and connection |
| `Sessions.RouteIsLastWriter` | internal/gateway/session.go:77-172 | after any interleaving of all gateways' commands and scripts a device is routed to the last connection that registered it, and absent exactly if that one has deleted it since or none registered |
| `Sessions.ReplacedCleanupIsNoOp` | internal/gateway/handler.go:293-300 | the cleanup of a replaced socket, however late and whatever ran in between, leaves the route of its replacement alone |
| `Sessions.DeleteKeepsKey` | internal/gateway/session.go:106-151 | after the delete script a user key naming a node implies a device routed there exactly if it did before |
| `Sessions.UninterruptedKeepsKey` | internal/gateway/session.go:77-151 | so does any sequence of uninterrupted registrations and deletions |
| `Sessions.ActionsAreCommands` | internal/gateway/session.go:77-151 | uninterrupted registrations and deletions are a run of the commands and scripts |
| `Sessions.InterruptionBreaksKey` | internal/gateway/session.go:77-91 | two crossed SetSession pipelines break it |
| `Sessions.DeviceCommandKeepsKeyIff` | internal/gateway/session.go:77-91 | from every state the property holds after the device command exactly if the key is unset, names this node, or names the node of another device |
| `Sessions.KeyAfterCommandIff` | internal/gateway/session.go:77-151 | after every run that ends with a command of a pipeline or a delete script, exactly when the property holds then |
| `Sessions.SessionManager.SetSession` | internal/gateway/session.go:77-91 | uninterrupted, the pipeline establishes the property whatever the key named before, routes the device to this node, and is undone on the routes by the delete script; a failure leaves a prefix, and no other route ever changes |
| `Sessions.SessionManager.DelSession` | internal/gateway/session.go:106-151 | the script's scan deletes the route only for its own value, and the key only if no device is left on the node |
| `Connections.GetShard` | internal/gateway/manager.go:53-66 | the hashing loop is FNV-1a over the eight bytes of the id, reduced to 32 shards |
| `Connections.XorIsBitwise` | internal/gateway/manager.go:53-66 | the exclusive or of the hash, bit by bit |
| `Connections.Manager.Add` | internal/gateway/manager.go:82-111 | the shards refine one flat set: it gains the connection, and exactly the older connections of the same user and device come back, each once |
| `Connections.Manager.Remove` | internal/gateway/manager.go:114-132 | the set loses exactly the connection, and both indexes of its shard agree again |
| `Connections.Manager.GetAll` | internal/gateway/manager.go:164-181 | exactly the user's connections, each once |
| `Connections.Manager.BroadcastToUserRaw` | internal/gateway/manager.go:200-220 | the count is the number of the user's connections whose send succeeded |
| `Connections.Manager.Count` | internal/gateway/manager.go:244-253 | the sum over the shards is the size of the set |
| `Connections.Manager.UserCount` | internal/gateway/manager.go:256-265 | the sum over the shards counts each user once |
| `Connections.OneSocketPerDevice` | internal/gateway/handler.go:279-300 | after any run of authentications and closes, a registered socket is being closed exactly if its device has authenticated again since, so at most one per device stays and it is the newest |
| `Connections.RegisteredUntilClosed` | internal/gateway/manager.go:82-132 | in every run a socket is registered exactly from its authentication until it is closed |
| `Connections.NewestIsLast` | internal/gateway/handler.go:279-300 | the newest socket of a device is the one that authenticated last |
| `Handler.Close` | internal/gateway/handler.go:756-774 | a closed socket leaves the manager and, only if the route is still its own, the session index |
| `Handler.Authenticate` | internal/gateway/handler.go:279-300 | after the replace sequence and the cleanups it causes, the new socket is the only one of its device in the manager; the route it registered survives, and if SetSession failed the device loses its route exactly if that was the route of a closed socket |
| `Routing.GatewayRouter.Invalidate` | internal/msgworker/router.go:169-173 | after a session change the user is routed by Redis alone, whatever the cache held, and nobody else's entry is lost |
| `Routing.GatewayRouter.GetCached` | internal/msgworker/router.go:176-188 | an unexpired entry is served, an expired one dropped |
| `Routing.GatewayRouter.FromCache` | internal/msgworker/router.go:243-261 | the cache pass routes users with an alive cached node and leaves exactly the others for Redis |
| `Routing.GatewayRouter.Resolve` | internal/msgworker/router.go:233-310 | exactly the users without a fresh cache entry naming an alive node are read from Redis; every user is listed at exactly the alive nodes of their entry or, if read, of their devices; the entries of those read are renewed and no other changes |
| `Routing.CacheHidesNobody` | internal/msgworker/router.go:233-310 | a user is routed nowhere exactly if they have no usable entry and no device on an alive node by Redis |
| `Routing.PushReceipts` | internal/msgworker/pusher.go:502-600 | each item is sent to exactly the gateways with an address that host its user by the cache and Redis, and returned as failed exactly if there is none or one of them got nothing through |
| `Routing.GotThroughIsPushedAgainIff` | internal/msgworker/pusher.go:502-600 | a receipt that got through at one gateway is returned as failed exactly if another gateway of its user got nothing through |
| `Routing.TwoGatewaysPushTwice` | internal/msgworker/pusher.go:502-600 | a user on two gateways for whom this happens |
| `Routing.GatewayPush` | internal/service/push.go:175-232 | the gateway reports all items of a user exactly when nothing reached a device of theirs |
| `Receipts.ReceiptBatcher.Add` | internal/msgworker/msgworker.go:101-117 | the receipt joins its user's list, a missing one is ignored, and the flush is due exactly at the batch size |
| `Receipts.ReceiptBatcher.Flush` | internal/msgworker/msgworker.go:120-162 | everything pending is taken, each receipt as often as it was added, and sent to the gateways that host its user by the cache and Redis; it is pushed again on its own exactly if there is none or one of them got nothing through |
| `PushPool.RunChunk` | internal/service/push.go:299-318 | a worker gives each user of its chunk one outcome, zero from where it saw the cancellation |
| `PushPool.BatchPush` | internal/service/push.go:275-336 | for every batch size, worker count and cancellation point each position gets exactly one outcome, in the smallest chunks with which the workers cover the list |
| `PushPool.BatchPushConcurrent` | internal/service/push.go:275-336 | the whole pool with results in any order: the total is the sum of the outcomes and a user is reported failed once for each position that got nothing |
| `PushPool.ArrivalOrderIsIrrelevant` | internal/service/push.go:326-335 | total and failed users do not depend on the order in which results arrive |
| `PushPool.PoolFailures` | internal/service/push.go:275-336 | a user is reported failed exactly if a turn of theirs delivered nothing |
| `PushPool.BatchPushStatic` | internal/msgworker/pusher.go:282-339 | the total over the gateways that answered, and failed exactly those whom every gateway failed, with the cases of no and of one gateway |
| `PushPool.FanOutIsExact` | internal/msgworker/pusher.go:282-339 | pool and fan-out together: a distinct user is reported failed exactly when every gateway was unreachable or delivered to no device of theirs |
| `PushPool.ReachedIsEverybodysDevices` | internal/msgworker/pusher.go:282-339 | the total over the gateways is the number of devices reached, counted user by user |
| `RetryQueue.RunKeepsInv` | internal/msgworker/retry.go:82-304 | over any number of workers each waiting call is in exactly one place, and a queued item's count is the number of its failed pushes |
| `RetryQueue.AtMostThreePushes` | internal/msgworker/retry.go:232-304 | no call leads to more than three pushes and no two workers ever act for one |
| `RetryQueue.EveryCallIsAccountedFor` | internal/msgworker/retry.go:82-304 | without crashes and Redis errors a call is queued or in a worker's hands, delivered, dropped after exactly three failures, or merged with an equal member |
| `RetryQueue.LostIff` | internal/msgworker/retry.go:232-304 | a waiting call is lost exactly by a lost reply to its removal, a failed requeueing or the crash of its worker |
| `RetryQueue.WaitingCallEnds` | internal/msgworker/retry.go:232-304 | from every reachable state a waiting call can be brought to its end without faults in at most three more pushes, whatever these return: delivered, dropped after exactly three failures, or merged |
| `RetryQueue.QueuedBecomesTakeable` | internal/msgworker/retry.go:159-229 | a queued item can be taken by any free worker once the clock has run to its time |
| `RetryQueue.QueuedCallEnds` | internal/msgworker/retry.go:232-293 | a queued call ends within as many rounds of waiting, taking, pushing and requeueing as it has attempts left |
| `RetryQueue.PushLowersPotential` | internal/msgworker/retry.go:232-293 | every push lowers the pushes that may still come |
| `RetryQueue.OtherStepsKeepPotential` | internal/msgworker/retry.go:82-304 | only scheduling raises them, by three |
| `RetryQueue.UndisturbedTask` | internal/msgworker/retry.go:232-293 | taking, pushing and requeueing without disturbance is the method below on the queue's members |
| `RetryQueue.ScheduledIsQueued` | internal/msgworker/retry.go:82-123 | a scheduled push is queued under its own call, with its user, message and payload, and due five seconds later, merges with an equal member, or is lost, exactly if the command failed before it took effect |
| `RetryQueue.BackoffIsCapped` | internal/msgworker/retry.go:36-42 | the delay is five seconds doubled with each retry, five minutes at most |
| `RetryQueue.TakenIff` | internal/msgworker/retry.go:159-180 | a worker gets a member exactly if it is free, the member is queued and its time has come |
| `RetryQueue.RequeuedLater` | internal/msgworker/retry.go:281-293 | after a first failure the same push is queued again for ten seconds later, after a second for twenty |
| `RetryQueue.PayloadIsKept` | internal/msgworker/retry.go:82-293 | in every run a queued or held item is for the user, message and payload of the call it comes from, however often it was requeued |
| `RetryQueue.PushRetryQueue.HandleFailedPushes` | internal/msgworker/msgworker.go:921-930 | every user that was not reached gets a first retry, also after another could not be scheduled |
| `RetryQueue.FirstRetriesMembers` | internal/msgworker/msgworker.go:921-930 | a user is missing exactly if every command for that user failed before it took effect |
| `RetryQueue.PushRetryQueue.ProcessRetryTask` | internal/msgworker/retry.go:232-278 | only the caller that removed the member pushes it, and it comes back with a higher count exactly after a first or second failure |
| `RetryQueue.PushRetryQueue.RequeueIfNeeded` | internal/msgworker/retry.go:281-293 | the same push comes back ten seconds after a first failure and twenty after a second, and not after a third |
| `RetryQueue.PushRetryQueue.RemoveRetryItem` | internal/msgworker/retry.go:297-304 | true exactly for the caller that removed the member |
| `Mentions.ExtractMentionIds` | web/app/lib/mentions.ts:36-50 | the ids are, each once, those of exactly the members mentioned: an at sign at the start or after a space, the longest run without space or at sign behind it, and the last member whose name is that run but for case |
| `Mentions.SegmentMentions` | web/app/lib/mentions.ts:59-82 | the segments concatenate to the text, and exactly these mentions are highlighted, each in its place and with the id of the member |
| `Mentions.MarksAreMentions` | web/app/lib/mentions.ts:36-82 | asking every position in turn finds exactly these mentions |
| `Mentions.SentIsHighlighted` | web/app/lib/mentions.ts:36-82 | the ids sent with a text are distinct and are exactly the ids its rendering highlights |
| `Mentions.LastNameWins` | web/app/lib/mentions.ts:41-66 | of members whose names agree in lower case the last one is meant |

## Left out

- Offset commits, partitions and producer retries of Kafka: delivery is an adversary that may deliver any message any number of times.
- Topic strings and their parsing and normalisation: topics are values, P2P topics are pairs.
- Login, tokens, authorisation, rate limits, uploads, configuration, metrics, generated code and the user interface.
- Recall, delivery and read status, conversation summaries, and the backup of sequence numbers: single updates on rows that the model does not change.
- Expiry of session keys by Redis: routes are followed without it. The ExpireScript label changes nothing else.
- The branch of the router and the pusher that runs without Redis, and Redis errors while resolving routes: the routed paths are modelled with Redis up.
- User-level coverage of batchPushWithRouting, the single-user push functions and the static receipt fan-out.
- Collisions of virtual nodes on the hash ring, and the other node selections.
- Lookups by connection id in the connection manager, which hash the id and not the user; Get and Range.
- Messages that an agent sends through tools: their client ids depend on the content, so the bound on replies does not speak of them.
- Topic authorisation in the harness: an event whose access is denied is one that no handler starts on.
- Requests in a topic whose sequence counter is at its 64-bit bound: the results of Progress need room for one more block of numbers.
- The model, its prompt and history, and the classification of errors in the harness: a handler may produce any text and fail anywhere.
- The active mention query and the filter of suggestions while typing.
- The SDK's connection and paging state.
- Write-concern errors of a bulk insert that come without a write error for any document.
- Sessions.SessionManager.SetSession: states the pipeline run without interruption; interrupted pipelines are the two command labels of the step system. Both speak of one user's keys.
- Receipts.ReceiptBatcher.Flush: states which receipts are pushed again on their own, not what becomes of that second push, and assumes that Redis answers.
- GroupBatch.GroupMessageBatcher.Flush: states when an inserted item is reported as a duplicate for items with different rows, as their numbers differ; assumes that writes of the sender cache succeed; interleaving with other writers is covered by the row steps of Persistence, not by this method.
- Paging.GetHistory: takes what each of its two queries saw as a map from number to message; cursors and projections are not modelled.
- Handler.Authenticate: runs the cleanups of replaced sockets one after the other; their interleaving with other gateways is Sessions.ReplacedCleanupIsNoOp.
- Mentions.ExtractMentionIds: takes lower-casing as an arbitrary function on strings, and characters as code points.
