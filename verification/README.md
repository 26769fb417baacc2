# Karakos: the durable protocols, modelled and proved

Karakos runs several agent processes ("shards") behind one server. What keeps them from losing,
repeating, reordering or deadlocking work is a handful of small protocols over tables and
dictionaries. This project models those protocols in Dafny and proves what they promise over every
table and every run.

Run `dafny verify dfyconfig.toml` here to check everything.

## How the model is built

* A table is a `seq` of rows in insertion order, a dictionary a `map`; both are fields of a class
  whose methods are the statements and handlers of the program. One SQL statement or transaction is
  one atomic method, and so is the code between two awaits.
* `SELECT ... WHERE ... ORDER BY ... LIMIT` is `Ordering.Select` and `Ordering.Limit`.
* For properties over runs each protocol has a `Step` datatype: everything that can happen, in any
  order. Crashes, lost answers, failed sends and the clock are steps or arguments.

| file | protocol |
|---|---|
| `MessageQueue.dfy` | the message queue: expiry, claims, stealing, release, refusal of calls, the read-only peek |
| `MessageClaims.dfy` | what one claim promises: heads, empty claims, stolen prefixes, the age floor |
| `MessageLimits.dfy` | what claims do not promise: held rows, heads that wait |
| `MessageRuns.dfy` | interleaved runs: single ownership, one thief per channel, one error reply per refused call |
| `MessageDrain.dfy` | draining a shard |
| `WakeUp.dfy` | the version counter on top of the Condition, and the long poll that uses it |
| `Hive.dfy`, `HiveCalls.dfy` | blocking calls between shards: reachability, choice of a callee, acyclic waits |
| `Outbox.dfy`, `OutboxSender.dfy` | the outbox table, and the loop that sends one row |
| `OutboxDelivery.dfy` | the table with its senders and Discord, under crashes and lost answers |
| `Respawn.dfy` | the crash-loop brake and the resume fallback |
| `Alerts.dfy` | alert planning, rollback, and episodes over a run of monitor ticks |
| `BuildQueue.dfy` | build queue claims and the dispatcher's claim loop |
| `RateLimiter.dfy` | the rolling send limit |
| `ProcessWalk.dfy` | the breadth-first process walk |
| `Ordering.dfy` | ordered selection from a table |

## Where the code does less than its comments or names suggest

The model follows the code; each case has a lemma with an input the code reaches and one with the
exact condition.

* `bin/agent-server.py:5218-5219` says a claim honours `not_before`, so that held rows stay held.
  `claim_batch` has no such test: `MessageLimits.HeldRowIsClaimed` is the input,
  `MessageLimits.ClaimTakesHeldIff` and `DrainTakesHeldIff` say exactly when a held row is taken, and
  `HoldPlaysNoPart` that hold times change nothing. What keeps held rows waiting is the check that
  `drain_shard` makes before it claims (`lib/turn_loop.py:1470-1473`).
* The head of a batch need not be in the batch: `MessageLimits.HeadIsLeftOut` and
  `MessageClaims.HeadInBatchIff`.
* The posting cap of the alerts is not hard: `Alerts.CapIsPassed` and `Alerts.CapOverrun`.
* An operator's `retry` can break the posting order of a channel, in two ways: beside a younger row
  being sent (`OutboxDelivery.RetryBreaksOrder`, `Outbox.RetryBesideSender`), and after a younger row
  was shown or delivered (`OutboxDelivery.RetryAfterYounger`). The exact condition is
  `OutboxDelivery.RetryKeepsInvIff`; `Outbox.RetryKeepsOrderIff` is its part about senders.
* A kill that fails can put a build host over its limit: `BuildQueue.FailedKillOverruns` and
  `BuildQueue.FailedKillKeepsCapacity`.

## Model

| member | source | states |
|---|---|---|
| MessageQueue.MessageQueue.Expire | lib/msgqueue.py:81-118 | exactly the queued rows of the shard whose expiry has passed become skipped, for the reason 'expired', with no other column changed, and are counted; what is inserted answers, column by column, the caller of a call among them, and each of those calls has its answer; the shards notified are exactly those callers |
| MessageQueue.MessageQueue.FailCalls | lib/msgqueue.py:304-336 | exactly the queued calls to the shard become skipped with the code, with no other column changed; each is answered to its caller, and exactly the callers are notified |
| MessageQueue.MessageQueue.ReadHead | lib/msgqueue.py:134-138 | no head exactly when nothing is runnable; else a runnable row of the highest priority: if it is automated, all runnable rows of that priority are automated and none is older; if it is a human row, a call or an internal row, none of these of its priority, of whatever channel, is older |
| MessageQueue.MessageQueue.ClaimForHead | lib/msgqueue.py:141-155 | for a head read at any earlier time: a call or internal row alone, if it still waits, else the first waiting ordinary rows of its channel by priority and age, up to the limit; they are in progress of the shard, in place, and no other row or column changes |
| MessageQueue.MessageQueue.ClaimBatch | lib/msgqueue.py:121-155 | an undisturbed claim: nothing if no live row is runnable; the live row whose turn it is, alone, if it is a call or internal row; else the first live ordinary rows of its channel by priority and age, up to the limit; each was a waiting live row of the shard and is now in progress of it, all else as expiry left it |
| MessageQueue.MessageQueue.ClaimSteerable | lib/msgqueue.py:158-177 | for the turn in flight: the oldest live rows of the channel that are neither call nor reply nor edit nor internal and have priority 0, up to the limit; they are in progress of the shard and otherwise unchanged |
| MessageQueue.MessageQueue.ClaimStolen | lib/msgqueue.py:209-249 | each stolen row waited, unexpired, for the victim and is now in progress with the thief as its claimer, the victim still its addressee and no other column changed; they are the oldest rows open to theft of the channel of the oldest such row, up to the limit; all other rows are as expiry left them |
| MessageQueue.MessageQueue.StealWait | lib/msgqueue.py:252-268 | no wait exactly when no live row of the victim is of a stealable kind; else the time at which the oldest of them has certainly waited long enough; at any time one of them passes the age test if and only if the wait is over |
| MessageQueue.MessageQueue.Release | lib/msgqueue.py:365-376 | of the given rows exactly those in progress are queued again, without a claimer, in place; nothing else changes |
| MessageQueue.MessageQueue.ReapHiveRows | lib/msgqueue.py:287-301 | exactly the queued reply rows that are at least the time to live old are skipped, in place; nothing else changes |
| MessageQueue.MessageQueue.PeekClaimable | lib/msgqueue.py:339-362 | for every table, shard, limit and time, the rows found without writing anything are exactly those the next claim would return, which are the right batch of the table as it is |
| MessageQueue.PeekAgrees | lib/msgqueue.py:339-362 | the live queries before expiry and the plain queries after it select the same heads and the same batches, although expiry may insert replies into the same shard |
| MessageQueue.ExpiryKeepsLive | lib/msgqueue.py:81-118 | after expiry the runnable rows of the shard are its live runnable rows from before, unchanged |
| MessageQueue.ExpireMeans | lib/msgqueue.py:81-118 | what expiry does to a table, in columns: exactly the overdue queued rows of the shard are skipped as expired, and each call among them is answered to its caller |
| MessageQueue.NextBatchMeans | lib/msgqueue.py:121-155 | the batch chosen after expiry is the right one of the table before it: its head is the live row that comes first by priority, kind and age, and it is that row alone or the first live ordinary rows of its channel |
| MessageQueue.SteerMeans | lib/msgqueue.py:158-177 | what is steered after expiry is the first of the live steerable rows before it |
| MessageQueue.OpenToTheftMeans | lib/msgqueue.py:181-237 | the nested NOT EXISTS tests and the whole-second cutoff let a row be taken exactly when it is plain, not held and surely old enough, and outside channel '0' its conversation is not being run and all that waits before it may be taken too |
| MessageQueue.StealMeans | lib/msgqueue.py:240-248 | the rows of a theft are the oldest rows open to it of the conversation of the oldest such row, up to the limit; none if no row is open to it |
| MessageQueue.TakeMeans | lib/msgqueue.py:149-154 | claiming waiting rows puts exactly them in progress of the claimer, in place, and returns them so; every other row and column is the same |
| MessageQueue.BatchTargetsSpec | lib/msgqueue.py:125-155 | a batch holds queued rows that are no replies; a call or internal row only alone; else one channel by priority and age, and a row of it is left out only when the limit is used up by rows that come before it |
| MessageQueue.StealTargetsSpec | lib/msgqueue.py:225-248 | stolen rows are eligible, of one channel, oldest first |
| MessageQueue.StealWaitIsExact | lib/msgqueue.py:252-268 | the wait computed from the oldest stealable row is over exactly when the first of the stealable rows is old enough |
| MessageClaims.HeadSpec | lib/msgqueue.py:31-40 | the head has the highest priority; an automated row is head only if only younger automated rows share its priority; any other head is the oldest human row, call or internal row of its priority over all channels |
| MessageClaims.HeadInBatchIff | lib/msgqueue.py:30-40 | a head of an ordinary batch is in the batch if and only if the limit exceeds the number of older automated rows of its priority in its channel, of which an automated head has none |
| MessageClaims.EmptyIff | lib/msgqueue.py:133-155 | a claim is empty if and only if no runnable row is live, or the limit is 0 and the head is ordinary |
| MessageClaims.OlderIsEligible | lib/msgqueue.py:225-237 | if a row of a channel may be stolen, so may every older waiting row of the channel |
| MessageClaims.StolenIsPrefix | lib/msgqueue.py:225-248 | outside channel '0' the stolen rows are a prefix of the victim's waiting rows of that channel by age, and the victim runs none of it |
| MessageClaims.StolenEmptyIff | lib/msgqueue.py:240-248 | a theft is empty if and only if nothing is eligible or the limit is 0 |
| MessageClaims.AgeFloorIff | lib/msgqueue.py:201-206 | the cutoff admits a row if and only if it is old enough whenever within its stored second it was created |
| MessageLimits.HeldRowIsClaimed | bin/agent-server.py:5216-5219 | a row that arrives, is claimed and is put back by hold_batch for another second is what the next claim takes, for every time and every positive limit |
| MessageLimits.ClaimTakesHeldIff | lib/msgqueue.py:133-155 | a claim takes a held row if and only if its head is claimed alone and is held, or a held live row of the head's channel is among the first `limit` |
| MessageLimits.DrainTakesHeldIff | lib/msgqueue.py:121-155 | about repeated claims by themselves: while the clock stands still they take a held row if and only if a live runnable row of the shard is held |
| MessageLimits.HoldPlaysNoPart | lib/msgqueue.py:121-155 | erasing all hold times from a table changes nothing in the next batch but the hold times |
| MessageLimits.HeadIsLeftOut | lib/msgqueue.py:30-40 | two arrivals, an automated row and then a human one, after which the human row is the head and a batch of one does not hold it |
| MessageRuns.RowStays | lib/msgqueue.py:365-376 | over every run no row is lost or changes identity, and a row that left the queue returns only if released |
| MessageRuns.TakenAreQueued | lib/msgqueue.py:149-154 | every claim takes queued rows that are no replies |
| MessageRuns.OwnedUntilReleased | lib/msgqueue.py:121-155 | with heads read and claimed in separate steps, a row returned by one claim is in no later claim's result unless released in between |
| MessageRuns.TakenOnce | lib/msgqueue.py:121-155 | no row is twice in one claim's result |
| MessageRuns.BatchShape | lib/msgqueue.py:126-130 | a call or internal row is alone in its batch; any other batch is of one channel, even for a stale head |
| MessageRuns.RepliesNeverRun | lib/msgqueue.py:41-43 | in every run no reply row is ever in progress |
| MessageRuns.BatchIsOwn | lib/msgqueue.py:134-148 | a batch belongs to the shard that claims it, however long ago its head was read |
| MessageRuns.StealKeepsOneThief | lib/msgqueue.py:230-232 | a theft keeps the rows in progress of each stolen channel with one thief |
| MessageRuns.OneThiefPerChannel | lib/msgqueue.py:209-249 | over every run, stolen rows in progress of one victim channel other than '0' have one thief; which rows these are, `TheftLasts` and `StolenWasTaken` say |
| MessageRuns.TheftShows | lib/msgqueue.py:241-248 | each row a theft takes is in the table afterwards, in progress, with the thief as claimer and the victim as addressee, and no other column changed |
| MessageRuns.TheftLasts | lib/msgqueue.py:209-249 | over every run, a row taken by another shard counts as stolen, and as that thief's, until it is released or its turn ends |
| MessageRuns.StolenWasTaken | lib/msgqueue.py:209-249 | over every run, a row that counts as stolen was made so by a theft of its claimer from the shard it is addressed to, and is otherwise the row that was taken |
| MessageRuns.TurnEndsRow | lib/turn_loop.py:1384-1392 | a row in progress whose turn ends is complete or crashed, and no other column that decides who owns it changes |
| MessageRuns.CancelSkipsRow | bin/agent-server.py:4262-4272 | a waiting row that is cancelled is skipped |
| MessageRuns.ReadReplyIsComplete | bin/agent-server.py:4597-4602 | a queued reply that is read is complete |
| MessageRuns.SettledForGood | lib/msgqueue.py:365-376 | over every run, a row that is complete, crashed or skipped never changes again, whatever is claimed, released, expired or reaped |
| MessageRuns.ReplyPays | lib/msgqueue.py:97-107 | the insert of an error reply is never ignored and answers the one call it is for |
| MessageRuns.RefusalKeepsAccounts | lib/msgqueue.py:304-336 | refusing rows keeps refused calls and error replies in one-to-one correspondence |
| MessageRuns.CallAccounting | lib/msgqueue.py:81-118 | over every run, each expired or failed call has exactly one error reply, to its caller and with its code; every other row has none |
| MessageDrain.BatchComesFirst | lib/msgqueue.py:141-148 | with a limit other than 0 a claim takes something, and all it leaves of its channel comes later in dispatch order |
| MessageDrain.ClaimKeepsDrain | lib/msgqueue.py:121-155 | one claim keeps the account of a drain: each row waits, was taken once, or expired; order holds across batches; fewer rows wait |
| MessageDrain.RoundKeepsDrain | lib/msgqueue.py:133-155 | so does a whole round with its expiry, and an empty round leaves no row waiting |
| MessageDrain.Drain | lib/turn_loop.py:266-272 | repeated claims end with no row waiting; each row was claimed once, at a reading that found it live, or expired at one that found it overdue; each channel's ordinary rows come out by priority, then age |
| MessageDrain.DrainClaims | lib/msgqueue.py:121-155 | a row without expiry is always claimed by a drain; while the clock stands still exactly the live rows are |
| WakeUp.ShardSignal.Notify | lib/msgqueue.py:413-421 | counts the change at once and leaves one notifier to run |
| WakeUp.ShardSignal.Enter | lib/msgqueue.py:424-431 | a waiter returns at once exactly when the counter moved since its reading; otherwise it holds the lock until registered |
| WakeUp.ShardSignal.Join | lib/msgqueue.py:432-433 | registering and releasing the lock is one step |
| WakeUp.ShardSignal.Leave | lib/msgqueue.py:433-436 | the resumed waiter gives the lock back and returns whether it was notified |
| WakeUp.ShardSignal.NotifyAll | lib/msgqueue.py:407-410 | a notifier wakes every registered waiter |
| WakeUp.NextKeepsWakers | lib/msgqueue.py:390-393 | every step keeps: a waiter whose reading is out of date has a notifier still to come |
| WakeUp.NoLostWakeUp | lib/msgqueue.py:424-436 | over every interleaving, a registered waiter with an outdated reading has a notifier pending, and at most the step by which the lock holder registers or returns is needed before that notifier can wake it |
| WakeUp.WhyReturned | lib/msgqueue.py:424-436 | over every interleaving, a wait returns true only if a notifier woke it while registered and false only if it timed out, as the last such event of that wait |
| WakeUp.ReturnsAtOnceIff | lib/msgqueue.py:429-431 | over every interleaving, entering the wait returns true at once if and only if the counter has passed the reading it was given |
| WakeUp.CountersMean | lib/msgqueue.py:413-421 | over every run the counter counts the notifies, the notifiers pending are those that have not run, and the notifies owed those of replies inserted since |
| WakeUp.CheckMeans | bin/agent-server.py:4590-4600 | a poll's check is answered at once exactly when a reply has been inserted; else the poll goes on to wait with the counter it read before the check |
| WakeUp.ReplyNeverSleptThrough | bin/agent-server.py:4582-4627 | over every interleaving, told by its steps: if every reply inserted has been notified and every notifier has run, a poll that still sleeps after its check sleeps because no reply was ever inserted |
| WakeUp.PollIsAnswered | bin/agent-server.py:4582-4627 | a run in which a poll finds nothing, sleeps, and is woken by the reply |
| Hive.WouldDeadlock | lib/hive.py:164-181 | true if and only if the callee reaches the caller through open calls; ends on every finite graph |
| Hive.ClosedHoldsPath | lib/hive.py:171-181 | a set of shards closed under waiting holds every path that starts in it, so an exhausted search has seen all that is reachable |
| Hive.ChooseAmong | lib/hive.py:205-222 | among the other shards of a target: the usable one that can answer and is idle rather than not, then has the shorter queue, then the earlier place; or the right refusal |
| Hive.PickCallee | lib/hive.py:184-222 | read off the configuration: the chosen shard stands at a place of the target other than the caller, is available, cannot reach the caller, and no different shard that could take the call is idle while it is not, or as idle with a shorter queue, or as idle with as short a queue and configured before it; deadlock exactly when some are available and all of these reach the caller; paused, unavailable, unknown and self calls exactly as defined |
| Hive.PickIsRight | lib/hive.py:184-222 | a choice made by filtering and sorting candidates is the right one of the configuration: its place in `specs`, its state and its queue depth decide |
| Hive.BestHasBestPlace | lib/hive.py:189-214 | the best candidate stands at the best place of the configuration, for an agent's shards in configured order and for one named shard |
| Hive.PickIsDetermined | lib/hive.py:184-222 | no two choices for the same request are both right |
| HiveCalls.NextDepth | lib/hive.py:160-161 | one more than the deepest row of the batch, and 1 for none |
| HiveCalls.HiveState.WaitsFor | lib/hive.py:243-247 | the loop builds exactly the waits-for graph of the open calls |
| HiveCalls.HiveState.CallsOf | lib/hive.py:257-258 | the loop collects the calls whose caller the shard is, and finds none exactly when the shard waits on nobody |
| HiveCalls.HiveState.PruneOverdue | lib/hive.py:249-255 | exactly the calls whose deadline, with grace and slack, has passed are forgotten and returned; the others stay as they are |
| HiveCalls.HiveState.CancelCall | bin/agent-server.py:4262-4265 | the call is forgotten and no other |
| HiveCalls.HiveState.CancelCaller | bin/agent-server.py:4275-4279 | after a turn ends its caller has no open call, and no other call is touched |
| HiveCalls.HiveState.PlanCall | bin/agent-server.py:4515-4519 | the verdict is right: a call goes to the right shard of its target, which has room in its queue and cannot reach the caller; it is refused as full only because that shard is, and else exactly for the reason the choice gives |
| HiveCalls.HiveState.BeginCall | bin/agent-server.py:4495-4513 | the overdue calls are pruned, and a request is refused exactly without a turn or beyond the depth limit |
| HiveCalls.HiveState.PlaceCall | bin/agent-server.py:4515-4524 | choice and insert in one step, on the calls open after the handler's await: the verdict is right for these, a refusal changes nothing, and a placed call is opened with its caller, callee, depth and deadline as an admitted step of the runs |
| HiveCalls.HiveState.InsertFailed | bin/agent-server.py:4525-4529 | a call whose row could not be written is closed, and no other |
| HiveCalls.PlanIsDetermined | bin/agent-server.py:4515-4519 | state and request fix the verdict: no two are right |
| HiveCalls.PlacedWithTheBest | bin/agent-server.py:4515-4524 | a placed call has the best available shard of its target that cannot reach the caller, with room in its queue |
| HiveCalls.GraphGrows | lib/hive.py:243-247 | opening a call adds exactly one edge to the waits-for graph |
| HiveCalls.PathWithoutEdge | lib/hive.py:164-181 | a path from the head of a new edge does not need the new edge |
| HiveCalls.EdgeKeepsAcyclic | bin/agent-server.py:4515-4524 | adding an edge whose head does not reach its tail closes no cycle |
| HiveCalls.NextKeepsAcyclic | bin/agent-server.py:4515-4524 | every step keeps the waits acyclic |
| HiveCalls.NeverDeadlocked | bin/agent-server.py:4487-4534 | over every run no shard waits, directly or not, on itself |
| HiveCalls.ChainEnds | lib/hive.py:164-168 | following open calls from any shard ends at a shard that waits on nobody |
| HiveCalls.CheckThenInsertRaces | bin/agent-server.py:4515-4524 | the check alone is not enough: two calls checked before either is inserted do close a cycle |
| Outbox.Outbox.Enqueue | lib/outbox.py:222-252 | the inline claim is granted exactly when asked for in a lane where no row is pending or sending; the row joins at the end, untried, due now |
| Outbox.Outbox.InsertDead | lib/outbox.py:429-439 | an imported dead letter joins as a dead row with its own creation time |
| Outbox.Outbox.ClaimDue | lib/outbox.py:255-268 | the rows that become sending are pending, their time has come and they are the oldest active rows of their lanes; they go oldest first, a row that may go is left only when the limit went to older ones, and nothing else changes |
| Outbox.Outbox.RecordChunk | lib/outbox.py:275-292 | a chunk counts only on a row being sent: its message id is appended, one more chunk is done, and nothing else changes |
| Outbox.Outbox.MarkDelivered | lib/outbox.py:295-307 | only a row being sent becomes delivered, with no further attempt planned; nothing else changes |
| Outbox.Outbox.RecordFailure | lib/outbox.py:310-348 | a failed row has one attempt more and is dead exactly when permanent, out of attempts or too old, else pending again after the wait of the kind: Discord's, up to five minutes, or the ladder's 5, 15, 45 ... seconds up to an hour, with jitter; anything not being sent is untouched |
| Outbox.Outbox.RecoverSending | lib/outbox.py:351-365 | at start every row left sending, and no other, is pending and due now, with its attempts, chunks, message ids and place kept; the oldest active row of a lane, if it was being sent, may be sent at once |
| Outbox.Outbox.DiscardRow | lib/outbox.py:424-426 | only a pending or dead row becomes discarded, with no further attempt planned; nothing else changes |
| Outbox.Outbox.RetryRow | lib/outbox.py:418-421 | only a dead or discarded row becomes pending, untried and due now; nothing else changes |
| Outbox.Outbox.Purge | lib/outbox.py:442-462 | the loop deletes exactly the delivered, dead and discarded rows that are old enough, and leaves the others in their order |
| Outbox.BackoffBounds | lib/outbox.py:198-200 | waits never shrink from attempt to attempt and stay between 4.5 s and 66 min with jitter |
| Outbox.LadderIsBase | lib/outbox.py:198-200 | the waits without jitter are 5, 15, 45, 135, 405 and 1215 seconds, then an hour |
| Outbox.FailureMeans | lib/outbox.py:322-344 | whether a failed attempt is the last, and the row it leaves: dead, or pending after exactly the wait its kind, its attempts and Discord's answer give |
| Outbox.FailedIsDueIff | lib/outbox.py:255-263 | after a failure the oldest row of a lane is due if and only if its wait has passed |
| Outbox.RecoveredGoes | lib/outbox.py:351-365 | after recovery the oldest active row of a lane that was being sent may go at once |
| Outbox.WithoutKeepsOrder | lib/outbox.py:449-456 | deleting rows leaves the others in the order they had |
| Outbox.RetryKeepsOrderIff | lib/outbox.py:418-421 | about senders only: a retry keeps every row being sent the oldest active row of its lane if and only if no younger row of the lane is being sent; what was already shown or delivered is not in its scope |
| Outbox.RetryBesideSender | lib/outbox.py:255-268 | otherwise the retried row is due at once and two rows of the lane end up being sent |
| OutboxSender.SendRow | bin/agent-server.py:1914-2048 | sending one row without losses: the chunks from the first unrecorded one on are posted and recorded; the row ends delivered or failed as its answers say, no other row changes, and the id returned is the last message's |
| OutboxSender.SentSpec | bin/agent-server.py:1945-2048 | a row is delivered if and only if every remaining chunk is accepted; otherwise it stops at the first refused one with all before it recorded, one attempt used, dead if and only if it gives up |
| OutboxDelivery.ClaimKeepsOrder | lib/outbox.py:255-263 | claiming due rows keeps every row being sent the oldest active row of its lane |
| OutboxDelivery.PostKeepsWire | bin/agent-server.py:1945-1993 | a POST, first or repeated, keeps the messages of every lane in order and without gaps |
| OutboxDelivery.FinishKeepsInv | bin/agent-server.py:2044-2048 | delivering a row keeps the delivery log in enqueue order and complete |
| OutboxDelivery.StepKeepsInv | bin/agent-server.py:1914-2048 | every step keeps the whole invariant: enqueue, claim, POST, record, finish, failure, lost sender, crash, recovery, discard, purge, and a retry of a row that is in line |
| OutboxDelivery.OneSenderPerLane | lib/outbox.py:255-257 | over every run at most one row of a lane is being sent and no active row of the lane is older |
| OutboxDelivery.DeliveredInOrder | lib/outbox.py:255-307 | over every run, guarded retries included, rows of a lane are delivered in enqueue order, each once, and every delivered row has every chunk accepted |
| OutboxDelivery.AcceptedChunks | bin/agent-server.py:1945-2044 | whatever was lost, the chunks Discord accepted of a row are exactly the recorded ones or those and the next; the recorded ids name their messages; a delivered row has all |
| OutboxDelivery.ReaderSeesOrder | bin/agent-server.py:1945-2044 | over every run, guarded retries included, a lane reads in enqueue order, chunk by chunk, no chunk before the earlier ones |
| OutboxDelivery.ExactlyOnce | bin/agent-server.py:1946-1949 | if Discord honours the nonce no chunk is shown twice |
| OutboxDelivery.RowReadsInFull | bin/agent-server.py:1917-1921 | if Discord honours the nonce a row reads 0, 1, 2, ... once each up to its recorded chunks or one more, and a delivered row in full |
| OutboxDelivery.RetryKeepsInvIff | lib/outbox.py:418-421 | an operator's retry keeps everything the runs promise if and only if the row is in line: its creation time fits its place, and no younger row of its lane is being sent, was shown or was delivered |
| OutboxDelivery.PostKeepsOrderIff | bin/agent-server.py:1945-1993 | showing a row's next chunk keeps its lane in order if and only if no younger row of the lane has been shown |
| OutboxDelivery.DeliverKeepsOrderIff | bin/agent-server.py:2044-2048 | delivering a complete row keeps the deliveries of its lane in order if and only if none of the lane is of a row as young |
| OutboxDelivery.RetryAfterYounger | lib/outbox.py:418-421 | a run after which, with nobody sending, a retried row is due although a younger one was delivered; its message and its delivery come out of order |
| OutboxDelivery.RetryBreaksOrder | lib/outbox.py:418-421 | a run after which a retry makes the older row of a lane due beside the younger one being sent |
| Respawn.AgentServer.ClearSession | bin/agent-server.py:623-645 | a fresh session forgets the resume streak and the resumed spawn, and nothing of other shards |
| Respawn.AgentServer.MarkSessionStarted | bin/agent-server.py:615-620 | the shard's session has begun, and nothing else changes |
| Respawn.AgentServer.StartSubprocess | bin/agent-server.py:970-983 | a successful spawn records its time exactly when it resumed a session; a failed one changes nothing |
| Respawn.AgentServer.NoteDeath | bin/agent-server.py:1175-1187 | the death of a resumed process within two minutes of its spawn adds to the streak, any other death ends it; the third in a row wipes the crash history and pins a fresh session |
| Respawn.AgentServer.OnExit | bin/agent-server.py:1175-1213 | the process is respawned exactly when fewer than three earlier crashes that still count lie in the window; the crash joins the history, what the resume fallback forgets is forgotten, and no other shard is touched |
| Respawn.RecentCounts | bin/agent-server.py:1194-1198 | what trimming keeps of a history counts exactly the crashes in the window, whatever their order |
| Respawn.BrakeHolds | bin/agent-server.py:1194-1198 | between two fallbacks, respawns three apart are a window apart |
| Respawn.FallbacksStayApart | bin/agent-server.py:1175-1187 | more than three respawns lie between two fallbacks |
| Respawn.FallbacksSpaced | bin/agent-server.py:229-235 | two fallbacks are at least a window apart |
| Respawn.EveryRun | bin/agent-server.py:1119-1213 | over every run of exits, spawns and turns the history remembers the respawns that matter |
| Respawn.RespawnBound | bin/agent-server.py:229-235 | over every run of watcher respawns any window holds at most six, though the fallback wipes the history |
| Respawn.RespawnBoundIsMet | bin/agent-server.py:229-235 | six is reached by a run one second apart, so the bound is exact |
| Alerts.Gather | lib/alerts.py:35-36 | the loop keeps each alerting key once, with the severity of its last finding |
| Alerts.FreshKeepsOrder | lib/alerts.py:34 | of the posts made so far exactly those of the last ten minutes count, in their order |
| Alerts.RaiseOne | lib/alerts.py:37-53 | the branches for one finding raise exactly the alert its key is due and touch no other key |
| Alerts.RaiseAlerts | lib/alerts.py:36-53 | the loop over the findings raises exactly the alert each key is due and replaces exactly those entries |
| Alerts.ResolveGone | lib/alerts.py:54-57 | every remembered key without a finding is announced as resolved and dropped |
| Alerts.Emit | lib/alerts.py:58-67 | one post per alert while the budget lasts, the last post standing for all the rest |
| Alerts.Plan | lib/alerts.py:27-68 | posts and next state follow from the old state key by key, as if every post were delivered |
| Alerts.Commit | lib/alerts.py:71-86 | the keys of failed posts get their old entries back, one slot of the cap per failure |
| Alerts.MonitorTick | lib/monitor_tick.py:136-147 | what a monitor tick keeps is the commit of its plan for exactly the posts that got through |
| Alerts.PostsSplitAlerts | lib/alerts.py:58-68 | the posts' keys are disjoint and together exactly the alerting keys; no more posts than room, or one |
| Alerts.TickFrame | lib/alerts.py:71-86 | for any pattern of failures a key has its planned entry if its post was delivered and its old one if not; the cap counts exactly the delivered posts |
| Alerts.CapOverrun | lib/alerts.py:58-65 | a tick posts past the ten-minute cap if and only if no room is left and some key alerts, and then by one post |
| Alerts.CapIsPassed | lib/alerts.py:58-65 | a run of two ticks, with room for one post, that delivers two within ten minutes |
| Alerts.EpisodeStep | lib/alerts.py:37-57 | a delivered alert extends its key's episode within the bounds; an undelivered one leaves it |
| Alerts.EpisodesAreBounded | lib/alerts.py:27-86 | over every run with any failures, between two delivered resolutions a key sees at most one warn, one first critical and `maxRepeats` repeats, criticals spaced |
| BuildQueue.Dispatcher.FreeSlots | lib/build_dispatcher.py:222-226 | one pass over the table counts per host so that free slots are concurrency less the running rows, for exactly the configured hosts |
| BuildQueue.Dispatcher.ClaimNext | lib/buildq.py:218-249 | claims a due row whose host has a slot and that the gate accepts; every due row of higher priority, or as high and older, or as old with a smaller id, has a full host or was refused; none exactly when every due row is; the claimed row runs on its host, by default the default host, with one attempt more, and no other row changes |
| BuildQueue.Dispatcher.ClaimAll | lib/build_dispatcher.py:309-315 | the loop ends; no host goes over the larger of its load before and its limit; the rows started are started by priority, then age, then id, and none before a due row that could have been; what stays due has a full host or is refused |
| BuildQueue.Dispatcher.ClaimKeepsCaps | lib/build_dispatcher.py:309-314 | a claim keeps the dispatcher's local slot counts equal to the real ones |
| BuildQueue.Dispatcher.KeepsOrder | lib/buildq.py:227-239 | with clock and gate still, a later claim of the tick never takes a row an earlier one should have taken |
| BuildQueue.Dispatcher.Finish | lib/buildq.py:252-256 | the named row, and only it, gets the final status, which frees exactly the slot it held |
| BuildQueue.Dispatcher.Cancel | lib/buildq.py:268-280 | returns the status before, and nothing exactly when no row has the id; only a queued or running row becomes cancelled |
| BuildQueue.Dispatcher.Recover | lib/buildq.py:314-334 | at start nothing runs any more: each running row is failed, or queued while attempts remain |
| BuildQueue.Dispatcher.ReturnToQueue | lib/build_dispatcher.py:431-437 | a running row whose host cannot be reached is queued again without a host and its attempt is not counted; no other row changes |
| BuildQueue.Dispatcher.RecordFailedKill | lib/build_dispatcher.py:363-373 | the named row, and only it, is running again on the host it had |
| BuildQueue.CapacityKept | lib/build_dispatcher.py:309-315 | over every run of enqueues, ticks, endings, cancels, unreachable hosts and restarts no more rows of a host are marked running than its limit |
| BuildQueue.FailedKillKeepsCapacity | lib/build_dispatcher.py:363-373 | a failed kill keeps the rows marked running on the host within its limit if and only if a slot was free |
| BuildQueue.FailedKillOverruns | lib/build_dispatcher.py:363-373 | a run of start, cancel and start on a host for one job, after which a failed kill leaves two running |
| RateLimiting.RateLimiter.Trim | lib/cross_send.py:92-96 | the deque keeps exactly what follows its expired front; other agents are untouched |
| RateLimiting.RateLimiter.Allow | lib/cross_send.py:98-104 | verdict, wait and new deque of one attempt; other agents are untouched |
| RateLimiting.DequeNow | lib/cross_send.py:92-96 | after any history the trimmed deque is the end of the accepted log: exactly the sends still in the window, all before it outside |
| RateLimiting.RollingLimit | lib/cross_send.py:84-104 | accepted sends i and i + limit are at least a window apart |
| RateLimiting.RefusedIffFull | lib/cross_send.py:98-104 | a send is refused if and only if exactly limit accepted sends lie in the window |
| RateLimiting.WaitIsExact | lib/cross_send.py:98-104 | with nothing else sent, a later attempt is allowed if and only if the returned wait has passed |
| ProcessWalk.ChildrenMap | lib/procinfo.py:113-119 | the loop maps each parent to exactly its children |
| ProcessWalk.ChainCrossesQueue | lib/procinfo.py:128-140 | every chain to an unseen process leaves the seen ones through the queue |
| ProcessWalk.Visit | lib/procinfo.py:134-139 | visiting a process keeps levels equal to distances and the queue in order of distance |
| ProcessWalk.WalkTree | lib/procinfo.py:128-140 | for any parent map, cycles included, the walk ends with every descendant but the root, each once, in nondecreasing distance |

## Left out

- SQLite itself, its journal, migrations and text formats: a statement or transaction is one atomic
  step, `RETURNING` gives rows in table order, and ids and times are numbers.
- HTTP routes, authentication, the Discord client, subprocess pipes, logging: only their effect on the
  stores is modelled.
- Attachments, embeds, and the second POST without files in `outbox_send_row`: a row is a number of
  text chunks, split the same way at every attempt.
- A POST that Discord accepts only after the sender has given up and tried again: an accepted chunk is
  accepted at its POST.
- Recovery of the outbox while a sender of the new process is already at work: `RecoverAll` runs only
  when no sender is left.
- OutboxDelivery.DeliveredInOrder: assumes a clock that never goes back, and of operator retries only
  those of a row that is in line; any other breaks the invariant, as `OutboxDelivery.RetryKeepsInvIff` says.
- Respawn.RespawnBound: assumes that only the watcher starts the process; an operator's restart is not
  counted by the brake.
- BuildQueue.CapacityKept: leaves out failed kills, which break the limit exactly as
  `BuildQueue.FailedKillKeepsCapacity` says, and a second dispatcher process. It counts rows marked
  running: a cancelled job's process runs on until its kill has ended, beside the job that took its slot.
- BuildQueue.Dispatcher.ClaimAll: the order and the "nothing due is left" parts are for a clock and a
  gate that hold still during the tick, as the code promises no more when they move.
- RateLimiting.RollingLimit: for one limit over the whole history; the code takes the limit anew at each call.
- MessageRuns.CallAccounting: message ids are structured values, so an arriving message cannot carry the
  id of an error reply; and a turn ends only rows in progress, while the statement that marks a turn's
  rows complete (lib/turn_loop.py:1384-1392) has no status guard, so that a refused call among them
  would lose its reason.
- WakeUp.NoLostWakeUp: one event loop and one shard's Condition; cancellation of a waiter other than by
  its timeout is not modelled.
- HiveCalls.HiveState.CancelCaller: closes the calls in one step, while the handler awaits the database
  between two of them; its caller is no longer in a turn and opens none meanwhile.
- Hive.PickCallee: shard ids are taken to be different from each other; with an id configured twice the
  code ranks a shard by its last place, the model by its first.
- HiveCalls.HiveState.PlanCall: leaves out the checks of the request itself (known caller, question
  length, timeout range).
- `hold_batch`: it requeues rows by message id without a status guard, so it is not a step of the
  ownership runs.
- `write_commit`, `set_partial` and edits of a message's text: they touch no column that decides who owns a row.
- The buzz limit per turn: it is checked before an await and counted after it.
- Times of the queue, the alerts, the build queue and the hive are whole numbers; stealing, the rate
  limiter and the respawn brake use exact reals; floating-point rounding is not modelled.
- The creation time of an error reply: it is the time given to the statement that inserts it, not a
  second reading of the database clock.
- The order in which Python lists the keys of a dictionary that `plan` walks: any order is allowed.
- lib/turn_loop.py, lib/session_policy.py, lib/usage_gate.py and lib/shards.py: a turn is rows that are
  later ended, skipped or released; of `claim_next` only the repeated claim is modelled.
- Dashboard, configuration, overlay and graph tools, health checks and estimates.
