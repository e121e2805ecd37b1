# eamqp: a verified model of pooled channels

This project models the part of the eamqp client that shares AMQP channels among goroutines, and
proves what it guarantees. `dafny verify dfyconfig.toml` checks all of it.

## What is modelled

**The channel pool as a protocol.** `PoolProtocol` is a step machine of `ChannelPool`: one atomic
action of the source per step, any number of goroutines, any interleaving. A goroutine is described by
the action it takes next: the snapshot under the read lock, a receive from the idle queue, a send to
the semaphore, the load and the compare-and-swap on `active`, the close of the Go channel, and so on.
Acquire works from its snapshot without the lock, so it races with release, discard and Close. The
broker is an open bit per channel that can fall at any time. History (who owns each channel, how many
left by each route) is kept in a separate record that no step reads.

- `PoolInvariant` and `PoolOwners` hold what every step keeps: the token equations, the ledgers, the
  lock and the stages of Close, and the place of every channel.
- `PoolSafety` draws the guarantees for every schedule. `PoolSchedules` gives concrete schedules for
  what the pool does not guarantee.

**The wrapper.** `WrapperProtocol` is the lifecycle of one `Channel` under any interleaving of
operations, raw accesses and Close calls. `PooledChannel` composes it with the pool: a lease is given
back exactly when its wrapper's Close reaches its ending. `Generations` lets a client go through any
number of Reconnect calls and a Close while old leases are still out. `PooledRuns` and `ClientRuns` show
that what these allow can also be done: a Close gives its channel back, a Reconnect completes.

**The objects.** `ChannelPool`, `ChannelWrapper`, `Connections`, `Consuming`, `Reconnecting` and
`Batching` contain the source's objects as classes, with its loops. The methods of the channel pool
meet specifications on values, and `PoolSequential` shows each of those to be a schedule of the step
machine, so the guarantees of `PoolSafety` hold after every sequence of calls. `PoolCapacity` says what
the pool is for: channels are reused in order, and a pool of size n leases n channels and no more.

**Helpers.** `RoundRobin` (int32 counter, Go's remainder), `ReconnectPolicy` (backoff), `FanIn` (the
merged notification stream), `Consuming` (settlement and retry), `Batching` (batch conservation).

## Where the code does less than one might think

- A permit freed by a discard does not wake an Acquire that is already blocked
  (`PoolSchedules.FreedPermitDoesNotWake`); a return to the idle queue, Close or its context do, and
  nothing else does (`PoolSafety.StaysBlockedIff`).
- CONFIGURATION.md:221 lists the uses that keep a channel out of the idle pool, and leaves out Flow; the
  code discards after Flow too
  (`WrapperProtocol.DiscardedIffUsed`, `WrapperProtocol.FlowAloneDiscards`).
- `active` can pass the pool size for a moment (`PoolSchedules.ActiveCanPassPoolSize`); the exact bound
  is in `PoolSafety.ActiveCount`. A channel can be reused before its return is counted
  (`PoolSchedules.ReusedBeforeCounted`); the exact relation is `PoolSafety.ReuseLedger`.
- The round-robin index leaves the slice once the int32 counter has wrapped, unless the counter happens
  to be a multiple of the number of slots (`RoundRobin.SlotIsIndex`).
- `Backoff` does not cap attempt 0, and nothing keeps a multiplier below one from shrinking the delay. In
  exact arithmetic, the delays of a positive initial delay are ordered and bounded exactly when it does not
  exceed the maximum and the multiplier is zero, which switches growth off, or at least one;
  `ReconnectPolicy.BackoffOrderlyIff` has the condition for every policy. A configured interval above thirty
  seconds breaks it, and so does a multiplier of one half (`ReconnectPolicy.LongIntervalFalls`,
  `ReconnectPolicy.HalvingFalls`). The source computes in float64, where two kinds of policy that meet the
  condition still fail: `Initial: 0, Multiplier: 2, Max: 30s` multiplies zero by infinity from attempt 1024
  on, which passes the cap as a NaN; and `Initial: 1s, Multiplier: 2, Max: math.MaxInt64` is capped from
  attempt 34 on to 2^63, which does not fit a `Duration`.
- A Reconnect that succeeds can leave the client less than up: a connection may be lost while the others are
  dialled (`Connections.Client.Reconnect`). A second Close of a wrapper can return before the first has
  finished (`WrapperProtocol.SecondCloseReturnsFirst`).
- A reconnect manager that has given up dials again when its int32 counter wraps
  (`Reconnecting.WrapReopensBudget`), and a limit of 2^31 or more is compared after truncation
  (`Reconnecting.FreshDialsIff`, `Reconnecting.HugeLimitNeverDials`).

## Model

| member | source | states |
|---|---|---|
| PoolSafety.PoolBounds | pool.go:33-239 | in every schedule tokens equal idle channels plus leases plus goroutines holding one; open channels and tokens never exceed the configured pool size (one if it is not positive), idle ones never exceed the configured limit, nor the pool size |
| PoolSafety.NoLeakNoSharing | pool.go:58-185 | every open channel of the pool is in the queue, leased, or in one goroutine's hands; no channel is in two places |
| PoolSafety.Quiescence | pool.go:158-185 | a closed pool with no lease out and nobody holding a token has every channel closed, no tokens out, and `active` zero |
| PoolSafety.ActiveCount | pool.go:209-239 | the empty-handed branches of releasePermit are never taken; `active` equals tokens up to goroutines in between, is never negative, and has an exact upper bound |
| PoolSafety.AcquisitionLedger | pool.go:58-156 | every acquisition is returned, out, in hand, discarded, closed on return or refused by the options, and counted once |
| PoolSafety.ReuseLedger | pool.go:122-148 | every return is still idle, just received, reused, dropped dead or drained; reuses exceed returns by at most one |
| PoolSafety.NeverPanics | pool.go:122-185 | no schedule sends on the closed idle queue or closes it twice |
| PoolSafety.ClosedForGood | pool.go:122-185 | a closed pool stays closed, its queue only empties from the front, and a channel not idle when it closed is never idle again |
| PoolSafety.StaleReaderLeaves | pool.go:63-80 | once the queue is closed and empty, a goroutine of Acquire at the snapshot, the poll or the wait leaves at once and changes nothing |
| PoolSafety.NoLatePermits | pool.go:63-85 | from then on nobody goes on to a permit or a new channel who had not already passed the poll |
| PoolSafety.WakesIff | pool.go:106-118 | a step ends the blocked state of a goroutine in Acquire iff it is its context ending, a send to the idle queue, or the close of the queue |
| PoolSafety.StaysBlockedIff | pool.go:106-118 | a goroutine blocked in Acquire stays so at every moment of a schedule iff the schedule has no such step, however many permits are freed |
| PoolSchedules.FreedPermitDoesNotWake | pool.go:106-118 | a schedule in which every permit is free, the pool is open and a goroutine still waits with only its context to move it |
| PoolSchedules.ReusedBeforeCounted | pool.go:141-142 | a schedule with two acquisitions, one creation and no counted return |
| PoolSchedules.ActiveCanPassPoolSize | pool.go:223-239 | a schedule in which `active` is one more than the pool size |
| WrapperProtocol.EndsAtMostOnce | channel.go:59-90 | at most one of release, discard and raw close runs, at most once, with no operation in flight, and it is the one the callbacks and the use call for |
| WrapperProtocol.EndsExactlyOnce | channel.go:59-90 | a closed wrapper that every closing goroutine has left has ended exactly once |
| WrapperProtocol.SecondCloseReturnsFirst | channel.go:59-77 | a run in which a second Close has returned while the first still waits for an operation and nothing has ended |
| WrapperProtocol.NothingAfterClose | channel.go:99-111 | after Close has taken the channel no operation is admitted and no raw access marks it; after the ending nothing changes |
| WrapperProtocol.OperationHoldsChannel | channel.go:99-111 | a running operation's wrapper has not ended, and the operation uses the wrapper's own channel |
| WrapperProtocol.AdmittedIffOpen | channel.go:59-111 | in every run an operation is admitted iff the wrapper is open, and gets its channel; the first Close takes it out, and can end iff nothing is in flight |
| WrapperProtocol.DiscardedIffUsed | channel.go:49-111 | a pooled wrapper is discarded iff a documented stateful use or a Flow reached it while open, else returned; it ends as documented iff a documented use reached it or no Flow did |
| WrapperProtocol.FlowAloneDiscards | channel.go:482-493 | a run whose only stateful use is Flow, which the documentation does not list, and whose channel is discarded |
| ChannelWrapper.Channel.constructor | channel.go:38-45 | a new wrapper is open, with nothing in flight and no stateful use |
| ChannelWrapper.Channel.RawChannel | channel.go:49-56 | returns the channel if open and marks an open wrapper stateful |
| ChannelWrapper.Channel.AcquireChannel | channel.go:99-111 | admits an operation iff the wrapper is open, sets the flag and counts it in flight; refuses without any change otherwise |
| ChannelWrapper.Channel.Operate | channel.go:113-133 | a whole operation leaves only the stateful flag behind |
| ChannelWrapper.Channel.BeginClose | channel.go:59-75 | the locked section of Close: takes the channel and callbacks out once, changes nothing the second time |
| ChannelWrapper.Channel.Close | channel.go:59-90 | discards a stateful pooled channel, releases a clean one, closes a raw one; a second Close does nothing |
| PooledChannel.CleanReuse | channel.go:49-111 | a channel on which a stateful operation or raw access was ever admitted is never idle again and never leased again |
| PooledChannel.ExclusiveUse | channel.go:99-119 | while an operation runs its channel is leased to that wrapper alone, not idle, and used through no other wrapper |
| PooledChannel.GivenBackOnce | client.go:186-194 | a lease is out until its wrapper has ended, and it ended by discard iff it was used statefully |
| PooledRuns.CloseEnds | channel.go:77-86 | a Close whose wrapper's operations are over can end, by discard iff the wrapper was used statefully |
| PooledRuns.CloseGivesBack | client.go:186-194 | the run of that Close makes a clean live channel the last idle one of an open pool with room, and closes one used statefully |
| PooledChannel.PoolReached | client.go:176-194 | every run of wrappers over a pool is a run of the pool, so the pool's clients are disciplined |
| PooledChannel.AllClosedInTheEnd | pool.go:158-185 | pool closed, wrappers ended, nobody inside: every channel ever opened is closed, permits and `active` are zero |
| Generations.GenerationIsolation | client.go:347-370 | a pool of an earlier generation is closed, with nothing idle, open or being acquired; queues and leases hold only channels of their own connection |
| Generations.PresentPoolsServe | client.go:152-181 | in every run, the present pools of a serving client are open and Acquire can begin in each |
| Generations.DialledServes | client.go:85-92 | a dial makes as many new pools present as it dialled, each on its own connection, and ready for Acquire |
| ClientRuns.ReconnectCompletes | client.go:347-370 | from every serving state with nobody inside the present pools, Reconnect can run to its end, with the old leases still out |
| ClientRuns.CloseCompletes | client.go:114-141 | and so can Close |
| Generations.ClosedClientLeavesNothing | client.go:114-141 | after the client's Close, with every wrapper ended and nobody inside, every pool it ever made has all channels closed and all permits and counts back |
| Generations.RetiredForGood | pool.go:122-138 | whatever the client does later, a retired pool stays so, and a late give-back is never made idle |
| ChannelPool.ChannelPool.constructor | pool.go:33-55 | the pool size is the configured one, or one; the idle limit is the configured one if positive and no larger, else the pool size; the pool is empty |
| ChannelPool.DeadPrefix | pool.go:69-81 | the number of closed channels at the front of the queue, the first live one behind them |
| ChannelPool.ChannelPool.Acquire | pool.go:58-120 | cancels only if the context is done, refuses iff closed; else leases the first live idle channel, and opens none; blocks iff every permit is out on a lease; terminates |
| ChannelPool.AcquireReuses | pool.go:69-83 | with a live idle channel and a context not done, the first such channel is leased and counted, what is before it is dropped, nothing is opened |
| ChannelPool.AcquireOpens | pool.go:85-107 | with none, every permit leased means waiting; else a new channel is leased iff the broker opens it and the options accept it, and each failure leaves its counts |
| ChannelPool.AcquireRefusals | pool.go:63-73 | only a closed pool refuses, only a done context cancels, and neither changes leases, counters or open channels |
| ChannelPool.AcquiresAtRest | pool.go:106-119 | every outcome of Acquire keeps tokens equal to idle plus leased; the blocking wait is reached iff leases equal the pool size |
| ChannelPool.ChannelPool.TakePermit | pool.go:85-107 | with nothing idle: blocked iff no permit is free, and every failure gives its permit back |
| ChannelPool.ChannelPool.Open | pool.go:85-104 | a new channel is leased and counted, or the permit is given back; refused channels are closed but stay counted |
| ChannelPool.ChannelPool.RunOptions | pool.go:95-103 | options refusal closes the channel and frees its permit |
| ChannelPool.ChannelPool.ReleasePermit | pool.go:223-239 | returns one token and one count, neither below zero; the compare-and-swap loop ends |
| ChannelPool.ChannelPool.Release | pool.go:123-148 | idle again iff pool open, channel live and room in the queue; otherwise its permit is freed, a live one closed first |
| ChannelPool.ReleaseMeans | pool.go:123-148 | a live channel returned to an open pool with room is the last idle one, open and counted; any other is closed and its permit free |
| PoolCapacity.GivenBackIsReused | pool.go:58-148 | the round trip: channels given back are leased again by the next calls, in order, and none is opened or closed |
| PoolCapacity.LeasesExactly | pool.go:33-119 | on a new pool with a willing broker, as many calls as configured lease, each a channel of its own, and the next can only wait |
| PoolCapacity.PoolSizeReached | pool.go:33-119 | the bound on open channels is reached by some schedule, for every configured size |
| PoolCapacity.IdleLimitReached | pool.go:33-148 | so is the bound on idle channels, for every configured size and limit |
| ChannelPool.ChannelPool.Discard | pool.go:151-156 | closes the channel and frees its permit |
| ChannelPool.ChannelPool.Close | pool.go:159-185 | flags set once; all idle channels closed and their permits freed |
| ChannelPool.ChannelPool.Drain | pool.go:175-182 | the drain loop closes exactly the queued channels, one permit each |
| PoolSequential.AcquireIsSchedule | pool.go:58-120 | every outcome of a call of Acquire is a schedule of the step machine, of this goroutine alone, cancelled only if its context is done |
| PoolSequential.ReleaseIsSchedule | pool.go:123-148 | so is a call of release |
| PoolSequential.DiscardIsSchedule | pool.go:151-156 | so is a call of discard |
| PoolSequential.CloseIsSchedule | pool.go:159-185 | so is a call of Close |
| PoolSequential.CallsKeepReached | pool.go:58-185 | after any sequence of calls on a new pool, with channels dying in between, the pool is one some schedule reaches |
| RoundRobin.SlotIsIndex | pool.go:344-346 | the slot is a legal index iff the counter is not negative or is a multiple of the number of slots |
| RoundRobin.WrapGoesOutOfRange | pool.go:381-383 | the first acquisition after the counter's maximum, with three slots, indexes out of range |
| RoundRobin.VisitsExactly | pool.go:381-383 | without wrap, how often each slot is chosen by any number of acquisitions |
| RoundRobin.Fair | pool.go:344-346 | any n consecutive acquisitions use each slot once; counts never differ by more than one |
| Connections.ConnectionPool.constructor | pool.go:260-283 | number of slots from configuration and addresses |
| Connections.ConnectionPool.DialAll | pool.go:301-328 | succeeds iff every dial is answered, and stops at the first that is not; all slots get distinct new connections with channel pools, open unless lost meanwhile, or none of the attempt stays open |
| Connections.ConnectionPool.HangupFirst | pool.go:309-311 | the cleanup loop closes exactly the connections made so far |
| Connections.ConnectionPool.NextSlot | pool.go:345-346 | advances the shared counter and returns the slot |
| Connections.ConnectionPool.CountOpen | pool.go:458-467 | counts exactly the open slots |
| Connections.ConnectionPool.Close | pool.go:490-518 | every connection of the pool is closed, once |
| Connections.Client.Dial | client.go:68-92 | succeeds iff every needed address answers, with as many distinct connections as configured and addressed, in single mode iff configured so, open unless lost meanwhile; failure leaves nothing open |
| Connections.Client.Reconnect | client.go:347-370 | what was held is closed; it succeeds as Dial does, and leaves the client fully up iff no new connection was lost meanwhile; failure leaves nothing of the attempt open and the client down; a closed client is refused unchanged |
| Connections.Client.Close | client.go:114-141 | everything held is closed, once |
| Connections.Client.HealthStatus | health.go:37-70 | up, degraded and down iff all, some but not all, or none of the slots are open; closed iff the client is |
| Connections.AllOpen | health.go:143-164 | the counts compared by the verdict mean all slots open and no slot open |
| Connections.Client.Health | health.go:31-34 | true iff an open client holds an open connection |
| FanIn.MergeKeepsEvents | pool.go:392-422 | with any subset of slots connected, both hops keep each connection's events in order and number, close only behind their sources, and lose nothing by the end |
| FanIn.ConnectedIsForwarded | pool.go:399-421 | in every run, while a connected slot's source is not closed its events can come and both channels are open; an empty slot has no events |
| FanIn.AllDelivered | client.go:255-262 | for any list of events of connected slots some run delivers exactly these to the reader, in order |
| Consuming.Consumer.ConsumeWithHandler | consumer.go:53-82 | takes deliveries until the context is taken or they end; each received one is settled once, in order, acked iff the handler returned nil; nothing in auto-ack mode |
| Consuming.Consumer.ConsumeWithTimeout | consumer.go:141-176 | each delivery is settled once, acked iff the handler answered nil in time |
| Consuming.Consumer.Retry | consumer.go:198-213 | succeeds iff an attempt up to maxRetries does; the number of handler calls is exact |
| Consuming.Consumer.ConsumeWithRetry | consumer.go:197-214 | each delivery acked iff an attempt succeeded, with exactly the calls up to the first success or the last attempt |
| Consuming.WorkersSettleOnce | consumer.go:85-114 | in any interleaving each received delivery is with exactly one worker or settled exactly once, by its handler's result |
| Consuming.WorkersAutoAck | consumer.go:99-114 | in auto-ack mode the workers settle nothing |
| Consuming.WorkersSettleAll | consumer.go:99-114 | when all workers have stopped every delivery that arrived is settled |
| Consuming.WorkersFinish | consumer.go:99-114 | the workers never get stuck once the channel is closed, and each of their steps leaves less to do |
| ReconnectPolicy.BackoffIsCapped | reconnect.go:40-44 | after attempt 0, for every policy, the delay is the truncated product, capped; multiplier zero keeps the initial delay |
| ReconnectPolicy.BackoffOrderlyIff | reconnect.go:30-45 | for every policy, delays never fall and stay within the bounds iff the initial delay is at most the maximum and the multiplier is steady: for a positive delay, zero or at least one |
| ReconnectPolicy.HalvingFalls | reconnect.go:40-44 | with multiplier one half and the initial delay below the maximum the delay falls after attempt 0 |
| ReconnectPolicy.LongIntervalFalls | config.go:152-163 | a configured interval above thirty seconds makes the delay fall after attempt 0 |
| ReconnectPolicy.ConfiguredDelays | config.go:152-163 | enabled, with the configured limit; the delay starts at the interval, or five seconds, doubles, and stops at thirty seconds |
| ReconnectPolicy.BackoffRecurrence | reconnect.go:40-44 | for multiplier two the closed form is the capped doubling |
| ReconnectPolicy.BackoffReachesMax | reconnect.go:40-44 | the maximum is waited iff the doubled delay has caught up with it, and from then on |
| ReconnectPolicy.BackoffReachesMaxSoon | reconnect.go:40-44 | with a maximum of at most 2^n initial delays, attempt n and all later ones wait the maximum |
| Reconnecting.ReconnectManager.Next | reconnect.go:84-94 | the counter advances when enabled; proceeds iff under the truncated limit |
| Reconnecting.ReconnectManager.ReconnectLoop | reconnect.go:113-139 | the loop computes counter, dials, ending and sleep as specified for every sequence of dial results |
| Reconnecting.LoopBudget | reconnect.go:113-139 | one call dials at most what the counter allows, keeps dialling only within it, gives up only after using it all, and reports the 0-based number of the successful attempt |
| Reconnecting.LoopSleeps | reconnect.go:120-126 | with or without a limit, the total sleep is the sum of the positive backoffs of the attempts after number 0, while the counter does not wrap |
| Reconnecting.UnlimitedLoop | reconnect.go:84-139 | without a limit a call never gives up, from any counter value: it dials until the first success and reports that attempt, or is still dialling |
| Reconnecting.BudgetOverCalls | reconnect.go:84-139 | at every moment of a run of calls too short to wrap, at most MaxAttempts dials have been begun since the last success |
| Reconnecting.SuccessRestores | reconnect.go:101-104 | after a success the full budget is available again |
| Reconnecting.WrapReopensBudget | reconnect.go:89-92 | an exhausted manager dials again iff its counter wraps |
| Reconnecting.FreshDialsIff | reconnect.go:84-93 | a fresh manager dials iff enabled and its limit is absent or positive after truncation |
| Reconnecting.HugeLimitNeverDials | reconnect.go:89-93 | a limit from 2^31 to 2^32 truncates to one that is negative or zero, and a fresh manager gives up without a dial |
| Batching.BatchConservation | producer.go:219-253 | in every interleaving of Add and overlapping Flush calls: batches taken plus pending are the additions in order, and each flush has published a prefix of its batch, once and in order |
| Batching.FlushCompletes | producer.go:240-253 | a flush that has not failed can publish all that is left of its batch |
| Batching.BatchProducer.Add | producer.go:219-223 | appends |
| Batching.BatchProducer.Flush | producer.go:240-253 | empties the batch, publishes exactly what comes before the first failing publish, reports success iff none fails; until a failure messages go out in the order added |
| Batching.BatchesBounded | producer.go:216-230 | callers who flush when ShouldFlush says so never have a batch, pending or taken, larger than its size |
| Batching.NewBatchProducer | producer.go:197-214 | succeeds, with an empty batch, iff the size is positive, the channel is not nil, and it accepts the confirm mode if that is wanted |

## Left out

- The amqp091-go library, sockets and the broker: a channel or connection is an id with an open bit, opening may fail, channels may die at any time.
- Loss of a connection while a health call is counting: the count sees the connections at one moment.
- The forwarding methods of `Channel` beyond their admission bracket and stateful flag, and the logger, metrics and trace effects around them.
- `ConnectionPool.AcquireChannel` and `Ping`, which open channels outside the permits: the pool bounds cover only channels the channel pool opened.
- The nil checks for a pool built without `newChannelPool` (nil `permits` or `channels`), and the error path of `dialAll` for `newChannelPool`, which never fails.
- Liveness: runs are shown to exist, but no progress is claimed for a blocked Acquire, nor for Reconnect and Close, which wait for it behind read locks.
- Clients that call the pool's callbacks twice: the wrapper never does, and only clients that do not are modelled.
- The producer's publish confirms and their metrics, and real time: waits and timeouts are choices or sums.
- Shutdown of ConsumeWithWorkers after its context is done (cancel, channel close, five-second wait): the workers' loops are modelled until the delivery channel closes.
- The float64 arithmetic of `Backoff`, its rounding, its overflow to infinity and NaN, and the overflow of the conversion to a `Duration`: the product is exact here.
- Slices longer than an int32 can count: the number of connections is taken to fit.
- TLS, URI parsing, configuration loading, observability and the examples.
- Generations.GenerationIsolation: a failed dial may leave pools on closed connections; in the model their channels could still be opened, which the statement allows for.
