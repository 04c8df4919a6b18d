# Verification of the Kalshi Go SDK's stateful core

This project models, in Dafny, the parts of the SDK that hold state or do real
arithmetic, and proves what they promise. `dafny verify dfyconfig.toml` checks all
of it.

- **Token bucket** (`ratelimit.go`): `TokenBucket` has the bucket as a value and
  runs of calls on it; `TokenBucketProgress` the waits and the contention bound;
  `RateLimiter` the blocking loop and the object updated in place.
- **WebSocket client** (`ws_client.go`, `ws_types.go`): `WsModel` has the tables as
  a value and every operation as one step; `WsCalls` what calls mean to their
  caller; `WsIndex` the agreement of the tables and recovery; `WsSequence` the read
  loop; `WsClient` the object with heap-allocated channel states, refining
  `WsModel`. `WsInterleaving` takes one channel apart at the points where the
  program releases its lock (`WsAtomic` proves that without interruption the parts
  make up the steps of `WsModel`), `WsAgreement` joins that to a server, over any
  number of connections, and `WsDisagreement` has the runs in which the two sides
  part.
- **Request execution** (`client.go`, `endpoint_cost.go`): `EndpointCost` matches
  routes, `CostTable` looks up and scales costs, `HttpClient` retries.
- **Declaration order** (`tools/generate_types/main.go`): `SchemaOrder`, on top of
  `StableSort`, which proves that the promise of a stable sort determines its
  result, so that no particular algorithm is assumed.
- **Comment text** (`tools/sync_godoc/main.go`): `WrapText` wraps lines, `Splice`
  makes the replacements.

State that the program updates in place is a class whose methods are proved equal
to functions on values; runs, round trips and invariants are proved about those
functions. Tokens and costs are reals; waits and delays are whole nanoseconds,
with truncation and 64-bit wrap-around written out. Clock readings, the success of
each write, replies and cancellations are parameters, chosen freely.

Properties that turned out not to hold as documented, each with the condition
under which they do:

- Client and server can end up with different tickers although every command is
  acknowledged and every call is back. `WsAgreement.Agreement` proves by how much
  they can differ, and that they agree, in every run that keeps this order:
  - No command is written while an opposite one on a common ticker is outstanding.
    Otherwise the two sides agree in the end exactly if the two do not clash
    (`WsDisagreement.OverlapAgreesIff`: add against remove, remove against add,
    the flush against a remove). Making one call at a time is not enough: an
    AddMarkets that queues and a RemoveMarkets right after the answer clash in this
    way (`WsDisagreement.QueuedThenRemovedAgreesIff`).
  - A connection's subscribe starts only when no other call may still write or
    change the markets. An update, or an AddMarkets subscribe already written, that
    straddles a lost connection and its recovery leaves the two sides in agreement
    exactly under the condition of `WsDisagreement.StraddlerAgreesIff`; with nothing
    to recover, what it lists is subscribed nowhere
    (`WsDisagreement.ListedUnsubscribed`).
  - A subscribe gets its id on the connection it is written on. One begun before
    the loss and written after it, as the only one of the new connection, is bound
    to its channel exactly if the id was taken after the loss
    (`WsDisagreement.LateSubscribeBoundIff`).
  - A connection carries one subscribe for the channel. What the server does with a
    second one is not specified.
  One case within this order differs too, until the first update is written:
  AddMarkets starting the subscribe of a channel that already lists markets, as
  after a dial without recovery, asks only for the new ones
  (`WsDisagreement.FirstAddAgreesIff`). And there is a moment after the first
  AddMarkets of a channel when its tickers are not listed yet
  (`WsDisagreement.ListedLate`).
- The comment at ws_client.go:272-273 says the flush loop handles tickers queued
  while the lock is released. Nothing is queued then, because the SID is already
  set; the body runs at most once (`WsInterleaving.PendingFlush`).
- Two AddMarkets calls can each send a subscribe
  (`WsInterleaving.SecondSubscribeIff`).
- Recovery follows only a first dial that succeeds (`WsIndex.RenewedIffFirstDial`).
  Tickers queued when a connection is lost are tried after a recovery exactly if
  their channel is global or has markets (`WsIndex.QueueTriedIff`; a run where they
  are stranded is `WsIndex.QueuedTickersCanBeStranded`). A try whose write fails
  loses them (ws_client.go:287-292).
- `splitPath` is documented to give non-empty segments; it gives an empty one for
  every inner double slash (`EndpointCost.EmptySegmentIff`).
- A wait, a zero wait and the blocking `Acquire` mean what they say only with
  enough `SafetyPadding` (`TokenBucketProgress.WaitsCoverIffPadded`,
  `TokenBucketProgress.ZeroWaitIff`, `RateLimiter.AcquireDebitsIff`, with a run in
  `RateLimiter.UnpaddedAcquireCanLie`).
- A wait also absorbs a clock behind the bucket's own by the padding less one
  nanosecond, and no more in general
  (`TokenBucketProgress.WaitsSufficeBehindIff`, with the exact bound;
  `TokenBucketProgress.ClockStepBackBreaksProgress` is a run beyond it). Neutrality
  needs readings in order (`TokenBucket.StatusUnnoticedIff`,
  `TokenBucket.ClockStepBackBreaksNeutrality`).
- The comment at tools/generate_types/main.go:527 says that ungrouped types ("Core")
  come first. They are sorted with the other groups, after "API Keys" and "Account"
  (`SchemaOrder.CoreComesFirstIff`, `SchemaOrder.CoreCanComeLater`).
- A pattern with a wildcard before its end can outrank a literal route
  (`CostTable.OutranksLiteralIff`, `CostTable.MiddleWildcardCanWin`).

## Model

| member | source | states |
|---|---|---|
| TokenBucket.RefillKeepsValid | ratelimit.go:174-193 | refilling keeps both pools between empty and full, and `lastRefill` never goes back, whatever the clock says |
| TokenBucket.StepKeepsValid | ratelimit.go:116-155 | so does every call: granted or refused acquire, wait estimate, status |
| TokenBucket.RefillMeaning | ratelimit.go:51-193 | refilling adds rate times elapsed to each pool, up to the configured capacity if positive and the rate otherwise; a reading that is not later changes nothing |
| TokenBucket.CallMeaning | ratelimit.go:116-241 | an acquire succeeds exactly if every pool it draws on holds its cost, and takes it there; estimate and status take nothing; the wait is zero or the longest shortage plus the padding in whole nanoseconds |
| TokenBucket.RunMeaning | ratelimit.go:116-216 | a run goes on call by call, and spends the positive part of the cost of each acquire that is granted |
| TokenBucket.Conservation | ratelimit.go:116-216 | over any run, what a pool held plus what time produced is what it holds plus what was granted plus what overflowed |
| TokenBucket.WindowBound | ratelimit.go:116-216 | between any two points of a run from a new bucket, the cost granted is at most capacity plus rate times the advance of `lastRefill` |
| TokenBucket.RefillAbsorbs | ratelimit.go:174-193 | lazy refill equals refilling at any extra moments in between |
| TokenBucket.RefillAbsorbsIff | ratelimit.go:174-180 | an extra refill goes unnoticed in every state exactly when it is not later than the next one |
| TokenBucket.StatusUnnoticedIff | ratelimit.go:116-193 | a status call at one time never changes whether an acquire at another succeeds, whatever the state, exactly when it is not the later one |
| TokenBucket.ObserversAreNeutral | ratelimit.go:131-155 | with a clock that does not go back, dropping any status, estimate or failed acquire calls changes no outcome of the others |
| TokenBucket.ClockStepBackBreaksNeutrality | ratelimit.go:174-179 | a run where the clock steps back and a status call makes a later acquire succeed |
| TokenBucketProgress.WaitsCoverIffPadded | ratelimit.go:221-241 | every returned wait covers the shortage it answers if and only if the padding is at least one nanosecond |
| TokenBucketProgress.ShortageOccurs | ratelimit.go:221-238 | every shortage up to the longest one a capacity allows does occur in some valid state |
| TokenBucketProgress.ZeroWaitIff | ratelimit.go:158-170 | a returned zero means success exactly when the padding is at least a nanosecond, or negative enough that no refused call rounds to zero |
| TokenBucketProgress.WaitSuffices | ratelimit.go:158-241 | after the returned wait, undisturbed, the tokens are there, even if the bucket's refill time was ahead of the caller's clock by up to the padding less one nanosecond |
| TokenBucketProgress.WaitsSufficeBehindIff | ratelimit.go:174-241 | the exact size of a step back of the clock that waits absorb, for every configuration |
| TokenBucketProgress.QuietStretch | ratelimit.go:174-193 | a stretch of calls without a grant leaves the bucket as if none had been made |
| TokenBucketProgress.FailedRetryMeansOvertaken | ratelimit.go:95-111 | a retry after the full wait fails only if another call was granted in between |
| TokenBucketProgress.ClockStepBackBreaksProgress | ratelimit.go:174-179 | with a clock that stepped back a wait can be too short although nobody overtook |
| TokenBucketProgress.NewWinnerBetween | ratelimit.go:95-111 | between two failed tries of a caller some caller won for its first time |
| TokenBucketProgress.FailuresNeedWinners | ratelimit.go:95-111 | a caller's failed tries are at most one more than the callers that have won |
| TokenBucketProgress.LoserTries | ratelimit.go:91-112 | among N callers, one that is still failing has tried at most N times |
| TokenBucketProgress.BoundedTries | ratelimit.go:91-112 | N callers with costs within capacity each finish in at most N+1 tries, however they interleave |
| TokenBucketProgress.BoundIsReached | ratelimit.go:91-112 | for every N there is a schedule in which one of N callers needs N+1 tries |
| RateLimiter.AcquireDebitsOnce | ratelimit.go:91-112 | `Acquire` succeeds exactly when it took tokens, then it took them once and with its last try; too costly exactly when the cost exceeds a capacity |
| RateLimiter.AcquireDebitsIff | ratelimit.go:91-112 | `Acquire` reports success exactly when it debited once, in every state, if and only if a zero wait means granted, which is if and only if the padding is at least a nanosecond (or too negative to round to zero) |
| RateLimiter.UnpaddedAcquireCanLie | ratelimit.go:100-103 | without padding `Acquire` can return nil having taken nothing |
| RateLimiter.NextRound | ratelimit.go:95-111 | one round of the loop: nothing if the context is cancelled, else one try, ended by success, a zero wait or a cancelled wait, and otherwise followed by the others and the next round |
| RateLimiter.ReadWriteTokenBucket.constructor | ratelimit.go:69-81 | starts full; rates must be positive |
| RateLimiter.ReadWriteTokenBucket.RefillTo | ratelimit.go:174-193 | updates the three fields as the refill function does |
| RateLimiter.ReadWriteTokenBucket.Take | ratelimit.go:209-216 | takes a positive cost from its pool and nothing for the rest |
| RateLimiter.ReadWriteTokenBucket.CalculateWaitTime | ratelimit.go:221-241 | the longer shortage plus the padding, truncated to nanoseconds |
| RateLimiter.ReadWriteTokenBucket.Try | ratelimit.go:116-128 | one acquire step of a run; true exactly when granted |
| RateLimiter.ReadWriteTokenBucket.TryOrWait | ratelimit.go:158-170 | the same step; zero when granted, otherwise the wait |
| RateLimiter.ReadWriteTokenBucket.EstimateWait | ratelimit.go:131-142 | an estimate takes nothing and returns the wait of the refilled bucket |
| RateLimiter.ReadWriteTokenBucket.Snapshot | ratelimit.go:145-155 | status takes nothing and returns the refilled counts |
| RateLimiter.ReadWriteTokenBucket.Perform | ratelimit.go:116-155 | a sequence of calls on the object is the run of the model |
| RateLimiter.ReadWriteTokenBucket.AcquireTokens | ratelimit.go:91-112 | the blocking loop, with other callers between its tries, has the result and leaves the bucket that `Acquire` describes |
| WsIndex.NextKeepsIndex | ws_client.go:246-650 | calls, frames, loss, connect and recovery each keep the three tables in agreement |
| WsIndex.ReachableIsIndexed | ws_client.go:246-650 | in every reachable state `sidMap` is the inverse of the channels' SIDs, no channel has two subscribes in flight or one besides a SID, tickers are queued only without a SID, and the commands are numbered 1, 2, ... |
| WsIndex.FrameMeaning | ws_client.go:246-353 | what each frame does to the tables, the commands and the reconnect flag, case by case |
| WsIndex.LostIsEmpty | ws_client.go:607-622 | a loss keeps what each channel wants, and resets SID, sequence number, SIDs and ids in flight |
| WsIndex.RecoverOnlySends | ws_client.go:625-650 | a recovery leaves every table but the ids in flight, and stops at the first write that fails |
| WsIndex.SubscribedKeepsIndexIff | ws_client.go:246-270 | a reply keeps the agreement exactly when its SID is not in use |
| WsIndex.UnsubscribedKeepsIndexIff | ws_client.go:324-326 | an `unsubscribed` frame keeps it exactly when it names no SID in use |
| WsIndex.RecoverKeepsIndexIff | ws_client.go:625-650 | an error-free recovery keeps it exactly when no channel it renews has a SID or a subscribe in flight |
| WsIndex.ExactRecovery | ws_client.go:607-669 | after loss and reconnect, an error-free recovery writes one subscribe for each channel that is global or has markets, with nil tickers for a global one and exactly its markets otherwise, numbered on from the last id and above every one in the log, and nothing else is in flight |
| WsIndex.RepliesRestoreIndex | ws_client.go:246-293 | the replies, in any order, bind each channel to its SID, empty the in-flight table, send each queue once on its SID, and touch no other channel |
| WsIndex.ReplyBinds | ws_client.go:246-293 | one reply binds one channel, keeps the tables in agreement and sends its queue in one add_markets |
| WsIndex.DisconnectedAddBreaksRecovery | ws_client.go:488-500 | a failed AddMarkets while disconnected leaves an id that breaks the agreement at the next recovery |
| WsIndex.QueueTriedIff | ws_client.go:607-650 | after an error-free recovery and its replies, the tickers queued at the loss were tried in one add_markets on their channel's SID exactly if it is global or has markets, and are otherwise still queued with nothing in flight |
| WsIndex.QueuedTickersCanBeStranded | ws_client.go:607-641 | a run where tickers queued behind a global subscribe are not recovered after a loss |
| WsIndex.ResumeKeepsIndex | ws_client.go:161-187 | the way from a loss to the next read keeps the agreement |
| WsIndex.RenewedIffFirstDial | ws_client.go:139-187 | with all writes succeeding, subscriptions are renewed exactly when the first dial after the loss succeeds or there is nothing to renew |
| WsCalls.AddOutcome | ws_client.go:434-507 | a successful AddMarkets adds its tickers to those listed or queued, a failed one adds none; it sends the tickers not listed in at most one command, an update on the known SID and otherwise a subscribe unless one is in flight, and then lists them |
| WsCalls.RemoveOutcome | ws_client.go:513-549 | RemoveMarkets does nothing without a SID, and otherwise asks for exactly its tickers, drops them when that was written, and changes nothing else but the global flag |
| WsCalls.RemoveUndoesAdd | ws_client.go:434-549 | removing what was just added restores the markets |
| WsCalls.SubscribeOutcome | ws_client.go:360-394 | Subscribe is refused exactly for a known channel; otherwise it writes one subscribe with what was asked; a failed one leaves the tables as they were, a successful one adds the channel and one in-flight id |
| WsCalls.UnsubscribeOutcome | ws_client.go:398-428 | Unsubscribe drops a channel without SID silently, and one with a SID after writing one command on that SID; when that write fails it keeps everything |
| WsCalls.SnapshotOutcome | ws_client.go:551-587 | GetSnapshot changes no table and asks for exactly its tickers on the SID, if there is one |
| WsCalls.ArgumentsMeaning | ws_client.go:360-570 | arguments are refused exactly when there are no channels, or an empty list of tickers where some are needed |
| WsCalls.CallsCompose | ws_client.go:371-392 | a call does its channels one after the other, as far as they succeed |
| WsCalls.UnsubscribeUndoesSubscribe | ws_client.go:360-428 | Unsubscribe restores the tables from before Subscribe, with or without the reply in between |
| WsCalls.RequestSparesOthers | ws_client.go:360-587 | a call on one channel leaves every other channel, SID and in-flight id alone |
| WsCalls.CallStopsAtFailure | ws_client.go:371-392 | a call over several channels stops at the first failure and keeps what it did before |
| WsSequence.ReadLoopIsContiguous | ws_client.go:190-204 | in one run of the read loop, with calls in between, the frames accepted on each SID carry consecutive numbers, except possibly the one the loop ends on |
| WsSequence.SessionsAreContiguous | ws_client.go:139-204 | from the first frame of every connection, over any number of losses and reconnects, the frames accepted on each SID carry consecutive numbers |
| WsSequence.ResumeReadsAfresh | ws_client.go:166-187 | after a loss and the next connection, recovered or not, no channel has a SID and all count from the start |
| WsSequence.EndsOnGapOnly | ws_client.go:190-204 | on a fresh connection the loop ends on a numbered frame exactly if its number does not follow the last one accepted on its SID; the first one on a SID never ends it |
| WsSequence.LoopMeaning | ws_client.go:190-204 | the loop goes through the turns that do not end it and stops, with the flag taken down, at the first that does |
| WsSequence.ContiguousMeaning | ws_client.go:299-352 | neighbouring accepted frames of a SID differ by exactly one: no gap, no duplicate |
| WsSequence.GapIff | ws_client.go:305-350 | a reconnect is asked for exactly when a frame does not follow the last one on its SID |
| WsSequence.FrameTracks | ws_client.go:246-353 | after every frame each channel remembers the last number on its SID and unbound channels remember none |
| WsInterleaving.PendingFlush | ws_client.go:272-293 | under every interleaving, tickers are queued only without a SID, queue and flush account for all that was queued, and the loop body never runs twice |
| WsInterleaving.ReplyTakesQueue | ws_client.go:263-279 | a reply takes the whole queue for a flush on the SID it names |
| WsInterleaving.TakesWhatWasQueued | ws_client.go:274-279 | each take holds exactly the tickers queued since the take before |
| WsInterleaving.TriesWhatWasTaken | ws_client.go:281-293 | each attempted add_markets is for the latest take, on its SID, once |
| WsInterleaving.SecondSubscribeIff | ws_client.go:483-491 | with no answer, loss or other state of the name in between, a second AddMarkets on a channel without SID sends its own subscribe exactly if no id was registered since the first began, and queues otherwise |
| WsAtomic.AloneIsAtomic | ws_client.go:360-587 | a call run without interruption leaves the channel, ids in flight, SIDs and reconnect flag, and writes the command, of the one-step model |
| WsAtomic.ReceiveIsAtomic | ws_client.go:206-353 | so does a frame with the flush it starts; a frame of another channel leaves this one alone |
| WsAtomic.AddCreates | ws_client.go:455-503 | so does a written AddMarkets that creates the channel |
| WsAtomic.SubscribeCreates | ws_client.go:371-392 | so does a written Subscribe of tickers |
| WsAtomic.UnsubscribeIsOthers | ws_client.go:406-426 | Unsubscribe is a step that only takes ids, SIDs and the channel away |
| WsAgreement.MoveKeepsInvariant | ws_client.go:246-549 | every orderly step of client, server and wire, loss and reconnect included, keeps the invariant behind the agreement |
| WsAgreement.Agreement | ws_client.go:274-546 | on a live SID, at every point of every orderly run over any number of connections, either a command or its acknowledgement is outstanding, or the client's markets (with those an unfinished first AddMarkets will list) are the server's, plus those listed before AddMarkets started the subscribe until the first update; equal exactly if there are none such |
| WsAgreement.AgreementOnceListed | ws_client.go:312-321 | with no first AddMarkets unfinished, the markets are the server's exactly if nothing was listed before the subscribe or an update was written since |
| WsDisagreement.ListedLate | ws_client.go:488-503 | the reply to a first AddMarkets can be handled before its tickers are listed |
| WsDisagreement.FirstAddAgreesIff | ws_client.go:488-503 | one AddMarkets that starts the subscribe, alone and complete, leaves the two sides equal exactly if the channel listed nothing before |
| WsDisagreement.Drain | ws_client.go:263-322 | once everything written is applied and acknowledged, the client lists what the server has |
| WsDisagreement.OverlapAgreesIff | ws_client.go:274-546 | from any state of an orderly run in which a command of a call or of the flush is about to be written while another is outstanding, some run brings all calls back, has all acknowledged, and ends in agreement exactly if the two do not clash |
| WsDisagreement.QueuedThenRemovedAgreesIff | ws_client.go:272-293 | a caller that queues with AddMarkets and then calls RemoveMarkets before the flush has written ends in agreement exactly if nothing removed was queued |
| WsDisagreement.StraddlerAgreesIff | ws_client.go:471-546 | a call that straddles a lost connection (an update, or an AddMarkets subscribe already written) and comes back after the recovery read the markets leaves the two sides equal on the new SID exactly if it still wrote an update on that same SID, or the markets already had what it added or lacked what it removed |
| WsDisagreement.ListedUnsubscribed | ws_client.go:471-503 | when there was nothing to recover, such a call lists tickers without any subscription |
| WsDisagreement.LateSubscribeBoundIff | ws_client.go:607-669 | a subscribe begun before a loss and written after it, the only one there, is bound exactly if it took its id after the loss; otherwise it is served, its call succeeds, and its answer is ignored |
| WsDisagreement.FinishAgreesIff | ws_client.go:477-546 | with nothing on its way, a returning call keeps the agreement exactly when the server has what it added, or lacks what it removed |
| WsClient.WSClient.constructor | ws_client.go:62-77 | starts with empty tables |
| WsClient.WSClient.SubscribeChannel | ws_client.go:371-392 | refines the one-step Subscribe of a channel, rollback included |
| WsClient.WSClient.UnsubscribeChannel | ws_client.go:406-426 | refines the one-step Unsubscribe of a channel |
| WsClient.WSClient.AddMarketsTo | ws_client.go:446-505 | refines the one-step AddMarkets of a channel |
| WsClient.WSClient.RemoveMarketsFrom | ws_client.go:524-547 | refines the one-step RemoveMarkets of a channel |
| WsClient.WSClient.GetSnapshotOf | ws_client.go:573-585 | refines the one-step GetSnapshot of a channel |
| WsClient.WSClient.Perform | ws_client.go:360-587 | each call over its channels, with argument checks and as one step, refines the model and keeps the tables in agreement |
| WsClient.WSClient.DeletePendingInitForChannel | ws_client.go:598-605 | removing one id of a channel removes all when ids are unique |
| WsClient.WSClient.FlushPending | ws_client.go:274-293 | the flush loop sends the queue once and stops |
| WsClient.WSClient.OnSubscribed | ws_client.go:246-297 | refines the handling of a reply, flush included |
| WsClient.WSClient.OnAcknowledged | ws_client.go:299-322 | refines the handling of an ok frame |
| WsClient.WSClient.HandleIncoming | ws_client.go:206-353 | refines the handling of every frame; raw bytes are passed on exactly for accepted data |
| WsClient.WSClient.OnConnectionLoss | ws_client.go:613-622 | clears the tables and detaches every channel, its SID and sequence number reset |
| WsClient.WSClient.Recover | ws_client.go:625-650 | refines the recovery, in any order of the channels, up to the first failed write |
| WsClient.WSClient.Reconnect | ws_client.go:166-187 | refines the way from a loss to the next read and keeps the tables in agreement |
| WsClient.WSClient.Listen | ws_client.go:190-204 | refines the read loop: it ends on the first frame that leaves the reconnect flag set |
| EndpointCost.Split | endpoint_cost.go:120-120 | the pieces between slashes: slash-free, and joining them gives the string back |
| EndpointCost.SplitPathInvertsJoin | endpoint_cost.go:115-121 | splitting undoes joining exactly for lists whose ends are non-empty |
| EndpointCost.SplitPathIsWellFormed | endpoint_cost.go:115-121 | segments are slash-free with non-empty ends and join to the trimmed path |
| EndpointCost.OuterSlashesIgnored | endpoint_cost.go:116-116 | leading and trailing slashes make no difference |
| EndpointCost.EmptySegmentIff | endpoint_cost.go:114-121 | an empty segment appears exactly for a double slash inside the trimmed path |
| EndpointCost.MeaningsAgree | endpoint_cost.go:94-112 | position by position and from the left, the two readings of a pattern agree |
| EndpointCost.SegmentMeaning | endpoint_cost.go:63-79 | ":x", "*x", "$x", "{x}" and "<x>" fit every segment and count as no literal; any other segment fits only itself and counts as one |
| EndpointCost.PatternMeaning | endpoint_cost.go:83-112 | a pattern matches segment by segment, except that one beginning with "*" takes all the rest, which must not be empty |
| EndpointCost.SegmentsMatch | endpoint_cost.go:94-112 | the loop decides the meaning of the pattern |
| EndpointCost.DescribesItsInstances | endpoint_cost.go:94-112 | a pattern matches exactly the lists got by filling its placeholders and extending its first wildcard |
| EndpointCost.NewCostRoute | endpoint_cost.go:35-54 | the entry as a route (see RouteMeaning): its cost, prefixed path, segments and number of literals |
| EndpointCost.RouteMeaning | endpoint_cost.go:35-92 | an entry applies to the requests with its method, in any case of letters, whose path its prefixed path describes; it keeps the listed cost |
| EndpointCost.ParameterRoute | endpoint_cost.go:35-121 | ":name" in a table path takes any one non-empty segment, and a last "*name" any non-empty rest of the path |
| EndpointCost.RouteIsReachable | endpoint_cost.go:35-121 | filling a route's placeholders with non-empty slash-free segments gives a path the route matches |
| StableSort.StableSortIsSort | client.go:134-136 | exactly one sequence is a stable sort of another, and it is `Sort` |
| StableSort.TiesKeepOrder | tools/generate_types/main.go:534-536 | elements that tie keep their order |
| CostTable.LookupCost | client.go:201-208 | the loop returns the cost of the first matching route |
| CostTable.LookupIsMostSpecific | client.go:125-208 | after the sort, that is the matching route with the most literals, earliest listed on ties |
| CostTable.OutranksLiteralIff | endpoint_cost.go:41-53 | a placeholder pattern can outrank a literal route exactly when it has more literals than segments before its first wildcard |
| CostTable.LiteralEntryWins | client.go:130-136 | when no placeholder entry can outrank a literal one, a literal entry for the request decides, in any order of the entries |
| CostTable.WildcardLastKnowsItsPlace | client.go:130-136 | no pattern whose wildcard, if any, ends the path can |
| CostTable.MiddleWildcardCanWin | endpoint_cost.go:35-53 | two entries, as the API could list them, where a wildcard in the middle beats the literal one |
| CostTable.ResolveMeaning | client.go:125-208 | without a table the caller's figures times the units, at least one; with one, the cost listed for the most specific entry, else a positive default, times the units, on the read pool exactly for GET, else the caller's |
| CostTable.ResolveScales | client.go:171-197 | every resolved cost is the one-unit cost times the units, with at least one unit |
| CostTable.BatchEqualsSingles | client.go:171-197 | at one clock reading the cost of n units is granted exactly when n one-unit costs are (one, if n is not positive), and leaves the same bucket, with or without a table |
| HttpClient.RetryLaw | client.go:232-257 | at most `maxRetries`+1 tries; a rate-limit error exactly when all were throttled and no wait was cancelled; never an API error for 429 |
| HttpClient.TryDecides | client.go:211-257 | what the first try that is not throttled decides: its own error, an API error with its status from 400 on, and success with its body below |
| HttpClient.BackoffMeaning | client.go:321-325 | waits start at the base delay and double up to the 31st, as far as 64 bits hold them, and otherwise congruent |
| HttpClient.NoOverflowIff | client.go:321-325 | none of n waits overflows 64 bits exactly when the longest does not |
| HttpClient.SafeBaseDelay | client.go:321-325 | no wait ever overflows exactly when `baseDelay` is at least -2^33 and below 2^33 ns |
| HttpClient.TotalWait | client.go:321-325 | n retries wait (2^n - 1) base delays in total up to n = 31, and 2^30 more for each beyond |
| HttpClient.Client.constructor | client.go:72-82 | starts without a table, so callers' figures apply |
| HttpClient.BuildRoutes | client.go:125-128 | one route per entry, in order |
| HttpClient.Client.ConfigureRateLimits | client.go:105-158 | installs a full limiter, the sorted table and the default together, or changes nothing |
| HttpClient.Client.Do | client.go:211-333 | prices, debits through `Acquire` before anything is sent, and then has the outcome, tries and waits of the retry model |
| SchemaOrder.RefToName | tools/generate_types/main.go:374-377 | the slash-free rest of a reference after its last slash |
| SchemaOrder.CollectsNestedRefs | tools/generate_types/main.go:687-711 | the references found are exactly those of the schemas nested at any depth |
| SchemaOrder.CollectsMentions | tools/generate_types/main.go:687-711 | a slash-free name is collected exactly if a schema at any depth has a reference that is the name or ends in "/" and the name |
| SchemaOrder.Dependencies | tools/generate_types/main.go:636-651 | a name depends on the other names its schema mentions |
| SchemaOrder.DependenciesAreUses | tools/generate_types/main.go:636-651 | a listed name depends on exactly the other listed names its schema mentions, and reaches what such uses lead to |
| SchemaOrder.TopologicalOrderIsSafe | tools/generate_types/main.go:635-685 | each name once, and each dependency before its user unless they lie on a cycle |
| SchemaOrder.AllPrecedeIffAcyclic | tools/generate_types/main.go:635-685 | every dependency precedes its user exactly when there is no cycle |
| SchemaOrder.FinalOrderIsSafe | tools/generate_types/main.go:523-536 | after the group sort: each name once, groups ascending and in one piece, dependencies in time within a group |
| SchemaOrder.FinalOrderMeaning | tools/generate_types/main.go:523-536 | each listed name once, ascending by group name, "Core" for the ungrouped; within a group what a type uses comes first unless it leads back to it |
| SchemaOrder.CoreComesFirstIff | tools/generate_types/main.go:526-536 | the ungrouped types come first exactly if no type has a group that sorts before "Core" |
| SchemaOrder.CoreCanComeLater | tools/generate_types/main.go:526-536 | two types, the one of group "Account" declared before the ungrouped one |
| SchemaOrder.DependenciesComeAscending | tools/generate_types/main.go:658-678 | the names a type uses come before it in ascending order, if they use nothing themselves |
| SchemaOrder.UnrelatedKeepOrder | tools/generate_types/main.go:658-685 | names that use nothing keep the order they are given in |
| StringOrder.LessMeaning | tools/generate_types/main.go:534-536 | strings compare at the first byte where they differ, else by length |
| SchemaOrder.TopologicalSorter.VisitName | tools/generate_types/main.go:658-678 | the recursive closure updates its sets and list as the search does, and terminates |
| SchemaOrder.SortStrings | tools/generate_types/main.go:667-671 | the dependencies in ascending order, whatever order the set is read in |
| SchemaOrder.TopologicalSort | tools/generate_types/main.go:635-685 | each listed name once, and what a type's schema mentions before the type unless it leads back to it |
| SchemaOrder.DeclarationOrder | tools/generate_types/main.go:523-536 | computes the final order, with each name once, groups ascending, and uses in time within a group |
| WrapText.WrapKeepsWords | tools/sync_godoc/main.go:608-627 | the lines hold the words of the text in order, and each fits the width unless it is a single word |
| WrapText.FieldsMeaning | tools/sync_godoc/main.go:609-609 | words are what lies between the six ASCII white-space characters |
| WrapText.WrapKeepsLetters | tools/sync_godoc/main.go:608-627 | the lines hold the characters of the text, in order, apart from white space |
| WrapText.WrapFillsLines | tools/sync_godoc/main.go:617-625 | each line is its words with single spaces, and the first word of the next line would not have fitted on it |
| WrapText.WrapIsOptimal | tools/sync_godoc/main.go:608-627 | no other split of the text into such lines uses fewer |
| WrapText.Wrap | tools/sync_godoc/main.go:608-627 | the loop computes those lines |
| Splice.SpliceStep | tools/sync_godoc/main.go:436-442 | one replacement at the current earliest start extends the simultaneous substitution by one |
| Splice.SubstituteNothing | tools/sync_godoc/main.go:433-442 | without replacements the source stays as it is |
| Splice.ApplyReplacements | tools/sync_godoc/main.go:433-442 | disjoint replacements made in descending order are the simultaneous substitution |
| Splice.SubstituteInAnyOrder | tools/sync_godoc/main.go:429-431 | that substitution does not depend on the order the replacements are listed in |
| Splice.RewriteComments | tools/sync_godoc/main.go:428-442 | sorting and splicing substitutes all replacements at once |

## Left out

- Floating-point rounding of tokens and costs: they are reals; a wait longer than
  int64 nanoseconds (292 years), which the conversion would spoil, is not modelled.
- `WindowSize`, which the limiter ignores.
- Sockets, HTTP, JSON, signing, files, logging, `OnDisconnect`/`OnReconnect` and the
  back-pressure of the message channel; a frame is parsed already, and a body that
  does not parse is an absent one.
- Real time: `Acquire` runs over any finite list of rounds, the retry loop over any
  sequence of replies, and the reconnection backoff is absent.
- Ticker lists are sets: order and repetitions within one command are not modelled.
- Strings are sequences of bytes; upper-casing and white space are the ASCII ones.
- Reading order of Go maps: recovery takes any order; schema properties are listed
  in any order, since only the set of their references matters.
- HttpClient.Client.ConfigureRateLimits: a rate that is not positive makes the program
  panic; positive rates are a precondition here and in the limiter's constructor.
- `suspiciousSegments`, which only feeds a log line.
- WsClient.WSClient.Perform: runs as one step; the lock released around each send is
  in WsInterleaving and WsAgreement, for one channel on values, without the heap.
- WsInterleaving.PendingFlush: calls that hold another state of the same name, and
  Unsubscribe, appear only through their effect on this state (in-flight ids, SIDs,
  detaching), which is left arbitrary.
- WsAgreement.Agreement: a ticker-scoped channel and no Unsubscribe; what the server
  does to a global subscription, or with a second subscribe for a channel, is not
  specified, and the SIDs it grants and the full, never empty lists it acknowledges
  with are assumptions. A command on a SID the server does not know is dropped.
- WsDisagreement.OverlapAgreesIff: other calls must have been written already, since
  what they would still write could leave the server's list empty.
- WsAtomic.AddCreates: the rollback when the write fails is in WsCalls, as one step.
- WsIndex.ReachableIsIndexed: assumes what the server and the recovery's caller
  owe (`Expected`): SIDs are not granted twice, `unsubscribed` answers our own call,
  recovery starts with no SID and nothing in flight.
- WsSequence.ReadLoopIsContiguous: like SessionsAreContiguous and EndsOnGapOnly, assumes
  positive numbers and SIDs granted once per connection.
- SchemaOrder.RefToName: `strings.Split` of an empty reference never arises, since
  empty references are skipped.
- Endpoint wrappers, query building, errors, configuration, enums and generated
  types; YAML, Go syntax trees, gofmt, type-name resolution and coverage counting in
  `tools/`: data or one-branch code.
