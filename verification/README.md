# flowra-relayer: a verified model of the relayer's state machines

The relayer sits between a Solana TPU and two kinds of consumer: validators, which receive every
packet after a delay, and a block engine, which receives a filtered stream at once. Around these two
packet paths run an authentication protocol, a lookup-table refresher and a pipeline that carries slots
to the relayer loop and decides whether the relayer is healthy. This project models those parts as
explicit steps over explicit state and proves what they keep over whole runs.

- Code that updates state in place is a class with loops: the relayer loop (`Relayer`), the forwarding
  thread (`Forwarder`), the block-engine session, its caches and its tokens (`BlockEngineSession`,
  `BlockEngineFilter`, `InterestCache`, `TokenRefresh`), the challenge store and the handlers
  (`AuthChallenges`, `AuthService`), the schedule cache (`LeaderSchedule`), the health manager
  (`HealthDisconnect`), the lookup-table refresher (`LookupRefresh`) and the fetch stage (`FetchStage`).
- What each arm of a loop does is said once more on values, as a step from one state to the next. The
  code is proved to take exactly these steps on exactly its inputs (`Forwarder.Run`,
  `PacketPath.RunPath`, `BlockEngineSession.HandlePacketStream`, `BlockEngineSession.Reconnect`,
  `AuthService.Serve`, `HealthDisconnect.Operate`), and the theorems are about all runs of them. What the
  steps amount to is stated on inputs, answers and states alone; `BlockEngineGuarantees` and
  `AuthGuarantees` do so for the block-engine connection and for the authentication service.
- Code whose point is interleaving is a state machine with one labelled step per atomic action, and a
  run is any sequence of steps: refresher against filters (`LookupRefresh`), handlers split at every
  lock (`AuthProtocol`, `AuthOverlap`), slot threads racing on an atomic maximum (`SlotPipeline`).
- Pure code is functions and predicates (`Ofac`, `BearerHeader`, the filter chain and the chunks in
  `FanOut`).

Conventions. Time is in nanoseconds and is read from a clock that may advance by any amount before each
reading. What channels, streams, timers and RPC servers answer is a parameter, so every theorem holds for
all answers. A filter call is given the states the lookup-table cache goes through during it, and each
table is read from any of them. Integers are unbounded except the per-validator counters, which saturate
at the largest `u64`, and the slots of a rebuilt leader schedule, which wrap as in a release build.
Signatures are ideal: a token verifies exactly when this service issued it, an Ed25519 signature exactly
when the key's owner made it over that text.

What the code does where a reader might expect something else, all of it proved here:

- The relayer's highest slot is assigned, not maximised. It can go down exactly when there are at least
  two slot servers (`SlotPipeline.GoesDownIffTwoServers`).
- With no sanctioned address the validator path skips parsing. That makes a difference exactly for
  packets that do not parse (`FanOut.FastBranchAgreesIffParses`); in the block-engine filter the two
  branches agree on every packet.
- The heartbeat counter lives in the metrics, so it starts again at every metrics tick
  (`Relayer.Relayer.OnMetrics`), and the removal metric counts list entries, not removals
  (`Relayer.Relayer.DropConnections`).
- The capacity check and the push of a challenge are separate critical sections. The store can hold
  capacity - 1 + k challenges when k calls may be past the check together, and that bound is reached
  (`AuthProtocol.StoreStaysWithin`, `AuthProtocol.BoundIsReached`).
- With atomic handlers an address is answered with one challenge until it expires or is redeemed, and a
  challenge is redeemed once. With handlers split at the locks both hold exactly as long as no second
  call is already past its look-up (`AuthOverlap.AnsweredOtherwiseIff`) or its verification
  (`AuthOverlap.RedeemableAgainIff`).
- A rebuilt leader schedule is the inverse of the fetched one exactly when no slot is listed under two
  keys (`LeaderSchedule.RebuiltInverse`).
- A renewed access token without an expiry is accepted, and the next tick then panics
  (`TokenRefresh.BareRenewalIsAccepted`); in no other case does a tick panic
  (`TokenRefresh.PanicsIffLastRenewalBare`).
- README.md:9 of the repository gives 0 ms as the default packet delay, transaction-relayer/src/main.rs:135
  gives 50 ms. The delay is a parameter here, so nothing depends on the default.

## Model

| member | source | states |
|---|---|---|
| LookupRefresh.FlaggedTransactionNeverEmitted | transaction-relayer/src/main.rs:759-780 | In every interleaving of refreshes with any number of filter threads, a transaction flagged through a table beforehand is flagged at every intermediate state and never emitted by a thread that starts on it, if every refresh fetches that table with lists extending the one it had |
| LookupRefresh.FlaggedThroughoutIff | transaction-relayer/src/main.rs:759-780 | A lookup flagged before a refresh is flagged at every moment of it if and only if its table is fetched and every fetched version flags it |
| LookupRefresh.FinishedCacheIsRebuilt | transaction-relayer/src/main.rs:759-780 | Over every interleaving, whenever a refresh ends the cache is exactly the fetched tables that deserialised |
| LookupRefresh.GuardedStep | transaction-relayer/src/main.rs:759-780 | Every step of the refresher or of a filter keeps a guarded lookup flagged and its transaction unemitted |
| LookupRefresh.CacheInvStep | transaction-relayer/src/main.rs:759-780 | While inserting, the cache is the old one overlaid with the tables inserted so far; while pruning, every fetched table is present as fetched |
| LookupRefresh.LookupTables.InsertAll | transaction-relayer/src/main.rs:759-777 | The insert loop overlays the cache table by table and collects exactly the keys that deserialised |
| LookupRefresh.LookupTables.Retain | transaction-relayer/src/main.rs:779-780 | Pruning removes exactly the other tables, one stale key at a time in any order |
| LookupRefresh.LookupTables.Refresh | transaction-relayer/src/main.rs:743-783 | A failed fetch changes nothing; a successful one passes through the described intermediate caches and ends with the fetched tables that deserialised |
| LookupRefresh.RebuiltVersion | transaction-relayer/src/main.rs:759-777 | A key is in the rebuilt cache exactly when some account with that key deserialised, and its list is that of the last such account |
| Ofac.RelatedIffMentionsSanctioned | core/src/ofac.rs:10-54 | The two short-circuiting searches answer exactly whether some static account, or some account that any of the message's lookups resolves to, is sanctioned; a legacy message has no lookups |
| Ofac.ScanHitIff | core/src/ofac.rs:31-54 | The outer search, whatever each table read answered, finds a hit exactly when some answered table hits |
| Ofac.IndexHitIff | core/src/ofac.rs:36-53 | The inner search finds a hit exactly when some in-range index resolves to a sanctioned address |
| Ofac.ExtensionKeepsHit | core/src/ofac.rs:36-53 | A table that only grew still yields every hit it yielded |
| Ofac.CheckTx | core/src/ofac.rs:10-54 | Against a cache that changes between table reads, over all lookups of the message: related if the transaction must be, and only if it may be |
| Ofac.MustRelateIff | core/src/ofac.rs:31-54 | A transaction must be related exactly when it mentions a sanctioned account whichever state of the cache each of its table reads finds |
| Ofac.MayRelateIff | core/src/ofac.rs:31-54 | It may be related exactly when it mentions one for some states found by its reads |
| Ofac.RelatedAtRest | core/src/ofac.rs:10-54 | With the cache at rest both bounds are the plain answer |
| Packets.ConvertedExactly | relayer/src/relayer.rs:648-670 | Position by position, a filter's output is the payload and flags of exactly the selected packets that have data, in order |
| InterestCache.LiveIsWithinTtl | block_engine/src/block_engine.rs:385-389 | Comparing whole elapsed seconds with the lifespan is the same as comparing the exact elapsed time |
| InterestCache.AgreesAfterEviction | block_engine/src/block_engine.rs:499-502 | Throwing away expired keys, whichever and whenever, never changes any later answer |
| InterestCache.AgreesAfterSet | block_engine/src/block_engine.rs:615-617 | After a set the cache answers, from then on, what the longer history answers |
| InterestCache.TimedCache.CacheSet | block_engine/src/block_engine.rs:615-617 | Appends one stamped set to the history the cache agrees with |
| InterestCache.TimedCache.CacheGet | block_engine/src/block_engine.rs:784-836 | A lookup answers exactly whether the key was set within the lifespan, although it evicts |
| InterestCache.TimedCache.Flush | block_engine/src/block_engine.rs:499-502 | Leaves exactly the keys set within the lifespan |
| BlockEngineFilter.Caches.IsAoiInStaticKeys | block_engine/src/block_engine.rs:784-798 | Hits if a static key is of interest when the call ends, and only if one was when it began |
| BlockEngineFilter.Caches.IsAoiInIndexes | block_engine/src/block_engine.rs:811-831 | The same for the writable or the readonly indexes of one table, out-of-range indexes ignored |
| BlockEngineFilter.Caches.IsAoiInTable | block_engine/src/block_engine.rs:810-832 | The same for one table as it is read, writable indexes first |
| BlockEngineFilter.Caches.IsAoiInLookupTable | block_engine/src/block_engine.rs:802-836 | Over all lookups of the message, each table read from whichever state the cache is in: hits if some table shows interest in every state at the end, only if one did in some state at the start |
| BlockEngineFilter.Caches.IsForwardable | block_engine/src/block_engine.rs:703-731 | Both branches, with and without sanctioned addresses, decide the one declarative predicate over the update history |
| BlockEngineFilter.Caches.FilterBatch | block_engine/src/block_engine.rs:702-740 | One batch: everything still due at the end comes out, nothing that was not eligible at the start, in order |
| BlockEngineFilter.Caches.FilterPackets | block_engine/src/block_engine.rs:690-755 | The whole call: the output lies, in order, between what is due at its end and eligible at its start under the update history, whatever each table read finds; `None` stands for an empty output |
| BlockEngineFilter.DueFades | block_engine/src/block_engine.rs:690-755 | What is due later is an in-order part of what is due earlier |
| BlockEngineFilter.InterestIff | block_engine/src/block_engine.rs:784-836 | The searches of the static keys and of the tables find something exactly when the transaction writes an account of interest or mentions a program of interest |
| BlockEngineFilter.AtRest | block_engine/src/block_engine.rs:690-755 | With the tables at rest, due and eligible are both: not discarded, parseable, mentioning no sanctioned account and, unless everything is wanted, writing an account or mentioning a program of interest |
| BlockEngineFilter.ExactWhenNothingExpires | block_engine/src/block_engine.rs:690-755 | If moreover no packet's interest expires during the call, the output is exactly the wanted packets |
| TokenRefresh.Tick | block_engine/src/block_engine.rs:522-593 | One refresh tick: it panics exactly when the access token has no expiry; a handshake brings both tokens, a renewal the access token only, anything else none |
| TokenRefresh.Tokens.MaybeRefreshAuth | block_engine/src/block_engine.rs:522-593 | The code refines the tick, reading the clock once for each expiry and once for the answer |
| TokenRefresh.TickEndsIff | block_engine/src/block_engine.rs:547-593 | How a tick ends, from the tokens held and the answers: less than five minutes of the refresh token left calls for a handshake, otherwise less than five minutes of the access token for a renewal, otherwise for nothing; both directions, and only a renewal presents the refresh token |
| TokenRefresh.RefreshTokenHeld | block_engine/src/block_engine.rs:560-566 | Over every session, the refresh token held is that of the last tick that ended in a handshake, or else the one it started with |
| TokenRefresh.AccessTokenHeld | block_engine/src/block_engine.rs:560-589 | Over every session, the access token held is the one brought by the last tick that brought any, or else the one it started with |
| TokenRefresh.BareRenewalIsAccepted | block_engine/src/block_engine.rs:570-590 | A renewal without an expiry, on a token about to expire, is accepted, and the tick after it panics |
| TokenRefresh.PanicsIffLastRenewalBare | block_engine/src/block_engine.rs:529-535 | In every session that starts with the tokens of the handshake, a tick panics if and only if the last renewal before it carried no expiry |
| TokenRefresh.AccessTokenStaysFresh | block_engine/src/block_engine.rs:479-488 | With ticks at most D apart and tokens granted with at least L left, after the first tick the access token always has min(300 s, L) - D left, and every refresh token presented had 300 s left |
| BlockEngineSession.HandlePacketStream | block_engine/src/block_engine.rs:360-519 | After a drain and the raise, what it does is a session of exactly the events handled, one by one, all of them unless one ends it; every theorem about sessions applies to it |
| BlockEngineSession.HeartbeatsCountUp | block_engine/src/block_engine.rs:424-435 | The heartbeats of every session are exactly 0, 1, 2, ..., one for each tick whose send succeeded |
| BlockEngineSession.ReceivedInOrder | block_engine/src/block_engine.rs:458-462 | What has been received and then what is queued are the arrivals that found room since the drain, in order, and as many are received as receives found a batch |
| BlockEngineSession.BatchesArePaired | block_engine/src/block_engine.rs:466-477 | Each enqueued batch is a non-empty in-order part of a received batch of its own, in the same order, with that batch's stamp and expiry |
| BlockEngineGuarantees.WantedPacketsAreForwarded | block_engine/src/block_engine.rs:458-478 | From the updates to the stream, in every session with the tables at rest: of the oldest queued batch all packets still wanted by the updates handled come out, none that was not wanted, in order, and they are put on the stream as one update with the batch's stamp and expiry |
| BlockEngineGuarantees.StreamIsWhatWasEmitted | block_engine/src/block_engine.rs:424-478 | The stream of a session is exactly one numbered heartbeat for each tick sent and one update for each batch let out, in the order of the events |
| BlockEngineGuarantees.SessionEndsIff | block_engine/src/block_engine.rs:408-511 | Every way a session ends and no other: a stream that ends, a send that fails, a closed receiver, more than 30 s since the last reply at a metrics check, a refresh that cannot be met; and a panic exactly on an access token without expiry |
| BlockEngineGuarantees.AnsweredSessionGoesOn | block_engine/src/block_engine.rs:493-497 | A session with a reply at most 30 s before each metrics check is never ended by one |
| BlockEngineGuarantees.SessionTicks | block_engine/src/block_engine.rs:479-488 | The refresh ticks of every session are a run of ticks from the tokens it started with, so the token theorems hold of sessions |
| BlockEngineSession.InterestIsWhatUpdatesSaid | block_engine/src/block_engine.rs:595-659 | A key is of interest only if an update with an entry that parses to it was handled within the lifespan, and certainly if one began to be; the wildcard is on exactly when an update had "*" |
| BlockEngineSession.ParsedExactly | block_engine/src/block_engine.rs:607-619 | The keys of an update are those of exactly the entries that parse, each entry once, in order |
| BlockEngineSession.SilenceIsBounded | block_engine/src/block_engine.rs:493-497 | With metrics ticks at most M apart no live session is silent for longer than 30 s + M |
| BlockEngineSession.SessionTokensStayFresh | block_engine/src/block_engine.rs:479-488 | The token-freshness bound at every moment of every live session |
| BlockEngineSession.Session.constructor | block_engine/src/block_engine.rs:383-406 | On a drained queue, a session starts with empty caches, counts and histories |
| BlockEngineSession.Session.Serve | block_engine/src/block_engine.rs:407-518 | The loop is a run of the session steps over a prefix of the events, all of them unless one ends the session |
| BlockEngineSession.Session.Dispatch | block_engine/src/block_engine.rs:408-511 | Every arm takes exactly the step of its event |
| BlockEngineSession.Session.OnResponse | block_engine/src/block_engine.rs:409-423 | A reply restarts the liveness clock; an ended or broken stream ends the session |
| BlockEngineSession.Session.OnHeartbeat | block_engine/src/block_engine.rs:424-435 | A heartbeat carries the current count, which moves only when it is enqueued |
| BlockEngineSession.Session.SetAll | block_engine/src/block_engine.rs:607-619 | The keys set are those of the entries that parse, in order, each stamped during the call, and the number of such entries is returned |
| BlockEngineSession.Session.OnAoi | block_engine/src/block_engine.rs:595-626 | An account update sets its keys while it is handled and makes the wildcard stick; an ended stream ends the session |
| BlockEngineSession.Session.OnPoi | block_engine/src/block_engine.rs:628-659 | The same for program updates |
| BlockEngineSession.Session.OnRecv | block_engine/src/block_engine.rs:458-478 | What the filter leaves of the oldest batch, under the interest so far, is enqueued as one batch with its stamp and expiry; a failed send ends the session |
| BlockEngineSession.Session.OnAuthTick | block_engine/src/block_engine.rs:479-488 | The tick's outcome decides: continue, disconnect on failure, panic on a missing expiry |
| BlockEngineSession.Session.OnMetrics | block_engine/src/block_engine.rs:489-510 | More than 30 s of silence ends the session; otherwise both caches are flushed |
| BlockEngineSession.Link.Drain | block_engine/src/block_engine.rs:380-381 | Popping until nothing is left empties the queue |
| BlockEngineSession.Reconnect | block_engine/src/block_engine.rs:127-151 | Every turn that is let in runs one session over its own events, after a drain and a raise; the flag is lowered before the next turn and is always its last write |
| BlockEngineSession.TryOnce | block_engine/src/block_engine.rs:128-141 | One turn leaves exactly the marks of its outcome: a session between drain, raise and lowering, or just a lowering |
| BlockEngineSession.UpOnlyFromDrainToReturn | block_engine/src/block_engine.rs:381-383 | Over every life of the thread, whenever the flag is up it was raised directly after a drain that left nothing, and only that session has happened since |
| FanOut.FastBranchAgreesIffParses | relayer/src/relayer.rs:655-668 | With no sanctioned address the unchecked branch agrees with the checked one exactly for packets that parse |
| FanOut.Filter | relayer/src/relayer.rs:648-670 | Whatever each table read finds: what must pass passes, nothing passes that may not, in order |
| FanOut.FilterAtRest | relayer/src/relayer.rs:648-670 | With the lookup tables at rest the filter is exactly the filter chain |
| FanOut.ChunksOfIsChunking | relayer/src/relayer.rs:672-678 | The chunks concatenate to the input in order, none is empty, and all but perhaps the last are full |
| FanOut.ChunkingIsUnique | relayer/src/relayer.rs:672-678 | No other way of cutting meets that description |
| FanOut.Chunk | relayer/src/relayer.rs:672-678 | The collecting loop computes those chunks |
| FanOut.OutcomesPartitionPackets | relayer/src/relayer.rs:694-727 | For each target, packets forwarded, dropped and met by a closed channel add up to the whole input, and the forwarded ones are those delivered |
| FanOut.DeliveredInOrder | relayer/src/relayer.rs:694-727 | A target's delivered chunks, and its packets, are in-order parts of the input |
| FanOut.DeliveredExactly | relayer/src/relayer.rs:694-727 | The chunks delivered to a target are exactly those whose send was accepted, in the order they were sent |
| FanOut.WeightExactly | relayer/src/relayer.rs:702-716 | The packets counted under an outcome are exactly those of the chunks whose send had it |
| FanOut.CreditsAreWeights | relayer/src/relayer.rs:139-157 | The saturating counters equal the forwarded and dropped packet counts up to the largest `u64` |
| FanOut.FanOutEffect | relayer/src/relayer.rs:694-727 | Each target's channel gains exactly its delivered chunks, its counters exactly its packets, and it is listed as failed once per closed answer; everyone else is untouched |
| FanOut.BeatsEffect | relayer/src/relayer.rs:602-625 | Each subscriber with room gets exactly one heartbeat, nobody else gets anything |
| Relayer.Relayer.constructor | relayer/src/relayer.rs:479-506 | The loop starts with no subscription, no leader and empty books |
| Relayer.Relayer.OnSlot | relayer/src/relayer.rs:509-518 | The slot is assigned, and the leaders are those of the next `slot_lookahead` slots under the schedule read then; this stays true of every later state |
| Relayer.Relayer.CollectTargets | relayer/src/relayer.rs:680-692 | The senders are each target exactly once: all subscribers when forwarding to all, else the subscribed leaders |
| Relayer.Relayer.SendChunks | relayer/src/relayer.rs:694-727 | The nested send loops compute the fan-out books |
| Relayer.Relayer.ForwardPackets | relayer/src/relayer.rs:631-728 | Filter, chunk and fan-out together; the failed list names exactly the targets one of whose sends found the channel closed; every channel stays an in-order part of everything received |
| Relayer.Relayer.DropConnections | relayer/src/relayer.rs:579-596 | Each listed subscription is removed once; the metric exceeds the removals by exactly the repeated entries |
| Relayer.Relayer.OnPackets | relayer/src/relayer.rs:519-524 | The whole round as a step of the loop: a subscription is dropped exactly when it was a target and a send found its channel closed, every other keeps its sender, and the map size stays vacant inserts minus removals |
| Relayer.RoundAsSeen | relayer/src/relayer.rs:519-524 | A round as each subscriber sees it: a target is sent exactly the chunks its channel accepts and loses its subscription exactly when one of its sends is answered closed, anyone else is sent nothing, and nobody's sender changes |
| Relayer.Relayer.OnSubscription | relayer/src/relayer.rs:730-759 | A later subscription of a key replaces its sender and counts nothing; a new one counts once |
| Relayer.Relayer.SendBeats | relayer/src/relayer.rs:602-625 | The loop sends the beats in turn and lists the closed channels |
| Relayer.Relayer.HandleHeartbeat | relayer/src/relayer.rs:598-628 | Every subscriber is tried once with the current count, which then goes up by one |
| Relayer.Relayer.OnHeartbeat | relayer/src/relayer.rs:530-548 | Healthy: every subscriber with room gets the beat, exactly the closed ones are dropped; unhealthy: everyone is dropped and nothing is sent; here the removal metric counts exactly the removals |
| Relayer.Relayer.OnMetrics | relayer/src/relayer.rs:549-568 | All counters start again, the heartbeat count included, and the books balance across the reset |
| Relayer.TargetsAreWindowLeaders | relayer/src/relayer.rs:512-515 | With a schedule rebuilt from disjoint lists, the targets are exactly the subscribed keys the fetched schedule gives a slot in [h, h + lookahead), or all subscribers when forwarding to all |
| Relayer.FailedAreTheClosed | relayer/src/relayer.rs:717-723 | As a set, the failed list is the targets with at least one closed answer |
| Relayer.ChannelStaysInOrder | relayer/src/relayer.rs:694-727 | A round keeps every channel an in-order part of the packets received so far |
| Forwarder.Forwarder.MaybeReport | transaction-relayer/src/forwarder.rs:56-65 | Counters are reset exactly when the interval is over, and nothing is lost from the sum of reported and current counters |
| Forwarder.Forwarder.Offer | transaction-relayer/src/forwarder.rs:71-101 | With the mempool on a batch is counted forwarded or dropped, with it off neither; a closed channel is a panic |
| Forwarder.Forwarder.Receive | transaction-relayer/src/forwarder.rs:68-106 | The batch is stamped and appended to the buffer |
| Forwarder.Forwarder.Drain | transaction-relayer/src/forwarder.rs:113-129 | Sends from the front only batches that have reached the delay; afterwards none left had reached it at the last look, and with delay 0 none is left |
| Forwarder.Forwarder.Turn | transaction-relayer/src/forwarder.rs:55-137 | One turn receives exactly its input, offers it to the block engine, and sends downstream exactly the batches that had reached the delay at the last look; it panics exactly on a fatal input |
| Forwarder.Run | transaction-relayer/src/forwarder.rs:55-137 | Over any inputs, up to the first fatal one: the batches received are those of the inputs, in order, and are those sent downstream followed by the buffer; none was sent before its delay, and none is left that had reached it at a look taken after the last input; the block engine got exactly those it accepted; forwarded plus dropped equals received across metric resets |
| Forwarder.BalancedReceive | transaction-relayer/src/forwarder.rs:71-101 | Receiving a batch keeps both paths' packet accounts balanced |
| Forwarder.CountIsSize | transaction-relayer/src/forwarder.rs:70-73 | The counted length of the batches is the number of packets in them |
| Forwarder.BalancedInPackets | transaction-relayer/src/forwarder.rs:71-101 | Balanced accounts say how many packets were received, sent on, accepted and dropped |
| Forwarder.ReceivedExactly | transaction-relayer/src/forwarder.rs:66-106 | The batches received are exactly those of the inputs, input by input, each stamped when it was taken |
| Forwarder.AcceptedExactly | transaction-relayer/src/forwarder.rs:78-101 | The block engine got exactly the batches offered to it that it had room for, input by input, and none with the mempool off |
| PacketPath.BlockEngineSeesNoMore | block_engine/src/block_engine.rs:701-739 | For the same batches and lookup tables, whatever the caches, wildcard and sanctioned addresses, the block engine's output is an in-order part of the validator path's |
| PacketPath.RefreshNeverLetsThrough | relayer/src/relayer.rs:648-670 | Under every interleaving with refreshes that only extend its table, both filters' outputs owe nothing to packets that carry a flagged transaction, whichever cache states they read |
| PacketPath.RunPath | relayer/src/relayer.rs:507-576 | Forwarding thread and relayer loop in any interleaving take exactly the steps of the moves; the forwarder's inputs and the number of batches taken are those of the moves; every channel is an in-order part of what was received, and every batch taken had waited for the delay |
| PacketPath.NothingIsWithheld | relayer/src/relayer.rs:694-727 | Over every run, a validator that is a target of every round and whose channel has room receives exactly what passes the filter, all of it and in order |
| PacketPath.RoundDelivers | relayer/src/relayer.rs:694-727 | One round adds to a target's channel exactly its delivered chunks, and everything if all sends are accepted |
| PacketPath.TakenCount | relayer/src/relayer.rs:519-524 | The loop has taken exactly as many batches as its moves found |
| PacketPath.Step | relayer/src/relayer.rs:508-568 | Each move of either thread is the step said for it, and only a fatal input panics |
| SlotPipeline.SlotsReachingTheRelayer | rpc/src/load_balancer.rs:102-126 | For any number of threads, the slots reaching the relayer loop are a prefix of those sent, pairwise distinct, and each server's own are strictly increasing |
| SlotPipeline.QuiescentMaximum | rpc/src/load_balancer.rs:116-125 | When no send is pending the shared maximum is the largest slot sent |
| SlotPipeline.OneServerGoesUp | relayer/src/relayer.rs:761-770 | With at most one server every slot taken strictly raises the relayer's highest slot |
| SlotPipeline.GoesDownIffTwoServers | relayer/src/relayer.rs:761-770 | Some run lets the highest slot go down if and only if there are two servers |
| SlotPipeline.InvStep | rpc/src/load_balancer.rs:102-126 | Every step of a thread, the health manager or the relayer loop keeps order, uniqueness, per-server growth and the accounting of the maximum |
| SlotPipeline.FifoStep | relayer/src/health_manager.rs:60-64 | The two channels and the relaying manager are first in, first out end to end |
| SlotPipeline.GetHighestSlot | rpc/src/load_balancer.rs:173-181 | A server whose last reported slot no other exceeds, none exactly when there is no server |
| SlotPipeline.ReportedWithinMaximum | rpc/src/load_balancer.rs:102-126 | When no thread is between its two writes, no server's reported slot exceeds the shared maximum |
| HealthDisconnect.HealthManager.OnTick | relayer/src/health_manager.rs:48-59 | Healthy is published exactly when the last slot is at most the threshold ago, and what is published stays backed by the last check |
| HealthDisconnect.HealthManager.OnSlot | relayer/src/health_manager.rs:60-64 | The slot is relayed, the update counts from then, and what is published stays backed by the last check |
| HealthDisconnect.HealthyMeansRecentSlot | relayer/src/health_manager.rs:46-64 | With ticks at most G apart, healthy implies that the last slot, or the start, is at most threshold + G ago |
| HealthDisconnect.HeartbeatDisconnectsEveryone | relayer/src/relayer.rs:530-547 | Once slots stop, every heartbeat handled more than threshold + G after the last one leaves nobody subscribed, whatever was queued |
| HealthDisconnect.NobodyNewGetsIn | relayer/src/relayer.rs:773-779 | While slots stay away past that deadline, nobody can be subscribed who was not subscribed, queued or in flight when the stall began, and what is pending only shrinks |
| HealthDisconnect.DisconnectedForGood | relayer/src/relayer.rs:813-832 | With nothing pending when the stall begins, after the first heartbeat the map stays empty for as long as slots stay away |
| HealthDisconnect.DroppedIff | relayer/src/relayer.rs:519-547 | A subscriber is dropped exactly by a heartbeat while unhealthy or when its channel is found closed |
| HealthDisconnect.HealthyCallGetsIn | relayer/src/relayer.rs:813-832 | A subscribe call while healthy, its send and the loop's turn make a subscription, whatever time passes between them |
| HealthDisconnect.Plant.Handle | relayer/src/relayer.rs:508-548 | Arms of the health manager and of the relayer loop and steps of the subscribe handler are exactly the steps of the timed machine, and only channels that answered closed are counted as closed |
| HealthDisconnect.Operate | relayer/src/relayer.rs:507-548 | Any events in any order are a run of the timed machine from the state the code is in |
| LeaderSchedule.Rebuild | relayer/src/schedule_cache.rs:128-136 | In whatever order the names are taken, the result holds only fetched assignments and one for each assigned slot |
| LeaderSchedule.EnterSlots | relayer/src/schedule_cache.rs:130-134 | One leader's slots are entered, shifted by the epoch's offset on machine words; an unparseable key enters nothing |
| LeaderSchedule.ScheduleCache.UpdateLeaderCache | relayer/src/schedule_cache.rs:116-146 | Both answers are needed; without them nothing changes and the call reports failure; with them, any answers, the schedule is rebuilt |
| LeaderSchedule.OffsetIsFirstSlot | relayer/src/schedule_cache.rs:124 | Unless it wraps, the shift is by the epoch's first slot |
| LeaderSchedule.AssignedIffListed | relayer/src/schedule_cache.rs:124-136 | The answer gives a slot to a key exactly when an index listed under it and the epoch's first slot make that slot, modulo a machine word |
| LeaderSchedule.RebuiltInverse | relayer/src/schedule_cache.rs:128-136 | The rebuilt map is the offset inverse of the fetched one if and only if no slot is listed under two keys |
| LeaderSchedule.ScheduleCache.LeadersForSlots | relayer/src/schedule_cache.rs:44-50 | Exactly the leaders the cache has for the given slots |
| LeaderSchedule.WindowIsFetchedWindow | relayer/src/relayer.rs:512-515 | On a rebuilt inverse, the leaders of a window are exactly the keys the fetched schedule gives a slot in it |
| LeaderSchedule.AuthorizedIff | transaction-relayer/src/main.rs:678-685 | A key is authorised exactly when the operator's list names it or, without a list, when the fetched epoch gives it a slot |
| AuthChallenges.AuthChallenges.Peek | relayer/src/auth_challenges.rs:38-56 | With the expiry order reversed, the front is a challenge that expires first |
| AuthChallenges.AuthChallenges.RemoveAllExpired | relayer/src/auth_challenges.rs:54-63 | Popping until the front is live removes exactly the challenges expired at the last look |
| AuthService.AuthService.GenerateAuthChallenge | relayer/src/auth_service.rs:148-211 | Refines the atomic challenge step, and is answered exactly when healthy, below capacity and from a known address that has a live challenge or asks for an authorised validator |
| AuthService.AuthService.GenerateAuthTokens | relayer/src/auth_service.rs:213-330 | Refines the atomic tokens step, and is answered exactly when healthy and the request signs the stored challenge of its address with the key it was made for |
| AuthService.AuthService.RefreshAccessToken | relayer/src/auth_service.rs:332-384 | Refines the atomic refresh step, and is answered exactly when healthy and the token presented was issued here and has not expired |
| AuthService.Serve | relayer/src/auth_service.rs:148-384 | Whatever a service is asked from its start, what it does is a run of atomic calls on exactly those requests, with clock readings that never go back |
| AuthGuarantees.ChallengeAnsweredIff | relayer/src/auth_service.rs:148-211 | In every run, when a challenge call is answered and when it fails with which error, both directions; a live challenge is given again, otherwise the new one carries the call's address and key and the three lifetimes each from its own stamp |
| AuthGuarantees.TokensAnsweredIff | relayer/src/auth_service.rs:213-330 | In every run, when a tokens call is answered and when it fails with which error; the answer is the access token and then the refresh token of the challenge signed, and the challenge is gone |
| AuthGuarantees.RefreshAnsweredIff | relayer/src/auth_service.rs:332-384 | In every run, a refresh is answered exactly when healthy and asked strictly before the expiry of a token issued here; the new token has its address and key and expires at the whole second of the stamp plus the access lifetime |
| AuthGuarantees.ExpirationRemovesIff | relayer/src/auth_challenges.rs:54-63 | The expiration task removes exactly the challenges that had expired when it last looked |
| AuthGuarantees.StoredChallengesAreAccountedFor | relayer/src/auth_service.rs:148-211 | In every run, each stored challenge is filed under the address of a call made while healthy for a validator authorised at that call, and carries that call's key and stamps |
| AuthGuarantees.TokensAreAccountedFor | relayer/src/auth_service.rs:148-384 | In every run, each token issued belongs to an address and key that asked while authorised and signed that challenge, and was brought by such a signature or in return for an unexpired token of the same address and key, with exactly the lifetime due |
| AuthService.SameChallengeUntilExpiryOrRedemption | relayer/src/auth_service.rs:159-166 | In every run of atomic handlers, until it expires or is redeemed an address is answered with the same challenge |
| AuthService.OnePairPerChallenge | relayer/src/auth_service.rs:230-312 | In every run of atomic handlers, no two redemptions share a challenge |
| AuthService.RedeemedNeverReturns | relayer/src/auth_service.rs:230-312 | A redeemed challenge is never stored again under any address |
| AuthOverlap.RedeemableAgainIff | relayer/src/auth_service.rs:230-312 | With handlers split at the locks, a redeemed challenge can be redeemed again if and only if another call had already verified its request against it |
| AuthOverlap.AnsweredOtherwiseIff | relayer/src/auth_service.rs:155-208 | With handlers split at the locks, an address with a live challenge can be answered with another one if and only if a challenge call for it is already past its look-up |
| AuthOverlap.SpentForever | relayer/src/auth_service.rs:230-312 | In every continuation a redeemed challenge is neither stored nor about to be, and only calls that had verified it before still hold it |
| AuthOverlap.UniqueAlways | relayer/src/auth_service.rs:183-208 | In every run each nonce belongs to one challenge, stored under one address or about to be pushed by one call |
| AuthProtocol.SubscribersAreProven | relayer/src/auth_service.rs:183-275 | With handlers split at every lock and arbitrarily interleaved, every subscribed key traces back to a challenge made for it while it was authorised and then to a verified signature of that key over that challenge; every token, however often refreshed, keeps the address and key of such a chain |
| AuthProtocol.ProvenanceStep | relayer/src/auth_service.rs:148-384 | Every step keeps the chain for stored challenges, calls in flight, tokens, queued and subscribed keys |
| AuthProtocol.LinksAdded | relayer/src/auth_service.rs:183-275 | The authorising step and the verifying step add exactly the two links of the chain |
| AuthProtocol.TokensKeep | relayer/src/auth_service.rs:341-359 | Issuing and refreshing tokens keeps address and key within a proven chain |
| AuthProtocol.SubscriptionsKeep | relayer/src/relayer.rs:819-830 | Only keys from verified tokens reach the subscription channel and the map |
| AuthProtocol.StoreStaysWithin | relayer/src/auth_service.rs:155-208 | With at most k calls past the capacity check at once the store holds at most capacity - 1 + k challenges, whatever the expiration task does |
| AuthProtocol.SerialCallsStayWithinCapacity | relayer/src/auth_service.rs:155-208 | With calls one at a time the configured capacity is never exceeded |
| AuthProtocol.BoundIsReached | relayer/src/auth_service.rs:155-208 | For every capacity and k some run reaches capacity - 1 + k, so the bound is exact |
| AuthGuarantees.InterleavedRefreshIff | relayer/src/auth_service.rs:332-384 | However the handlers interleave, a refresh adds a token exactly when healthy and strictly before the expiry of a token issued here, for the same address and key, and changes nothing else |
| AuthGuarantees.InterleavedExpirationIff | relayer/src/auth_challenges.rs:54-63 | However the handlers interleave, the expiration task removes exactly the expired challenges |
| AuthGuarantees.NothingBeginsUnhealthy | relayer/src/auth_service.rs:137-143 | While unhealthy no call gets past its first check and no refresh adds a token |
| AuthGuarantees.AuthorisedValidatorGetsIn | relayer/src/auth_service.rs:148-330 | From any healthy state with room, an authorised validator at an address without a challenge can get its challenge, its tokens and its subscription |
| BearerHeader.ReadsBackIff | relayer/src/auth_interceptor.rs:84-112 | The token written by the client is read back if and only if it does not contain "Bearer " itself |
| BearerHeader.CarriedIffWritten | relayer/src/auth_interceptor.rs:84-112 | Whatever header carries a token is the one the client writes for it, and nothing else is ever read |
| BearerHeader.InterceptedIff | relayer/src/auth_interceptor.rs:80-131 | A request passes with some claims exactly when its header is "Bearer " and a token that verifies to them; a header that is no text is an invalid argument, everything else is denied |
| BearerHeader.JoinSplitFrom | relayer/src/auth_interceptor.rs:96 | Joining the pieces of a split gives the text back |
| BearerHeader.OnePieceIffNoSeparator | relayer/src/auth_interceptor.rs:96-99 | A split has one piece exactly when the separator does not occur |
| BearerHeader.ClaimsRoundTrip | relayer/src/auth_interceptor.rs:31-58 | Serialising claims and back keeps address and key, each in its own field, and only cuts the expiry to whole seconds, the expiry of the issued token and the one reported to the client; doing it again changes nothing |
| FetchStage.MarkForwarded | core/src/fetch_stage.rs:96-102 | Every packet of the batch is flagged as forwarded in place, with payload, discard flag, metadata and transaction as before |
| FetchStage.FetchStage.ReadRound | core/src/fetch_stage.rs:100-113 | A round reads at least one batch and stops when the queue is empty or the total is past 1024; read batches are marked, the others untouched |
| FetchStage.RoundIsBounded | core/src/fetch_stage.rs:104-113 | A round reads at most max(1024, first batch) packets plus the largest batch |
| FetchStage.TotalCountsPackets | core/src/fetch_stage.rs:100-113 | The running total is the number of packets in the batches read |
| FetchStage.FetchStage.HandleForwardedPackets | core/src/fetch_stage.rs:92-122 | A successful round passes on exactly the batches it read, in order and marked; a failing send has passed on exactly those before it |

## Left out

- OnePairPerChallenge: stated for handlers that run as atomic steps, like SameChallengeUntilExpiryOrRedemption; what split handlers keep of both is RedeemableAgainIff and AnsweredOtherwiseIff.
- HandleForwardedPackets: an empty queue stands for a disconnected one; waiting for the first batch is not modelled.
- CheckTx: a table read finds any of the states the cache goes through during the call, not only later and later ones, so the bounds hold for more than the real interleavings.
- WantedPacketsAreForwarded: stated with the lookup tables at rest during the call; with tables that change, the bounds are those of FilterPackets.
- Reconnect: the two-second pause after a failure is not modelled.
- Run: one forwarding thread, the number main starts; a closed downstream channel, on which the thread panics, is not modelled.
- A packet batch size of 0, on which chunking panics, is excluded where the relayer loop is built.
- Clocks never go backwards; wall-clock adjustments of the authentication service and of token expiries are not modelled.
- Overflow of the highest slot plus the lookahead and of the counters that are not saturating.
- Exit flags, thread joins and the panics that follow a poisoned lock or a disconnected control channel.
- The resubscription of a slot thread after a timeout, and `rpc_client`, a lookup under the server that `get_highest_slot` names.
- gRPC, TLS, QUIC, sockets, signature verification of packets and thread start-up: input and output.
- JWT, Ed25519, base58, protobuf encoding and the drawing of challenge text: ideal or abstract.
- The internals of `TimedCache`, `DashMap`, `KeyedPriorityQueue` and the channels: their interface behaviour is what is modelled.
- `is_maybe_writable` and transaction deserialisation: abstract facts of a packet.
- jito-protos/src/convert.rs: a partial function from packets, field by field.
- Histograms, latencies, queue lengths, the full-channel counter of heartbeats and block_engine/src/block_engine_stats.rs: counters with only easy facts.
- web/src/lib.rs, core/src/staked_nodes_updater_service.rs, packet_blaster/src/main.rs, scripts and configuration.
