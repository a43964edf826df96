# openrelay, modelled in Dafny

openrelay relays 0x orders. It follows an Ethereum chain, moves messages through
Redis queues, keeps an order book in a database, and decides which orders are still
open, funded and not cancelled. This project models the parts of it where a wrong
branch loses money or messages, and proves what those parts keep, over whole runs
and for every input.

Check everything with `dafny verify dfyconfig.toml`, or give all `.dfy` files to one
`dafny verify`.

## What is modelled

**Block monitor** (`RingBuffer`, `BlockMonitor`). A monitor asks a node for the next
header, winds back through parents when the chain has reorganised, buffers the block it
lands on, publishes it and records its height. The node is a function of a clock, so
between any two requests it may answer anything; reading the recorded height may fail at
any tick, and a publish or a recording may fail at any tick in every way `Redis.Reply`
lists. `Iterate`, `Run`, `Session` and `Sessions` say what one turn, one process and any
number of restarts do to the buffer, the log and the recorded height; the class `Monitor`,
over an array-backed ring buffer, does exactly that. The log has a block for every publish
that the publisher answered true to or that Redis carried out, and says of each whether
consumers received it. The theorems: every logged block has a logged parent or a stated
reason not to (`AncestorClosure`, `ParentsLeadHome`), and a received one
(`OrphanIffParentRefused`) under an exact condition; once the chain settles above the head
the monitor publishes exactly the missing blocks as long as the old branch in its buffer
lets it, with the exact conditions for that and for missing none (`ReorgCompleteness`,
`KeepsRunningIff`); restarts leave no gap in the log while the chain keeps what was
recorded (`RestartsUnbroken`, `NoGap`), with the exact conditions for consumers missing
nothing (`NoneMissingIff`, `RestartMissesNothingIff`).

**Queues and relays** (`Redis`, `Queue`, `Relay`, `DelayRelay`). Three Redis lists per queue
(ready, unacked, rejected) are changed by single atomic commands from any number of
processes that may stop between two commands. `Queue.Ledger` also counts what happened
to every copy of every payload, and a conservation law holds at every command. The
class `QueueChannel` is the code, given what Redis replies to each command (done, failed
with an error the code overlooks, timed out; the last two before or after the command was
carried out), and each of its methods is shown to be a run of those commands. `Relay` puts goroutines, a
semaphore and a delivery channel on top and has its own conservation law; `DelayRelay`
puts a sentinel and a hand-off on top.

**Order book** (`OrderBook`, `Validator`, `Spend`, with `Division`). Rows move between
Open, Filled, Unfunded and Cancelled. `OrderBook.Event` covers every write the consumers
make; one invariant holds of every row in every reachable state, and with rising epochs
a cancelled order never opens again. The validator rounds up where the book rounds down,
and the two are shown to fit. `Spend` follows a block of transfer logs to the rows that
stay open: for each ERC20 token, whatever other contracts emit in the same block, and
whatever fills, cancellations and other spends come in between.

**Encodings** (`Bytes`, `Text`, `Orders`, `OrderJson`, `Words`, `OrderHash`, `AbiCall`).
Order JSON in and out, the EIP-712 hash preimage, and the call data that is put together
by hand for a filter contract. They are checked against their inverses: a round trip,
an injectivity statement, and an ABI decoder that follows head offsets as the section
"Formal Specification of the Encoding" of the Solidity Contract ABI Specification says.

**Hash masks** (`HashMask`). Counting bits in bytes, drawing a mask, checking a hash,
each against the bits of the big-endian integer, and the cache over a manager's life.

## Where the code does not do what it promises

Each of these is a lemma that shows the failure, or the exact condition.

- `channels/util.go:15-20` takes most Redis errors for success, so a Reject or Return
  whose push is refused still removes its message: `Queue.RefusedPushLoses`,
  `Queue.MoveLosesIff`, `Queue.LostIffRefused`. A relay ignores what its publishers
  answer, so it loses a payload at a destination exactly if that publish was not carried
  out and the acknowledgement was: `Relay.RelayLapLosesIff`; over whole runs
  `Relay.RelayLosesIff`, and one run `Relay.RefusedPublishLoses`.
- `channels/queue_consumer.go:156` delivers an empty payload that nobody published when
  Redis fails with an error other than a timeout, and does not deliver an entry that was
  moved before the error: `Queue.QueueChannel.Take`.
- `channels/queue_consumer.go:107` ignores the replies to its trims, so the count returned
  is that of the entries removed exactly if all were carried out:
  `Queue.QueueChannel.PurgeRejected`.
- `db/indexer.go:73` has no status guard: a ZRX spend turns Filled and Cancelled rows
  into Unfunded ones. It does so exactly if it is the maker's and reports less than the
  remaining fee (`OrderBook.SpendUnsettlesIff`); a row nothing else rewrites survives a
  run exactly if no such spend is in it (`OrderBook.SettledRowKeptIff`), and over any run
  the only other way out of a settled status is to index the order anew
  (`OrderBook.SettledThroughoutIff`).
- A cancellation lookup and the Index that follows are two steps. If an epoch is stored
  in between, Index opens a cancelled order, and only then:
  `OrderBook.IndexKeepsInvariantIff`, `OrderBook.StaleLookupExample`.
- `pool/filter_contract.go:62-80` writes the padded lengths of the asset data, so the
  contract reads other bytes unless both are whole words:
  `AbiCall.DecodesFaithfullyIffAligned`. An ERC20 order never is:
  `AbiCall.Erc20OrderDecodesWrongly`.
- `monitor/blocks/blocks.go:64-69` takes an unreadable recorder for "start at the latest
  block" (`BlockMonitor.ResumesWhereItLeftOff`), and a restart forgets the buffer. Blocks
  are skipped exactly if the recorder could not be read or the block recorded, above
  genesis, is no longer on the chain (or a push was refused before):
  `BlockMonitor.RestartMissesNothingIff`.
- A reorganisation deeper than the buffer skips blocks: `BlockMonitor.ReorgCompleteness`.
- `monitor/blocks/blocks.go:137-139` exits when the chain returns to a branch that is still
  buffered above the head. It does so in a turn exactly if the next header is buffered and
  so is its parent, or it is genesis (`BlockMonitor.GuardFiresIff`); on a settled chain it
  is avoided exactly if each buffered block of the chain is pushed out before its turn
  (`BlockMonitor.KeepsRunningIff`); a truthful node can lead there
  (`BlockMonitor.ReturnToOldBranchIsFatal`).
- `monitor/blocks/blocks.go:162-164` records the height of a block whose push Redis refused,
  because the publisher answers true to that: `BlockMonitor.RecordsUnreceivedIff`. A
  recorded height is missing at the consumers exactly then, unless its block had got
  through before: `BlockMonitor.NoneMissingIff`, `BlockMonitor.RestartsMissNoneIff`.
- `db/terms.go:97-100` hands out a cached mask after the terms' difficulty has changed:
  `HashMask.ChangedDifficultyIff`, `HashMask.CachedForHalfAnHour`.

## Assumptions

- keccak is any function to 32 bytes. No injectivity is assumed (it would contradict the
  32 bytes); the hash lemma names the five pairs of strings one of which would collide.
- Rows are keyed by an order's signed fields, which its hash identifies.
- One Redis command, one Indexer call, and a lookup with the Index after it are atomic.
  `IndexKeepsInvariantIff` drops the last of these.
- Orders in the database were verified when they were stored.
- Node, balance checker, random source, clock and database errors are parameters.
- `BlockMonitor.Tree`, where it is required: a hash fixes its header, and a block is one
  higher than its parent.

## Model

| member | source | states |
|---|---|---|
| `RingBuffer.AdvanceIsPush` | monitor/blocks/block_ring_buffer.go:26-29 | writing one place after the head, around the end of the array, is a push on the list read backwards from the head |
| `RingBuffer.BlockRingBuffer.constructor` | monitor/blocks/block_ring_buffer.go:18-24 | a new buffer has `size` empty slots |
| `RingBuffer.BlockRingBuffer.Add` | monitor/blocks/block_ring_buffer.go:26-29 | the block comes first, the oldest goes, the order of the rest stays |
| `RingBuffer.BlockRingBuffer.Get` | monitor/blocks/block_ring_buffer.go:33-39 | Get(i) is slot i counted back from the last block added |
| `RingBuffer.BlockRingBuffer.HashIndex` | monitor/blocks/block_ring_buffer.go:41-52 | the least index holding the hash, and -1 exactly if no slot does |
| `RingBuffer.MostRecent` | monitor/blocks/block_ring_buffer.go:26-39 | after any adds, slot i holds the i-th most recent block, or nothing if fewer were added |
| `RingBuffer.PushKeepsDistinct` | monitor/blocks/blocks.go:137-147 | under the duplicate guard the buffered hashes stay pairwise distinct |
| `RingBuffer.PushHolds` | monitor/blocks/block_ring_buffer.go:26-52 | a push brings in its own hash and no other |
| `BlockMonitor.Monitor.constructor` | monitor/blocks/blocks.go:179-188 | a monitor starts with an empty buffer of the size asked for; what is durable is taken over |
| `BlockMonitor.Monitor.PublishBlock` | monitor/blocks/blocks.go:157-168 | for every pair of Redis replies: a timeout stops the monitor, the block received or not; any other answer has the height recorded, the block received or not; any error of the recorder stops it, the height recorded or not |
| `BlockMonitor.Monitor.Turn` | monitor/blocks/blocks.go:94-152 | one pass over the array-backed buffer is one `Iterate`, early exits, retries and the fatal guard included |
| `BlockMonitor.Monitor.Begin` | monitor/blocks/blocks.go:64-90 | the part before the loop is `Start`: the first block is buffered, and published only at height 0 |
| `BlockMonitor.Monitor.Loop` | monitor/blocks/blocks.go:93-152 | the main loop until the quit signal is `Run` |
| `BlockMonitor.Monitor.Process` | monitor/blocks/blocks.go:63-153 | a whole process is one `Session` |
| `BlockMonitor.WindBackLands` | monitor/blocks/blocks.go:118-136 | a wind-back that lands made at most a buffer's size of requests, and landed on a buffered parent, at height 0 or exhausted |
| `BlockMonitor.IterateKeepsClosed` | monitor/blocks/blocks.go:94-152 | one turn keeps: every published block is anchored, and everything buffered is known and distinct |
| `BlockMonitor.StartKeepsClosed` | monitor/blocks/blocks.go:64-90 | so does a start, which adds its own block to the start blocks |
| `BlockMonitor.RunKeepsClosed` | monitor/blocks/blocks.go:93-152 | and any number of turns |
| `BlockMonitor.AncestorClosure` | monitor/blocks/blocks.go:63-153 | over any sessions against any node, each logged block is genesis, an exhausted wind-back, or the child of a block logged earlier or started from |
| `BlockMonitor.OrphanIffParentRefused` | monitor/blocks/blocks.go:157-168 | such a child lacks a parent among the blocks received and started from if and only if every push of its parent was refused and no session started there |
| `BlockMonitor.ParentsLeadHome` | monitor/blocks/blocks.go:94-152 | following parents inside the published log ends at genesis, at an exhausted wind-back, or at a child of a start block |
| `BlockMonitor.WindBackDescends` | monitor/blocks/blocks.go:118-136 | with true headers each parent request goes exactly one height down |
| `BlockMonitor.IterateInTree` | monitor/blocks/blocks.go:102-151 | with true headers a turn publishes true headers only |
| `BlockMonitor.RequestsMeasureDepth` | monitor/blocks/blocks.go:102-149 | a block reached by r parent requests is published r below the height asked for, and a turn publishes at most one |
| `BlockMonitor.SessionsInTree` | monitor/blocks/blocks.go:63-153 | over any sessions the published log holds true headers only |
| `BlockMonitor.PathDescends` | monitor/blocks/blocks.go:115-136 | a path of published parents goes down one height at a time |
| `BlockMonitor.Resume` | monitor/blocks/blocks.go:118-123 | the height a turn goes back to is the first missing one exactly if that is within a buffer's size |
| `BlockMonitor.WindBackOnChain` | monitor/blocks/blocks.go:118-136 | on a settled chain the wind-back from any height lands where Resume says after exactly the requests in between, whatever is buffered above |
| `BlockMonitor.CatchUpTurn` | monitor/blocks/blocks.go:102-151 | a turn on a settled chain publishes, records and buffers that block, or is fatal and publishes nothing, exactly if the block is buffered |
| `BlockMonitor.PushShifts` | monitor/blocks/block_ring_buffer.go:26-29 | a block of another hash pushed leaves a buffered hash one push less |
| `BlockMonitor.Stop` | monitor/blocks/blocks.go:137-139 | the first chain block that the pushes of those before it do not push out in time, the end if there is none |
| `BlockMonitor.StopShifts` | monitor/blocks/blocks.go:137-147 | it stays the same block as the pushes happen one by one |
| `BlockMonitor.FollowTip` | monitor/blocks/blocks.go:94-152 | from a chain block at the head, k turns publish the next k blocks up to the tip or to the first still buffered when asked for, in order, once each, without winding back; they end running exactly if there was none |
| `BlockMonitor.ReorgCompleteness` | monitor/blocks/blocks.go:94-152 | once the chain settles above the head, from any buffer, the turns that follow publish its blocks from the height gone back to, ascending and once each, up to the tip or to the first still buffered when asked for; no block before is skipped exactly if the reorganisation is no deeper than the buffer |
| `BlockMonitor.KeepsRunningIff` | monitor/blocks/blocks.go:137-152 | the monitor keeps running exactly if each chain block from there on that is buffered is pushed out before its turn |
| `BlockMonitor.ReorgCompletes` | monitor/blocks/blocks.go:94-152 | in particular if none is buffered above the head, and then every block is published |
| `BlockMonitor.WindBackLandsOutside` | monitor/blocks/blocks.go:118-136 | a wind-back from a block that is not buffered never lands on one that is |
| `BlockMonitor.GuardFiresIff` | monitor/blocks/blocks.go:118-139 | the duplicate guard ends a turn, with nothing published, exactly if the header found is buffered and so is its parent or it is genesis |
| `BlockMonitor.ReturnToOldBranchIsFatal` | monitor/blocks/blocks.go:102-139 | a run with a truthful node that gets there from an empty log, on a chain that has settled above the head |
| `BlockMonitor.WindBackEnds` | monitor/blocks/blocks.go:120-135 | after any headers met on the way, a parent not found has the turn tried again and a failed request ends the process |
| `BlockMonitor.WindBackPath` | monitor/blocks/blocks.go:120-135 | a wind-back that does not land met such headers, fewer than the buffer's size or as many, and then no header |
| `BlockMonitor.UnansweredTurn` | monitor/blocks/blocks.go:102-135 | no next block, or a parent not found, changes nothing but the time and the monitor goes on; a failed request, the first or a later one, changes nothing and ends the process |
| `BlockMonitor.TurnStopsIff` | monitor/blocks/blocks.go:94-152 | a turn ends the process if and only if a request fails, the duplicate guard fires, the publisher times out or the recorder has an error |
| `BlockMonitor.PublishedHeadsBuffer` | monitor/blocks/blocks.go:143-149 | what a turn publishes is the buffer's new head, with the header's hash, number and bloom filter |
| `BlockMonitor.WaitsForLongerChain` | monitor/blocks/blocks.go:102-106 | while the new chain is not longer, nothing but the clock changes |
| `BlockMonitor.RestartsUnbroken` | monitor/blocks/blocks.go:63-168 | if the node's chain never replaces the block last recorded and the recorder can be read, any crashes and restarts publish only children of the block last recorded, or genesis again |
| `BlockMonitor.NoGap` | monitor/blocks/blocks.go:64-90 | no height up to the recorded one is missing from such a log |
| `BlockMonitor.RecordsUnreceivedIff` | monitor/blocks/blocks.go:162-164 | a height is recorded with its block not received exactly if the push failed, other than by a timeout, without being carried out, and the recording was carried out |
| `BlockMonitor.NoneMissingIff` | monitor/blocks/blocks.go:157-168 | along such a log consumers miss no recorded height if and only if each height recorded was received, then or before |
| `BlockMonitor.RestartsMissNoneIff` | monitor/blocks/blocks.go:63-168 | the same over any crashes and restarts on a chain that replaces no recorded block |
| `BlockMonitor.OneAtEachHeight` | monitor/blocks/blocks.go:102-151 | recorded blocks above genesis are at strictly rising heights |
| `BlockMonitor.NoneMissingIffAllReceived` | monitor/blocks/blocks.go:157-168 | if every publish was recorded, no height is missing if and only if no push was refused |
| `BlockMonitor.OnlyUnrecordedRepeats` | monitor/blocks/blocks.go:82-90 | a block is published again only if it was not recorded, or is genesis |
| `BlockMonitor.RecordedRises` | monitor/blocks/block_recorder.go:17-32 | the recorded height never goes down along such a log |
| `BlockMonitor.ResumesWhereItLeftOff` | monitor/blocks/blocks.go:64-74 | a session's start height is the recorded one exactly if the recorder could be read or nothing newer exists |
| `BlockMonitor.RestartPublishes` | monitor/blocks/blocks.go:63-153 | on a settled chain a session publishes the chain's blocks above the one it starts from, ascending and once each, and that one if it is genesis |
| `BlockMonitor.RestartCatchesUpIff` | monitor/blocks/blocks.go:63-153 | with enough turns consumers miss no chain block after it if and only if they missed none up to its start block |
| `BlockMonitor.AncestorsCovered` | monitor/blocks/blocks.go:94-152 | on a chain that has the block last recorded, every block below it was received, back to where the log began, if no push was refused |
| `BlockMonitor.LoggedOnChain` | monitor/blocks/blocks.go:94-152 | on such a chain every logged block is the chain's, if every publish was recorded |
| `BlockMonitor.CoveredMeansReceived` | monitor/blocks/blocks.go:157-168 | and if consumers have all of it up to there, no push was refused |
| `BlockMonitor.NoneAsHigh` | monitor/blocks/block_recorder.go:17-19 | if every publish was recorded, no logged block is higher than the one last recorded and no other is as high |
| `BlockMonitor.RestartMissesNothingIff` | monitor/blocks/blocks.go:63-90 | restarted on a chain grown past the recorded height, consumers miss no block if and only if the recorder can be read, the chain still has the block recorded and no push was refused |
| `Redis.CarriedAllIff` | channels/util.go:9-22 | as many commands were carried out as were sent exactly if each reply says so |
| `Queue.RemoveFirst` | channels/delivery.go:56 | LREM takes away one copy of the payload and nothing else |
| `Queue.RemovesLeftmost` | channels/delivery.go:56 | it is the leftmost copy, and the others stay in order |
| `Queue.StepBalances` | channels/delivery.go:55-93 | every single Redis command, and a crash, keeps stored + removed + refused copies equal to published + duplicated ones |
| `Queue.AlwaysBalanced` | channels/delivery.go:55-93 | so does every interleaving of commands and crashes |
| `Queue.CrashEndsMoves` | channels/delivery.go:69-93 | a crash changes no list, and the removal of an interrupted move never comes |
| `Queue.NothingMissed` | channels/util.go:9-22 | no copy counts as refused if every push was carried out |
| `Queue.NoLostMessages` | channels/delivery.go:55-93 | then copies stored or removed never fall below copies published, and exceed them exactly while a Reject or Return is unfinished or was interrupted |
| `Queue.LostIffRefused` | channels/util.go:9-22 | in general copies are missing exactly if more pushes were refused than removals are outstanding |
| `Queue.RefusedPushLoses` | channels/delivery.go:82-93 | a concrete run in which a refused push loses the only copy |
| `Queue.MoveLists` | channels/delivery.go:69-93 | what a Reject or Return leaves in the lists for every pair of Redis replies |
| `Queue.MoveLosesIff` | channels/delivery.go:69-93 | it lowers the number of copies exactly if the push was refused and the removal carried out |
| `Queue.TakeBacksKeepOrder` | channels/queue_consumer.go:75-79 | taking unacked deliveries back keeps the order of unacked followed by ready, wherever it stops |
| `Queue.PurgeRemovesOldest` | channels/queue_consumer.go:98-108 | k purge batches remove the oldest of the first entries, as many as the trims carried out, whatever is rejected meanwhile |
| `Queue.KeptIffAllTook` | channels/queue_consumer.go:99-107 | nothing but the batches to come is left exactly if every trim so far was carried out |
| `Queue.RejectionsArrive` | channels/delivery.go:82-85 | pushes of other processes end up on the left, newest first, and touch nothing else |
| `Queue.QueueChannel.constructor` | channels/queue_consumer.go:52-63 | a new channel's lists are empty |
| `Queue.QueueChannel.Publish` | channels/publisher.go:21-27 | an empty payload is refused; another goes on the left end if Redis carries it out; false only then or on a timeout |
| `Queue.QueueChannel.Take` | channels/queue_consumer.go:153-158 | done, the oldest ready payload becomes the newest unacked one and is delivered; failed, an empty payload is delivered; timed out, nothing is; in both cases the entry is moved or not |
| `Queue.QueueChannel.Ack` | channels/delivery.go:55-62 | one unacked copy goes; true exactly if there was one and Redis answered |
| `Queue.QueueChannel.Reject` | channels/delivery.go:64-67 | the two commands of a move, with their replies, are a run of the ledger; undisturbed they move one copy to the rejected list |
| `Queue.QueueChannel.Move` | channels/delivery.go:82-93 | for every pair of replies, which lists changed; false exactly on a timeout, and then nothing after it was sent |
| `Queue.QueueChannel.MoveBack` | channels/delivery.go:69-80 | the same for the right end of the ready list |
| `Queue.QueueChannel.Return` | channels/delivery.go:69-80 | likewise, to the right end of the ready list, where it is taken next |
| `Queue.QueueChannel.ReturnAllUnacked` | channels/queue_consumer.go:68-82 | alone and undisturbed ready becomes unacked followed by ready; stopped by a timeout, a tail of unacked has moved, in order; nothing has if the length could not be had |
| `Queue.QueueChannel.PopAll` | channels/queue_consumer.go:74-81 | the loop of ReturnAllUnacked stops at the first timeout and otherwise moves all, in order |
| `Queue.QueueChannel.DeleteRedisList` | channels/queue_consumer.go:91-111 | batches of at most a hundred from the right end remove, whatever arrives on the left, the entries there at first: all exactly if every trim was carried out |
| `Queue.QueueChannel.PurgeRejected` | channels/queue_consumer.go:85-87 | the same as a run of the ledger; the count returned is the length at the start, or 0 if that could not be had |
| `Queue.QueuePublisher.QueueMessage` | js/publishers.js:8-12 | the message waits behind all that were queued before it, in the order a flush delivers |
| `Queue.QueuePublisher.FlushQueue` | js/publishers.js:13-29 | the messages waiting join, in the order they were queued in, the end of what consumers take: as many as there were pops carried out, all exactly if every pop was; the rest and later messages keep waiting in order |
| `Queue.QueuePublisher.PopBatch` | js/publishers.js:23-27 | the lists after the batch, given the replies it does not look at |
| `Relay.SendAccounts` | channels/relay.go:62-66 | a publish, carried out or refused, keeps the exact balance: copies in the source lists, at a destination or refused there are those published, those past it in a worker, and those published again |
| `Relay.AckAccounts` | channels/relay.go:67 | so does the acknowledgement that follows the last publish, carried out or not |
| `Relay.StepAccounts` | channels/relay.go:51-69 | and every step: the death of the process, redelivery and phantom deliveries included |
| `Relay.RunAccounts` | channels/relay.go:51-69 | and every interleaving |
| `Relay.RelayLosesIff` | channels/relay.go:51-69 | over any run copies of an accepted payload are missing at a destination if and only if it refused more publishes than are unacknowledged or were repeated |
| `Relay.RelayKeepsAccepted` | channels/relay.go:51-69 | at every point each accepted payload is in the source lists or at each destination that refused none of it, copy for copy |
| `Relay.WithinSemaphore` | common/util.go:106-119 | there are never more goroutines than permits |
| `Relay.StepsAreCommands` | channels/relay.go:51-69 | on the source lists every step of the relay is a command of the queue's ledger: oldest first, taken back in order |
| `Relay.StepEffects` | channels/relay.go:51-69 | on the process and the destinations: delivered in the order fetched, acquired exactly while a permit is free, each destination once and in turn, ended by the acknowledgement, and death takes nothing of Redis |
| `Relay.RelayLapLosesIff` | channels/relay.go:59-68 | for any replies, one goroutine's work lowers the copies in the source lists and at a destination if and only if that publish was not carried out and the acknowledgement was |
| `Relay.RefusedPublishLoses` | channels/relay.go:62-67 | one run in which a refused publish is acknowledged all the same and the payload is gone |
| `Relay.SendsPushOnEach` | channels/relay.go:63-65 | a lone worker's n sends put its payload on those of the first n destinations that take it, and count as refused at the others |
| `Relay.LapIsConsume` | channels/relay.go:59-68 | for any replies a goroutine's steps with nobody in between come to what `Consume` does |
| `Relay.RelayConsumer.Consume` | channels/relay.go:59-68 | an accepted payload is on the left of every destination whose publisher carried it out, a filtered one on none; either is acknowledged whatever the publishers answered |
| `Relay.RelayConsumer.PublishAll` | channels/relay.go:63-65 | the publisher loop calls each publisher once, whatever the ones before it answered |
| `DelayRelay.StepKeepsOk` | channels/delay_relay.go:16-65 | every step keeps the count of sentinels, the order and the blocking state in agreement |
| `DelayRelay.AlwaysOk` | channels/delay_relay.go:16-65 | so does every interleaving of publishes, flushes and deliveries |
| `DelayRelay.OrderAndOutstanding` | channels/delay_relay.go:16-65 | messages are relayed in publication order without loss or repetition; outstanding sentinels are one, plus one while a Flush is under way |
| `DelayRelay.HeldUntilFlushed` | channels/delay_relay.go:29-36 | nothing published after k sentinels is delivered before k hand-offs |
| `DelayRelay.BlockedRelayedAll` | channels/delay_relay.go:16-36 | when the filter blocks, a message has been delivered exactly if no more sentinels precede it than flushes were handed off |
| `DelayRelay.FlushAddsSentinel` | channels/delay_relay.go:16-22 | a Flush publishes exactly one sentinel behind everything before it; one during another does nothing |
| `DelayRelay.FlushGetsThrough` | channels/delay_relay.go:16-22 | a Flush is handed off after at most as many deliveries as there are queued items |
| `DelayRelay.FlushReleases` | channels/delay_relay.go:16-36 | from any reachable state with no Flush under way, a Flush, deliveries, its hand-off and deliveries until the relay blocks have relayed every message published before, exactly those and in order |
| `DelayRelay.LogIsArrivals` | channels/publisher.go:21-27 | the messages in or through the queue are exactly the non-empty ones published, in order |
| `DelayRelay.DrainToLast` | channels/delay_relay.go:29-36 | deliveries reach the last sentinel left and relay everything before it |
| `Bytes.LexIsNumeric` | funds/cancellation_update.go:35 | comparing 32 bytes from the left is comparing the numbers |
| `Bytes.WordOf` | common/util.go:59-63 | a number is stored modulo 2^256 |
| `Bytes.MinBytes` | funds/order_validate.go:75 | the shortest byte form reads back as the number |
| `Bytes.FromBytesInjective` | types/misc.go:72-74 | different Uint256 values are different numbers |
| `Text.DecodeEncodeHex` | types/util.go:11-13 | hex text decodes to the bytes it was printed from |
| `Text.HexRoundTrip` | types/util.go:11-13 | with its 0x prefix too, the empty string included |
| `Text.HexDigits` | types/util.go:11-13 | the sixteen digits stand for their places, letters in either case |
| `Text.NoOtherHexDigits` | types/util.go:11-13 | and no other character is a digit |
| `Text.DecodesIff` | types/util.go:11-13 | decoding succeeds exactly on an even number of hex digits |
| `Text.DecodedByte` | types/util.go:11-13 | byte i comes from its two digits, the first counting sixteenfold |
| `Text.FormattedHex` | types/order.go:259 | the printed form is 0x and two lower-case digits a byte, the higher first |
| `Text.PrefixIsOptional` | types/util.go:12 | a leading 0x makes no difference |
| `Text.DigitsParse` | types/util.go:17 | decimal text parses exactly if it is one digit or more and nothing else |
| `Text.LeadingDigit` | types/util.go:17 | a leading digit counts for ten to the power of the digits after it |
| `Text.SignedInt` | types/util.go:17 | one sign may come first, and a minus negates |
| `Text.NoLeadingZero` | types/misc.go:68-70 | printed numbers have no leading zero, but zero is one |
| `Text.ParseFormatDigits` | types/misc.go:68-70 | decimal text parses to the number it was printed from |
| `Text.DecimalRoundTrip` | types/util.go:15-33 | every Uint256 survives decimal printing and parsing |
| `Orders.Erc20NamesToken` | common/util.go:71-76 | asset data built for an ERC20 token has its kind's four bytes and names that token |
| `Orders.Erc721NamesToken` | common/util.go:77-83 | that built for an ERC721 token has its kind's four bytes and names the token and its id |
| `Orders.AddressIff` | types/asset_data.go:21-31 | the address is bytes 16 to 36 of the three supported kinds and zero of any other; it panics exactly if those bytes or the kind are missing |
| `OrderJson.JsonCarries` | types/order.go:257-280 | what is written reads back as every signed field and the signature |
| `OrderJson.JsonRoundTrip` | types/order.go:226-280 | reading what was written succeeds exactly if both asset data are long enough, and restores all but filled, cancelled and pool |
| `OrderJson.JsonIdentifiesOrder` | types/order.go:257-280 | two orders write the same JSON exactly if signed fields and signature agree |
| `OrderJson.WrittenByName` | types/order.go:207-280 | each field is written under its own key, in hex or decimal as its type has it |
| `OrderJson.ReadByName` | types/order.go:226-255 | each field of any text is read from its own key, addresses cut or padded to 20 bytes, numbers modulo 2^256 |
| `OrderJson.OutcomeIff` | types/order.go:69-153 | text is malformed exactly if some field or the signature does not read, and otherwise panics exactly if an asset data has no address |
| `OrderJson.Order.Initialize` | types/order.go:38-57 | the blank order; the pool is left alone |
| `OrderJson.Order.Assign` | types/order.go:131-152 | decoded fields are stored as they are, and asset addresses follow from asset data or panic |
| `OrderJson.Order.FromStrings` | types/order.go:69-153 | malformed text anywhere leaves a blank order; otherwise the order the text denotes |
| `OrderJson.Order.UnmarshalJson` | types/order.go:226-255 | the order the JSON denotes, unfilled and not cancelled |
| `OrderJson.Order.MarshalJson` | types/order.go:257-280 | the JSON of whatever order the object holds |
| `OrderJson.Transmit` | types/order.go:226-280 | writing one object and reading into another gives it the same signed fields and signature |
| `Words.FlattenInjective` | types/order.go:180-197 | 32-byte words written one after the other can be told apart again |
| `Words.StaticWordsFixFields` | types/order.go:182-195 | the ten words of the static fields determine the fields |
| `Words.WordAt` | pool/filter_contract.go:34-66 | word i of a head sits at byte 32 i, whatever follows |
| `Words.WordBuffer.WriteWord` | types/order.go:190-197 | appending a word keeps the buffer a string of words |
| `Words.WordBuffer.WriteAddress` | types/order.go:182-189 | twelve null bytes and an address are one word |
| `Words.WordBuffer.WriteParties` | pool/filter_contract.go:40-47 | the four addresses, in this order |
| `Words.WordBuffer.WriteAmounts` | pool/filter_contract.go:48-53 | the six numbers, in this order |
| `OrderHash.OrderWordsFixFields` | types/order.go:180-197 | equal struct words mean equal fields or a collision on an asset data |
| `OrderHash.HashIdentifiesSignedFields` | types/order.go:155-205 | equal hashes mean equal exchange and equal twelve fields, or one of five named keccak collisions; nothing else enters the hash |
| `OrderHash.DomainHash` | types/order.go:159-170 | fed step by step, the domain hash is that of the preimage above |
| `OrderHash.SchemaIsDeclared` | types/order.go:173 | the schema string is "Order(" and the twelve members' types and names, joined by commas, and ")" |
| `OrderHash.PreimageFollowsSchema` | types/order.go:180-197 | after the schema's hash, word i of the preimage encodes the schema's member i: an address padded, a number as it is, bytes by their hash |
| `OrderHash.DomainFollowsSchema` | types/order.go:159-170 | the domain's preimage is the hashes of its schema, the name "0x Protocol" and the version "2", and the exchange as a word |
| `OrderHash.FinalFollowsEip191` | types/order.go:157-202 | what is hashed last is 0x19, 0x01, the domain's hash and the order's hash |
| `OrderHash.OrderStructHash` | types/order.go:172-197 | fed step by step, the struct hash is that of the preimage above |
| `OrderHash.Hash` | types/order.go:155-205 | fed step by step, the hash is that of the prefixed domain and struct hashes |
| `AbiCall.RoundUp32` | pool/filter_contract.go:58-62 | the least multiple of 32 not below the length |
| `AbiCall.WriteHead` | pool/filter_contract.go:34-66 | the fixed part is fifteen words, each field in its place |
| `AbiCall.PadData` | pool/filter_contract.go:58-69 | the data followed by zeros up to whole words |
| `AbiCall.EncodeCall` | pool/filter_contract.go:29-80 | a pool id of another length is an error; otherwise the call data that the decoder below takes apart |
| `AbiCall.LayoutDecodes` | pool/filter_contract.go:34-80 | any buffer laid out this way decodes to the fields and data laid out in it |
| `AbiCall.DecodeEncode` | pool/filter_contract.go:29-80 | a standard decoder gets the pool id, the ten static fields, and both asset data padded to whole words |
| `AbiCall.DecodesFaithfullyIffAligned` | pool/filter_contract.go:58-80 | it gets the order itself exactly if both asset data are whole words |
| `AbiCall.Erc20OrderDecodesWrongly` | pool/filter_contract.go:58-80 | an ERC20 order's 36 bytes of asset data arrive as 64 |
| `HashMask.OnesCount` | db/terms.go:65-77 | the count over bytes is the number of 1 bits of the big-endian integer |
| `HashMask.ByteOnesCount` | db/terms.go:68-74 | eight masks, the last doubling wrapping to 0, count a byte's ones |
| `HashMask.OnesAppend` | db/terms.go:67-75 | one more byte on the right adds its own ones |
| `HashMask.AndPow2` | db/terms.go:70 | and-ing with 2^i asks for bit i |
| `HashMask.SetBitBits` | db/terms.go:104 | or-ing in 2^i sets bit i and no other |
| `HashMask.SetBitOnes` | db/terms.go:104 | it adds a one exactly if bit i was clear |
| `HashMask.DrawOne` | db/terms.go:103-105 | after each draw the mask's bits are exactly the numbers drawn |
| `HashMask.FinishedMaskIsExact` | db/terms.go:101-107 | when the loop ends the mask has exactly Difficulty ones and fits 32 bytes |
| `HashMask.TermsManager.DrawMask` | db/terms.go:101-105 | the loop ends exactly if the draws contain Difficulty different numbers, with such a mask |
| `HashMask.TermsManager.constructor` | db/terms.go:255-257 | a new manager has an empty cache |
| `HashMask.TermsManager.GetNewHashMask` | db/terms.go:96-115 | a cached mask is reused only with over half an hour left; a fresh one is exact and is cached only if it was stored |
| `HashMask.AnswerKeepsGood` | db/terms.go:96-115 | a call for terms of unchanged difficulty keeps every cached mask exact and hands out an exact one |
| `HashMask.EveryMaskIsExact` | db/terms.go:96-115 | over a manager's whole life, if terms keep their difficulty, every mask handed out has exactly that many ones and fits 32 bytes |
| `HashMask.ChangedDifficultyIff` | db/terms.go:97-100 | after a change of difficulty a mask is wrong exactly while the old one is handed out from the cache and asks for another number of ones |
| `HashMask.CachedForHalfAnHour` | db/terms.go:98-108 | which is less than half an hour from when it was drawn |
| `HashMask.UnstoredIsNotCached` | db/terms.go:106-114 | a new mask is cached exactly if it was stored, with the id the database gave it, and other terms' masks stay |
| `HashMask.AndKeepsIffContained` | db/terms.go:192-196 | and-ing leaves the mask exactly if all its bits are set in the other number |
| `HashMask.BitsDetermine` | db/terms.go:192-196 | numbers with the same bits are equal |
| `HashMask.CheckMaskIsBitwise` | db/terms.go:192-196 | a hash passes exactly if every 1 of the mask is a 1 of the hash, and then has at least as many |
| `OrderBook.DbOrder.Populate` | db/order.go:38-75 | remainders and status belong to the filled amount; Filled wins over Cancelled, Cancelled over the old status |
| `OrderBook.Indexer.Save` | db/order.go:85-114 | an unverified order changes nothing; a new row is stored whole; of an old one just four columns change |
| `OrderBook.Indexer.Index` | db/indexer.go:26-30 | an order is saved from a fresh row with the indexer's status as default |
| `OrderBook.Indexer.RecordFill` | db/indexer.go:34-56 | a bad hash or amount, or an unknown order, changes nothing; an empty amount is zero |
| `OrderBook.Indexer.AddFill` | db/indexer.go:52-55 | the amount is added to what was filled, and the row saved with its own status as default |
| `OrderBook.Indexer.RecordSpend` | db/indexer.go:60-76 | as numbers: Open rows of the maker and asset with more remaining than the balance and, for ZRX, rows of the maker with a higher fee remaining change, in status alone; every other row stays |
| `OrderBook.SpendHitIsNumeric` | db/indexer.go:66-75 | the WHERE clause, which compares bytes, selects exactly those rows |
| `OrderBook.Indexer.RecordCancellation` | db/indexer.go:78-85 | the epoch is stored; Open rows of that maker and sender whose salt is a smaller number change, in status alone; every other row stays |
| `OrderBook.LookupIsNumeric` | funds/cancellation_update.go:18-36 | without a database error the lookup answers yes exactly if the order was cancelled or its salt is a smaller number than the stored epoch; with one it answers yes and an error unless the order was cancelled already |
| `OrderBook.SavedRow` | db/order.go:85-114 | what each column holds after a save, and that no other row changes |
| `OrderBook.IndexedStatus` | db/order.go:91-95 | Index leaves a row Open exactly if it asks for Open, the order was not found cancelled and fills are under the threshold |
| `OrderBook.ThresholdLine` | db/order.go:42-48 | in numbers: over 100 units an order counts as filled exactly when at most one percent, rounded up, is left, others when nothing is |
| `OrderBook.SavedStatus` | db/order.go:69-95 | over the line the row is Filled, under it Cancelled if cancelled, else as it was, with the default for Open: each status exactly then |
| `OrderBook.NotSaved` | db/order.go:86-90 | an order whose signature does not verify changes nothing |
| `OrderBook.IndexedRow` | db/indexer.go:26-30 | the columns after an Index: a new row is the order's, an old one keeps address and cancelled flag |
| `OrderBook.IndexKeepsInvariantIff` | db/indexer.go:26-30 | with a flag looked up at any other time, Index keeps the invariant if and only if it does not open an order below the stored epoch |
| `OrderBook.FillKeepsInvariant` | db/indexer.go:34-56 | any fill, negative or overflowing ones too, keeps it |
| `OrderBook.CancelKeepsInvariant` | db/indexer.go:78-85 | any cancellation keeps it, falling epochs too |
| `OrderBook.SpendKeepsInvariant` | db/indexer.go:60-76 | any spend keeps it |
| `OrderBook.StepKeepsInvariant` | db/indexer.go:26-85 | every write keeps it, Index right after its lookup |
| `OrderBook.InvariantAlways` | db/indexer.go:26-85 | in every reachable state no Open row is below its epoch or past its threshold, and stored remainders are the floored shares |
| `OrderBook.NeverReopens` | db/indexer.go:26-85 | while epochs do not fall, an order an epoch cancelled is never Open again |
| `OrderBook.OpenHasOverOnePercent` | db/order.go:42-48 | an Open order of over 100 units has strictly more than one percent left, any Open order something |
| `OrderBook.ShareIsFloor` | db/order.go:52-58 | for fills up to the order's size the stored share is the exact floor and fits |
| `OrderBook.ShareShrinks` | db/order.go:52-58 | more filled never means more remaining |
| `OrderBook.FillOnce` | db/indexer.go:52-55 | one fill within the order adds exactly, leaves other rows alone, and makes the row Filled or Cancelled exactly by the line in numbers |
| `OrderBook.FillAddsModulo` | db/indexer.go:52-53 | any fill, negative or too large, adds modulo 2^256 |
| `OrderBook.FillAccounting` | db/indexer.go:34-56 | over any such fills the stored amount is the exact sum and the row is Filled exactly from the fill that reaches the threshold on |
| `OrderBook.FilledIff` | db/indexer.go:34-56 | over such fills an Open order is Filled if and only if they add up to over the line, in numbers, and Open or Cancelled otherwise as one cancels it |
| `OrderBook.AnyCancelIff` | db/indexer.go:54 | one cancels it if and only if some fill's flag is set |
| `OrderBook.RemaindersShrink` | db/order.go:49-60 | then the stored remainders are the floored shares of what is left and only ever go down |
| `OrderBook.SpendHitsOpenIff` | db/indexer.go:66-75 | a spend changes an Open row, to Unfunded, if and only if it is its maker's and is about its asset with more remaining, or about ZRX with a higher fee remaining |
| `OrderBook.CancelHitsIff` | db/indexer.go:82-84 | a cancellation changes a row, to Cancelled, if and only if it is Open, of that maker and sender, with a smaller salt |
| `OrderBook.ForeignEventsLeaveAlone` | db/indexer.go:26-85 | over any run, spends of other assets, writes to other orders and other cancellations leave an Open row as it is |
| `OrderBook.SpendClears` | db/indexer.go:66-75 | after a spend is recorded every row of that maker and asset, found by asset data or without it by address, that is still Open is covered by the balance, its fee too for ZRX |
| `OrderBook.FillShrinks` | db/indexer.go:34-56 | a fill within the order adds exactly, leaves no more remaining and opens nothing |
| `OrderBook.OthersChangeStatus` | db/indexer.go:26-85 | any write not about an order changes its row's status at most, and opens nothing |
| `OrderBook.OpenStaysCovered` | db/indexer.go:26-85 | over any run of spends, cancellations, fills within the order and writes to other orders, a row still Open was Open all along and is covered by every spend of its maker on the way |
| `OrderBook.ZrxSpendOverwritesAnyStatus` | db/indexer.go:72-74 | a ZRX spend below the remaining fee overwrites whatever status a row has |
| `OrderBook.SpendUnsettlesIff` | db/indexer.go:66-75 | a spend changes a Filled or Cancelled row if and only if it is a ZRX spend of its maker below the remaining fee |
| `OrderBook.ClosedRowStep` | db/indexer.go:26-85 | no other write changes a row that is not Open, unless it is about that order |
| `OrderBook.ClosedRowRun` | db/indexer.go:26-85 | over any run such a row ends as it was, or as Unfunded if such a spend was in it |
| `OrderBook.SettledRowKeptIff` | db/indexer.go:26-85 | over any run without an Index or fill of it, a Filled or Cancelled row stays as it is if and only if no ZRX spend of its maker below its remaining fee occurs |
| `OrderBook.ReindexUnsettlesIff` | db/order.go:85-114 | indexing the order anew unsettles its row exactly if it is found neither cancelled nor filled and saved with another status |
| `OrderBook.FillKeepsSettled` | db/indexer.go:34-56 | no fill leads out of Filled and Cancelled |
| `OrderBook.UnsettledIff` | db/indexer.go:26-85 | those two are the only ways out, for every event |
| `OrderBook.SettledThroughoutIff` | db/indexer.go:26-85 | over any run a settled row is settled at every point if and only if neither way out is taken |
| `OrderBook.StaleLookupOpens` | db/indexer.go:26-30 | every Index whose lookup came before the order's cancellation opens it below the epoch |
| `OrderBook.StaleLookupExample` | db/indexer.go:26-30 | one such run from an empty book |
| `Validator.ValidateOrder` | funds/order_validate.go:81-170 | valid exactly if the token and proxies are found and all four checks pass; an error if one is not found; else the first failed lookup is an error or a panic, and a shortfall makes the order invalid |
| `Validator.ValidIffAllPass` | funds/order_validate.go:128-169 | valid exactly if all four checks pass |
| `Validator.CheckIff` | funds/order_validate.go:30-62 | a check passes exactly if nothing is required or enough is there, and fails as its lookup does only if something is required |
| `Validator.VerdictIff` | funds/order_validate.go:128-169 | an error or a panic exactly as the first failed lookup is a missing contract or not; invalid exactly if none failed and one fell short |
| `Validator.AcceptedIff` | funds/order_validate.go:97-127 | valid exactly if the maker holds and allows what it needs of the asset and of the fee |
| `Validator.OverfilledRequired` | funds/order_validate.go:71-75 | of an order for nothing nothing is required; beyond its size the amount grows again |
| `Validator.RequiredIsCeiling` | funds/order_validate.go:64-76 | the amount required is the ceiling of the maker's share of what is left |
| `Validator.RoundingsAgree` | funds/order_validate.go:64-76 | it is the book's floor or one more, and the same exactly if the division is exact |
| `Validator.SameLineIffExact` | funds/order_validate.go:30-45 | validator and book agree on every balance exactly if the share is a whole number |
| `Validator.PassingCovers` | funds/order_validate.go:30-76 | an amount that passes the check covers the remainder in the book |
| `Validator.AcceptedOrderSurvivesSpend` | funds/order_validate.go:81-170 | a spend that reports what the validator saw or more, of the order's own asset or of ZRX, never hits an order it accepted, and one about any other token never does |
| `Spend.Consume` | monitor/spend/spend.go:33-158 | nothing is published if the bloom filter shows no transfer or the logs cannot be had, which is fatal; else what `Process` says |
| `Spend.ConsumeLogs` | monitor/spend/spend.go:57-153 | the loop publishes record by record up to the point where it ends, panics or is fatal |
| `Spend.TransferShapes` | monitor/spend/spend.go:67-88 | by topics and data, which account sent which asset: kind, token and id read back from the asset data |
| `Spend.ReadingIs` | monitor/spend/spend.go:98-138 | the smaller of allowance and balance, of the ERC721 token that the data begin with if the allowance call reverts |
| `Spend.SkippedOrPanics` | monitor/spend/spend.go:90-97 | a pair seen before is skipped; a log without topics that would be reported panics |
| `Spend.Erc721Reading` | monitor/spend/spend.go:79-152 | an ERC721 transfer is reported with its token id, sender and the smaller of that token's allowance and balance |
| `Spend.HeadReading` | monitor/spend/spend.go:75-152 | an ERC20 log of a pair not seen yet yields that pair's record, or the end of the process exactly if a balance or allowance it needs cannot be had |
| `Spend.OtherToken` | monitor/spend/spend.go:58-97 | a log of another token, of any shape, adds no record of this one and marks no pair of this one |
| `Spend.OneRecordPerPair` | monitor/spend/spend.go:57-152 | whatever other contracts emit, an ERC20 token gets at most one record per account that sent it, the right one, and exactly one if the block is acknowledged |
| `Spend.Erc20BlockRecords` | monitor/spend/spend.go:57-158 | a block of readable ERC20 logs only is acknowledged, with exactly one record per pair |
| `Spend.SurvivorsAreCovered` | db/record_spend_consumer.go:25-68 | a row still Open after any records were applied is unchanged and covered by each record of its maker, with asset data or without |
| `Spend.RecordAllIsRun` | db/record_spend_consumer.go:25-68 | applying records is a run of the book's spends |
| `Spend.BlockLeavesOnlyCovered` | monitor/spend/spend.go:57-152 | end to end, for each ERC20 token of an acknowledged block: rows still Open can be paid from what their maker can still move, fees too for ZRX |
| `Spend.Erc20BlockLeavesOnlyCovered` | monitor/spend/spend.go:57-152 | the same for blocks of readable ERC20 logs only, which are acknowledged |
| `Spend.InterleavedBlockLeavesOnlyCovered` | db/record_spend_consumer.go:25-68 | the same with the records applied in any order among fills within the order, cancellations, other spends and writes to other orders |

## Left out

- BlockMonitor.WindBackDescends: heights are unbounded naturals; the code truncates to Int64 when it compares with 0, which no chain reaches.
- BlockMonitor.Monitor.Turn: `blocks.go:129` logs through a header that is nil after NotFound; the intended retry is modelled. A crash there leaves the durable state of a restart, which the restart theorems cover.
- BlockMonitor.RestartsUnbroken: requires that the recorder can be read at each start and that no recorded block is replaced; `RestartMissesNothingIff` says what happens otherwise.
- BlockMonitor.RestartMissesNothingIff: is about a monitor that recorded all it had published; for one that crashed between the two, `RestartCatchesUpIff` is the exact statement.
- BlockMonitor.ResumesWhereItLeftOff: speaks of the height alone; the blocks are the subject of `RestartMissesNothingIff`.
- RingBuffer.BlockRingBuffer.constructor: a buffer of size 0 is not modelled; the first Add on it would divide by zero.
- Queue.QueueChannel.ReturnAllUnacked: is about a process alone on the list; concurrent use is what the ledger's commands cover.
- Relay.RelayConsumer.Consume: is one goroutine undisturbed; goroutines interleaving, crashes and redelivery are the state machine of the same module.
- DelayRelay.StepKeepsOk: a state machine on values, not a class; the blocking hand-off has no sequential method. Crashes, rejects, Redis errors and a second consumer are not part of it, and the sentinel is never an ordinary message, as the source demands.
- AbiCall.DecodeEncode: asset data of 2^62 bytes or more, where Go's int offsets could overflow. The contract call and its result are not modelled.
- OrderHash.Hash: keccak itself.
- OrderJson.Order.UnmarshalJson: the text level of encoding/json; the JSON object is the record of its fourteen string fields. RLP (`Bytes`, `FromBytes`) is not modelled.
- HashMask.TermsManager.GetNewHashMask: that a random source eventually yields enough different numbers.
- OrderBook.DbOrder.Populate: Price and FeeRate (floating point), the default PoolID, timestamps.
- OrderBook.Indexer.Save: signature checking is a parameter; a zero taker amount, which panics, changes nothing.
- OrderBook.Indexer.RecordFill: the hash is given as the order it belongs to, or none if it is malformed.
- OrderBook.LookupIsNumeric: an epoch column that is null.
- OrderBook.FillAccounting: fills beyond the order's size; they are covered by `FillKeepsInvariant`, not by the exact sums.
- Validator.ValidateOrder: the goroutines, which only feed the four channels.
- Spend.OneRecordPerPair: tokens with ERC721 logs. `Consume` models them, the deduplication that ignores token ids and the panic on logs without topics included, but no claim is made about their records. The JSON of records is not modelled.
- HTTP handlers, search, pagination, CORS, the commands, topics (publish/subscribe), affiliates, the balance routing cache, fillbloom, the network map: plumbing over libraries that are not part of this model.
