# Verified model of the limit order book and its lock-free plumbing

A C++ exchange core: a limit order book with price-time priority, fed by a multi-producer ring buffer,
answered over one outbound ring per gateway, and replayed from message files.  This project models it in
Dafny and proves what it is built for.

The model has four connected layers.

1. **The book as a value** (`Book`, `Sweeps`, `Invariants`, `Levels`, `Execution`, `Identity`, `Splitting`,
   `Resizing`, `Outcomes`, `Conservation`, `Mirror`).  Each side is one queue in price-time priority; an index
   maps an id to the order that cancel and modify will find.  `Place`, `Cancel` and `Modify` are total: any
   volume, any price, any id, including ids that are already resting.  Orders carry an arrival number (`stamp`) that the
   code does not have: it stores no arrival time on resting orders (`Docs/02_orderbook.md:211`), and ids may
   collide.
   The theorems about matching, identity, splitting, modify, conservation and symmetry are proved here.
   `Outcomes` says what each operation comes to without its recursion - how much each resting order gives up is
   a closed form of its position - and proves that the operation has this outcome and no other.
2. **The book as it is built** (`Limits`, `Orderbooks`).  Nodes with `next`, `prev` and `parentlimit`, levels
   with `head`, `tail`, `count` and `totalVolume`, two price trees and the id index, changed in place by the
   two nested matching loops, by cancel and by modify.  Every public method is proved to do to a ghost `Book`
   exactly what the function of layer 1 does and to return its result, so all of layer 1 holds of it.
3. **The concurrent plumbing** (`Rings`, `Inbound`, `Outbound`, `Overruns`, `Pipeline`, `Answers`, `Progress`, `Minting`,
   `Spsc`, `Readers`, `Draining`).
   State machines in which every atomic access is a step of its own, runs are arbitrary sequences of steps,
   and theorems quantify over all runs.  `Pipeline` puts producers, engine and readers together and shows that
   the result is the sequential book of layer 1 applied to the submissions in ticket order; `Answers` that each
   ack read tells what its submission did to that book.  `Engines`, `Gateways` and the class in `Spsc` give the
   same code call by call, on arrays and on the pointer book.
4. **Replay and tokens** (`Adapter`, `Replaying`, `Tokeniser`).  The adapter's second, weaker view of order sizes
   against the book it feeds, first one request after the other and then with the adapter as the producer of the
   running pipeline; and the quantised price tokens.

Findings worth knowing, each with a proof:

- Ids minted by two LIVE gateways collide, and so can the ids that a REPLAY gateway passes on with those of a
  LIVE one or with each other; an order can then become impossible to cancel (`Minting.TwoGatewaysCollide`,
  `Minting.ReplayCollides`, `Identity.TwoCountersCollide`).  When a placement loses an order in this way is
  characterised exactly (`Identity.PlaceKeepsComplete`), and it never happens in any run if and only if all ids
  come from one counter: at most one LIVE gateway and no REPLAY gateway (`Minting.CompleteIffOneOrigin`).
- The emptiness check on the inbound ring cannot tell a free slot from one that is claimed and not yet
  published.  A check leads to two producers filling the same slot exactly if it laps (`Inbound.SharesIffLaps`),
  and all runs are safe exactly if there is at most one producer (`Inbound.SafeIffAlone`).
- The engine never looks whether an outbound slot is free.  Wherever the reader is, an ack may be sent without
  harm exactly if it is (`Overruns.SendingIsSafeIff`), and on a ring of any size acks can be lost
  (`Overruns.EveryRingCanLoseAcks`).
- Without such overruns and laps nothing gets stuck: from every state the threads can go on until every
  submission has been applied and every ack owed has been read (`Progress.NothingGetsStuck`).
- An ack has room for 16 fills and does not say when there were more; its numbers add up to the order's
  volume exactly when there were at most 16 (`Pipeline.AckAccounts`).
- A reduction row with a negative delta makes the adapter's size grow while the book refuses, and this is the
  only way in which such a row breaks agreement (`Adapter.AgreesUnlessNegative`).

Where code and documentation disagree the model follows the code: `Docs/03_ring_buffers.md:37-45` still
describes a claim by fetch-and-add, the code at `Core_Infra/ring_buffer.cpp:14-36` checks and then
compares-and-swaps.

`dafny verify dfyconfig.toml` checks the project.  Dafny's automatic induction is switched off in every lemma
it would apply to, so each induction is written out.

## Model

| member | source | states |
|---|---|---|
| Orderbooks.Orderbook.PlaceOrder | Core_Infra/orderbook.cpp:226-229 | on the linked structures, for every price, volume, side, time and id: new book and result are those of the sequential placement and have its closed-form outcome (`Outcomes.PlaceOutcome`), all structures agree again, and the gateway id is handed through |
| Orderbooks.Orderbook.Match | Core_Infra/orderbook.cpp:5-170 | dispatches to one of the two branches; the book is that of a sweep of the other side followed by an insertion behind the level's other orders, and the result reports for each maker, in order, its price and what it gives up |
| Orderbooks.Orderbook.MatchSell | Core_Infra/orderbook.cpp:6-87 | the sell branch: sweeps the bids, rests the remainder among the asks, and reports each bid's price and what it gives up |
| Orderbooks.Orderbook.MatchBuy | Core_Infra/orderbook.cpp:88-169 | the buy branch: sweeps the asks, rests the remainder among the bids, and reports each ask's price and what it gives up |
| Orderbooks.Orderbook.SweepBids | Core_Infra/orderbook.cpp:13-58 | the outer loop over the highest bids ends, having traded what a sweep of the whole bid queue trades and left the book it leaves |
| Orderbooks.Orderbook.SweepAsks | Core_Infra/orderbook.cpp:94-138 | the same for the lowest asks |
| Orderbooks.Orderbook.SweepBidLevel | Core_Infra/orderbook.cpp:15-57 | the inner loop of the sell branch: it ends within an order, which ends the whole sweep, or has consumed at least one order and left a sweep that is half way through |
| Orderbooks.Orderbook.SweepAskLevel | Core_Infra/orderbook.cpp:96-137 | the inner loop of the buy branch, likewise |
| Orderbooks.Orderbook.ConsumeHead | Core_Infra/orderbook.cpp:33-55 | a fully traded head order leaves list, cached totals, id index and, with the last order, the price tree; nothing else changes |
| Orderbooks.Orderbook.RestAmongAsks | Core_Infra/orderbook.cpp:59-83 | the remainder of a sell order joins the back of its level, or gets a new one, and the index entry of its id is overwritten |
| Orderbooks.Orderbook.RestAmongBids | Core_Infra/orderbook.cpp:139-163 | the same for the remainder of a buy order |
| Orderbooks.Orderbook.Cancel | Core_Infra/orderbook.cpp:175-223 | head, tail, middle or only order: the node is spliced out, totals and index follow, an empty level goes; the outcome is that of the sequential cancel: exactly the order that the id finds is gone, and for an unknown id the answer is false and nothing changes |
| Orderbooks.Orderbook.Modify | Core_Infra/orderbook.cpp:235-246 | succeeds exactly for a known id and a strict positive reduction, and then the order that the id finds has the new size in its old place; the outcome is that of the sequential modify |
| Orderbooks.Orderbook.constructor | Core_Infra/orderbook.hpp:51-55 | an empty book on which all structures agree |
| Limits.Limit.PopHead | Core_Infra/orderbook.cpp:33-45 | the list without its oldest node is again doubly linked and acyclic, with exact count and total |
| Limits.Limit.Append | Core_Infra/orderbook.cpp:67-73 | a node linked behind the tail |
| Limits.Limit.Unlink | Core_Infra/orderbook.cpp:186-206 | a node spliced out wherever it stands |
| Limits.Limit.SetVolume | Core_Infra/orderbook.cpp:242-244 | one order's volume and the cached total change together, in place |
| Invariants.RunKeepsWf | Core_Infra/orderbook.cpp:5-246 | after any sequence of requests both queues are in strict price-time order, volumes are positive, the best bid is below the best ask, and every index entry leads to a resting order of that id |
| Levels.LevelIsFifo | Core_Infra/orderbook.cpp:67-71 | within a level arrival numbers strictly increase from front to back |
| Levels.LevelsDetermineQueue | Core_Infra/orderbook.hpp:54-55 | the flat queue of a side holds no more information than the map from prices to levels |
| Execution.TradesAllThatCrosses | Core_Infra/orderbook.cpp:13-58 | an incoming order trades exactly the smaller of its volume and the total crossing volume, and the makers lose exactly that |
| Execution.BestExecution | Core_Infra/orderbook.cpp:13-58 | among all ways of taking the traded quantity from the resting orders the sweep costs a buyer least and brings a seller most |
| Execution.PriceTimePriority | Core_Infra/orderbook.cpp:15-57 | if any of an order is taken, every order before it in price-time priority was used up |
| Execution.OnePartialFill | Core_Infra/orderbook.cpp:17-29 | at most one maker survives with a reduced volume |
| Execution.FillPrices | Core_Infra/orderbook.cpp:38-42 | the i-th fill is at the price of the i-th maker, within the taker's limit, for just the positive volume that this maker loses, and prices never improve along the fills |
| Execution.ResultAccounts | Core_Infra/orderbook.cpp:83-87 | fills and remaining quantity add up to the volume; fulfilled exactly when nothing remains, exactly when enough volume crossed |
| Outcomes.PlaceOutcome | Core_Infra/orderbook.cpp:5-170 | a placement has exactly one outcome: each order opposite gives up what the volume leaves for it after those before it, one fill says so with its price and the taker's time, used-up orders are gone from queue and index, the remainder rests behind all orders whose price is not worse and is indexed under its id |
| Outcomes.FillsAreLosses | Core_Infra/orderbook.cpp:38-42 | for every order opposite: what it has lost is the volume of its fill, and nothing if it has none |
| Outcomes.BestFills | Core_Infra/orderbook.cpp:13-58 | no other way of taking the reported quantity from the resting orders is cheaper for a buyer or dearer for a seller than the fills that are reported |
| Outcomes.CancelOutcome | Core_Infra/orderbook.cpp:175-223 | a cancel has exactly one outcome: true exactly for an indexed id, and then the one order it finds is out of its queue and its entry out of the index |
| Outcomes.ModifyOutcome | Core_Infra/orderbook.cpp:235-246 | a modify has exactly one outcome: true exactly if the id finds an order of more than the positive size, which then has that size in its old place |
| Identity.PlaceKeepsComplete | Core_Infra/orderbook.cpp:82-82 | a placement keeps every resting order reachable by its own id if and only if it does not rest beside an order with the same id |
| Identity.FreshRunIsComplete | Core_Infra/orderbook.cpp:162-162 | if no two New requests carry the same id, every resting order is reachable by its own id after any run |
| Identity.TwoCountersCollide | Core_Infra/orderbook.cpp:82-82 | two resting orders with one id: cancel reaches the second only, the first can then be neither cancelled nor modified |
| Splitting.PlaceSplit | Core_Infra/orderbook.cpp:5-170 | placing x then y at one price and side leaves the same opposite book, traded quantity, unfilled quantity and own volume at every price as placing x + y |
| Splitting.SplitTakesFromEach | Core_Infra/orderbook.cpp:15-57 | each maker gives the two parts together what it gives the whole |
| Resizing.ModifyMatchesReplace | Core_Infra/orderbook.cpp:235-246 | an accepted modify gives every level the count and total that cancelling and re-placing with the new size gives |
| Resizing.ReplaceNeverTrades | Core_Infra/orderbook.cpp:13-13 | that re-placement meets nothing that crosses |
| Resizing.ModifyKeepsPriority | Core_Infra/orderbook.cpp:232-234 | the resulting queues are identical if and only if the order was last at its level: modify keeps the place in the queue |
| Conservation.VolumeIsConserved | Core_Infra/orderbook.cpp:5-246 | per side, over any run, volume placed equals volume resting, traded, cancelled and removed by modify; both sides trade the same total |
| Conservation.EntriesNonNegative | Core_Infra/orderbook.cpp:5-246 | none of these amounts is ever negative |
| Mirror.FlipApply | Core_Infra/orderbook.cpp:88-169 | negating prices and swapping sides commutes with every request on the sequential book, with equal fill volumes and negated fill prices; `MatchSell` and `MatchBuy` are proved separately against the two sides of it |
| Mirror.FlipRun | Core_Infra/orderbook.cpp:5-246 | the same for whole runs: the mirrored run reaches the mirrored book, and every answer along it is the mirrored answer |
| Mirror.FlipReachable | Core_Infra/orderbook.cpp:5-246 | a book can be reached if and only if its mirror image can |
| Rings.MaskingNeedsPowerOfTwo | Core_Infra/ring_buffer.hpp:28-29 | masking with size - 1 gives any window of size tickets slots of their own if and only if the size is a power of two |
| Rings.SlotIsMod | Core_Infra/ring_buffer.cpp:38-40 | for a power of two the masked ticket is the ticket modulo the size |
| Inbound.FilledDecodes | Core_Infra/gateway.cpp:69-77 | once all stores of a submission are made the slot stands for it, whatever it held before: stale fields of a reused slot do not matter |
| Inbound.CheckKeeps | Core_Infra/ring_buffer.cpp:21-23 | under the no-lap hypothesis a slot seen free belongs to a ticket within one lap of the releases |
| Inbound.StepKeeps | Core_Infra/ring_buffer.cpp:14-48 | every step of every thread keeps the protocol invariant, spurious compare-and-swap failures included |
| Inbound.RingIsSafe | Core_Infra/ring_buffer.cpp:14-48 | in every run without lapping: live tickets have distinct slots, no two producers fill one slot, the write pointer is at most a lap ahead of the releases, unread events are whole in their slots, and the consumer takes every submission once in ticket order |
| Inbound.SharesIffLaps | Core_Infra/ring_buffer.cpp:21-30 | in any state of the protocol, a producer that goes on to claim the slot it checks comes to share it with another producer, and the ring ceases to be safe, if and only if the check lapped |
| Inbound.LapsLeadToSharing | Core_Infra/ring_buffer.cpp:21-30 | from every run in which some check laps there is a run that ends with two producers filling one slot |
| Inbound.SafeIffAlone | Core_Infra/ring_buffer.cpp:14-48 | for every power-of-two size, all runs are safe if and only if there is at most one producer |
| Inbound.UnreadIsLeftAlone | Core_Infra/matching_engine.cpp:5-20 | no step but its own release changes the slot of a published event |
| Inbound.OneProducerNeverLaps | Core_Infra/ring_buffer.cpp:16-34 | with at most one producer the no-lap hypothesis holds in every run |
| Inbound.TwoProducersCanLap | Core_Infra/ring_buffer.cpp:21-34 | for every size and every number of producers above one there is a run in which two of them fill the same slot and the write pointer is more than a lap ahead |
| Outbound.MoveKeeps | Core_Infra/gateway.cpp:100-118 | every store of the engine and every load of the reader keeps the ring invariant, a slot being copied never changes |
| Outbound.DeliveryIsExact | Core_Infra/gateway.cpp:100-118 | in every run without overrun the acks read are exactly the acks released so far, in order and whole |
| Outbound.NoOverrunIffFree | Core_Infra/matching_engine.cpp:26-29 | the hypothesis in terms the engine could look at: the slot it is about to write is not ready |
| Overruns.SendingIsSafeIff | Core_Infra/matching_engine.cpp:26-61 | wherever the reader is and however engine and reader then go on: that the acks read stay a prefix of the acks sent, and that a reader which waits has read them all, holds for every ack that could be started if and only if its slot was free at the start |
| Overruns.OverrunHarms | Core_Infra/matching_engine.cpp:26-61 | from every state with a full ring, whatever the reader is doing, there is an ack that, once sent, leads to a wrong delivery or to a reader that waits with an ack missing |
| Overruns.Drains | Core_Infra/gateway.cpp:100-118 | a reader left alone comes to wait, and has then read all that was sent |
| Overruns.EveryRingCanLoseAcks | Core_Infra/matching_engine.cpp:26-61 | for every power-of-two size there is a run from a new ring after which the acks read are no prefix of the acks sent |
| Pipeline.Linearised | Core_Infra/matching_engine.cpp:3-63 | in every allowed interleaving the engine's book is the sequential book after the released submissions, plus the one in hand once applied, and each gateway has read a prefix of the acks the sequential run owes it |
| Pipeline.StepKeeps | Core_Infra/matching_engine.cpp:3-63 | every step of producers, engine and readers keeps the invariant that ties rings, engine and book together |
| Pipeline.AckAccounts | Core_Infra/matching_engine.cpp:31-41 | an ack carries exactly the first 16 trades at most, and its fills and remaining quantity make up the order's volume if and only if there were at most 16 |
| Answers.AckTells | Core_Infra/matching_engine.cpp:29-56 | op, order id, fulfilled, remaining quantity and fills of an ack tell what its request has done to the book: placed with this outcome, found and cancelled or not, reducible and reduced or not |
| Answers.CancelAck | Core_Infra/matching_engine.cpp:42-48 | on every book the ack of a cancel reports success exactly for an indexed id |
| Answers.ModifyAck | Core_Infra/matching_engine.cpp:49-56 | on every book the ack of a modify reports success exactly for an indexed id and a positive size below the resting volume |
| Answers.ReadersAreToldTheTruth | Core_Infra/matching_engine.cpp:3-63 | in every allowed run the acks a gateway has read belong, one each and in ticket order, to its submissions that want one, and each tells what its submission did to the sequential book |
| Pipeline.SilenceDoesNotInterfere | Core_Infra/matching_engine.cpp:8-24 | two systems of any sizes, after any allowed runs in which their engines have seen the same submissions except for silent flags, have the same book, and a gateway whose flags agree has read the same acks as far as both have read |
| Progress.NothingGetsStuck | Core_Infra/ring_buffer.cpp:14-36 | every allowed run can be continued, with no new submissions, to one in which each submission without a ticket has got one behind the others, the engine's book is the sequential book of them all, and every gateway has read exactly the acks owed to it |
| Progress.NothingIsWithheld | Core_Infra/gateway.cpp:100-118 | with engine and reader polling, a gateway has read all the acks owed for the released submissions if and only if its next slot is not ready |
| Progress.ReaderCatchesUp | Core_Infra/gateway.cpp:100-118 | with the engine polling, some number of steps of a gateway's reader alone gets it all the acks owed for the released submissions |
| Progress.EngineGoesOn | Core_Infra/matching_engine.cpp:3-63 | with every claimed ticket published, the engine's next step brings it nearer to having released them all |
| Minting.OneLiveGateway | Core_Infra/gateway.cpp:36-39 | with one LIVE gateway and no REPLAY one, any number of threads placing orders: the engine's own book finds every order under its id in every allowed run of the pipeline |
| Minting.TwoGatewaysCollide | Core_Infra/gateway.cpp:36-39 | a run in which two LIVE gateways, both starting from counter 0, mint the same id, after which the engine's book does not find the first order |
| Minting.ReplayCollides | Core_Infra/gateway.cpp:40-45 | the same with a LIVE gateway that mints id 0 and a REPLAY gateway whose caller passes id 0 |
| Minting.ReplayRepeats | Core_Infra/gateway.cpp:40-45 | the same with one REPLAY gateway whose caller passes id 0 twice |
| Minting.FreshIffOneOrigin | Core_Infra/gateway.cpp:36-45 | ids are fresh in the logs of all runs if and only if there is at most one LIVE gateway and no REPLAY gateway |
| Minting.CompleteIffOneOrigin | Core_Infra/gateway.cpp:36-45 | the engine's book finds every order under its own id in all allowed runs if and only if there is at most one LIVE gateway and no REPLAY gateway |
| Minting.TurnsKeepIds | Core_Infra/gateway.cpp:38-38 | without REPLAY gateways, ids of one gateway are pairwise distinct across the log and the claims under way |
| Engines.MatchingEngine.RunOnce | Core_Infra/matching_engine.cpp:4-62 | one turn of the loop changes nothing unless the slot is ready; else it applies the slot's request to the pointer book, frees that slot and no other, and for an event that wants one publishes an ack that tells what has become of the book, touching no other outbound slot |
| Engines.MatchingEngine.RunAcked | Core_Infra/matching_engine.cpp:26-61 | which outbound slot is written, that it holds gateway id and an ack that tells what the request has done to the book, and that no other slot of that ring changes |
| Engines.MatchingEngine.RunSilent | Core_Infra/matching_engine.cpp:11-24 | a silent event changes the book as any other and no outbound ring |
| Engines.MatchingEngine.CopyFills | Core_Infra/matching_engine.cpp:38-41 | the copying loop leaves the first trades in the slot, at most 16, and touches no other field |
| Gateways.Gateway.PlaceOrder | Core_Infra/gateway.cpp:32-59 | a LIVE gateway mints the next id and stamps its own clock, a REPLAY gateway takes id and time from the caller; the claimed slot then stands for the submission and no other slot changes |
| Gateways.Gateway.CancelOrder | Core_Infra/gateway.cpp:61-78 | the same for a cancel, over stale price, volume and side |
| Gateways.Gateway.ModifyOrder | Core_Infra/gateway.cpp:80-98 | the same for a modify, whose volume field carries the new size |
| Gateways.Gateway.Read | Core_Infra/gateway.cpp:100-118 | an ack is returned and its slot released exactly when the slot is ready; fills land at the front of the caller's buffer and the rest of it is untouched |
| Spsc.QueueIsFifo | Core_Infra/spsc_queue.hpp:24-41 | in every interleaving of loads, stores and half-finished copies: never more than the capacity, popped values are whole, popped and queued values together are the pushed ones in order, and the slot being written is not the slot being read |
| Spsc.NextKeeps | Core_Infra/spsc_queue.hpp:24-41 | every step keeps the invariant, in which each side's snapshot of the other's pointer is never ahead |
| Spsc.RefusalsAreHonest | Core_Infra/spsc_queue.hpp:27-37 | a push is refused if and only if the queue was full when it loaded the tail, a pop finds nothing if and only if it was empty when it loaded the head |
| Spsc.PushOutcome | Core_Infra/spsc_queue.hpp:24-31 | a whole push, with any consumer steps between its own: refused with nothing pushed if the queue was full at the load of the tail, and otherwise it ends with the value pushed |
| Spsc.PopOutcome | Core_Infra/spsc_queue.hpp:34-41 | a whole pop, with any producer steps between its own: nothing if the queue was empty at the load of the head, and otherwise the oldest value, whole |
| Spsc.SpscQueue.TryPush | Core_Infra/spsc_queue.hpp:24-31 | refused exactly when full, otherwise appends |
| Spsc.SpscQueue.TryPop | Core_Infra/spsc_queue.hpp:34-41 | refused exactly when empty, leaving the caller's variable as it was, otherwise takes the oldest |
| Readers.NothingIsLostUncounted | Core_Infra/gateway_reader.cpp:17-39 | in every interleaving acks read are pushed, counted as dropped, or the one in hand, and popped and queued acks together are a subsequence of the acks read |
| Readers.DropsIffFull | Core_Infra/gateway_reader.cpp:33-35 | in every run an ack is dropped only where its push decides, and then if and only if the queue was full at the turn at which that push loaded the tail |
| Readers.HandsFree | Core_Infra/gateway_reader.cpp:33-35 | working on, the reader is rid of the ack it has read: counted as dropped if the queue is full, and pushed otherwise |
| Draining.ConsumerGetsSequentialAcks | Core_Infra/gateway_reader.cpp:25-39 | with the thread draining a gateway of the running pipeline: what the consumer has popped and what is queued are, in order and with the dropped ones left out, the acks the sequential book owes the gateway, and every ack read is accounted for |
| Draining.NoAckNeedBeLost | Core_Infra/gateway_reader.cpp:17-39 | from every state of every allowed run, ring, thread and consumer can go on until all that was sent is read and popped, and except for an ack that has already met a full queue nothing more is dropped |
| Adapter.LobsterReplayAdapter.Dispatch | Core_Infra/lobster_replay_adapter.cpp:57-99 | each row makes exactly one counter grow by one, sends one request exactly if it is counted as processed, and leaves the sizes alone otherwise; which request, is as `Adapter.TookMeans` says of the specification function |
| Adapter.LobsterReplayAdapter.ProcessStream | Core_Infra/lobster_replay_adapter.cpp:14-22 | the loop is the fold of that over the lines |
| Adapter.EveryRowIsCounted | Core_Infra/lobster_replay_adapter.cpp:14-22 | processed, skipped and failed rows add up to the lines that are not empty, and each processed row is one request |
| Adapter.TookMeans | Core_Infra/lobster_replay_adapter.cpp:57-99 | on any well-formed book: a submission is a placement at the row's price, size, time and id, selling exactly for direction -1; a reduction that leaves something is a modify to what it leaves; a deletion is a cancel; kinds 4 to 7 count as skipped, other rows as failed, and send nothing |
| Adapter.FileMeans | Core_Infra/lobster_replay_adapter.cpp:14-22 | through any file, line by line from nothing, adapter and book go on as each line means |
| Adapter.FirstRow | Core_Infra/lobster_replay_adapter.cpp:59-66 | on an empty book a submission rests on the ask side exactly for direction -1 and on the bid side otherwise |
| Adapter.AdapterDominatesBook | Core_Infra/lobster_replay_adapter.cpp:57-86 | after any file of admissible rows every resting order is known to the adapter with at least its volume, and with exactly its volume if no delta was negative and the order never traded |
| Replaying.AdapterDominatesEngine | Core_Infra/lobster_replay_adapter.cpp:57-86 | with the adapter's REPLAY gateway as the pipeline's only producer, for any admissible lines and any interleaving: once the engine has applied every request sent, its own book is dominated by the adapter, exactly so for orders that never traded if no delta was negative |
| Replaying.AdapterLeadsEngine | Core_Infra/lobster_replay_adapter.cpp:14-22 | and at every other moment the same holds with the adapter as it was after some prefix of the lines, whose requests are those the engine has applied |
| Replaying.ReplayCanFinish | Core_Infra/lobster_replay_adapter.cpp:14-22 | every replay can be continued, with no further line, until the engine has applied all requests for the lines taken |
| Replaying.EveryFileCanBeReplayed | Core_Infra/lobster_replay_adapter.cpp:14-22 | for any file and any ring sizes there is a run in which the adapter takes all its lines and the engine's book becomes that of all its requests |
| Replaying.AlwaysAllowed | Core_Infra/gateway.cpp:27-29 | a replay needs no hypothesis: one producer cannot lap, and silent requests never make the engine start an ack |
| Adapter.AcceptedModifyAgrees | Core_Infra/lobster_replay_adapter.cpp:71-80 | after a modify that the book accepts adapter and book have the same size |
| Adapter.AgreesUnlessNegative | Core_Infra/lobster_replay_adapter.cpp:74-77 | for an order on which they agreed, a processed reduction keeps them in agreement if and only if its delta is not negative |
| Tokeniser.QuantisedOnce | Generative_Simulator/Tokeniser.py:80-113 | every price encodes to a token in the price range, and decoding and encoding it again gives the same token |
| Tokeniser.TokenRoundTrip | Generative_Simulator/Tokeniser.py:80-113 | an integer survives decoding and encoding if and only if it is one of the 61 price tokens |
| Tokeniser.NearIsWithinATick | Generative_Simulator/Tokeniser.py:80-88 | in the linear region the decoded price is above the encoded one by less than a tick |
| Tokeniser.FarIsWithinItsBucket | Generative_Simulator/Tokeniser.py:93-110 | in the far regions the decoded offset is in the same logarithmic bucket and on the same side |
| Tokeniser.FarStaysInBucket | Generative_Simulator/Tokeniser.py:105-106 | the geometric mean of two neighbouring edges, rounded down, is not below the lower and below the upper edge, so the decoded magnitude encodes to its own bucket |
| Tokeniser.TokensAreMonotone | Generative_Simulator/Tokeniser.py:80-88 | a larger offset never gets a smaller token |
| Tokeniser.OffsetIff | Generative_Simulator/Tokeniser.py:81-81 | an offset is the one whose price lies less than a tick of 100 above the given one |
| Tokeniser.NearTokens | Generative_Simulator/Tokeniser.py:85-88 | tokens 19 to 59 stand for the offsets from -20 to 20 |
| Tokeniser.FarTokens | Generative_Simulator/Tokeniser.py:64-88 | tokens 60 to 69 and 18 down to 9 stand for the offsets from each of the ten far edges to the next, on either side |
| Tokeniser.FarTokenIsMean | Generative_Simulator/Tokeniser.py:98-111 | a far token decodes to the geometric mean of its bucket's edges, rounded down, positive on the passive and negative on the aggressive side |
| Tokeniser.DecodedPrices | Generative_Simulator/Tokeniser.py:93-113 | the price that each of the 61 tokens decodes to, in numbers |

## Left out

- Orderbooks.Orderbook.Match: a partial fill ends the loops with nothing left instead of returning from
  within them, which gives the same result record; freeing is not modelled: a node or level that the code
  frees is one to which no tree, list or index leads any more.
- Orderbooks.Orderbook.TradeWhole: the two branches have inner loops and insertions of their own, but one trade
  with a level's head order is written once with the side as a parameter, as is `TradePart`.
- Progress.NothingGetsStuck: says that the threads can always go on to the end, not that a scheduler lets them;
  every step of the continuation is chosen.
- Gateways.RingBufferInbound.Claim: the call-by-call form starts when the spinning is over and the slot is
  free; spinning, competition and spurious failure are in `Inbound`.
- Pipeline.Linearised: the engine reads the plain fields of the slot it holds in three steps (gid and silent
  flag, op, the rest) and not one by one; no other thread can change that slot meanwhile, by `Inbound.UnreadIsLeftAlone`.
- Readers.NothingIsLostUncounted: the reader thread's endless loop is modelled as steps only; there is no
  call-by-call form of it.
- Tokeniser.FarStaysInBucket: the square root is exact before it is rounded down, where the code rounds a
  floating-point root (none of the ten products is a square); prices and best prices are integers.
- Weak memory: acquire and release accesses are sequentially consistent steps.
- Wrap-around of 64-bit tickets, ids, prices and volumes: all numbers are mathematical integers.
- The balanced tree and the hash map are finite maps; the trees are asked for their largest or smallest key only.
- The wall clock is a parameter; `username` is unused in the code and absent here.
- The stop flag, thread creation and joining of the reader thread, and cache-line layout.
- Reading files and parsing rows, and the conversion of seconds to nanoseconds: the adapter starts from parsed rows.
- Replaying.AdapterDominatesEngine: the adapter's sizes and counters change when it hands a request over, where the
  code changes them when the call is back; no other thread reads them.  Its gateway is silent, the default.
- The tokeniser's time and size buckets and its training pipeline, which rest on floating-point quantiles;
  the generative model; the demo programs.
