# ALPINE in Dafny

A Dafny 4.11 model of the algorithmic parts of ALPINE: the coherent crossbar of
its gem5 fork, the emulated AIMC tile with the library loops that drive it, and
the tools around the simulator that reorder, schedule, bind, frame, print or
merge things. Each part is modelled in the form the program has (objects with
fields and handlers, arrays updated by loops, decisions as functions), the
handlers and loops are proved against specification functions, and the
properties are proved about those. `dafny verify dfyconfig.toml` checks all of
it.

## What is where

- `Packets`, `Snooping`, `Routing`: packets, the fan-out of a snoop, and what one
  message does to `routeTo`, `outstandingSnoop` and `outstandingCMO`. An outcome
  `Fails` stands for an `assert` of the program that does not hold, `Panics` for
  one of its 512-entry limits.
- `World`: the crossbar with its surroundings. The ghost half of a world says who
  owes what: requests sent below, requests a snooped cache committed to, snoops
  passed up from below, and halves of cache cleans. `Allowed` is what the
  surroundings promise: a request that needs a response comes under a name that
  is not in flight; only requests sent below without a committed cache are
  answered from below; only the cache that committed answers a snoop; express
  snoops are never refused, nor are snoop responses sent down; a snoop from below
  is express and comes from the port responsible for its address; clean requests
  need a response and no cache commits to them; clean evictions and WriteCleans
  need none; each half of a clean comes once. A cache commits by raising the
  packet's flag, so the first one to do so is the responder. Snoop filter answers,
  delays, free layers and refusals are inputs of a step.
- `Verdicts`: what becomes of a request, read off the command and the replies.
- `Delivery`, `CacheClean`, `Retry`: theorems over every run. `CoherentXBar`: the
  object; its handlers take exactly the steps of `World`. The assertions of
  `gem5-X-ALPINE/tmp/coherent_xbar.cc` about the tables, the ports and the verdict
  are proved (lines 308, 311, 324, 342, 353, 404-411, 420, 431, 432, 462-465, 567,
  589-614 and 674). Those about what arrives are promises of the surroundings:
  express exactly when a cache responds (166), no snoop delay yet (213, 542),
  express snoops from below (532) from the responsible port (578), responses that
  are not express (631), snoop responses taken below (661). `AtomicSnoop`:
  `forwardAtomic`.
- `Words`, `Tile`, `Inference`: int8 lanes of a word, the tile as a value, whole
  vectors and matrices. `TileDevice`, `TileLibrary`: the arrays, counters and
  loops. Height and width are parameters; the strict `<` of the capacity checks
  is kept. The accumulator is an integer; `PartialSumsAreSmall` bounds every
  partial sum below 2^53, up to which binary64 is exact (section 3.3 of
  IEEE 754-2019).
- `PipeView`, `CptUpgrader`, `PortBinding`, `Framing`, `MemTree`, `Aggregator`,
  `DepTrace`, `Copyrights`: one module per tool. `Text`: decimal numbers and
  separated fields for the last two. `Common`: what several modules use.

## Where the program and its comments differ

- `gem5-X-ALPINE/util/o3-pipeview.py:50-51` says that instructions more than
  `min_threshold` places out of order will appear out of order. The output is
  sorted exactly when no instruction is overtaken by more others than are queued
  when it arrives (`ReorderExact`), which with the thresholds 2000 and 1000 of the
  program is often more than `min_threshold`. The comment is right exactly when
  the upper threshold does not exceed the lower one (`DisorderShowsWhen`,
  `SlackAbsorbsMore`); `min_threshold` is the most disorder that is absorbed
  whenever it comes (`MinIsTheGuarantee`).
- `gem5-X-ALPINE/configs/example/read_config.py:311-313` says that one direction
  of every link can be bound because the list is sorted. Two crossed links
  between two vector ports cannot (`CrossedLinksCannotBeOrdered`). The pass
  succeeds exactly when one direction of every link can be chosen so that, in
  sorted order, every port's slots are taken in turn (`BindingSucceedsWhen`).
- `gem5-X-ALPINE/util/checkpoint_aggregator.py:105-112` copies as many pages as
  the checkpoint counts without looking at how many the file has. A short file
  shifts what comes behind it (`ShortFileShifts`), and only that does
  (`RelocationExact`).
- A clean request refused early keeps the newly calculated header delay, unlike
  every other refusal (`HeaderDelayAfterRefusal`).
- `mapMatrix` takes no core id and always writes core 0, while queueing, computing
  and dequeueing take one; the inference theorems are about core 0.
- The input word that ends exactly at the capacity of the tile is dropped
  (`InputCapacity`), and an empty message ends a message stream
  (`FramingRoundTrip`).
- Parameters of the tile are addressed by linear index, so a column past the
  width is one of the rows further on (`ColumnsWrap`).
- A printed range of years is read back only if both ends have four digits
  (`YearsRoundTrip`).

## Model

| member | source | states |
|---|---|---|
| `Snooping.FanResponder` | gem5-X-ALPINE/tmp/coherent_xbar.cc:708-733 | a responder exists exactly when the fan-out raised cacheResponding, and it is a snooped destination other than the excluded port |
| `Snooping.FanFrame` | gem5-X-ALPINE/tmp/coherent_xbar.cc:708-733 | the satisfied and block-cached flags rise exactly if some snooped port raises them; nothing else changes but the responder's flags and the snoop delay |
| `Snooping.FanFirst` | gem5-X-ALPINE/tmp/coherent_xbar.cc:708-733 | the responder is the first snooped port in the list that commits, and the snoop delay is that of the last one snooped |
| `Verdicts.SunkWhen` | gem5-X-ALPINE/tmp/coherent_xbar.cc:1082-1104 | when a request is sunk, by the command and the replies: with an owner at the point of coherency, or if the block need not be writable, or if the owner had it writable; without one a clean eviction cached above, or at the point of coherency a packet that is neither read nor write and wants no response |
| `Verdicts.SentWhen` | gem5-X-ALPINE/tmp/coherent_xbar.cc:1106-1118 | what is not sunk is answered if it is a clean request that ends here, or neither read nor write at the point of coherency, and sent on otherwise |
| `Verdicts.RefusedWhen` | gem5-X-ALPINE/tmp/coherent_xbar.cc:174-334 | a request is refused exactly for a busy layer, a clean request above a busy memory, or a port below that does not take what would be sent |
| `Verdicts.SentPacket` | gem5-X-ALPINE/tmp/coherent_xbar.cc:201-304 | the packet the port below receives, field by field: express exactly if a cache answers, write-through cleared at its destination, and the header delay with the filter's and the last snooper's delay |
| `Verdicts.SnoopFromBelow` | gem5-X-ALPINE/tmp/coherent_xbar.cc:534-562 | a snoop from below is shown to every destination, answered by the first that commits, and charged the filter's and the last snooper's delay |
| `World.Dispositions` | gem5-X-ALPINE/tmp/coherent_xbar.cc:267-314 | what the verdict means for who owes the response; no request that needs a response is sunk without a committed cache, and a direct answer is never due to a cache as well |
| `World.SettledShape` | gem5-X-ALPINE/tmp/coherent_xbar.cc:318-449 | an accepted request either panics on a full table or does exactly one of eight things to tables and obligations |
| `World.PanicsWhen` | gem5-X-ALPINE/tmp/coherent_xbar.cc:337-358 | a request that has to be routed panics exactly when 512 are routed already, and no other request does |
| `World.ResponseShape` | gem5-X-ALPINE/tmp/coherent_xbar.cc:455-517 | a response from below closes exactly its request at its own port, or nothing happens when the layer is busy |
| `World.SnoopShape` | gem5-X-ALPINE/tmp/coherent_xbar.cc:520-579 | a snoop from below is remembered exactly when a cache newly commits |
| `World.SnoopResponseShape` | gem5-X-ALPINE/tmp/coherent_xbar.cc:582-704 | a snoop response goes up exactly for requests the crossbar snooped for and down exactly for forwarded snoops |
| `World.RequestKeepsInv` | gem5-X-ALPINE/tmp/coherent_xbar.cc:156-452 | no assertion of the request handler fails and the invariant is kept |
| `World.StepKeepsInv` | gem5-X-ALPINE/tmp/coherent_xbar.cc:156-704 | the same for every kind of message |
| `Delivery.RunKeepsInv` | gem5-X-ALPINE/tmp/coherent_xbar.cc:156-704 | the invariant holds after any sequence of allowed messages |
| `Delivery.ReachableStep` | gem5-X-ALPINE/tmp/coherent_xbar.cc:308-465 | in every reachable state no assertion of the handlers fails on the next message |
| `Delivery.RoutesSplit` | gem5-X-ALPINE/tmp/coherent_xbar.cc:337-362 | the keys of routeTo split disjointly into four kinds with the right kind of port each, and membership in outstandingSnoop picks the right port array |
| `Delivery.CleansAreParked` | gem5-X-ALPINE/tmp/coherent_xbar.cc:398-427 | outstandingCMO holds each waiting clean request exactly once and otherwise exactly the early writes |
| `Delivery.ExactlyOnce` | gem5-X-ALPINE/tmp/coherent_xbar.cc:337-517 | a request is answered at most once per acceptance, only at the port it came in through, exactly once when nothing is pending; likewise snoops from below |
| `Delivery.ResponderIsElsewhere` | gem5-X-ALPINE/tmp/coherent_xbar.cc:664-696 | the response to a request the crossbar snooped for never comes from the requesting port, and is delivered to that port |
| `Delivery.NothingIsStuck` | gem5-X-ALPINE/tmp/coherent_xbar.cc:398-449 | every routed request or snoop can be answered by some next message |
| `Delivery.Drains` | gem5-X-ALPINE/tmp/coherent_xbar.cc:156-704 | from every reachable state some run empties all three tables, after which every accepted request and every snoop taken has had exactly one response |
| `CacheClean.UnrelatedStep` | gem5-X-ALPINE/tmp/coherent_xbar.cc:383-449 | a message about another request and another packet id leaves a waiting clean pair alone |
| `CacheClean.CleanThenWrite` | gem5-X-ALPINE/tmp/coherent_xbar.cc:383-449 | clean first, then its write after any unrelated messages: no response before, exactly one with the write, at the clean's own port, and no trace left |
| `CacheClean.WriteThenClean` | gem5-X-ALPINE/tmp/coherent_xbar.cc:383-449 | write first: the clean request is answered once on arrival, and no trace is left |
| `CacheClean.RendezvousHappens` | gem5-X-ALPINE/tmp/coherent_xbar.cc:383-449 | a concrete run of a clean request that waits and is completed by its write |
| `CacheClean.EarlyWriteHappens` | gem5-X-ALPINE/tmp/coherent_xbar.cc:383-449 | a concrete run of a write that comes first and a clean request answered on arrival |
| `Retry.RefusalIsHarmless` | gem5-X-ALPINE/tmp/coherent_xbar.cc:174-334 | a refusal changes no table and hands back a packet the crossbar cannot tell from the one that came |
| `Retry.RetriesAreTransparent` | gem5-X-ALPINE/tmp/coherent_xbar.cc:174-334 | any number of refusals, each changing the packet, before an attempt does not change the effect of that attempt |
| `Retry.HeaderDelayAfterRefusal` | gem5-X-ALPINE/tmp/coherent_xbar.cc:215-334 | the header delay is restored by a refusal exactly unless it is the early refusal of a clean request with a new delay |
| `Retry.EarlyRefusalKeepsDelay` | gem5-X-ALPINE/tmp/coherent_xbar.cc:215-228 | such an early refusal happens: a concrete case |
| `CoherentXBar.CoherentXBar.constructor` | gem5-X-ALPINE/tmp/coherent_xbar.cc:61-116 | a new crossbar has empty tables, the start of every run |
| `CoherentXBar.CoherentXBar.ForwardTiming` | gem5-X-ALPINE/tmp/coherent_xbar.cc:708-733 | the loop shows the packet to every destination but the excluded one |
| `CoherentXBar.CoherentXBar.SnoopAbove` | gem5-X-ALPINE/tmp/coherent_xbar.cc:210-262 | the snooping part of the request handler, with and without a snoop filter |
| `CoherentXBar.CoherentXBar.Dispatch` | gem5-X-ALPINE/tmp/coherent_xbar.cc:277-334 | sink, send, refuse or turn around, the packet flags set on the way, and the packet handed to the port below exactly when it is sent |
| `CoherentXBar.CoherentXBar.RecordResponse` | gem5-X-ALPINE/tmp/coherent_xbar.cc:335-358 | the expected response is recorded, or the table limit panics |
| `CoherentXBar.CoherentXBar.Complete` | gem5-X-ALPINE/tmp/coherent_xbar.cc:379-449 | clean halves are paired and responses scheduled |
| `CoherentXBar.CoherentXBar.RecvTimingReq` | gem5-X-ALPINE/tmp/coherent_xbar.cc:156-452 | the handler takes exactly the request step; the port below gets the packet exactly when the verdict is to send it, a sunk packet waits for deletion, and a refusal leaves the object unchanged |
| `CoherentXBar.CoherentXBar.RecvTimingResp` | gem5-X-ALPINE/tmp/coherent_xbar.cc:455-517 | the handler takes exactly the response step and delivers to the recorded port |
| `CoherentXBar.CoherentXBar.RecvTimingSnoopReq` | gem5-X-ALPINE/tmp/coherent_xbar.cc:520-579 | the handler takes exactly the snoop step; a snoop that comes from another port than the responsible one is an assertion failure |
| `CoherentXBar.CoherentXBar.RecvTimingSnoopResp` | gem5-X-ALPINE/tmp/coherent_xbar.cc:582-704 | the handler takes exactly the snoop-response step; up to another port than the sender's, or down to a port that must take it |
| `AtomicSnoop.ForwardAtomic` | gem5-X-ALPINE/tmp/coherent_xbar.cc:933-1002 | every destination but the excluded one is snooped in order, the command is restored, and the result is that of the only responder or InvalidCmd and 0 |
| `Snooping.OthersCounts` | gem5-X-ALPINE/tmp/coherent_xbar.cc:950-958 | each port is snooped as often as it is listed, the excluded one never |
| `Words.PackStep` | aimclib/aimc_queue.hh:29-35 | or-ing the next int8 into its lane extends the packed word |
| `Words.LanesOfPack` | aimclib/aimc_check.hh:217-220 | unpacking a packed word gives the int8 values back, and zero in the padding |
| `Tile.QueueRefinement` | aimclib/aimc_check.hh:177-245 | after any run the input memory and both counters are those of a plain list of the words queued since the last compute |
| `Tile.PartialSumsAreSmall` | aimclib/aimc_check.hh:185-191 | every partial sum of n terms is at most n * 2^14, below 2^53 for the 4000-row tile |
| `Inference.InferenceResult` | aimclib/aimc_check.hh:177-245 | the exact result of queue, compute, dequeue on an idle tile for all sizes, and that the tile is idle again with the same weights |
| `Inference.InferenceIsProduct` | aimclib/aimc_check.hh:177-245 | with padded sizes strictly below the dimensions the result is the clamped product |
| `Inference.InputCapacity` | aimclib/aimc_check.hh:213-221 | the product is right for all weights and vectors exactly when the padded input is strictly shorter than the height |
| `Inference.MapMatrixCells` | aimclib/aimc_tile.hh:22-33 | a matrix mapped inside the crossbar is found cell by cell, all other cells and null rows untouched |
| `Inference.MappedInference` | aimclib/aimc_tile.hh:22-33 | mapping a matrix at the origin and inferring yields the clamped matrix-vector product by the matrix alone |
| `Tile.ClampIsNearest` | aimclib/aimc_check.hh:193-197 | an output cell is the int8 nearest to the accumulated value |
| `TileDevice.Core.constructor` | aimclib/aimc_check.hh:66-83 | a new core is all zero with both counters at zero |
| `TileDevice.Core.Process` | aimclib/aimc_check.hh:177-205 | the two loops compute every output cell, the product if it fits an int8 and 127 or -128 beyond, clear the input and reset both counters |
| `TileDevice.Core.Queue` | aimclib/aimc_check.hh:208-224 | four signed bytes are stored if they end strictly below the height; the counter always moves |
| `TileDevice.Core.Dequeue` | aimclib/aimc_check.hh:227-245 | the shifted and or-ed word is the packed output cells, or zero past the end |
| `Tile.ParamReadAfterWrite` | aimclib/aimc_check.hh:248-277 | a written parameter is read at every position with the same linear index, if that lies in the crossbar; every other position reads as before |
| `Tile.ColumnsWrap` | aimclib/aimc_check.hh:248-277 | a column past the width, or before the first, is that of another row, for reading and writing |
| `Tile.ParamReadsCell` | aimclib/aimc_check.hh:248-262 | in a column of the crossbar the cell is read, and zero below the last row |
| `TileDevice.Core.ParamWrite` | aimclib/aimc_check.hh:265-277 | the cell is written if it lies in the crossbar |
| `TileDevice.Device.Queue` | aimclib/aimc_check.hh:208-224 | only the named core changes, and none for an id out of range |
| `TileDevice.Device.Process` | aimclib/aimc_check.hh:177-205 | only the named core changes, and none for an id out of range |
| `TileDevice.Device.Dequeue` | aimclib/aimc_check.hh:227-245 | only the named core changes; zero for an id out of range |
| `TileLibrary.QueuedIsWords` | aimclib/aimc_queue.hh:26-39 | the words the packing loop queues are the vector cut into fours, the last one padded |
| `TileLibrary.QueueVector` | aimclib/aimc_queue.hh:17-41 | the loop queues exactly those words on the given core; null and empty vectors do nothing |
| `TileLibrary.DequeueVector` | aimclib/aimc_dequeue.hh:19-39 | the loop writes the unpacked words to the vector and nothing behind it; zeros for an id out of range |
| `TileLibrary.MapMatrix` | aimclib/aimc_tile.hh:22-33 | the nested loops write the matrix column by column to core 0 |
| `TileLibrary.Inferences` | aimclib/example.cc:53-63 | the t-th output depends on the t-th input and the weights alone; other cores are untouched |
| `TileLibrary.MapAndInfer` | aimclib/aimc_tile.hh:22-33 | mapping a matrix and then inferring gives for every input the exact matrix-vector product where it fits an int8, 127 above and -128 below |
| `PipeView.SortIsStableSort` | gem5-X-ALPINE/util/o3-pipeview.py:154-169 | the sort is ascending, a permutation, and keeps the order of equal numbers |
| `PipeView.PrintQueue.PrintInsts` | gem5-X-ALPINE/util/o3-pipeview.py:167-188 | sorts, pops down to the threshold, prints what the filter lets through; what stays is sorted and no more than the threshold |
| `PipeView.PrintQueue.QueueInst` | gem5-X-ALPINE/util/o3-pipeview.py:159-164 | the queue state is the streaming specification of everything that arrived |
| `PipeView.PrintQueue.Flush` | gem5-X-ALPINE/util/o3-pipeview.py:146-149 | at the end of the trace each instruction has been printed as often as it arrived if the bounds and the commit test let it through, and never otherwise; in order if everything fits |
| `PipeView.PrintedInTheEnd` | gem5-X-ALPINE/util/o3-pipeview.py:170-188 | the instructions printed are, with multiplicity, those that arrived within every bound that is set and, if asked for, were committed |
| `PipeView.PrintedInOrder` | gem5-X-ALPINE/util/o3-pipeview.py:45-58 | the printed list is ascending whenever no instruction is overtaken by more than are queued |
| `PipeView.ReorderExact` | gem5-X-ALPINE/util/o3-pipeview.py:146-188 | for all thresholds: the output is the stable sort of all arrivals exactly when no instruction is overtaken by more others than are queued when it arrives |
| `PipeView.HeldIs` | gem5-X-ALPINE/util/o3-pipeview.py:159-170 | how many instructions are queued depends on the thresholds and the number of arrivals alone |
| `PipeView.MinIsTheGuarantee` | gem5-X-ALPINE/util/o3-pipeview.py:45-58 | disorder up to m is absorbed on every trace exactly when m is at most the lower threshold |
| `PipeView.DisorderShowsWhen` | gem5-X-ALPINE/util/o3-pipeview.py:50-51 | more disorder than min always shows exactly when max is at most min |
| `PipeView.BoundedReorder` | gem5-X-ALPINE/util/o3-pipeview.py:45-58 | if no instruction is overtaken by more than min others the output is the stable sort of all arrivals |
| `PipeView.ReorderBoundIsTight` | gem5-X-ALPINE/util/o3-pipeview.py:45-58 | with max at most min the output is sorted exactly under that bound |
| `PipeView.SlackAbsorbsMore` | gem5-X-ALPINE/util/o3-pipeview.py:50-51 | for every max above min some trace beyond the bound is still printed in order |
| `CptUpgrader.LoadAll` | gem5-X-ALPINE/util/cpt_upgrader.py:173-185 | dependencies are accepted exactly when all named tags exist, and then include the forward ones turned around, whatever the iteration order |
| `CptUpgrader.Upgrade` | gem5-X-ALPINE/util/cpt_upgrader.py:238-252 | every missing tag is applied exactly once after all its dependencies, or the loop gives up, exactly when the missing tags contain a dependency cycle |
| `CptUpgrader.StuckMeansCycle` | gem5-X-ALPINE/util/cpt_upgrader.py:241-246 | a set of tags none of which can go first contains a cycle |
| `CptUpgrader.NoCycleScheduled` | gem5-X-ALPINE/util/cpt_upgrader.py:241-252 | a complete schedule excludes cycles among the missing tags |
| `PortBinding.SortLinksSorts` | gem5-X-ALPINE/configs/example/read_config.py:148-150 | the sort is an ascending permutation in the order of object name, port name and index |
| `PortBinding.SortedByFirstEnd` | gem5-X-ALPINE/configs/example/read_config.py:148-150 | in the sorted list the link whose first end has the smaller object name comes first, then the smaller port name, then the smaller index; a name is smaller by the first character that differs, or as a prefix |
| `PortBinding.SortedBySecondEnd` | gem5-X-ALPINE/configs/example/read_config.py:148-150 | links with the same first end come in that order of their second ends |
| `PortBinding.ListingOrderDoesNotMatter` | gem5-X-ALPINE/configs/example/read_config.py:322 | the links made do not depend on the order in which the links are listed |
| `PortBinding.ThreeLinksAreBound` | gem5-X-ALPINE/configs/example/read_config.py:311-336 | three links over two vector ports are bound completely, however they are listed |
| `PortBinding.BindPorts` | gem5-X-ALPINE/configs/example/read_config.py:290-336 | the pass is the greedy walk over the sorted list, with both exceptions; a missing key exactly when a link is tried whose second port is nowhere a first end, which needs a list that lacks a reversed link |
| `PortBinding.LoneLinkStrays` | gem5-X-ALPINE/configs/example/read_config.py:301-303 | a link listed without its reversal is a missing key exactly when its first end is slot 0, so that its second end is looked up |
| `PortBinding.WalkIsSound` | gem5-X-ALPINE/configs/example/read_config.py:322-344 | gone through in any order, if half the list is made every link is bound in exactly one direction and every port's slots in order 0, 1, 2, ... without gaps |
| `PortBinding.BindingIsSound` | gem5-X-ALPINE/configs/example/read_config.py:322-344 | hence so on every success of the pass |
| `PortBinding.BindingSucceedsWhen` | gem5-X-ALPINE/configs/example/read_config.py:308-334 | for a list with both directions, no duplicates and no slot linked to itself: half the list is made exactly when one direction of every link can be chosen so that, in sorted order, the chosen links take every port's slots in turn |
| `PortBinding.GreedyKeepsUp` | gem5-X-ALPINE/configs/example/read_config.py:322-330 | given such a choice, the pass has bound every chosen link it has gone through, in one direction or the other |
| `PortBinding.CrossedLinksCannotBeOrdered` | gem5-X-ALPINE/configs/example/read_config.py:311-313 | a sorted, well-formed list of which no link can be bound and which has no such choice |
| `Framing.EncodeVarint32` | gem5-X-ALPINE/util/protolib.py:146-158 | appends the base-128 varint of the value |
| `Framing.DecodeVarint32` | gem5-X-ALPINE/util/protolib.py:101-129 | reads at most ten bytes; end of file and over-long varints as in the program |
| `Framing.DecodeVarint` | gem5-X-ALPINE/util/protolib.py:101-129 | an encoded value below 128^10 is read as the value modulo 2^32, or as a negative number from 2^63 on, and every larger one is over-long |
| `Framing.SampleVarint` | gem5-X-ALPINE/util/protolib.py:146-158 | the two bytes of three hundred |
| `Framing.SizeIsRead` | gem5-X-ALPINE/util/protolib.py:101-129 | what is read is congruent to the encoded value modulo 2^32, from 0 below 2^32 or, from 2^63 on, from -2^32 below 0 |
| `Framing.NegativeTakesAll` | gem5-X-ALPINE/util/protolib.py:131-144 | a negative size takes the rest of the stream |
| `Framing.CutStream` | gem5-X-ALPINE/util/protolib.py:131-144 | a stream that breaks off inside a message is read up to that message, and if its header is whole, what there is of its payload |
| `Framing.EncodeMessage` | gem5-X-ALPINE/util/protolib.py:160-166 | appends length and payload |
| `Framing.DecodeMessage` | gem5-X-ALPINE/util/protolib.py:131-144 | no message for size zero or a read error, otherwise the bytes read |
| `Framing.DecodeStream` | gem5-X-ALPINE/util/decode_inst_dep_trace.py:157-158 | messages are decoded until there is none |
| `Framing.FramingRoundTrip` | gem5-X-ALPINE/util/protolib.py:101-166 | a list of messages is read back and the stream consumed exactly when no message is empty or 2^32 bytes or longer |
| `MemTree.NumTesters` | gem5-X-ALPINE/configs/example/memtest.py:118-129 | the loops compute the sum of testers per level times subsystems per level |
| `MemTree.Prototypes` | gem5-X-ALPINE/configs/example/memtest.py:192-216 | one prototype per level, sizes, ways and MSHRs all scaled by the same product, so size over ways is that of the L1, and clusivity alternating |
| `MemTree.Builder.MakeCacheLevel` | gem5-X-ALPINE/configs/example/memtest.py:238-299 | a call makes one subtree's testers and, per level, that subtree's subsystems with the next free indices; no list is indexed past its end |
| `MemTree.Builder.Build` | gem5-X-ALPINE/configs/example/memtest.py:301-302 | the tree has exactly the testers numtesters counts, and at each level the indices 0, 1, 2, ... up to the number of subsystems |
| `MemTree.TreeIsClosedForm` | gem5-X-ALPINE/configs/example/memtest.py:118-129 | the recursive count equals the closed form from every level on |
| `Aggregator.Aggregate` | gem5-X-ALPINE/util/checkpoint_aggregator.py:61-134 | page pointer, relocated addresses, merged image and padding to the least whole number of pages that reaches the memory size; the padded image has exactly the size of the range if and only if no memory file is short, and the padding is the character zero |
| `Aggregator.ImageSize` | gem5-X-ALPINE/util/checkpoint_aggregator.py:97-112 | the image is as long as the page pointer says exactly when no memory file so far is shorter than its page count |
| `Aggregator.BytesMove` | gem5-X-ALPINE/util/checkpoint_aggregator.py:72-112 | the merged image has at the moved address the byte the checkpoint had at the old one, if no file before it is short |
| `Aggregator.RelocationExact` | gem5-X-ALPINE/util/checkpoint_aggregator.py:72-112 | for given sizes an address is moved rightly whatever the files contain exactly when no memory file before its checkpoint is short |
| `Aggregator.FramesDoNotOverlap` | gem5-X-ALPINE/util/checkpoint_aggregator.py:72-99 | moved addresses of different checkpoints never meet |
| `Aggregator.ShortFileShifts` | gem5-X-ALPINE/util/checkpoint_aggregator.py:105-112 | a memory file shorter than its page count breaks this: a concrete case |
| `DepTrace.PrintRecord` | gem5-X-ALPINE/util/decode_inst_dep_trace.py:160-206 | writes the line field by field |
| `DepTrace.ReadDeps` | gem5-X-ALPINE/util/encode_inst_dep_trace.py:182-195 | collects the non-empty fields as numbers |
| `DepTrace.SampleLine` | gem5-X-ALPINE/util/decode_inst_dep_trace.py:160-206 | one line written out |
| `DepTrace.DefaultsAreRead` | gem5-X-ALPINE/util/decode_inst_dep_trace.py:163-172 | an unset pc reads back as 0 and an unset weight as 1 |
| `DepTrace.BlanksDoNotMatter` | gem5-X-ALPINE/util/encode_inst_dep_trace.py:150-195 | blanks around the line and around its order dependencies change nothing |
| `DepTrace.LineRoundTrip` | gem5-X-ALPINE/util/encode_inst_dep_trace.py:150-195 | parsing the printed line gives the record back exactly when pc, weight and type are set and address, size and flags are present just for loads and stores |
| `Copyrights.DateStr` | gem5-X-ALPINE/util/find_copyrights.py:175-199 | sorts the set and prints the ranges of its years; an empty set is an error |
| `Copyrights.OnlyOneList` | gem5-X-ALPINE/util/find_copyrights.py:176-177 | a set has one sorted list, whatever order it is sorted from |
| `Copyrights.RangesCover` | gem5-X-ALPINE/util/find_copyrights.py:186-197 | the ranges cover exactly the years, ascending and with gaps, so that no two could be merged |
| `Copyrights.ProcessDates` | gem5-X-ALPINE/util/find_copyrights.py:99-116 | collects the years of all fields |
| `Copyrights.BlanksDoNotMatter` | gem5-X-ALPINE/util/find_copyrights.py:98-116 | with blanks around fields and around the dash of a range of four-digit years, anything behind a range, and fields without digits, the list is read as the union of the years its fields stand for |
| `Text.OnlyBlanksAreStripped` | gem5-X-ALPINE/util/find_copyrights.py:100 | text that neither begins nor ends with one of the six blanks is left alone |
| `Copyrights.YearsRoundTrip` | gem5-X-ALPINE/util/find_copyrights.py:99-199 | for every non-empty set: reading the printed text gives back exactly the set if and only if neighbouring years all have four digits |

## Left out

- The snoop filter's own state, address decoding, the layers' occupancy and the calculation of packet delays: their code is not in these files; their answers are inputs of a step.
- `calculateAsymmetry`: a table lookup of extra delay, which would only add an easy member.
- `recvAtomic`, `recvAtomicSnoop` and functional accesses: of the atomic mode only the fan-out is modelled.
- Statistics, debug output, port construction and deferred deletion of packets.
- The flat, scaled and memory-mapped variants of the tile library: the flat layout differs from the two-dimensional one, and the scaled ones depend on the element type's rounding.
- TileDevice.Core.Queue: counters are unbounded, so the overflow of the C++ int after 2^29 words queued without a compute is not modelled.
- Checkpoint downgraders and the linear dependencies of legacy checkpoint versions: comment and code disagree on what a dependency on a downgrader means.
- The order of the dependencies of one upgrader and duplicates among them: they are a set here, since only membership is tested.
- Setting the object attributes once the ports are bound, and gathering the connections from the configuration.
- Timeline rendering, the early stop of the trace reader and the skipping of lines before the first fetch in the pipeline viewer.
- The wiring of ports, intervals and progress limits in the memory test.
- Protobuf serialisation, compression, configuration sections other than physical addresses, and the current tick of merged checkpoints.
- Signs, blanks and digits beyond ASCII in numbers read from text: the printers never write them for the natural numbers modelled here.
