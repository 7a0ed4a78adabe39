# Verification of the process network library's core

Dafny models and proofs for the parts of the Computational Process Networks library where a
mistake would be hardest to see: distributed deadlock detection (D4R), the remote queue that
splits one queue over a socket, the queues that grow while pointers are out, the JSON reader
and writer, and a few codecs built from loops. `dafny verify dfyconfig.toml` checks everything.

* **D4R.** Nodes carry a public and a private tag; a node stamps a fresh tag when it blocks and
  pulls a larger tag from the node it waits on. `D4RTag` has the order and the two tag rules,
  `D4RNode` the objects that carry tags and tag-changed flags, `D4RNetwork` a transition system
  over any number of nodes, `D4RInvariant` its invariant, `D4RObjects` the proof that the
  objects' calls are that system's steps, and `D4RTheorems` what follows: over every run,
  including what happens after a deadlock was reported and resolved, a report is never false,
  it comes only once all nodes of the deadlock show one tag, exactly one node can make it, and
  every deadlock gets there and is reported.
* **Remote queue.** `RemoteHalf` is one half as a value (every packet, handler and application
  call), `RemoteSystem` both halves with the two packet streams as logs and the invariant,
  `RemoteTheorems` the theorems over all interleavings, `RemoteGrowth` when the two halves agree
  on a growth, and `RemoteQueue` the class whose methods send and handle packets and whose
  status check is proved to be a run of that system.
* **Queues.** `RingRows` and `CircularQueue` are the ring with a spill region that makes every
  window contiguous, and `RingRuns` proves that any interleaving of calls on it, with windows
  open for writing and for reading at once, agrees with one plain sequence for each channel;
  `ThresholdQueue` and `LocalQueue` are the queue between two nodes that grows while a reader
  or writer holds a pointer, with its blocking calls, and `LocalRuns` proves the same of any
  interleaving of the two nodes' calls, whatever growth and shutdown come between.
  `KnownBytes` has the sequences both run modules compare with.
* **JSON.** `JsonTable`, `JsonParser` and `JsonValue` are the transition table, one step of the
  automaton and the tree builder as functions; `JsonRows` says what each row of the table makes
  of every character; `JsonMachine` is the object the source has; `JsonPrinter` is the printer.
  `JsonStrings` and `JsonTokens` lead to `JsonRoundTrip`: parsing undoes printing. `JsonGaps` adds
  white space and comments. `JsonSafety` is about every text: no assertion can fail.
* **Codecs.** `Base64` (resumable encoder and decoder), `PacketDecoder` and `PacketEncoder`,
  `Wire` (the scatter and gather loops over short reads and writes), `Transpose` (the
  beamformer's blocked transposes). `Segments` holds lists of byte segments, `Helpers` what
  several modules share.

Where the code and its documentation part, the model follows the code:

* `libraries/CircularQueue/CircularQueue.h` says `Grow` enlarges the queue to the requested
  length. It compares the request with the internal length, one more than the capacity, so a
  request for exactly one more than the capacity is ignored (`RingRows.GrowMeetsRequest` says
  exactly when). The buffered packet encoder asks for just that when its pending bytes and the
  next segment make one byte too many; a turn of its loop then changes nothing, so the loop
  never ends (`PacketEncoder.GrowMakesRoom`, `PacketEncoder.BufferedPacketEncoder.Turn`, with
  `PacketEncoder.StuckExample` an input and `PacketEncoder.UnstuckOrStuckAt` the exact condition
  on a list of segments).
* `libraries/Base64/Base64.h` says a line break comes every `cpl` characters. From a width of
  four on it comes after exactly `4 * (cpl / 4)` characters (`Base64.LinesFit`), and for a width
  of 1, 2 or 3 there is none before the end (`Base64.NarrowWidthIgnored`). So the documented
  rule holds if and only if the width is a multiple of four or the text is too short for its
  first break (`Base64.BreaksAsDocumented`); five is a width that fails (`Base64.FiveIsFour`).
  The end adds one more break, after an empty line when the last line was full
  (`Base64.EmptyLastLine`).
* Growing a remote queue sends the sum of the two lengths, not the length asked for, and the other
  half splits that sum again. The halves agree afterwards if and only if the sum splits as it was
  split (`RemoteGrowth.GrowIsAgreed`); with a threshold that raises one of the lengths they need
  not (`RemoteGrowth.ThresholdParts`).
* The JSON table departs from the grammar of RFC 8259. It refuses an exponent after a whole part of
  zero (`JsonTokens.ZeroExponentRefused`), takes a point with no digit after it
  (`JsonRows.PointRow`), and lets a comment stand for a keyword's last letter
  (`JsonRows.LastLetterRows`).
* The queue size a reader blocks with, -1, arrives as 2^32-1, so that only an all-reading
  deadlock throws needs queue lengths below that, which is a guard of the model's `Block` step.

## Model

| member | source | states |
|---|---|---|
| D4RTag.TagOrderIsStrictTotal | libraries/D4R/D4RTag.cc:27-37 | tags are strictly and totally ordered, so a greatest tag is unique |
| D4RTag.TagsOnlyRise | libraries/D4R/D4RNode.cc:65-104 | stamping beats both tags seen; pulling never falls below either tag and any change is a strict rise |
| D4RNode.Node.SignalTagChanged | libraries/D4R/D4RNode.cc:115-149 | every queue the node reads or writes has its flag raised |
| D4RNode.Node.Block | libraries/D4R/D4RNode.cc:65-73 | both tags become the stamp: own key, the queue size, and a label one above the higher of the public tag's and the tag's seen; the change is signalled |
| D4RNode.Node.Transmit | libraries/D4R/D4RNode.cc:75-104 | the public tag becomes the pulled tag; true exactly when the tag issued came back; signals exactly on a change |
| D4RNode.Queue.ReadBlockStart | libraries/D4R/D4RQueue.cc:76-84 | a reader that starts to wait clears its flag, stamps with queue size 2^32-1 and signals |
| D4RNode.Queue.ReadLook | libraries/D4R/D4RQueue.cc:86-98 | one pass of the reader's wait loop: flag, tag, signals, and when it throws |
| D4RNode.Queue.WriteBlockStart | libraries/D4R/D4RQueue.cc:111-119 | the same for a writer, with the queue length as queue size |
| D4RNode.Queue.WriteLook | libraries/D4R/D4RQueue.cc:120-131 | one pass of the writer's wait loop |
| D4RObjects.Perform | libraries/D4R/D4RQueue.cc:70-136 | one call on the queue and node objects, flags included, is one step of the transition system, and it reports exactly when the system does, which means a cycle of blocked nodes |
| D4RObjects.Play | libraries/D4R/D4RQueue.cc:70-136 | over any calls in any order the objects stay in a reachable state of the transition system, so its theorems hold of them |
| D4RObjects.BlockFlags | libraries/D4R/D4RNode.cc:115-149 | signalling through the two queue lists raises the flag of exactly the nodes that wait on the signalling node |
| D4RNetwork.CycleIsClosed | libraries/D4R/D4RNode.cc:75-104 | a wait path that starts on a wait cycle stays on it, since a node waits on one other only |
| D4RInvariant.ReportedCycle | libraries/D4R/D4RNode.cc:89-96 | a node that gets its own priority back lies on a wait cycle of which it is the strict minimum |
| D4RInvariant.InvKept | libraries/D4R/D4RNode.cc:65-104 | every step of every node keeps the invariant: whose tag is carried reaches its issuer along wait edges, and no unseen change is lost |
| D4RInvariant.ReachableInv | libraries/D4R/D4RNode.cc:65-104 | the invariant holds in every reachable network |
| D4RTheorems.ReportIsReal | libraries/D4R/D4RNode.cc:75-104 | in any run a detection comes from a node on a cycle of blocked nodes, and that node is least (queue size, key) on every cycle through it |
| D4RTheorems.ThrowMeansAllReading | libraries/D4R/D4RQueue.cc:82-98 | the deadlock exception is thrown only when every node of the deadlock waits to read |
| D4RTheorems.ReportOutcome | libraries/D4R/D4RQueue.cc:96-131 | in any run, the report of a deadlock throws at its node if and only if every node of the deadlock waits to read; otherwise that node goes on after growing a queue, and no queue written on the deadlock is shorter |
| D4RTheorems.OnlyReportsFail | libraries/D4R/D4RQueue.cc:85-136 | a node fails only by its own report while it waits to read; a node's wait changes only in its own blocking, unblocking or report |
| D4RTheorems.SettledTag | libraries/D4R/D4RTag.h:33-40 | when no node of a deadlock would pull, all show one tag: the greatest private label on it with the least private priority on it |
| D4RTheorems.ReportIsSettled | libraries/D4R/D4RNode.cc:75-104 | in every reachable state a node that detects finds its deadlock settled: every node on it shows the very tag it shows |
| D4RTheorems.ExactlyOneReports | libraries/D4R/D4RTag.h:37-39 | in every reachable state, for any deadlock, a look by one of its nodes detects it if and only if the deadlock has settled and the node is the one with least (queue size, key); the common tag is then the greatest label and least priority stamped on it |
| D4RTheorems.DeadlockIsFlagged | libraries/D4R/D4RQueue.cc:85-102 | while a deadlock stands unreported some node on it has its tag-changed flag up |
| D4RTheorems.CycleStands | libraries/D4R/D4RQueue.cc:85-136 | no step short of a report by one of its nodes breaks a deadlock |
| D4RTheorems.PotentialFalls | libraries/D4R/D4RNode.cc:75-88 | every look by a deadlocked node uses up potential and no step elsewhere gives any back |
| D4RTheorems.SilentRunIsBounded | libraries/D4R/D4RNode.cc:75-104 | over a run, looks taken by the nodes of a deadlock plus potential left never exceed the potential at the start |
| D4RTheorems.QuietRunIsBounded | libraries/D4R/D4RNode.cc:75-104 | in any fixed wait graph, cyclic or not and from any state, only boundedly many looks are possible without a detection |
| D4RTheorems.EveryDeadlockIsReported | libraries/D4R/D4RTag.h:37-39 | from every reachable deadlock, under any activity elsewhere, boundedly many looks pass before a report, and until then one is always due |
| D4RTheorems.DeadlockSettles | libraries/D4R/D4RTag.h:33-40 | from every reachable deadlock, under any activity elsewhere, the looks end with all its nodes showing the greatest label and least priority stamped on it and the owner of that priority about to report |
| RemoteHalf.EnqueueCount | libraries/CPN/RemoteQueue.cc:276-288 | a packet carries exactly the least of what is buffered, the threshold, the credit and, if there is one, the write limit; with data and credit it is not empty |
| RemoteHalf.QueueLength | libraries/CPN/RemoteQueue.cc:783-790 | the writer's length is its share of the queue and the reader's what that leaves, each raised to the threshold if it is below |
| RemoteSystem.CreditsInFlight | libraries/CPN/RemoteQueue.cc:271-333 | writer byte count = reader byte count + bytes and credits on the wire |
| RemoteSystem.EveryReceiveIsSafe | libraries/CPN/RemoteQueue.cc:224-455 | no handler assertion fails and the byte count never underflows on any packet in flight |
| RemoteSystem.InvKept | libraries/CPN/RemoteQueue.cc:157-746 | every send, receive and application call of either side keeps queue order, credit, close and clock invariants |
| RemoteTheorems.SplitQueueIsOneQueue | libraries/CPN/RemoteQueue.cc:224-315 | dequeued ++ reader buffer ++ data in flight ++ writer buffer = enqueued, in every reachable state, growth included |
| RemoteTheorems.CreditIsConserved | libraries/CPN/RemoteQueue.cc:271-333 | the credit equation in every reachable state |
| RemoteTheorems.NoAssertionFails | libraries/CPN/RemoteQueue.cc:224-455 | no enabled step from a reachable state trips an assertion: packets come to the side that handles their kind, only growth and tags to a side that knows its peer has closed, and never more credit than is out |
| RemoteTheorems.NoEarlyStall | libraries/CPN/RemoteQueue.cc:649-699 | with nothing in flight or to send, a non-empty writer means the reader holds its whole share |
| RemoteTheorems.ReadBlockCallsForTag | libraries/CPN/RemoteQueue.cc:336-347 | a blocked reader's request calls for a tag exactly when it is for more than all ever enqueued less the credit come back: deadlock detection crosses the socket when, and only when, the reader really lacks data |
| RemoteTheorems.WriteBlockCallsForTag | libraries/CPN/RemoteQueue.cc:357-368 | a blocked writer's request calls for a tag exactly when the reader's length has no room for it beside what is queued |
| RemoteTheorems.CloseHandshake | libraries/CPN/RemoteQueue.cc:378-418 | each side sends one End packet and nothing after it, and dies only after both were sent and its peer's received |
| RemoteTheorems.EofImpliesShutdown | libraries/CPN/RemoteQueue.cc:620-634 | end of file without a shutdown flag cannot happen |
| RemoteTheorems.WriterCloseLosesNothing | libraries/CPN/RemoteQueue.cc:671-690 | a writer that closes first loses no byte unless the reader closes too |
| RemoteTheorems.ClocksRise | libraries/CPN/RemoteQueue.cc:215-222 | clocks never fall, and each packet sent or received moves its side's clock strictly up |
| RemoteTheorems.StampsRise | libraries/CPN/RemoteQueue.cc:215-222 | in every reachable state the clocks carried by the packets of each direction strictly rise |
| RemoteTheorems.ClockTestIsCausal | libraries/CPN/RemoteQueue.cc:157-185 | when a waiting side passes the clock test, the peer has handled a packet sent after the wait began |
| RemoteTheorems.CreditBound | libraries/CPN/RemoteQueue.cc:231-236 | in a run without growth the credit out never exceeds the reader's buffer and the silent growth path is never taken |
| RemoteGrowth.GrowIsAgreed | libraries/CPN/RemoteQueue.cc:141-155 | when one side alone grows the queue, over any run, once its growth messages are handled both halves have one threshold, and the same lengths if and only if the announced total splits as it was split; so it is whenever the threshold raises neither length |
| RemoteGrowth.SplitAgain | libraries/CPN/RemoteQueue.cc:783-790 | splitting the sum of two lengths gives them back if and only if the writer's is its share of the sum |
| RemoteGrowth.ThresholdParts | libraries/CPN/RemoteQueue.cc:431-438 | a run in which the halves disagree: the threshold raises the writer's length, the sum announced is larger than the length asked for |
| RemoteGrowth.BothGrow | libraries/CPN/RemoteQueue.cc:420-429 | a run in which both sides grow at once, each takes the other's total, and they disagree with nothing left to send |
| RemoteQueue.RemoteQueue.constructor | libraries/CPN/RemoteQueue.cc:48-75 | either length is its share or the threshold, the local buffer has this side's length, and nothing is sent or pending |
| RemoteQueue.RemoteQueue.SendPacket | libraries/CPN/RemoteQueue.cc:215-222 | a packet leaves stamped with the ticked clock and the peer clock last heard |
| RemoteQueue.RemoteQueue.SendEnqueuePacket | libraries/CPN/RemoteQueue.cc:276-315 | performs exactly the send-enqueue action and shortens the buffer |
| RemoteQueue.RemoteQueue.SendDequeuePacket | libraries/CPN/RemoteQueue.cc:326-334 | returns all credit due |
| RemoteQueue.RemoteQueue.SendBlockPacket | libraries/CPN/RemoteQueue.cc:656-662 | sends a block message with the request exactly when it is still more than the bytes queued, or than the space left |
| RemoteQueue.RemoteQueue.InternalCheckStatus | libraries/CPN/RemoteQueue.cc:639-732 | one status check handles all that has arrived, then performs only actions that are open, one after another, and leaves none open |
| RemoteQueue.RemoteQueue.Read | libraries/CPN/RemoteQueue.cc:479-493 | the packets that have arrived take effect one after the other, in order |
| RemoteQueue.RemoteQueue.EnqueuePacket | libraries/CPN/RemoteQueue.cc:224-274 | the handler's whole effect: clocks, data, credit, the writer's request met, and growth by no more than the data needs |
| RemoteQueue.RemoteQueue.DequeuePacket | libraries/CPN/RemoteQueue.cc:317-324 | the handler's whole effect: credit back, the reader's request met |
| RemoteQueue.RemoteQueue.ReadBlockPacket | libraries/CPN/RemoteQueue.cc:336-347 | a tag is asked for exactly when D4R is on and the request is for more than is queued and out together |
| RemoteQueue.RemoteQueue.WriteBlockPacket | libraries/CPN/RemoteQueue.cc:357-368 | a tag is asked for exactly when D4R is on and the request does not fit the reader's length beside what is queued |
| RemoteQueue.RemoteQueue.EndPacket | libraries/CPN/RemoteQueue.cc:378-405 | the peer's shutdown flag is set and nothing else but clocks |
| RemoteQueue.RemoteQueue.GrowPacket | libraries/CPN/RemoteQueue.cc:420-429 | each length becomes its share of the total announced or the larger threshold, and the local buffer grows to this side's and never shrinks |
| RemoteQueue.RemoteQueue.UnlockedGrow | libraries/CPN/RemoteQueue.cc:141-155 | a request already met changes nothing; otherwise each length becomes its share of it or the threshold, the local buffer grows to this side's, and a message is pending |
| RemoteQueue.RemoteQueue.BeginWait | libraries/CPN/RemoteQueue.cc:157-185 | starting to wait notes the request, the pending message and the clock to wait for |
| RemoteQueue.StatusCheckIsRun | libraries/CPN/RemoteQueue.cc:615-736 | from any reachable state, whatever has arrived passes every assertion, and a status check is a run of the two-sided system, so its theorems apply to the object |
| RingRows.EnqueueAppends | libraries/CircularQueue/CircularQueue.cc:63-76 | committing n bytes appends exactly the bytes in the write window, spill included |
| RingRows.SpillRow | libraries/CircularQueue/CircularQueue.cc:101-113 | after spilling, the bytes at the tail stand in one piece; windows lent before and the ring are as they were |
| RingRows.WriteRow | libraries/CircularQueue/CircularQueue.cc:54-61 | stores through an enqueue pointer change neither what is queued nor what is lent for reading |
| RingRows.CommitRow | libraries/CircularQueue/CircularQueue.cc:63-76 | a commit leaves the window lent for reading intact |
| RingRows.DequeueDrops | libraries/CircularQueue/CircularQueue.cc:115-122 | releasing n bytes drops exactly the first n |
| RingRows.WindowsApart | libraries/CircularQueue/CircularQueue.cc:146-160 | no cell open for writing is one that is queued or lent for reading, and the two windows never both need the spill region |
| RingRows.SpillKeepsWindow | libraries/CircularQueue/CircularQueue.cc:101-113 | the reader's spill leaves every byte of an open write window as it was |
| RingRows.UsedAndFree | libraries/CircularQueue/CircularQueue.cc:146-160 | count and freespace make up the capacity, and the head is count cells on from the tail |
| RingRows.GrowMeetsRequest | libraries/CircularQueue/CircularQueue.cc:162-168 | growing never shrinks and meets the request if and only if it is not capacity + 1 with a threshold already met |
| RingRows.OneMoreIsIgnored | libraries/CircularQueue/CircularQueue.cc:162-168 | a concrete request that is ignored |
| CircularQueue.CircularQueue.constructor | libraries/CircularQueue/CircularQueue.cc:34-45 | the capacity is at least the threshold and every channel is empty |
| CircularQueue.CircularQueue.GetRawEnqueuePtr | libraries/CircularQueue/CircularQueue.cc:54-61 | a pointer exactly when space and threshold allow, to the head, with that many cells inside the row that are neither queued nor lent |
| CircularQueue.CircularQueue.Enqueue | libraries/CircularQueue/CircularQueue.cc:63-76 | every channel's contents grow by what stood in its write window; read windows stay good |
| CircularQueue.CircularQueue.RawEnqueue | libraries/CircularQueue/CircularQueue.cc:78-99 | all or nothing: each given row is appended to its channel, in chunks of the threshold |
| CircularQueue.CircularQueue.GetRawDequeuePtr | libraries/CircularQueue/CircularQueue.cc:101-113 | a pointer to the tail, where the first bytes queued stand in one piece; nothing queued, lent or stored in an open write window changes |
| CircularQueue.CircularQueue.Dequeue | libraries/CircularQueue/CircularQueue.cc:115-122 | every channel loses exactly its first bytes |
| CircularQueue.CircularQueue.RawDequeue | libraries/CircularQueue/CircularQueue.cc:124-144 | all or nothing: the caller gets each channel's first bytes and they are gone from the queue; open write windows stand |
| CircularQueue.CircularQueue.Grow | libraries/CircularQueue/CircularQueue.cc:162-177 | every channel's contents survive, and the size follows the growth rule |
| RingRuns.Run | libraries/CircularQueue/CircularQueue.cc:54-177 | any interleaving of writer, reader, growth and clearing calls, with stores through open pointers between them, gets the answers that one plain sequence a channel gives |
| RingRuns.Do | libraries/CircularQueue/CircularQueue.cc:54-177 | one call agrees with the plain sequences, and pointers stay where they are until a call that closes their window |
| RingRuns.FirstInFirstOut | libraries/CircularQueue/CircularQueue.cc:54-177 | over any run, on every channel, queued ++ given = taken ++ queued afterwards |
| RingRuns.ReaderLeavesWindows | libraries/CircularQueue/CircularQueue.cc:101-144 | no sequence of reader calls changes what a writer has stored and not committed |
| RingRuns.WriterLeavesLent | libraries/CircularQueue/CircularQueue.cc:54-99 | no sequence of writer calls changes what has been lent to the reader |
| PacketEncoder.GrowMakesRoom | libraries/CPN/PacketEncoder.cc:76-78 | one growth makes room for the segment if and only if the request is not the ignored one |
| PacketEncoder.StuckExample | libraries/CPN/PacketEncoder.cc:53-78 | for a fresh encoder any two segments of 4029 and 64 bytes lead to a stuck state |
| PacketEncoder.UnstuckOrStuckAt | libraries/CPN/PacketEncoder.cc:74-80 | a list of segments can all be queued if and only if no segment, once those before it are in, meets the ignored growth |
| PacketEncoder.BufferedPacketEncoder.Turn | libraries/CPN/PacketEncoder.cc:76-78 | one turn of the loop queues the segment, except at a stuck state, where it changes nothing at all |
| PacketEncoder.BufferedPacketEncoder.GetEncodedBytes | libraries/CPN/PacketEncoder.cc:57-68 | always a pointer; it shows the first bytes pending, as many as asked for if there are so many, or up to the threshold when none are asked for |
| PacketEncoder.BufferedPacketEncoder.WriteSegment | libraries/CPN/PacketEncoder.cc:76-78 | unless stuck, the loop ends with exactly the segment appended |
| PacketEncoder.BufferedPacketEncoder.WriteBytes | libraries/CPN/PacketEncoder.cc:74-80 | what is pending grows by the concatenation of the segments |
| ThresholdQueue.CopyChunk | libraries/CPN/ThresholdQueue.cc:225-240 | one turn of the copying loop moves n bytes of every channel |
| ThresholdQueue.CopyAll | libraries/CPN/ThresholdQueue.cc:74-90 | the copying loop appends all of one queue to another, channel by channel |
| ThresholdQueue.Grow | libraries/CPN/ThresholdQueue.cc:205-252 | the new buffer holds the same bytes; never smaller; a request already met changes nothing |
| LocalQueue.LocalQueue.UnlockedGrow | libraries/CPN/ThresholdQueue.cc:173-194 | contents unchanged; a pointer that is out keeps its buffer, over any number of growths |
| LocalQueue.LocalQueue.Store | libraries/CPN/ThresholdQueue.cc:57-67 | a store through a pointer, old buffer or new, is invisible until committed |
| LocalQueue.LocalQueue.InternalEnqueue | libraries/CPN/ThresholdQueue.cc:69-96 | what the writer stored through the pre-growth pointer is what is committed |
| LocalQueue.LocalQueue.Enqueue | libraries/CPN/QueueBase.cc:142-149 | every channel grows by what the writer stored; the reader's window is undisturbed |
| LocalQueue.LocalQueue.InternalGetRawDequeuePtr | libraries/CPN/ThresholdQueue.cc:126-138 | old buffer or new, the reader sees the first bytes committed |
| LocalQueue.LocalQueue.GetRawDequeuePtr | libraries/CPN/QueueBase.cc:58-83 | exactly which answer is given and how far the queue grows: not at all with the bytes there, a closed end or growth off; to twice a request above the threshold; to release a writer that is blocked, before waiting; and a reader waits exactly when fewer bytes are queued than it asks for |
| LocalQueue.LocalQueue.ReleaseWriter | libraries/CPN/QueueBase.cc:71-81 | the reader waits, with the queue as it was, exactly when growth is off, or the threshold is met and no writer is blocked; else the queue grows just so far |
| LocalQueue.LocalQueue.GetRawEnqueuePtr | libraries/CPN/QueueBase.cc:113-140 | exactly which answer is given and how far the queue grows: a full queue makes the writer wait unchanged unless growth is on and the reader is blocked, when it grows just enough for both requests; a request above the threshold grows it to twice the request first |
| LocalQueue.LocalQueue.MakeRoom | libraries/CPN/QueueBase.cc:127-138 | the writer waits, with the queue as it was, exactly when growth is off, or the threshold is met and the reader is not blocked; else the queue grows just so far, and once for the reader is enough to write |
| LocalQueue.LocalQueue.Dequeue | libraries/CPN/QueueBase.cc:85-92 | exactly the first bytes leave; the writer's pointer and what it stored stay good |
| LocalQueue.LocalQueue.Detect | libraries/CPN/QueueBase.cc:295-300 | deadlock resolution grows the queue to just the writer's request beside what is queued |
| LocalRuns.Run | libraries/CPN/QueueBase.cc:58-149 | any interleaving of the two nodes' calls, with stores, growth, deadlock resolution, waiting and shutdown between them, gets answers that one plain sequence a channel allows |
| LocalRuns.FirstInFirstOut | libraries/CPN/ThresholdQueue.cc:57-194 | over any run and any growth, on every channel, queued ++ committed = released ++ queued afterwards |
| LocalRuns.StoredBytesStand | libraries/CPN/ThresholdQueue.cc:173-194 | whatever the reader does and however the queue grows, a writer's pointer and what it stored stand |
| LocalRuns.ShownBytesStand | libraries/CPN/ThresholdQueue.cc:126-138 | whatever the writer does and however the queue grows, the bytes shown to a reader stand |
| JsonRows.StartRow | libraries/JSONParser/JSON_parser.c:253 | for every character: what may open a document: white space, a comment, a container |
| JsonRows.AfterValueRow | libraries/JSONParser/JSON_parser.c:254 | for every character: what may follow a value |
| JsonRows.FirstKeyRow | libraries/JSONParser/JSON_parser.c:255 | for every character: what may follow an opening brace |
| JsonRows.KeyRow | libraries/JSONParser/JSON_parser.c:256 | for every character: what may follow a comma between members |
| JsonRows.ColonRow | libraries/JSONParser/JSON_parser.c:257 | for every character: what may follow a key |
| JsonRows.ValueRows | libraries/JSONParser/JSON_parser.c:258-259 | for every character: what may stand for a value, and after an opening bracket |
| JsonRows.StringRow | libraries/JSONParser/JSON_parser.c:260 | for every character: what may stand in a string: anything but bare control characters, which end the parse |
| JsonRows.EscapeRow | libraries/JSONParser/JSON_parser.c:261 | for every character: what may follow a backslash |
| JsonRows.HexRows | libraries/JSONParser/JSON_parser.c:262-263 | for every character: hexadecimal digits, of either case, and nothing else |
| JsonRows.LastHexRows | libraries/JSONParser/JSON_parser.c:264-265 | for every character: the same for the last two; the fourth decodes the escape |
| JsonRows.PairRows | libraries/JSONParser/JSON_parser.c:287-288 | for every character: after a high surrogate only another escape |
| JsonRows.LeadingRows | libraries/JSONParser/JSON_parser.c:266-267 | for every character: no digit and no exponent after a leading zero |
| JsonRows.IntegerRow | libraries/JSONParser/JSON_parser.c:268 | for every character: how an integer goes on or ends |
| JsonRows.PointRow | libraries/JSONParser/JSON_parser.c:286 | for every character: after the point a digit, an exponent or already the end |
| JsonRows.FractionRow | libraries/JSONParser/JSON_parser.c:269 | for every character: how a fraction goes on or ends |
| JsonRows.ExponentRows | libraries/JSONParser/JSON_parser.c:270-271 | for every character: an exponent has at least one digit |
| JsonRows.ExponentDigitRow | libraries/JSONParser/JSON_parser.c:272 | for every character: how an exponent goes on or ends, comments excluded |
| JsonRows.TrueRows | libraries/JSONParser/JSON_parser.c:273-274 | for every character: the letters of the keyword |
| JsonRows.FalseRows | libraries/JSONParser/JSON_parser.c:276-277 | for every character: the letters of the keyword |
| JsonRows.NullRows | libraries/JSONParser/JSON_parser.c:280-281 | for every character: the letters of the keyword |
| JsonRows.LastFalseRow | libraries/JSONParser/JSON_parser.c:278 | for every character: the next letter of the keyword |
| JsonRows.LastNullRow | libraries/JSONParser/JSON_parser.c:282 | for every character: the last letter of the keyword, or a comment in its place |
| JsonRows.LastLetterRows | libraries/JSONParser/JSON_parser.c:275-279 | for every character: the last letter of true and false, or a comment in its place |
| JsonRows.CommentRows | libraries/JSONParser/JSON_parser.c:283-284 | for every character: how a comment begins and goes on |
| JsonRows.CommentStarRow | libraries/JSONParser/JSON_parser.c:285 | for every character: how a comment ends |
| JsonSafety.StepIsSafe | libraries/JSONParser/JSON_parser.c:654-962 | no character fails an assertion, and the mode stack keeps mirroring the tree builder |
| JsonSafety.NoTextAborts | libraries/JSONParser/JSONParser.cc:70-101 | no text at all fails an assertion or reads an empty stack; a finished parse leaves exactly one container and no key |
| JsonStrings.SingleEscape | libraries/JSONParser/JSON_parser.c:524-591 | a lone escape yields its UTF-8 bytes, a pending high surrogate, or rejection of a low one |
| JsonStrings.SecondEscape | libraries/JSONParser/JSON_parser.c:559-567 | after a high surrogate a low one completes the pair and anything else is rejected |
| JsonStrings.PairMustContinue | libraries/JSONParser/JSON_parser.c:287-288 | after a high surrogate only another escape is accepted |
| JsonStrings.Utf8ReadsBack | libraries/JSONParser/JSON_parser.c:584-588 | the bytes written are the shortest UTF-8 form of the code point (section 3 of RFC 3629) |
| JsonStrings.PairRoundTrip | libraries/JSONParser/JSON_parser.c:519-522 | every supplementary code point is the decoding of its surrogate pair |
| JsonStrings.PairsAreSupplementary | libraries/JSONParser/JSON_parser.c:519-522 | every surrogate pair decodes to a supplementary code point, each to its own |
| JsonStrings.EscapeDecodesToUtf8 | libraries/JSONParser/JSON_parser.c:524-591 | every escape of a basic-plane code point leaves exactly its UTF-8 bytes, never more than the escape took (section 7 of RFC 8259) |
| JsonStrings.PairDecodesToUtf8 | libraries/JSONParser/JSON_parser.c:559-591 | every surrogate pair escape leaves exactly the UTF-8 bytes of its code point, never more than the escapes took |
| JsonStrings.BadSurrogatesRefused | libraries/JSONParser/JSON_parser.c:564-581 | a lone low surrogate, and a high one not followed by a low one, are rejected |
| JsonStrings.HexClassOf | libraries/JSONParser/JSON_parser.c:155-180 | the table's hexadecimal classes are exactly the hexadecimal digits |
| JsonStrings.HexDigitsRead | libraries/JSONParser/JSON_parser.c:535-546 | each of the sixteen digits, in either letter case, is read as its place in the row of digits |
| JsonStrings.HexCharsAreDigits | libraries/JSONParser/JSON_parser.c:155-180 | the characters taken for digits are those of the two rows |
| JsonStrings.EscapeLettersMean | libraries/JSONParser/JSON_parser.c:593-632 | the one-letter escapes stand for the characters section 7 of RFC 8259 gives them |
| JsonPrinter.InsertString | libraries/JSONVariant/VariantToJSON.cc:36-68 | the loop writes the escaped text up to the first NUL, quoted |
| JsonPrinter.InsertIndent | libraries/JSONVariant/VariantToJSON.cc:70-99 | a newline and then exactly two spaces a level, from strides of 32 |
| JsonValue.PutBinds | libraries/JSONVariant/JSONToVariant.cc:97-109 | binding a key changes no other key and keeps the keys in place |
| JsonTokens.EscapedText | libraries/JSONVariant/VariantToJSON.cc:36-68 | the escaped text of any NUL-free string reads back as that string |
| JsonTokens.DigitsReadBack | libraries/JSONVariant/VariantToJSON.cc:101-108 | decimal digits have no leading zero and read back as the number |
| JsonTokens.FeedNumber | libraries/JSONParser/JSON_parser.c:266-268 | every printed integer is one integer token |
| JsonTokens.FeedFloat | libraries/JSONParser/JSON_parser.c:266-286 | every number with a fraction or an exponent that the table admits is one float token |
| JsonTokens.ZeroExponentRefused | libraries/JSONParser/JSON_parser.c:267 | of the numbers of section 6 of RFC 8259 exactly those with a zero whole part, an exponent and no fraction are refused |
| JsonTokens.KeysBindOnce | libraries/JSONVariant/JSONToVariant.cc:97-109 | a key joins its object unless it is already bound there to something other than null |
| JsonRoundTrip.FeedValue | libraries/JSONVariant/VariantToJSON.cc:101-138 | wherever a value may stand, its printed text hands exactly that value to the tree builder |
| JsonRoundTrip.ParseUndoesPrint | libraries/JSONVariant/JSONToVariant.cc:38-119 | the compact and the pretty text of every tree, floats included, parse back to that tree, done exactly at the last character, no prefix accepted or refused |
| JsonRoundTrip.ReadBack | libraries/JSONVariant/JSONToVariant.cc:121-127 | reading a printed tree gives it back |
| JsonRoundTrip.PrintIsInjective | libraries/JSONVariant/VariantToJSON.cc:101-142 | different trees never print alike, whatever the styles |
| JsonGaps.CommentBetween | libraries/JSONParser/JSON_parser.c:777-816 | a comment between tokens leaves the parser in the state it was in |
| JsonGaps.CommentAfterValue | libraries/JSONParser/JSON_parser.c:785-816 | a comment right after a value, exponents apart, hands the value over |
| JsonGaps.GapBetween | libraries/JSONParser/JSON_parser.c:253-259 | any white space and comments between tokens make no difference |
| JsonGaps.LeadingGap | libraries/JSONParser/JSONParser.cc:70-91 | white space and comments in front of any text make no difference to its parse |
| JsonGaps.SurroundedDocument | libraries/JSONParser/JSONParser.cc:70-101 | a printed tree with white space and comments in front and any text after it reads back as that tree, done exactly at its last character |
| JsonGaps.LeadingWhiteSpace | libraries/JSONParser/JSON_parser.c:253 | spaces, tabs, newlines and returns in front of a printed tree change nothing |
| JsonMachine.JSONToVariant.Add | libraries/JSONVariant/JSONToVariant.cc:97-109 | a value joins the innermost container, under the waiting key in an object, or is refused with nothing changed |
| JsonMachine.JSONToVariant.ReadUnit | libraries/JSONParser/JSON_parser.c:535-549 | the digit loop computes the sixteen-bit unit the four digits stand for |
| JsonMachine.JSONToVariant.PutUtf8 | libraries/JSONParser/JSON_parser.c:584-588 | the byte loop writes the UTF-8 form |
| JsonMachine.JSONToVariant.Decode | libraries/JSONParser/JSON_parser.c:524-591 | the decoder's effect on buffer and pending surrogate, and exactly when it refuses |
| JsonMachine.JSONToVariant.Ends | libraries/JSONParser/JSON_parser.c:829-858 | closing flushes the last scalar, hands the container over and pops its mode, or refuses |
| JsonMachine.JSONToVariant.StringEnds | libraries/JSONParser/JSON_parser.c:884-914 | a closing quote ends a key or a value according to the mode |
| JsonMachine.JSONToVariant.CommaSeen | libraries/JSONParser/JSON_parser.c:916-941 | a comma flushes and turns to the next key or value |
| JsonMachine.JSONToVariant.Char | libraries/JSONParser/JSON_parser.c:654-962 | one character: the object changes as the step function says, or the character is refused |
| JsonMachine.JSONToVariant.Parse | libraries/JSONParser/JSONParser.cc:70-91 | one character at the driver: the status is running, done or error as specified, and the invariant holds |
| JsonMachine.JSONToVariant.ParseText | libraries/JSONParser/JSONParser.cc:93-101 | the block loop equals feeding the text, and returns how many characters were accepted |
| JsonMachine.VariantFromJSON | libraries/JSONVariant/JSONToVariant.cc:121-127 | the tree, always a container, exactly when the document is complete |
| Base64.WritesStandardAlphabet | libraries/Base64/Base64.cc:34-39 | each value below 64 is written as its character in the alphabet of section 4 of RFC 4648 |
| Base64.OnlyAlphabetCounts | libraries/Base64/Base64.cc:126-133 | the decoder reads each character of that alphabet as its place in it and passes over every other, one past its table apart |
| Base64.OthersArePassedOver | libraries/Base64/Base64.cc:140-192 | any other character, anywhere in the text, makes no difference |
| Base64.EncodeConcat | libraries/Base64/Base64.cc:41-88 | cutting the input into blocks makes no difference to the text |
| Base64.DecodeConcat | libraries/Base64/Base64.cc:140-192 | cutting the text into blocks makes no difference to the bytes |
| Base64.DecodeUndoesEncode | libraries/Base64/Base64.cc:41-192 | decoding the encoded text gives every byte string back, at every line width |
| Base64.EncoderMeetsRfc4648 | libraries/Base64/Base64.cc:41-117 | line breaks apart, the text is the one of section 4 of RFC 4648, in its alphabet, at every width |
| Base64.LinesFit | libraries/Base64/Base64.cc:78-84 | from a width of four on, line breaks come after exactly 4 * (width / 4) characters, at and only at those places, padding included |
| Base64.BreaksAsDocumented | libraries/Base64/Base64.h:38-42 | the text breaks after every width characters if and only if the width is a multiple of four or the text is too short for its first break |
| Base64.FiveIsFour | libraries/Base64/Base64.cc:78-84 | a width of five and three zero bytes: the first line breaks after four characters |
| Base64.EmptyLastLine | libraries/Base64/Base64.cc:96-117 | the final line break ends an empty line exactly when the data fills whole lines |
| Base64.NarrowWidthIgnored | libraries/Base64/Base64.cc:78-84 | with a width below four no line break is written before the end |
| Base64.Base64Encoder.EncodeBlock | libraries/Base64/Base64.cc:41-88 | the resumable loop writes what the byte-by-byte specification does |
| Base64.Base64Encoder.BlockEnd | libraries/Base64/Base64.cc:96-117 | padding and final line break for the group in progress, and a fresh state |
| Base64.Base64Decoder.DecodeBlock | libraries/Base64/Base64.cc:120-192 | the resumable loop decodes as specified, passing over other characters, whatever byte the table lookup one past the end finds |
| Base64.Encode | libraries/Base64/main.cc:131-155 | the encoding program's block loop writes the whole text, however its input is cut |
| Base64.Decode | libraries/Base64/main.cc:106-129 | the decoding program's block loop decodes the whole text, however it is cut |
| Base64.AnyCutComesBack | libraries/Base64/main.cc:106-155 | cut anywhere before encoding and anywhere before decoding, the bytes come back |
| PacketDecoder.HeaderBeginsWithSyncWord | libraries/CPN/PacketHeader.h:96-98 | a valid header is 64 bytes whose first four, low byte first, are 0xF1F0C0DE |
| PacketDecoder.TakeConcat | libraries/CPN/PacketDecoder.cc:44-60 | the decoder fires the same packets however the stream is cut |
| PacketDecoder.PacketDecoder.GetDecoderBytes | libraries/CPN/PacketDecoder.cc:37-42 | it always asks for at least one byte, and for no more than the header has room for |
| PacketDecoder.PacketDecoder.ReleaseDecoderBytes | libraries/CPN/PacketDecoder.cc:44-60 | a piece of any size counts as its bytes one after the other, resynchronisation included |
| PacketDecoder.PacketDecoder.Receive | libraries/CPN/RemoteQueue.cc:479-493 | the reading loop, with reads of any size, fires what the whole input holds |
| PacketDecoder.DecoderFindsHeaders | libraries/CPN/PacketDecoder.cc:44-60 | what is fired is what a left-to-right search for valid headers finds in the stream |
| PacketDecoder.HeadersOfHeaders | libraries/CPN/PacketHeader.h:96-106 | a stream of valid headers comes out as it went in |
| PacketDecoder.Resynchronises | libraries/CPN/PacketDecoder.cc:51-57 | junk in front is skipped when no valid header starts in it |
| Wire.Sender.WriteBytes | libraries/CPN/RemoteQueue.cc:495-520 | however the writes are cut short, exactly the concatenation of the segments goes out |
| Wire.Receiver.Gather | libraries/CPN/RemoteQueue.cc:247-268 | however the reads are cut short, the rows hold the bytes that came, in order; it fails exactly when the stream ends first |
| Wire.ScatterIsOverlay | libraries/CPN/RemoteQueue.cc:252-266 | filling a list of buffers is filling their concatenation |
| Wire.Transfer | libraries/CPN/RemoteQueue.cc:237-315 | a header and channel windows written by one side under short writes are found by the other under short reads, channel by channel, and nothing sent later is touched |
| Transpose.NothingBetween | libraries/HorizontalBeamformer/HBeamformer.cc:95-104 | between neighbouring staves of the map no row carries one |
| Transpose.MakeTransposeIndices | libraries/HorizontalBeamformer/HBeamformer.cc:92-112 | the two-bit table says exactly which rows of each pair carry a stave |
| Transpose.Beamformer.TransposeScatter | libraries/HorizontalBeamformer/HBeamformer.cc:362-402 | every output cell is written: the transposed element where the row carries a stave, zero elsewhere |
| Transpose.Beamformer.TransposeMatrix | libraries/HorizontalBeamformer/HBeamformer.cc:517-536 | the blocked transpose equals the plain one |

## Left out

- Threads, locks and condition variables: each method is one atomic step, and a wait is a step that is not yet enabled. In D4R, checking that a node is still blocked, reading the other's tag and transmitting it are one step.
- Counters and clocks are unbounded; wrap-around of 32 and 64 bit fields is not modelled.
- Kernel termination, socket errors and the forced shutdown they cause.
- Expired weak pointers in the D4R queue lists, and waiting for the peer node of a queue to appear: a queue's two nodes are fixed when it is made.
- RemoteHalf.QueueLength: the share is any function that never exceeds the length, standing for a fraction in double arithmetic; page rounding by memory-mapped buffers is not modelled.
- The write limit of a remote queue is given per channel; its division by the number of channels is not modelled. A remote queue's bytes are columns, one byte for each channel.
- The contents of a D4R tag packet: that a tag arrived is modelled, its effect on the stand-in node is not.
- RemoteGrowth.GrowIsAgreed: for growth from one side at a time; with both at once the halves can disagree for good (`RemoteGrowth.BothGrow`).
- RemoteTheorems.CreditBound: for runs without growth only, since growth on both sides at once makes them disagree on the reader's share (`RemoteGrowth.BothGrow`); the code then grows silently.
- CircularQueue.CircularQueue.Enqueue: a count for which the copy would run past the end of the channel's row, which the source does not check, is excluded, and a threshold of zero is excluded from the chunked copies, whose loop would not end. The buffer is one sequence per channel, so the flat layout with its stride is not modelled; pointers are positions in it.
- PacketEncoder.BufferedPacketEncoder.WriteBytes: promised only where no segment meets the ignored growth, which is exactly where the source's loop ends.
- The queue beneath the threshold queue, `libraries/ThresholdQueue`, is modelled by its bounded first-in first-out contract, not by its mirrored ring; its handles are values, with the buffer they share known by a name. Its counts of elements ever enqueued and dequeued are left out.
- LocalQueue.LocalQueue.GetRawEnqueuePtr: a writer cut off in the middle of an enqueue by a shutdown does not call again; the source asserts there. Waiting returns to the caller, who calls again once woken.
- LocalQueue.LocalQueue.GetRawDequeuePtr: nor does a reader cut off in the middle of a dequeue, where the source asserts too.
- JSON floats are kept as their text; line and column counts, parser configuration other than the one used, and overflow of integers in `sscanf` are left out. `Variant` is a plain datatype whose members keep their order and whose scalars print as null, true, false and decimal digits.
- JsonRoundTrip.ParseUndoesPrint: strings with NUL are excluded, as C strings end there, and so are floats whose text the table refuses.
- PacketDecoder.Take: the sync word is compared as it stands in memory on a little-endian machine; the other header fields, and the data a packet handler reads from the socket between headers, are not part of the decoder's stream.
- Wire.Sender.WriteBytes: a write that writes nothing is excluded, as is a read of nothing before the end of the stream.
- Transpose.Beamformer.TransposeScatter: elements are cells of a matrix moved in pairs; the flat index arithmetic is not modelled. The transform stages, complex multiplication and threads over blocks are left out.
- Connection setup, the context and kernel registries, node loading and logging are not part of this model.
