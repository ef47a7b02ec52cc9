# lwIP: verified models of its core algorithms

The project models the parts of lwIP in which several functions share state, and proves what
they keep, over whole runs and interleavings wherever there are any.

* `Heap.dfy`, `InterruptedMalloc.dfy` (src/core/mem.c): the heap allocator in its array of linked
  headers; then the same allocator with frees and trims coming in at every point where
  `mem_malloc` gives up its lock.
* `Checksum.dfy`, `ChainChecksum.dfy` (src/core/inet_chksum.c): the three implementations of the
  Internet checksum against the definition in section 2 of RFC 1071, and the checksum of a chain
  of buffers with its byte swapping.
* `TcpSegment.dfy`, `TcpQueue.dfy`, `TcpStream.dfy`, `TcpConnection.dfy`, `TcpExamples.dfy`
  (src/core/tcp_out.c, the acknowledgement part of src/core/tcp_in.c): checksum on copy; `tcp_write`
  as a transaction, splitting, sending, retransmitting and acknowledging; the claim that the queued
  segments carry the byte stream, first step by step and then for every run of a connection; the
  order of the queues in every run, whether they carry the stream or not.
* `Select.dfy`, `Descriptors.dfy` (src/api/sockets.c): the wake-up protocol of `select` and the
  life of a descriptor that several threads use and close, as state machines with one step for
  every protected region.
* `PbufHeap.dfy`, `PbufChain.dfy` (src/core/pbuf.c): reference counts of chains that share their
  tails, and the operations on chains as operations on byte strings.
* `DnsTable.dfy`, `DnsNames.dfy` (src/core/dns.c): the resolver's tables, and names in messages.
* `VectorWrite.dfy` (src/api/api_msg.c, src/api/api_lib.c): the cursor of a write of several
  buffers.  `Bytes.dfy` holds what is shared.

Where the source updates state in place the model is a class whose methods change its fields, or
a method with the source's loop; concurrent code is a transition function on states.  Allocation,
randomness, clocks, packets that come in and the answers of other layers are parameters, so every
outcome of theirs is covered.

## Where the code does less than one would expect

Each of these is proved with the exact condition under which the code does meet the expectation,
and with a concrete case where it does not.

* `tcp_write` appends to the last unsent segment even if, after a retransmission, that segment is
  not the last in sequence.  The stream survives if and only if nothing is appended or the
  segment is last (`TcpStream.WriteStreamedIff`, `TcpExamples.WriteAfterRexmit`).
* A time-out after a fast retransmission may leave the unsent queue out of order
  (`TcpConnection.RtoSortedIff`, `TcpExamples.TimeoutAfterRexmit`).  The unacknowledged queue
  stays sorted all the same (`TcpConnection.RunOrdered`), but an acknowledgement then leaves
  acknowledged segments behind unless they come first (`TcpConnection.AckStreamedIff`).
* Two unacknowledged segments may have one number, if that write is followed by a split.  The order of
  the queue is strict if and only if no number is shared (`TcpConnection.OutputOrdered`,
  `TcpExamples.SharedNumber`).
* `tcp_write` asserts that the last unsent segment still fits the segment size, but the size falls
  with an MSS option, which is read in every packet, and with a window that gets large enough to count.
  The assertion fails if and only if the segment exceeds the new maximum or half the new window
  (`TcpQueue.SizeFallsIff`, `TcpQueue.Pcb.Resize`, `TcpExamples.SizeFalls`).
* The lower bound on the segment size with timestamps is computed from the unpadded option
  (`TcpQueue.ClampLeavesRoom`, `TcpQueue.ClampTooSmall`).
* The loop of a blocking vectored write does not end if it meets a multiple of 65536 remaining
  bytes with no buffer space and another vector to come (`VectorWrite.Message.WriteMore`,
  `VectorWrite.EndlessExample`).
* `pbuf_dechain` looks at an eight-bit count (`PbufHeap.Heap.Dechain`,
  `PbufHeap.DechainExample`), and reference counts and `fd_used` have eight bits themselves
  (`PbufHeap.Heap.Ref`, `PbufHeap.RefExample`, `Descriptors.RunKeepsIff`, `Descriptors.WrapExample`).
* `pbuf_copy` takes empty buffers at the end of a chain for a queue of packets and may report an error
  after it has copied everything (`PbufChain.Copy`, `PbufChain.CopyExample`).
* An assertion on descriptors that are to be freed fails for descriptors that have been freed
  (`Descriptors.PendingAssertion`, `Descriptors.PendingAssertionFails`).
* `select` is woken for everything that it would report, except data that another thread keeps back
  (`Select.ScanAnnouncedIff`, `Select.LeftoverIsNotAnnounced`).
* `dns_enqueue` may give up a completed entry and then refuse for lack of a port
  (`DnsTable.LosesIff`, `DnsTable.LosesEntry`).

## Model

| member | source | states |
|---|---|---|
| `Heap.TilesExactly` | src/core/mem.c:473-510 | in a sound heap every byte offset lies in exactly one block: the blocks reach from the start to the end without gap or overlap |
| `Heap.LinksAreInverse` | src/core/mem.c:551-564 | following next and then prev (or prev and then next) leads back to the same block |
| `Heap.UsedBlocksDisjoint` | src/core/mem.c:886-975 | two live allocations do not overlap, and each is aligned, inside the heap and not below the minimum size |
| `Heap.HeldApart` | src/core/mem.c:886-975 | the bytes that two callers asked for do not overlap; they start aligned and lie inside the heap |
| `Heap.MergeKeepsSound` | src/core/mem.c:484-509 | joining a free block with the free block behind it keeps the heap sound |
| `Heap.CutKeepsSound` | src/core/mem.c:781-804 | cutting a block in two with room on both sides keeps the heap sound, up to the new pair of neighbours |
| `Heap.MoveKeepsSound` | src/core/mem.c:753-780 | moving the header of the free block behind a trimmed one keeps the heap sound |
| `Heap.TakeKeepsSound` | src/core/mem.c:886-927 | marking a free block as used keeps the heap sound |
| `Heap.ReleaseKeepsSound` | src/core/mem.c:660-680 | marking a used block as free leaves at most its two neighbours to be joined |
| `Heap.NoFitBelowLfree` | src/core/mem.c:861-871 | no block below lfree fits any request, so the search may start there |
| `Heap.NoFitAbove` | src/core/mem.c:861-871 | no block behind the shortened bound of the search loop fits the request |
| `Heap.Heap.constructor` | src/core/mem.c:516-545 | mem_init gives a sound heap with one free block and an end marker |
| `Heap.Heap.Swallow` | src/core/mem.c:484-509 | one merge step of plug_holes, with the new chain and lfree |
| `Heap.Heap.PlugHoles` | src/core/mem.c:474-510 | afterwards no two neighbouring blocks are free, and only the freed block and its neighbours have changed |
| `Heap.Heap.Free` | src/core/mem.c:617-686 | releases exactly the block of a valid pointer and nothing for any other pointer; the heap stays sound and lfree is the lowest free block |
| `Heap.Heap.CutBlock` | src/core/mem.c:781-804 | splits a block in two; the new block has the rest of the room |
| `Heap.Heap.MoveFree` | src/core/mem.c:753-780 | the free block behind grows downwards by the trimmed bytes |
| `Heap.Heap.Trim` | src/core/mem.c:699-820 | never moves or grows a block, keeps at least the asked size, returns the pointer or NULL as the source does; the heap stays sound |
| `Heap.Heap.Take` | src/core/mem.c:886-927 | turns a fitting free block into an allocation, with a new free block behind it if there is room for one |
| `Heap.Heap.Malloc` | src/core/mem.c:831-976 | first fit: the lowest free block of the whole heap that fits, NULL if and only if the size is refused or none fits; the result is aligned, big enough and disjoint from the others |
| `Heap.Heap.NextFree` | src/core/mem.c:929-950 | lfree is moved to the lowest free block, or the end |
| `Heap.Heap.MallocThenFree` | src/core/mem.c:617-686 | freeing what was just allocated gives back exactly the blocks and the lfree that were there before |
| `Heap.Heap.TrimHeld` | src/core/mem.c:699-820 | a caller that trims keeps at least the new size, and every other caller keeps what it had |
| `Heap.Heap.FreeHeld` | src/core/mem.c:617-686 | the pointer of a block that a caller holds passes every check; the other callers keep what they had |
| `Heap.Heap.MallocHeld` | src/core/mem.c:831-976 | a caller that gets a block gets the lowest that fits, with the bytes it asked for; the other callers keep what they had; NULL changes nothing |
| `Heap.Heap.Step` | src/core/mem.c:616-976 | one call, for the callers together: what it answers, and what they hold afterwards |
| `Heap.Heap.Run` | src/core/mem.c:616-976 | a run of malloc, free and trim goes through a sequence of states, each of which follows from the one before as the contract of that call says; in every one of them the heap is sound, lfree is the lowest free block, the blocks in use are those that callers hold, and each is at least as large as its holder asked, trims included |
| `Heap.Heap.Sanity` | src/core/mem.c:568-607 | every check of mem_sanity succeeds in every sound heap |
| `InterruptedMalloc.Allocator.constructor` | src/core/mem.c:393-421 | an allocator with no call under way |
| `InterruptedMalloc.HeldAfterTake` | src/core/mem.c:886-927 | taking a free block leaves every caller its bytes |
| `InterruptedMalloc.Allocator.SearchFrom` | src/core/mem.c:868-927 | from an interrupted or fresh start the search stops in front of a live header below its bound, or answers NULL because no block of the heap fits |
| `InterruptedMalloc.Allocator.MallocCall` | src/core/mem.c:846-870 | starts a call; invariant and answer as for the whole allocator |
| `InterruptedMalloc.Allocator.TakeHere` | src/core/mem.c:886-950 | the block that the search has reached is taken, and handed out unless lfree has to be moved first |
| `InterruptedMalloc.Allocator.ResumeSearch` | src/core/mem.c:871-884 | continues, or starts again at lfree if a free or trim came in between; a returned block is the first that fits and is large enough; otherwise the search goes on with the next block |
| `InterruptedMalloc.Allocator.ResumeAdjust` | src/core/mem.c:929-950 | continues to look for the lowest free block, over used blocks only; when it ends lfree is that block again and the caller has its bytes |
| `InterruptedMalloc.Allocator.FreeCall` | src/core/mem.c:617-686 | a free at any yield point keeps the invariant and moves the end of no other block in use |
| `InterruptedMalloc.Allocator.TrimCall` | src/core/mem.c:699-820 | a trim at any yield point keeps the invariant, gives the exact answer and moves the end of no other block in use |
| `InterruptedMalloc.Allocator.Step` | src/core/mem.c:393-421 | one event of a schedule: it does what the contract of its region says or, if it cannot happen, nothing |
| `InterruptedMalloc.Allocator.Run` | src/core/mem.c:393-421 | in any interleaving the events lead through a sequence of states, each following from the one before as the region's contract says; the heap stays sound, lfree is not above any free block, the blocks in use are those handed out, each as large as its holder asked; every pointer returned is aligned and its bytes lie inside the heap |
| `Checksum.RfcSumIsNorm` | src/core/inet_chksum.c:79-114 | the ones' complement word sum is the plain weighted byte sum reduced modulo 65535, zero kept apart from 0xffff |
| `Checksum.FoldTwice` | src/core/inet_chksum.c:103-113 | two folds bring every 32-bit sum into 16 bits without changing its residue |
| `Checksum.SwapNorm` | src/core/inet_chksum.c:108-112 | swapping the bytes of a sum swaps those of its reduction |
| `Checksum.PingPong` | src/core/inet_chksum.c:208-235 | adding 32-bit words with the carry added back keeps the sum modulo 65535 |
| `Checksum.Chksum1` | src/core/inet_chksum.c:80-114 | equals the RFC 1071 sum, whatever the start address and byte order |
| `Checksum.Chksum2` | src/core/inet_chksum.c:133-173 | equals the RFC 1071 sum for up to 0x20000 bytes, with no 32-bit overflow |
| `Checksum.LastWords` | src/core/inet_chksum.c:232-236 | the words behind the last eight bytes are added without overflow, and the residue stays that of the bytes summed so far |
| `Checksum.Chksum3` | src/core/inet_chksum.c:189-255 | equals the RFC 1071 sum for any length |
| `ChainChecksum.RunningAppend` | src/core/inet_chksum.c:260-294 | the accumulator, byte-swapped while an odd number of bytes has been seen, takes in the next buffer with one fold and stays within 16 bits |
| `ChainChecksum.InetChksumPbuf` | src/core/inet_chksum.c:568-588 | the checksum of a chain is that of its flat bytes, however they are cut into buffers |
| `ChainChecksum.PseudoSum` | src/core/inet_chksum.c:260-327 | the sum over addresses, data, protocol and length is that of the pseudo header followed by the data |
| `ChainChecksum.AddressSum` | src/core/inet_chksum.c:310-363 | the addresses of either family are summed without overflow |
| `ChainChecksum.ChksumPseudo` | src/core/inet_chksum.c:260-395 | the checksum with pseudo header equals the RFC 1071 checksum of pseudo header and flat bytes |
| `ChainChecksum.ChksumPseudoPartial` | src/core/inet_chksum.c:399-542 | the same over a prefix of the chain |
| `TcpSegment.SegAddSummed` | src/core/tcp_out.c:283-295 | adding the sum of new data to a segment's sum and swap flag describes the old data followed by the new |
| `TcpSegment.ConcatSummed` | src/core/tcp_out.c:752-764 | the separately kept sum of appended data, swapped back, is added correctly |
| `TcpSegment.OutputChksum` | src/core/tcp_out.c:1560-1602 | checksum on copy refines the slow path: header sum plus stored payload sum is the checksum of the whole segment |
| `TcpQueue.FilledGrown` | src/core/tcp_out.c:706-730 | filling the spare tail appends the bytes and keeps length and checksum right |
| `TcpQueue.JoinedGrown` | src/core/tcp_out.c:731-764 | chaining or extending the last buffer appends the bytes and keeps length and checksum right |
| `TcpQueue.WriteExtends` | src/core/tcp_out.c:696-781 | the committed queue is the old one with the data behind it, every segment within mss_local, every buffer counted |
| `TcpQueue.Pcb.constructor` | src/core/tcp_in.c:683-687 | a new connection: nothing queued, all numbers at the initial sequence number |
| `TcpQueue.Pcb.Spare` | src/core/tcp_out.c:225-272 | the spare room never exceeds what is left of the segment |
| `TcpQueue.FillSpare` | src/core/tcp_out.c:475-515 | phase 1: as many bytes go into the spare tail as fit into it and into the segment; what is left of the tail still fits |
| `TcpQueue.Pcb.PlanJoin` | src/core/tcp_out.c:516-588 | phase 2: what is to be chained or extended, its checksum, and the release of everything on failure |
| `TcpQueue.Pcb.PlanAppend` | src/core/tcp_out.c:475-590 | phases 1 and 2 take exactly as many bytes as fit into the last unsent segment |
| `TcpQueue.BuildSegment` | src/core/tcp_out.c:603-672 | a data segment in one buffer or, by reference, in two, with the length and the checksum of its bytes |
| `TcpQueue.Pcb.NewSegment` | src/core/tcp_out.c:591-694 | phase 3: one new segment within mss_local, or nothing left allocated |
| `TcpQueue.Pcb.NewSegments` | src/core/tcp_out.c:591-694 | phase 3: as many new segments as the rest of the data needs, contiguous and carrying it; it succeeds if and only if they fit into the queue, allocation failures aside |
| `TcpQueue.Committed` | src/core/tcp_out.c:696-781 | the queue after a successful write, with its counts and its last segment |
| `TcpQueue.Pcb.Commit` | src/core/tcp_out.c:696-795 | queue, counters and pools after a successful write |
| `TcpQueue.Pcb.Segmentation` | src/core/tcp_out.c:453-694 | all three phases, or nothing allocated at all; success if and only if everything fits, allocation failures aside |
| `TcpQueue.Pcb.WriteSegments` | src/core/tcp_out.c:453-812 | tcp_write after its checks, as a transaction: the exact error, the new queue and counters, the exact number of buffers, and the pools unchanged on failure |
| `TcpQueue.Pcb.Write` | src/core/tcp_out.c:390-812 | a transaction: on failure nothing but TF_NAGLEMEMERR changes and everything allocated is released; on success the data is queued in as many segments as it needs, snd_buf falls and snd_lbb rises by its length, snd_queuelen rises by the exact number of buffers; it succeeds if and only if the state allows it and everything fits, unless an allocation fails; the assertion on the last segment fails if and only if that segment exceeds the segment size of now |
| `TcpQueue.ClampLeavesRoom` | src/core/tcp_out.c:417-446 | the lower bound on mss_local leaves room for data beside the timestamp option if and only if the size exceeds the padded option by itself |
| `TcpQueue.ClampTooSmall` | src/core/tcp_out.c:445-600 | with a window of 22 bytes the computed segment length wraps around |
| `TcpQueue.TruncateFlat` | src/core/tcp_out.c:935-941 | the part that stays holds the first bytes of the segment |
| `TcpQueue.SizeFallsIff` | src/core/tcp_out.c:417-446 | with a new maximum segment size or a new largest window, or both, the segment size falls if and only if the new maximum or half the new window, from 2 on, is below it |
| `TcpQueue.SizeForIff` | src/core/tcp_out.c:417-446 | so many bytes fit into a segment if and only if they fit into the maximum and into half the window, from 2 on; with timestamps 11 bytes always do |
| `TcpQueue.AbortsOnlyFallen` | src/core/tcp_out.c:486-487 | the assertion of tcp_write on the last segment fails only if the segment size has fallen |
| `TcpQueue.Pcb.Resize` | src/core/tcp_out.c:417-490 | after an MSS option or a larger window the queued segments stay valid, and the next tcp_write fails its assertion if and only if the last unsent segment with options and spare tail exceeds the new maximum or half the new window |
| `TcpQueue.Resum` | src/core/tcp_out.c:943-961 | re-summing the buffers that remain gives the checksum of the shortened segment |
| `TcpQueue.SplitSound` | src/core/tcp_out.c:827-990 | the two parts of a split carry the bytes of the whole with correct lengths and checksums |
| `TcpQueue.SplitSegment` | src/core/tcp_out.c:880-961 | both parts of the split, with lengths and checksums of their bytes |
| `TcpQueue.Pcb.Split` | src/core/tcp_out.c:827-990 | splits the first unsent segment at the given length, with the exact error in every other case; on any error the queue is as before |
| `TcpQueue.Pcb.EnqueueFlags` | src/core/tcp_out.c:1032-1130 | a segment without data that takes one sequence number is queued last, or nothing changes; it fails if and only if an allocation does |
| `TcpQueue.StrictIff` | src/core/tcp_out.c:1384-1405 | a queue is in strict order if and only if it is in order and no two of its segments share a number |
| `TcpQueue.InsertRising` | src/core/tcp_out.c:1384-1405 | inserting in front of the first segment that is not lower, or behind a last one that is not higher, keeps the order |
| `TcpQueue.FindPlace` | src/core/tcp_out.c:1384-1405 | the segment gets behind all of lower number and in front of the others, or last if its number is not below the last; the queue stays in order, whether numbers are shared or not |
| `TcpQueue.SendHead` | src/core/tcp_out.c:1372-1409 | the sent segment moves to its place, snd_nxt becomes the end of the segment if that is later and covers it, the cached tail is the real tail |
| `TcpQueue.SendOne` | src/core/tcp_out.c:1360-1409 | the same on both queues: all queued segments and their buffers are kept |
| `TcpQueue.SendWhile` | src/core/tcp_out.c:1326-1409 | the loop: it sends from the head until the queue is empty, the window is full or an attempt is not made; the sent segments are filed one after the other; snd_nxt covers all of them |
| `TcpQueue.MovedStrict` | src/core/tcp_out.c:1326-1409 | after the loop the unacknowledged queue is in strict order if and only if no two of the segments that got into it share a number |
| `TcpQueue.Pcb.SendAll` | src/core/tcp_out.c:1326-1420 | the part of tcp_output that sends: as for tcp_output |
| `TcpQueue.Pcb.Idle` | src/core/tcp_out.c:1246-1324 | the ways out before it: inside tcp_input, nothing to send, no route, a window that is too small; the error and TF_NAGLEMEMERR for each |
| `TcpQueue.Pcb.Output` | src/core/tcp_out.c:1237-1420 | no segment is lost or doubled, the unacknowledged queue stays in order whatever the order of the unsent one, strictly if and only if no two of its segments share a number; snd_nxt only grows, covers what was sent and stays within the stream; segments are sent from the head until the queue is empty, the window is full or an attempt is not made, and the error and TF_NAGLEMEMERR tell which |
| `TcpQueue.BackIn` | src/core/tcp_out.c:1744-1754 | the place in the unsent queue before the first segment that is not earlier |
| `TcpQueue.PutBack` | src/core/tcp_out.c:1738-1762 | the segment taken from the head of one queue is in the other, which stays in order, and in strict order if no number is shared |
| `TcpQueue.Pcb.Rexmit` | src/core/tcp_out.c:1724-1774 | the first unacknowledged segment goes back to its place, in order if the queue was; all segments are kept, nothing else changes; refused if and only if there is none or it is still in use |
| `TcpQueue.Pcb.RexmitRtoPrepare` | src/core/tcp_out.c:1631-1676 | all unacknowledged segments go in front of the unsent ones, unless one is still in use |
| `TcpQueue.FreeAcked` | src/core/tcp_in.c:1088-1126 | pops the longest acknowledged prefix and counts its buffers and bytes |
| `TcpQueue.DropAcked` | src/core/tcp_in.c:1088-1126 | a queue without its acknowledged front, the buffers and bytes of which are counted exactly |
| `TcpQueue.Pcb.Ack` | src/core/tcp_in.c:1198-1316 | an accepted acknowledgement removes acknowledged prefixes of both queues and returns their space; others change nothing |
| `TcpStream.StreamedPlaced` | src/core/tcp_out.c:1326-1409 | segments of a stream lie at different places within half the number space |
| `TcpStream.WriteStreamed` | src/core/tcp_out.c:390-812 | a write appends its bytes to the stream if it leaves the last unsent segment alone or that segment is last in sequence |
| `TcpStream.WriteBreaks` | src/core/tcp_out.c:516-588 | otherwise no order of the queued segments is a stream |
| `TcpStream.WriteStreamedIff` | src/core/tcp_out.c:390-812 | both directions: the stream survives a write if and only if that condition holds |
| `TcpConnection.StreamLen` | src/core/tcp_out.c:696-781 | both queues together hold as many bytes as the stream |
| `TcpConnection.SplitStreamed` | src/core/tcp_out.c:827-990 | splitting a segment does not change the stream |
| `TcpConnection.FlagsStreamed` | src/core/tcp_out.c:1032-1130 | queueing a flag adds one sequence number and no byte |
| `TcpConnection.AcceptsExactly` | src/core/tcp_in.c:1198-1228 | the acknowledgement tests accept a number if and only if it is new and not beyond snd_nxt, for every number a packet can carry |
| `TcpConnection.PoppedAllIff` | src/core/tcp_in.c:1088-1126 | popping heads removes every acknowledged segment if and only if those come first in the queue |
| `TcpConnection.SortedAckedFirst` | src/core/tcp_in.c:1284-1291 | in a sorted queue they do |
| `TcpConnection.AckStreamed` | src/core/tcp_in.c:1284-1291 | an acknowledgement takes whole segments off the front of the stream and nothing else |
| `TcpConnection.AckBreaks` | src/core/tcp_in.c:1284-1291 | an acknowledged segment that stays in a queue is in no stream of the bytes that are left |
| `TcpConnection.AckStreamedIff` | src/core/tcp_in.c:1284-1291 | both directions: the queues hold the stream of the bytes not acknowledged if and only if the acknowledged segments come first in the unsent queue |
| `TcpConnection.RtoSortedIff` | src/core/tcp_out.c:1656-1666 | a time-out leaves the unsent queue sorted if and only if the last unacknowledged segment precedes the first unsent one |
| `TcpConnection.Connection.constructor` | src/core/tcp_in.c:683-687 | a new connection carries the empty stream |
| `TcpConnection.Connection.Write` | src/core/tcp_out.c:390-812 | accepted bytes are appended to what was written, refused ones are not; the queues go on carrying the stream if and only if the write appends nothing to a segment that is not last in sequence, unless its assertion fails |
| `TcpConnection.Connection.Split` | src/core/tcp_out.c:827-990 | keeps the queues carrying the stream, and does what tcp_split_unsent_seg does |
| `TcpConnection.Connection.EnqueueFlags` | src/core/tcp_out.c:1032-1130 | keeps the queues carrying the stream as long as half the number space is not used up, for any number of segments without data |
| `TcpConnection.Connection.Output` | src/core/tcp_out.c:1237-1420 | keeps the queues carrying the stream, with the unacknowledged one in strict order |
| `TcpConnection.Connection.Rexmit` | src/core/tcp_out.c:1724-1774 | keeps the queues carrying the stream |
| `TcpConnection.Connection.Timeout` | src/core/tcp_out.c:1631-1676 | keeps the queues carrying the stream, even if the unsent queue gets out of order |
| `TcpConnection.Connection.Ack` | src/core/tcp_in.c:1198-1316 | exactly the segments that the number covers leave the stream; the queues go on carrying the rest if and only if the acknowledged segments come first in the unsent queue |
| `TcpConnection.Connection.Resize` | src/core/tcp_in.c:1157-1162 | keeps the queues carrying the stream, whether the segment size grows or falls |
| `TcpConnection.Connection.Step` | src/core/tcp_out.c:390-1774 | any of these: the invariant, what the event did, and the bytes accepted |
| `TcpConnection.Connection.Run` | src/core/tcp_out.c:390-1774 | a run goes through a sequence of states, each of which follows from the one before as the contract of that event says; up to the first event after which it is false, or at which an assertion fails, the queued segments in sequence order are contiguous, end at snd_lbb and carry exactly the accepted bytes that are not acknowledged; snd_buf plus those bytes is constant; unacked is sorted |
| `TcpConnection.AscendingIsSorted` | src/core/tcp_out.c:1384-1405 | comparing sequence numbers pairwise is the same as sorting by distance, for numbers within half the space |
| `TcpConnection.OrderedIsRising` | src/core/tcp_out.c:1384-1405 | the same of the order that allows shared numbers |
| `TcpConnection.AscendingIff` | src/core/tcp_out.c:1384-1405 | such an order is strict if and only if no number is shared |
| `TcpConnection.OutputOrdered` | src/core/tcp_out.c:1237-1420 | tcp_output keeps the unacknowledged queue in order and moves snd_nxt forward only, whatever the unsent queue looks like; the order is strict afterwards if and only if no two of the segments that end up there share a number |
| `TcpConnection.Step` | src/core/tcp_out.c:390-1774 | every event, safe or not, keeps the unacknowledged queue in order and never moves snd_nxt back |
| `TcpConnection.RunOrdered` | src/core/tcp_out.c:390-1774 | a run of all events, with the unsent queue in order or not, goes through a sequence of states as the contracts say; in every one of them unacked is in sequence order, strictly if and only if no number is shared, and snd_nxt never moves back, as long as the queued numbers lie within half the number space whenever tcp_output is called and no assertion of tcp_write fails |
| `TcpExamples.SendIt` | src/core/tcp_out.c:1237-1420 | a segment behind the stream is sent and becomes the last unacknowledged one |
| `TcpExamples.WriteAndSend` | src/core/tcp_out.c:390-1420 | a small write makes one segment, which is sent |
| `TcpExamples.TakenBack` | src/core/tcp_out.c:390-1774 | two writes are sent and the first segment is taken back by the real operations |
| `TcpExamples.WriteAfterRexmit` | src/core/tcp_out.c:516-588 | then the next write appends to it, so that its bytes get the numbers of the second segment and the queues hold no stream |
| `TcpExamples.SharedNumber` | src/core/tcp_out.c:827-1420 | then the segment is split and sent: two unacknowledged segments have one number, so that the order is not strict |
| `TcpExamples.TimeoutAfterRexmit` | src/core/tcp_out.c:1631-1676 | or the timer expires: the unsent queue is out of order and an acknowledgement of the first segment leaves it there |
| `TcpExamples.OneQueued` | src/core/tcp_out.c:390-812 | a new connection with one segment queued by tcp_write |
| `TcpExamples.SizeFalls` | src/core/tcp_out.c:486-487 | after any MSS option below it, or any window with half below it, the next tcp_write fails its assertion |
| `Select.WalkStaysOnList` | src/api/sockets.c:2576-2648 | the entry a walk turns to is in the list and its thread is still in select |
| `Select.RestartCovers` | src/api/sockets.c:1771-1816 | after a change of the list every walk starts again and comes to every linked thread |
| `Select.ScanPasses` | src/api/sockets.c:1835-1899 | the second scan passes a descriptor only if nothing it waits for has happened there |
| `Select.EventChecks` | src/api/sockets.c:2515-2546 | whenever a condition begins to hold the waiting threads are checked |
| `Select.StartKeeps` | src/api/sockets.c:1990-2034 | entering select keeps the invariant |
| `Select.LinkKeeps` | src/api/sockets.c:1771-1791 | linking the entry keeps the invariant |
| `Select.CountInKeeps` | src/api/sockets.c:2038-2070 | counting in keeps the invariant |
| `Select.CountPastKeeps` | src/api/sockets.c:2038-2070 | passing a descriptor, or leaving at one that cannot be counted, keeps the invariant |
| `Select.CountKeeps` | src/api/sockets.c:2038-2070 | incrementing select_waiting, with the overflow and bad-descriptor exits, keeps the invariant |
| `Select.ScanKeeps` | src/api/sockets.c:2072-2076 | the second scan keeps the invariant |
| `Select.WakeKeeps` | src/api/sockets.c:2077-2096 | waking up or timing out keeps the invariant |
| `Select.LeaveKeeps` | src/api/sockets.c:2098-2122 | decrementing select_waiting keeps the invariant |
| `Select.UnlinkKeeps` | src/api/sockets.c:1795-1816 | unlinking the entry keeps the invariant |
| `Select.DrainKeeps` | src/api/sockets.c:2124-2132 | taking a late signal keeps the invariant |
| `Select.HappenKeeps` | src/api/sockets.c:2477-2561 | an event keeps the invariant: it starts a walk whenever a thread is owed one |
| `Select.WalkKeeps` | src/api/sockets.c:2576-2648 | a round of a walk keeps the invariant |
| `Select.CloseKeeps` | src/api/sockets.c:2098-2122 | closing a watched socket keeps the invariant |
| `Select.RunKeeps` | src/api/sockets.c:1964-2148 | the invariant holds after every interleaving |
| `Select.WalkWakes` | src/api/sockets.c:2576-2648 | a walk that reaches a thread signals it within as many rounds as there are entries left |
| `Select.NoLostWakeUp` | src/api/sockets.c:1964-2148 | in any run, a thread blocked while something it waits for has happened has its semaphore signalled, or a walk on its way signals it |
| `Select.RunIsSafe` | src/api/sockets.c:1964-2648 | in any run a semaphore is signalled at most once per call and never left signalled, no walk follows an unlinked entry, select_waiting counts the waiting threads of every open socket |
| `Select.CanBlock` | src/api/sockets.c:1964-2096 | for any sets a thread gets through select and blocks as long as the scan finds nothing |
| `Select.AnnouncedExactly` | src/api/sockets.c:1866-1888 | a blocked thread is woken for a descriptor in every run that gets there if and only if a condition it watches holds there |
| `Select.ScanAnnouncedIff` | src/api/sockets.c:1866-1888 | what the scan would report is announced to a blocked thread if and only if it is not kept data alone |
| `Select.LeftoverIsNotAnnounced` | src/api/sockets.c:1866-1872 | data that another thread has kept back makes a socket readable for the scan without waking anybody |
| `Select.LeftoverAfterStaleWalk` | src/api/sockets.c:2576-2648 | a walk for data that was used up meanwhile may still wake the thread |
| `Descriptors.AllocUsed` | src/api/sockets.c:501-538 | taking a slot keeps fd_used equal to the number of uses |
| `Descriptors.AllocOwned` | src/api/sockets.c:501-538 | a slot in use or with a connection is not given out again |
| `Descriptors.GetKeepsIff` | src/api/sockets.c:335-369 | getting hold of a descriptor keeps the invariant if and only if fd_used does not wrap around |
| `Descriptors.DoneKeeps` | src/api/sockets.c:377-401 | letting go keeps the invariant; the last user of a closed descriptor frees it |
| `Descriptors.FreeKeeps` | src/api/sockets.c:548-611 | closing keeps the invariant; it frees at once if nobody else uses the descriptor |
| `Descriptors.RunKeepsIff` | src/api/sockets.c:335-611 | the invariant holds after every step of an interleaving if and only if no use in it makes fd_used wrap around |
| `Descriptors.FewUses` | src/api/sockets.c:335-369 | with at most 255 uses at a time none does; a thread in select has two |
| `Descriptors.WrapExample` | src/api/sockets.c:335-369 | with 256 uses fd_used is zero |
| `Descriptors.HeldConnIsStable` | src/api/sockets.c:460-470 | from getting hold of a descriptor to letting it go, in any interleaving, its connection is the same and is not deleted |
| `Descriptors.RunIsSafe` | src/api/sockets.c:335-611 | fd_used is the number of uses, every connection has one descriptor or was deleted once, a closed and unused descriptor has none |
| `Descriptors.PendingAssertion` | src/api/sockets.c:357-369 | the assertion that a descriptor to be freed is in use holds if and only if it still has its connection |
| `Descriptors.PendingAssertionFails` | src/api/sockets.c:357-369 | a run after which it does not hold |
| `PbufHeap.LastPointer` | src/core/pbuf.c:757-788 | when the last pointer goes, the buffer goes and its own link becomes the pointer to drop |
| `PbufHeap.StillReferenced` | src/core/pbuf.c:789-796 | otherwise only the count falls |
| `PbufHeap.ReferencedIff` | src/core/pbuf.c:829-836 | counting one more pointer in eight bits is right if and only if the count fits |
| `PbufHeap.Release` | src/core/pbuf.c:743-796 | the first buffers of the chain to which nothing else points are deallocated, the next loses one reference, nothing else changes |
| `PbufHeap.DroppedCount` | src/core/pbuf.c:743-796 | the number of deallocated buffers is that of the leading buffers with one reference |
| `PbufHeap.Heap.constructor` | src/core/pbuf.c:179-189 | no buffers, no pointers |
| `PbufHeap.Heap.Alloc` | src/core/pbuf.c:179-189 | a new buffer has one pointer |
| `PbufHeap.Heap.Ref` | src/core/pbuf.c:829-836 | one pointer more; the counts stay right if and only if there were fewer than 255 |
| `PbufHeap.RefExample` | src/core/pbuf.c:829-836 | with 256 pointers the count is zero |
| `PbufHeap.Heap.Free` | src/core/pbuf.c:725-800 | drops one pointer of the caller; counts equal pointers afterwards |
| `PbufHeap.LastOf` | src/core/pbuf.c:861-864 | the walk to the end of a chain |
| `PbufHeap.Heap.Cat` | src/core/pbuf.c:853-875 | the caller's pointer to the tail becomes a link, no count changes |
| `PbufHeap.Heap.ChainTo` | src/core/pbuf.c:895-901 | the tail is linked, the caller keeps its pointer and the count of the tail grows by one; right if and only if that fits into eight bits |
| `PbufHeap.Heap.Cut` | src/core/pbuf.c:448-457 | the link behind the last kept buffer is dropped |
| `PbufHeap.Heap.Dechain` | src/core/pbuf.c:912-940 | the answer "gone" is right if and only if the number of leading buffers behind the first that nothing else points to, before the call, is not a positive multiple of 256 |
| `PbufHeap.DechainExample` | src/core/pbuf.c:912-940 | with 257 unshared buffers it is wrong |
| `PbufHeap.Heap.Pop` | src/core/pbuf.c:671-688 | the caller's pointer moves on and takes over the link; the buffer loses the reference that led to it, or goes |
| `PbufHeap.Heap.FreeHeader` | src/core/pbuf.c:671-688 | the caller's pointer moves on to the buffer behind the header; the buffers before it have lost their links and one reference each, those with one only are gone, nothing else changes |
| `PbufHeap.Heap.Step` | src/core/pbuf.c:401-940 | one operation that a caller may ask for, with the new links, counts and pointers and its answer |
| `PbufHeap.Heap.Run` | src/core/pbuf.c:401-940 | a run of operations goes through a sequence of states, each of which follows from the one before as the contract of that operation says; in every one of them, up to an operation that makes a 256th pointer, every count is the number of pointers, held and linked, and no buffer without pointers exists |
| `PbufChain.Skip` | src/core/pbuf.c:1152-1166 | the buffer that holds the byte at an offset, none behind the end |
| `PbufChain.CopyPartial` | src/core/pbuf.c:1027-1057 | is a slice of the flat bytes |
| `PbufChain.GetAt` | src/core/pbuf.c:1371-1378 | is the byte at that position, zero behind the end |
| `PbufChain.MemCmp` | src/core/pbuf.c:1434-1461 | zero if and only if the bytes match, otherwise the first difference |
| `PbufChain.MemFind` | src/core/pbuf.c:1476-1489 | the least match, or 0xffff if there is none |
| `PbufChain.TakeFrom` | src/core/pbuf.c:1196-1226 | overwrites the flat bytes from the given buffer on |
| `PbufChain.Take` | src/core/pbuf.c:1196-1226 | overwrites a prefix, or refuses |
| `PbufChain.TakeAt` | src/core/pbuf.c:1240-1262 | overwrites in the middle if and only if the bytes lie inside |
| `PbufChain.CopySome` | src/core/pbuf.c:973-1009 | one round of the copy advances both cursors together, each to its next buffer if and only if it is used up |
| `PbufChain.TrackRound` | src/core/pbuf.c:973-1009 | where the cursors can stand after a round: the target buffers at which rounds end are those that the bytes of the source fill and need |
| `PbufChain.UsedUp` | src/core/pbuf.c:992-997 | the target runs out before the source in one case only: an empty last buffer |
| `PbufChain.NonEmptyPasses` | src/core/pbuf.c:999-1008 | without empty buffers no check fails |
| `PbufChain.Copy` | src/core/pbuf.c:961-1012 | what is reported as copied is a full copy; it succeeds if and only if the target is big enough and no round ends at a buffer, of the source or of the target, behind which there are only empty ones; which rounds there are is read off the lengths |
| `PbufChain.CopyExample` | src/core/pbuf.c:992-1008 | a byte that fits is refused because of an empty buffer behind it, and because of one behind the target |
| `PbufChain.Realloc` | src/core/pbuf.c:402-459 | the buffers up to the one in which the new length ends, that one cut, with exact totals |
| `Bytes.ShortenedConcat` | src/core/pbuf.c:402-459 | a shortened chain holds the first bytes and no others |
| `PbufChain.FreeHeader` | src/core/pbuf.c:671-688 | drops a prefix with exact totals |
| `PbufChain.Cat` | src/core/pbuf.c:853-875 | appends, with totals right modulo 65536 |
| `PbufChain.CountFront` | src/core/pbuf.c:1113-1130 | the front part is as long as its bytes can be counted in 16 bits, and no longer |
| `PbufChain.Split64k` | src/core/pbuf.c:1113-1147 | totals known modulo 65536 become exact in the front part, which is as long as it can be |
| `DnsTable.Rank` | src/core/dns.c:1047-1118 | the number of tries and ticks left of an entry is bounded, for any number of servers and retries |
| `DnsTable.FewerRank` | src/core/dns.c:1047-1118 | fewer kinds, servers, retries or ticks left, in this order of importance, is a lower rank |
| `DnsTable.AskedLowers` | src/core/dns.c:1066-1098 | every tick of an entry that is being asked for lowers its rank |
| `DnsTable.SecondChoice` | src/core/dns.c:1332-1346 | asking for the other kind of address lowers the rank |
| `DnsTable.LastTry` | src/core/dns.c:1257-1266 | skipping to the last retry does not raise it |
| `DnsTable.Resolver.constructor` | src/core/dns.c:299-301 | empty tables |
| `DnsTable.Resolver.CallFound` | src/core/dns.c:942-973 | calls every callback that waits for the entry, once, and no other |
| `DnsTable.Resolver.GiveUp` | src/core/dns.c:1350-1354 | the entry is unused and its callbacks have been called |
| `DnsTable.Resolver.Send` | src/core/dns.c:762-775 | a server that is not set ends the request |
| `DnsTable.Resolver.CreateTxid` | src/core/dns.c:1000-1018 | a number that no entry being asked for has; there is always one |
| `DnsTable.Resolver.CheckEntry` | src/core/dns.c:1047-1118 | the next state of an entry, and its rank falls |
| `DnsTable.Resolver.Tick` | src/core/dns.c:1124-1131 | the next state of every entry; every waiting request is answered or has one try less |
| `DnsTable.Resolver.CorrectResponse` | src/core/dns.c:1137-1164 | the entry is done, or unused for a zero time to live, and its callbacks have been called |
| `DnsTable.Resolver.AskNextServer` | src/core/dns.c:1251-1267 | after an error the next server is asked without raising the rank, or the request ends |
| `DnsTable.Resolver.AskOtherKind` | src/core/dns.c:1332-1354 | without an address the other kind is asked for with a lower rank, or the request ends |
| `DnsTable.Resolver.Receive` | src/core/dns.c:1195-1354 | only the entry with that transmission id changes, as the answer demands; no rank rises |
| `DnsTable.Resolver.FindFree` | src/core/dns.c:1447-1458 | the first free request |
| `DnsTable.Resolver.FindSlot` | src/core/dns.c:1414-1445 | an unused entry or the oldest completed one, never one being asked for; none if and only if there is none |
| `DnsTable.OneSlot` | src/core/dns.c:1414-1445 | there is at most one entry that the search may choose |
| `DnsTable.Resolver.Accept` | src/core/dns.c:1473-1475 | one more callback is waiting |
| `DnsTable.Resolver.Join` | src/core/dns.c:1387-1410 | a second request for the same name and kind waits for the same entry, if and only if a request is free |
| `DnsTable.Resolver.AskNew` | src/core/dns.c:1461-1503 | a new entry is asked for; the callback waits for it or has been called |
| `DnsTable.Resolver.Enqueue` | src/core/dns.c:1375-1503 | accepted if and only if a request is free and the name is being asked for or an entry and a port can be had; an accepted callback waits for an entry of its name or has been called; the table afterwards is given for every outcome: a refused request changes nothing, except that without a port the entry chosen for it is unused |
| `DnsTable.LosesIff` | src/core/dns.c:1447-1487 | a refused request loses a completed entry if and only if no port can be had, a request is free, the name is not being asked for, no entry is unused and a completed one can be chosen |
| `DnsTable.LosesEntry` | src/core/dns.c:1447-1487 | it does in a table of one entry that has been answered |
| `DnsTable.Resolver.SetServer` | src/core/dns.c:361-370 | one server is set or cleared at any time without harm |
| `DnsTable.Resolver.Run` | src/core/dns.c:942-1503 | in any run every accepted callback is called exactly once or is waiting, transmission ids stay distinct, and every request is answered after a bounded number of ticks |
| `DnsNames.PutName` | src/core/dns.c:788-809 | the encoded name, byte by byte, fills exactly the space allocated for it |
| `DnsNames.SkipName` | src/core/dns.c:708-739 | finds the end of every encoded name, and of a compressed one |
| `DnsNames.CompareName` | src/core/dns.c:651-698 | an encoded name that differs in case only compares equal and ends where it ends; a compressed one never does |
| `DnsNames.RoundTrip` | src/core/dns.c:777-818 | what dns_send writes both readers read back |
| `VectorWrite.TotalSize` | src/api/api_lib.c:1020-1028 | the overflow test is exact: the sum, or refusal if and only if it does not fit |
| `VectorWrite.Advance` | src/api/api_msg.c:1712-1725 | moving the cursor by the bytes written keeps it at the offset |
| `VectorWrite.SticksHere` | src/api/api_msg.c:1676-1697 | the loop sticks at a position if and only if the vector there is not the last and a multiple of 65536 bytes of it is left |
| `VectorWrite.Message.constructor` | src/api/api_lib.c:1042-1050 | the cursor at the start |
| `VectorWrite.Message.Len` | src/api/api_msg.c:1676-1697 | never more than the vector, the buffer space or 16 bits; zero only if one of the first two is |
| `VectorWrite.Message.Round` | src/api/api_msg.c:1676-1726 | another round means progress, or no progress for ever in exactly one situation |
| `VectorWrite.Message.Pass` | src/api/api_msg.c:1670-1727 | one pass of the loop with its exits: it goes on with progress, sticks for ever, finds no space, or is done; every byte written comes out of the buffer space |
| `VectorWrite.Message.Rounds` | src/api/api_msg.c:1670-1727 | the loop of one call: every byte written comes out of the buffer space; it ends done, without space or never, and it never ends, as long as tcp_write accepts what it is given, if and only if the buffer space runs out at a position that sticks |
| `VectorWrite.Message.WriteMore` | src/api/api_msg.c:1640-1803 | as long as tcp_write accepts what it is given, a call writes exactly what fits into the buffer space, and whether it is finished and with which error is given by that; a write that goes on later can do so from its cursor; the loop does not end if and only if the position at which the buffer space runs out lies in a vector that is not the last with a positive multiple of 65536 bytes left |
| `VectorWrite.Message.Write` | src/api/api_lib.c:1059-1073 | over all calls, what was written is a prefix of the vectors put together, and all of it if a blocking write ends well; as long as tcp_write accepts what it is given it is as long as the buffer space that there was in all, or everything |
| `VectorWrite.EndlessExample` | src/api/api_msg.c:1704-1726 | a write whose loop does not end |

## Left out

- TcpQueue.Pcb.Split: does not follow the packet buffer pool, because on failure the ownership of
  the new buffer passes through a function that is not part of the model.
- TcpQueue.Pcb.Write: requires a segment size above the length of the options, which is what
  ClampLeavesRoom is about; what happens after a failed assertion when assertions are compiled out is
  not modelled.
- TcpConnection.Connection.Run: FIN merged into a queued segment by `tcp_send_fin` is not modelled; the
  run stops at a write or an acknowledgement after which the claim is false, as Connection.Write and
  Connection.Ack say, at a write whose assertion fails, and when half the number space is in use.
- TcpConnection.RunOrdered: an acknowledged segment can stay in the unsent queue for as long as
  retransmissions keep putting others in front of it, so that the queued numbers lie within half the
  number space is a condition, looked at where tcp_output compares them; the run also stops at a write
  whose assertion fails.
- DnsTable.Resolver.Run: callbacks do not call the resolver; the reading of a packet up to its verdict
  is a parameter; whether a source port can be had is a parameter, not a count of open ones.
- DnsNames.CompareName: nothing is claimed for names that are not encodings of good host names.
- VectorWrite.Message.WriteMore: requests longer than SSIZE_MAX, which the source cuts short, and the
  readiness events are not modelled.
- Select.RunIsSafe: the list generation counter is unbounded, so 2^32 changes of the list between two
  steps of one walk are not covered; a closed socket keeps its surplus count and is not reopened.
- Descriptors.RunIsSafe: is about runs in which fd_used does not wrap around, see RunKeepsIff;
  `lwip_poll`, which keeps no record of what it holds, is not modelled.
- PbufHeap.Heap.Run: custom buffers and pools are not distinguished.
- PbufHeap.Heap.FreeHeader: counts the buffers that the header covers; their bytes are in PbufChain.FreeHeader.
- Heap.Heap.Run: user data and guard bytes are not modelled; pointers are offsets.
- The first and last scan of `select`, which touch no shared state, and `lwip_poll`.
- Chain contents are modelled as lists of byte strings, so payloads shared by two buffers are not captured.
- Segments and packet buffers of the TCP queues are values; header flags such as PSH, window and
  Nagle decisions, persist and retransmission timers, IP output and routing are arbitrary choices or absent.
- TCP input apart from acknowledgements, listening and connecting, out-of-order data.
- Socket options, address conversion, netdb, altcp, raw, message passing of tcpip.c, fixed-size pools:
  they would only add easy members.
- Drivers and operating system ports.
