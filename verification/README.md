# Verified models of four small systems programs

This project models four independent programs of the repository in Dafny and proves what each of them is for:

* `hw4_os/pfind.c`: a parallel directory search with N worker threads, direct hand-over of directories to idle
  threads, failing workers and termination detection by the main thread;
* `hw1_os/pt.c` and `hw1_os/os.c`: a five-level page table that lives in simulated physical memory;
* `hw3_os/message_slot.c`: a character device that keeps the last message of every channel;
* `hw5_os/pcc_client.c` and `hw5_os/pcc_server.c`: a client and a server that count printable characters.

`dafny verify dfyconfig.toml` checks everything.

## The parallel search

`SearchProtocol` is a step machine: one program counter per thread, the owners of `search_mutex`, `finish_mutex` and
`queue_mutex`, the directory queue, the FIFO queue of idle threads, `dir_to_handle` of every thread, the flags and the
counters. `Next` is one step of one thread, `Enabled` says when it can be taken (a mutex must be free, a waiting
thread must have been signalled) and `Safe` what the code takes for granted there: a dequeued queue is not empty,
`dir_to_handle` has been initialised before it is read, a mutex is released by its owner. The fields `log`, `order`,
`claims` and `dead` record history and are read by no step. `SearchTree` defines the sequential search that serves as
reference: a depth-first log of scanned directories and printed paths, and separately the recursive count of matching
files.

`SearchInvariant` states the inductive invariant; `SearchPreservation` shows that every step of every thread keeps it,
and that it implies `Safe`. `SearchLedger` shows that every step conserves the work still owed under any weighting of
events. `SearchProgress` shows that some thread can always move and gives a measure that every step decreases.
`SearchPlaces` follows each directory from the step that discovers it: finished, queued, handed over, scanned or
abandoned. `SearchOrder` follows the order in which directories and idle threads are served, and the threads that
fail. `SearchTrails` says what there is to be found without searching. `SearchTheorems` puts these together for whole
runs, for every number of threads, every finite tree and every interleaving. `LinkedQueues` models the two doubly
linked queues on the heap and proves that they refine sequences, which is what the step machine uses.

Assumptions:

* N >= 1; the tree is finite and static; `malloc` succeeds; `opendir` and `stat` may fail at any time.
* Each read of a shared counter is one atomic step. Main reads the directory count, the idle count and the failure
  count in separate steps, without `queue_mutex`. Statements that touch only data guarded by a mutex their thread
  holds are grouped into one step with their neighbour.
* `pthread_cond_wait` returns only after a signal on its own condition variable, and its thread then competes for the
  mutex.
* A listing may contain any names. Where a statement speaks of directories being scanned once, names in one listing
  are distinct and contain no separator (`WellFormed`), as file systems guarantee.

## The page table

`Words` models 64-bit words as bounded integers; shifts lose the bits they lose in C, and the bitwise or that `|=`
performs is computed bit by bit. `PhysicalMemory.Memory` holds the frames as arrays of 512 words, `nalloc`, and two
ghost fields: where each frame sits in the forest of page tables, and the mapping. Its invariant `Fits` prescribes
every word of every frame from these two: zero, or a frame number and the valid bit. Memory runs out at 2^20 frames,
and every run theorem says exactly when. `PageTable` proves what the changes of memory keep, the exact accounting of
frames, and the laws of the mapping; `PageTableRuns` proves that runs of operations on the frames refine runs on the
mapping.

A page number is taken modulo 2^45 and a frame number modulo 2^52, as the macros do; with arguments in the promised
ranges these are the arguments themselves. `PageNumberComesBack` gives the exact condition. `errx` is modelled as an
outcome.

## The message slots

Kernel memory is a map from addresses to blocks, so that each dereference and each `kfree` carries the obligation that
the address is live. `kmalloc` may return any address not in use; `krealloc` may stay or move. The specification in
`MessageSlot` is a map from (minor, channel) to the last message together with the open files; `MessageDevice.Driver`
works on the linked lists and refines it. Opening a minor outside 0..255, or using a closed descriptor, is refused by
the kernel before the driver is reached.

## The printable-character counter

Sockets and files are `Descriptors.Descriptor`: a read delivers any non-empty prefix of what is left, or fails; a
write takes any non-empty prefix or fails. Once nothing is left a read gives zero if the peer has closed its end, and
never returns if the peer keeps it open. A descriptor declared steady does not fail. `uint32_t` counters wrap
(`Wrap`), and the client's `int` parameter is signed (`AsInt`). A client and the server are composed by feeding the
bytes that one wrote to the other, which is enough because the client reads nothing before it has written everything.
While it waits for the count the client keeps its end open, and the server keeps its own open exactly while it is
still waiting; so a client that announces more than it sends leaves both waiting for ever, and the server never
accepts the next connection.

## Model

| member | source | states |
|---|---|---|
| `SearchTree.HitsAreCounted` | hw4_os/pfind.c:284-348 | the matching paths of the sequential search number exactly the recursive count of matching non-directories below searchable directories |
| `SearchTree.SearchJobNoRepeats` | hw4_os/pfind.c:288-296 | with distinct separator-free names in each listing, the sequential search scans no directory and prints no path twice |
| `SearchTrails.ContainsIsSubstring` | hw4_os/pfind.c:339-339 | the name test holds exactly if the term occurs at some position of the name |
| `SearchTrails.SearchFindsExactly` | hw4_os/pfind.c:284-348 | the sequential search scans its root and exactly the directories, and prints exactly the files whose name contains the term, to which a trail leads: entries in each other's listings, through searchable directories, none of them `.` or `..`, the path being the names joined by `/` |
| `SearchInvariant.InitInv` | hw4_os/pfind.c:517-522 | the state main leaves behind after `main_init`, for any N >= 1, satisfies the invariant |
| `SearchInvariant.Census` | hw4_os/pfind.c:535-535 | idle and failed threads together never exceed N, and number N exactly when every thread is one or the other |
| `SearchInvariant.InvSafe` | hw4_os/pfind.c:102-138 | the invariant gives every enabled step what its code takes for granted: non-empty queues, initialised `dir_to_handle`, mutexes released by their owners |
| `SearchPreservation.StepKeeps` | hw4_os/pfind.c:378-449 | every enabled step of every thread is safe and keeps the invariant |
| `SearchPreservation.RunKeeps` | hw4_os/pfind.c:359-451 | every run keeps the invariant |
| `SearchLedger.StepTotal` | hw4_os/pfind.c:313-347 | under any weighting of events, one step leaves unchanged the sum of the finished part, the queued directories, and what each thread scans, was handed or abandoned |
| `SearchProgress.NoDeadlock` | hw4_os/pfind.c:380-417 | until main has printed some thread can move, although main locks finish then queue and workers queue then finish |
| `SearchProgress.NoLostWakeup` | hw4_os/pfind.c:535-538 | main asleep with its exit condition true implies a worker that holds `finish_mutex` and is at its signal |
| `SearchProgress.StepShrinks` | hw4_os/pfind.c:378-449 | every step decreases one integer measure of unvisited entries, unclaimed directories, wake-ups and control positions |
| `SearchProgress.RunsAreBounded` | hw4_os/pfind.c:378-449 | the measure at the start bounds the length of every run |
| `SearchTheorems.WorkConservation` | hw4_os/pfind.c:313-327 | in every reachable state, failures included, log, queue and thread debts add up to the sequential search under any weighting, and `g_files_found` is the number of hits in the log |
| `SearchPlaces.StepPlaces` | hw4_os/pfind.c:288-348 | the step that reads the entry of a searchable directory gives that directory one place; no other step changes how many places any directory is in |
| `SearchPlaces.RunPlaces` | hw4_os/pfind.c:378-449 | along every run no directory loses a place, and it gains one exactly if the run reads its entry |
| `SearchTheorems.OnePlace` | hw4_os/pfind.c:426-447 | in every reachable state, failures included, the root and every searchable directory whose entry has been read is in exactly one of: finished, queued, handed over, being scanned, abandoned; every other directory is in none |
| `SearchTheorems.NeverLost` | hw4_os/pfind.c:313-327 | a directory that was in any place, or was claimed, at an earlier moment of a run is in exactly one place at its end |
| `SearchTheorems.ParallelRefinesSequential` | hw4_os/pfind.c:530-560 | with no failed worker main prints the recursive count, and the scanned directories and printed paths are those of the sequential search, once each |
| `SearchTheorems.ParallelFindsExactly` | hw4_os/pfind.c:284-348 | with no failed worker, the directories scanned and the paths printed by a completed run are exactly the root and what such trails lead to |
| `SearchTheorems.FailuresAreFaults` | hw4_os/pfind.c:80-90 | over every run a worker is failing or has failed exactly if an `opendir` or `stat` of its failed; when main has printed, the workers counted as failed are exactly these |
| `SearchOrder.FaultsArePossible` | hw4_os/pfind.c:298-298 | such a failure is possible exactly when a directory is about to be opened and at every entry but `.` and `..` |
| `SearchTheorems.FailuresOnlyLose` | hw4_os/pfind.c:80-90 | with failures, printed count plus the hits in abandoned and leftover directories is the recursive count; only failed threads abandon, and directories are left only when all failed |
| `SearchTheorems.TerminationDetectionIsSound` | hw4_os/pfind.c:530-539 | whenever main leaves its loop no directory is being scanned or awaits a woken thread, and the directory queue is empty or all threads failed |
| `SearchTheorems.SchedulerExclusion` | hw4_os/pfind.c:244-271 | once the root is claimed a non-empty idle queue implies an empty directory queue; no thread is queued twice; queued threads have no directory and have not failed; idle plus failed is at most N |
| `SearchTheorems.FirstClaim` | hw4_os/pfind.c:398-413 | nothing is claimed before the ready flag is up, and the first claim is the root, by the first thread that enqueued |
| `SearchTheorems.DirectoriesInOrder` | hw4_os/pfind.c:426-436 | over every run the directories claimed from the queue, in order, followed by those still queued, are the root followed by the subdirectories published while nobody was idle, in order |
| `SearchTheorems.LongestIdleIsServed` | hw4_os/pfind.c:313-321 | in every reachable state the idle queue is the latest part of the order in which threads became idle, and a subdirectory published while threads are idle is handed to the one that has been idle longest |
| `SearchTheorems.ReadyIsRaisedOnceByTheLast` | hw4_os/pfind.c:398-406 | the ready flag stays up, and the step that raises it is taken by the last of N threads, all of which have enqueued |
| `SearchTheorems.MainIsNeverForgotten` | hw4_os/pfind.c:395-396 | in every reachable state in which main sleeps with its exit condition true some worker can take the step that wakes it |
| `SearchTheorems.EveryRunTerminates` | hw4_os/pfind.c:535-560 | every run has at most 35N + 37 + cost(tree) steps, a run that cannot be continued has main printed and all workers exited, and enabled steps are safe |
| `SearchTheorems.CanFinish` | hw4_os/pfind.c:547-558 | from every state satisfying the invariant there is a run in which main prints |
| `LinkedQueues.Queue.constructor` | hw4_os/pfind.c:190-202 | a new queue is valid and empty |
| `LinkedQueues.Queue.Enqueue` | hw4_os/pfind.c:150-163 | links an entry that is not in the queue, new or removed before, as the newest; both link directions, head, tail and count match the sequence |
| `LinkedQueues.Queue.Dequeue` | hw4_os/pfind.c:102-138 | returns the oldest entry and leaves the rest, in order and consistently linked |
| `LinkedQueues.ThreadEnqueue` | hw4_os/pfind.c:166-188 | also clears `dir_to_handle`, and no other entry's |
| `LinkedQueues.DirEnqueue` | hw4_os/pfind.c:140-164 | allocates the entry and appends it |
| `LinkedQueues.IsThreadInQueue` | hw4_os/pfind.c:230-242 | decides exactly whether an entry of that thread is in the queue |
| `LinkedQueues.FirstInFirstOut` | hw4_os/pfind.c:102-188 | over every mix of operations, what came out followed by what is left is what went in, in order |
| `LinkedQueues.QueueServes` | hw4_os/pfind.c:102-188 | every insertion appends its value, and every removal from a non-empty queue takes one out |
| `LinkedQueues.RunQueue` | hw4_os/pfind.c:102-164 | the directory queue, whose entries are allocated on insertion, refines that run over sequences |
| `LinkedQueues.LongestIdleFirst` | hw4_os/pfind.c:381-389 | over every mix of guarded insertions and removals threads leave in the order in which they entered, and none is queued twice |
| `LinkedQueues.ThreadsAreServed` | hw4_os/pfind.c:386-389 | a thread that goes idle is in the queue then, entering only if it was not, and some thread leaves whenever one is idle |
| `LinkedQueues.RunThreads` | hw4_os/pfind.c:386-389 | the thread queue over one fixed entry for each thread, inserted again and again under the guard of `is_thread_in_queue`, refines that run |
| `Words.OrIsBitwise` | hw1_os/pt.c:17-19 | each bit of a bitwise or is set exactly if it is set in one of the operands |
| `Words.OrIntoZero` | hw1_os/pt.c:19-19 | a bitwise or into zero stores the operand |
| `Words.OrLowBit` | hw1_os/pt.c:17-17 | a bitwise or of one onto a word without the valid bit adds one |
| `Words.ShiftLeft12` | hw1_os/pt.c:19-19 | a shift by twelve keeps the low 52 bits |
| `PageTable.SlicesAreDigits` | hw1_os/pt.c:10-14 | the five indices are the base-512 digits of the low 45 bits |
| `PageTable.SlicesInjective` | hw1_os/pt.c:14-14 | two page numbers share all indices exactly when they agree on their low 45 bits |
| `PageTable.ForestGrows` | hw1_os/pt.c:43-44 | adding a root, or a child below an existing node, keeps every frame at exactly one place and depth |
| `PageTable.FitsNewRoot` | hw1_os/os.c:17-36 | a zeroed frame is an empty table and disturbs no mapping |
| `PageTable.FitsNewChild` | hw1_os/pt.c:36-45 | the entry of a missing child is zero; with the new frame number and the valid bit in it, memory holds the extended forest and the same mapping |
| `PageTable.FitsUpdate` | hw1_os/pt.c:64-70 | rewriting one last-level entry gives the memory of the updated mapping |
| `PageTable.EntryNamesChild` | hw1_os/pt.c:36-48 | above the last level the valid bit is set exactly when the child exists, and the frame number is the child's |
| `PageTable.NoFrameHasTwoParents` | hw1_os/pt.c:16-19 | above the last level invalid entries are zero, valid ones name an allocated frame one level deeper, and no frame is named twice |
| `PageTable.EntryHoldsMapping` | hw1_os/pt.c:86-92 | at the last level the entry is valid exactly when the page is mapped, and holds its frame number |
| `PageTable.FitsUnique` | hw1_os/pt.c:74-94 | forest and mapping determine every word of memory |
| `PageTable.FramesPerUpdate` | hw1_os/pt.c:32-49 | a mapping update needs at most four frames, and none exactly when the node of its 36-bit prefix exists |
| `PageTable.MappedPagesAreMapped` | hw1_os/pt.c:56-59 | the pages counted are exactly those that some mapping update of the run names |
| `PageTable.ForestRootsBelow` | hw1_os/os.c:26-35 | every node belongs to a root whose number lies below the frame count, so the next frame number names no table yet |
| `PageTable.RunAccounted` | hw1_os/pt.c:32-49 | over any legal run, through tables that exist before it or are created in it, the nodes are the roots and the places on the way to pages ever mapped, and roots grow by the bare allocations |
| `PageTable.FramesAfterRun` | hw1_os/os.c:17-36 | a legal run from an empty memory needs exactly its bare allocations plus, for k = 1..4, the distinct (root, first k indices) among pages ever mapped |
| `PageTable.UpdateChangesOneAnswer` | hw1_os/pt.c:54-72 | an update changes the answer for its own page of its own table, to the new frame or NO_MAPPING, and no other answer |
| `PageTable.RunAnswersAreLatest` | hw1_os/pt.c:74-94 | over any run each query answers with the latest update to its page |
| `PageTable.OtherTablesDoNotMatter` | hw1_os/pt.c:54-94 | a run that updates only other tables leaves the mapping of every page of this one |
| `PageTable.PageNumberComesBack` | hw1_os/pt.c:18-19 | a query after an update returns the same frame number exactly when it fits in 52 bits or is NO_MAPPING |
| `PhysicalMemory.SetFrame` | hw1_os/pt.c:19-19 | into a zero entry, or one with only the valid bit, the frame number is stored exactly |
| `PhysicalMemory.SetValid` | hw1_os/pt.c:17-17 | sets the valid bit and nothing else |
| `PhysicalMemory.PointEntry` | hw1_os/pt.c:43-44 | a zero entry becomes frame number and valid bit; the other entries stay |
| `PhysicalMemory.StoreLeaf` | hw1_os/pt.c:65-70 | whatever the entry held, it becomes zero or the new mapping; the other entries stay |
| `PhysicalMemory.Memory.AllocPageFrame` | hw1_os/os.c:17-36 | hands out the next number with a zeroed frame, distinct from all others, or ends the process exactly when 2^20 are in use |
| `PhysicalMemory.Memory.Follow` | hw1_os/os.c:38-48 | the physical address built from an allocated frame number leads back to that frame |
| `PhysicalMemory.Memory.NewTable` | hw1_os/os.c:17-36 | a frame allocated by a client is the root of an empty table; mapping and other frames stay |
| `PhysicalMemory.Memory.AddChild` | hw1_os/pt.c:41-44 | the walk's allocation keeps the memory valid and the mapping unchanged, and adds exactly the missing node |
| `PhysicalMemory.Memory.WalkStep` | hw1_os/pt.c:33-48 | one level: arrives at the child, adding it if missing and asked to; stops exactly when it is missing and must not or cannot be added |
| `PhysicalMemory.Memory.PageWalk` | hw1_os/pt.c:27-52 | every iteration keeps the memory valid; the walk ends at the node of the 36-bit prefix with exactly the missing nodes added, or says why not |
| `PhysicalMemory.Memory.PageTableUpdate` | hw1_os/pt.c:54-72 | the mapping changes by exactly this update; the process ends exactly when the frames do not suffice; at most four frames are taken, and none exactly when unmapping or when the node of the 36-bit prefix exists |
| `PhysicalMemory.Memory.PageTableQuery` | hw1_os/pt.c:74-94 | answers from the mapping and leaves every word of memory as it was |
| `PhysicalMemory.Memory.FramesAreNodes` | hw1_os/os.c:17-36 | the frames handed out number the nodes of the forest |
| `PageTableRuns.RunOp` | hw1_os/pt.c:54-94 | one operation goes through exactly when the nodes then needed fit in memory, with the answer and the mapping of the specification |
| `PageTableRuns.RunOps` | hw1_os/pt.c:27-94 | a legal run on the frames gives the answers, the mapping and the nodes of the run on the mapping; it goes through exactly when its nodes fit, and otherwise ends at the first operation whose nodes do not |
| `PageTableRuns.FromEmptyMemory` | hw1_os/os.c:50-61 | over any legal run from an empty memory, with any number of tables, every query answers with the latest update or NO_MAPPING; the run goes through exactly when the frames it needs exist, and then `nalloc` is exactly that number |
| `PageTableRuns.RunElsewhere` | hw1_os/pt.c:54-94 | isolation on the frames: any legal run that updates only other tables, new ones and bare allocations included, has its full effect (answers, mapping, nodes, exact success condition) and leaves what every page of this table maps to |
| `PageTableRuns.QueryAround` | hw1_os/pt.c:74-94 | a query before and a query after such a run, carried out in full, give the same answer |
| `MessageSlot.StoreHoldsTheLatestWrite` | hw3_os/message_slot.c:140-198 | after any run the map holds, for a channel, the bytes of the latest successful write to it |
| `MessageSlot.ReadReturnsTheLatestWrite` | hw3_os/message_slot.c:105-138 | a read through any file on that channel returns exactly those bytes, or ENOSPC exactly when the buffer is shorter, and consumes nothing |
| `MessageSlot.ReadBeforeAnyWrite` | hw3_os/message_slot.c:122-125 | before any successful write to the channel a read gives EWOULDBLOCK |
| `MessageSlot.WritesThatSucceed` | hw3_os/message_slot.c:140-198 | after any run a message is accepted exactly if the file is open with a channel and the message has 1 to 128 bytes, otherwise EINVAL or EMSGSIZE in that order; and an accepted message is what a read gives next |
| `MessageSlot.ReadsThatFail` | hw3_os/message_slot.c:111-114 | a read through a file without a channel gives EINVAL |
| `MessageSlot.CallsThatSucceed` | hw3_os/message_slot.c:200-216 | opens succeed exactly for minors below 256; ioctls exactly with the command `_IOW(240, 0, unsigned long)` and a non-zero channel |
| `MessageSlot.OpenFilesWereOpened` | hw3_os/message_slot.c:80-103 | a descriptor is open after a run exactly if a successful open of it was followed by no release |
| `MessageSlot.MinorIsFromOpen` | hw3_os/message_slot.c:84-84 | an open file has the minor it was last opened with |
| `MessageSlot.ChannelIsFromIoctl` | hw3_os/message_slot.c:212-213 | an open file has the channel of the latest successful ioctl on it since it was opened |
| `MessageSlot.NoChannelWithoutIoctl` | hw3_os/message_slot.c:111-114 | an open file without a successful ioctl since it was opened has no channel |
| `MessageSlot.StoredMessagesFit` | hw3_os/message_slot.c:151-154 | no run stores an empty or overlong message, or one under channel zero |
| `MessageSlot.IdsAreDistinct` | hw3_os/message_slot.c:27-41 | two channels in one slot's list never share an id |
| `MessageSlot.OpenKeeps` | hw3_os/message_slot.c:70-78 | a new empty slot keeps the memory well formed and every message in place |
| `MessageSlot.RewriteKeeps` | hw3_os/message_slot.c:172-194 | replacing a channel's buffer, in place or moved, keeps the memory well formed and changes that message alone |
| `MessageSlot.ExtendKeeps` | hw3_os/message_slot.c:27-41 | a channel put at the head with its first message keeps the memory well formed and adds that message alone |
| `MessageDevice.Driver.constructor` | hw3_os/message_slot.c:21-21 | a loaded driver has no slots, no files and no memory |
| `MessageDevice.Driver.FindChannel` | hw3_os/message_slot.c:43-52 | finds the channel's node exactly when the channel has been written to |
| `MessageDevice.Driver.AddChannel` | hw3_os/message_slot.c:27-41 | an inactive node without buffer becomes the head, linked to the old head |
| `MessageDevice.Driver.InitSlot` | hw3_os/message_slot.c:70-78 | gives the minor a slot, and only that minor |
| `MessageDevice.Driver.Open` | hw3_os/message_slot.c:80-94 | the file opens without a channel; existing messages stay |
| `MessageDevice.Driver.Release` | hw3_os/message_slot.c:96-103 | closing a file keeps every message |
| `MessageDevice.Driver.Ioctl` | hw3_os/message_slot.c:200-216 | EINVAL for another command or channel zero, else the file gets the channel |
| `MessageDevice.Driver.Read` | hw3_os/message_slot.c:105-138 | the linked lists give the map's answer, errors included |
| `MessageDevice.Driver.Place` | hw3_os/message_slot.c:161-194 | what the second half of a write does to memory when the channel exists and when it does not |
| `MessageDevice.Driver.Deposit` | hw3_os/message_slot.c:156-194 | afterwards the map holds the message under (minor, channel) and is otherwise unchanged |
| `MessageDevice.Driver.Write` | hw3_os/message_slot.c:140-198 | the map's answer and the map's new state, errors included |
| `MessageDevice.Driver.RunCalls` | hw3_os/message_slot.c:80-216 | every run of calls over any files gives the answers of the map and keeps the invariant |
| `MessageDevice.Driver.FreeNode` | hw3_os/message_slot.c:57-62 | the link is read while the node is live; buffer and node are live when freed |
| `MessageDevice.Driver.FreeChannelList` | hw3_os/message_slot.c:54-64 | frees the nodes and buffers of that list and nothing else |
| `MessageDevice.Driver.FreeSlot` | hw3_os/message_slot.c:252-257 | frees one minor's slot and list and nothing else |
| `MessageDevice.Driver.Cleanup` | hw3_os/message_slot.c:247-258 | from every valid state nothing stays allocated, and the addresses freed are, with multiplicity, the addresses ever allocated |
| `PrintableCount.PrintableBytes` | hw5_os/pcc_server.c:59-62 | a one-byte stream counts one exactly if its byte is in 32..126 |
| `PrintableCount.PrintablesConcat` | hw5_os/pcc_server.c:123-153 | the count of two pieces of a stream is the sum of their counts, so the bytes alone determine it |
| `PrintableCount.TalliesCountBytes` | hw5_os/pcc_server.c:23-28 | a histogram has 95 cells, and cell b - 32 counts the occurrences of byte b, modulo 2^32 |
| `PrintableCount.CellsCountPrintables` | hw5_os/pcc_server.c:59-77 | the 95 cells together count exactly the bytes in 32..126 |
| `PrintableCount.TalliesAppend` | hw5_os/pcc_server.c:69-74 | one more byte raises its own cell, modulo 2^32, or none |
| `PrintableCount.TalliesSum` | hw5_os/pcc_server.c:79-85 | the cells add up to the printable bytes seen, modulo 2^32 |
| `PrintableCount.WireRoundTrip` | hw5_os/pcc_client.c:158-170 | a number sent as four bytes is read back as the same number |
| `PrintableCount.WireKeepsOrder` | hw5_os/pcc_client.c:158-163 | most significant byte first: of two numbers the smaller has the smaller byte where their wires first differ |
| `PrintableCount.WireIsFull` | hw5_os/pcc_server.c:119-120 | four full bytes are the largest 32-bit number |
| `PccServer.RepliesCountServedBytes` | hw5_os/pcc_server.c:266-277 | replies of completed sessions add up to the printable bytes of those sessions, modulo 2^32 |
| `PccServer.TotalsMatchReplies` | hw5_os/pcc_server.c:276-281 | totals that hold just the completed sessions add up to the counts replied in them, modulo 2^32 |
| `PccServer.Server.UpdateClient` | hw5_os/pcc_server.c:64-77 | the client histogram takes in the buffer, and the result is its number of printable bytes |
| `PccServer.Server.UpdateTotal` | hw5_os/pcc_server.c:79-85 | the total histogram takes in the client's |
| `PccServer.Server.ResetClient` | hw5_os/pcc_server.c:87-93 | the client histogram is that of no bytes |
| `PccServer.Server.ReadStreamSize` | hw5_os/pcc_server.c:95-121 | consumes exactly four bytes however they arrive and decodes them; on a steady connection exactly when fewer come it gives up, or waits for ever if the client keeps its end open |
| `PccServer.Server.ReadStream` | hw5_os/pcc_server.c:123-153 | counts a prefix of at least the announced length, and less than one buffer beyond it; waits for ever only on a client that keeps its end open and sent too little; exact conditions on a steady connection |
| `PccServer.Server.SendCount` | hw5_os/pcc_server.c:155-175 | succeeds exactly when all four bytes went out |
| `PccServer.Server.CountPiece` | hw5_os/pcc_server.c:130-147 | whatever one read delivers is counted, cell by cell and in total |
| `PccServer.Server.Serve` | hw5_os/pcc_server.c:242-281 | totals change exactly when the whole reply went out, and then by exactly the bytes consumed; on a steady connection a client that sends enough is served, and one that sends too little is dropped or waited for as its end is closed or open |
| `PccServer.Server.Run` | hw5_os/pcc_server.c:229-282 | over any connections, failing at the size, stream or reply stage: a session completed exactly if its connection carries the full reply; each total cell is, modulo 2^32, that character's occurrences over completed sessions only, and the cells sum to the counts replied; every connection is served unless one leaves the server waiting for ever |
| `PccClient.WriteAll` | hw5_os/pcc_client.c:52-65 | all bytes go out in order under every schedule of short writes |
| `PccClient.SendBuffer` | hw5_os/pcc_client.c:41-65 | one buffer of the file is read and sent whole; nothing is read exactly at the end of the file |
| `PccClient.WriteFile` | hw5_os/pcc_client.c:33-67 | sends a prefix of the file: at least the limit where the file has that much, hence all of it when the limit is its length, and none when the limit is not positive |
| `PccClient.SendFile` | hw5_os/pcc_client.c:133-165 | sends the length modulo 2^32 and then the whole file below 2^31 bytes; nothing where the length is negative or zero as an `int`; otherwise at least the announced number of bytes and, where the signed total cannot overflow, not the whole file |
| `PccClient.ReadResult` | hw5_os/pcc_client.c:69-87 | decodes the first four bytes however they arrive; on a steady connection exactly when fewer come it spins at the end of the stream, or waits for ever if the server keeps its end open |
| `PccClient.Exchange` | hw5_os/pcc_server.c:242-281 | given what a client sent: a sufficient stream is counted and the count printed; a short one leaves client and server waiting for each other and the totals alone |
| `PccClient.CountFile` | hw5_os/pcc_client.c:158-172 | for files of every length and every schedule of short reads and writes: below 2^31 bytes the client prints the number of the file's bytes in 32..126 and the totals grow by the file; client and server wait for each other exactly when the length is negative as an `int`; otherwise only a proper prefix of at least the announced length is counted |

## Left out

- `hw2_os`: a shell made of process and signal system calls, with little logic of its own.
- `hw3_os/message_sender.c`, `hw3_os/message_reader.c`, `hw3_os/my_tester.c` and `hw4_os/tester (1).py`: command-line
  wrappers and test generators.
- Out-of-memory outcomes of `malloc`, `mmap`, `kmalloc` and `krealloc`, and failing user copies; running out of page
  frames is modelled.
- Spurious wake-ups: the startup hand-over at hw4_os/pfind.c:405-412 and the lock order at hw4_os/pfind.c:539-549 rely
  on their absence.
- The command line of `pfind`, path-length limits, symbolic links, the exit code, the "Permission denied" lines, and
  overflow of `g_files_found`.
- Concurrent calls into the message slot driver, which takes no locks: calls happen one at a time.
- Writes that block because the peer does not read, SIGINT handling of the server, `accept` failures and the socket
  set-up of both programs.
- PccClient.WriteFile: from 2^32 bytes on, a length whose low 32 bits lie within one buffer below 2^31 lets
  `total_bytes_read` overflow, which C leaves undefined; the model wraps it and gives no upper bound on the bytes then
  sent.
- PccClient.SendFile: for the same lengths it is not claimed that part of the file stays unsent.
- PccClient.CountFile: from 2^32 bytes on the client may send up to a buffer more than it announced; the model lets
  the reply arrive all the same, while a real server may close the connection on the unread bytes.
- Operations through a frame that was not allocated as a root: callers owe a root, allocated before the run or in it
  (`LegalRun`).
