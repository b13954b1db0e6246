# Verified models of SapphireDB's concurrent, network and formatting core

Dafny models of the parts of the repository whose correctness is least visible from their code, with
proofs of what they keep over whole runs.

* **Bounded queue and asynchronous log worker** (`MpmcQueue`, `MpmcSafety`, `MpmcTheorems`, `MpmcObject`,
  `AsyncHelper`, `AsyncSafety`, `AsyncFlush`, `AsyncDiscard`, `AsyncExit`, `AsyncObject`, `Bits`). The queue is a
  machine of single atomic accesses run by any number of threads under any schedule; the worker and the
  producers run on top of it. The object modules have the same code as loops over the buffer it updates.
* **Thread pool** (`ThreadPool`, `ThreadPoolSafety`). Critical sections are steps; notifications travel
  separately, and sleepers may wake spuriously.
* **Integer formatting** (`Numerals`, `CountDigits`, `FormatDecimal`, `Grouping`, `FastInt`, `ParseInt`,
  `WriteInt`). Numerals are defined independently of how they are written; the in-place writers, the
  table lookups and the field layout are proved against them.
* **Rotating log files** (`RotatingNames`, `RotatingFile`), over a file system that maps names to contents.
* **Event loop** (`FileEvents`, `Timers`, `TimerPass`, `TimerList`). Descriptor masks with the epoll and
  select back ends, and the linked timer list with callbacks that create and delete timers.
* **Raft** (`UnstableLog`, `RaftNode`, `RaftSafety`, `RaftHandling`, `RaftLeading`, `RaftNetwork`,
  `RaftElection`, `RaftVotes`, `RaftCommit`, `RaftQuorum`, `RaftReplication`, `RaftProgress`, `RaftObject`).
  `RaftNode` has the handlers as a step machine. `RaftHandling` and `RaftLeading` say what each message and
  tick must do through all their layers, `RaftProgress` that a network can replicate any commands;
  `RaftObject` has the class whose methods do it field by field; the other modules prove what holds over
  runs of one node and of a network.

Reading order: for each part the machine or the numerals first, then the module with the theorems, then
the object. `Options` holds the result types they share.

## Where the code differs from what one might expect

* A Raft quorum is computed from a map nothing fills, so it is always one (`sapphiredb/raft/raft.h:96`).
  A node that stands for election with no refusal of its own on record wins exactly if no other grant is
  on record (`RaftElection.LeadsAlone`). In a network no other grant ever is: every node whose election
  timer expires leads at once (`RaftVotes.ExpiredLeads`), so whichever peers the nodes are connected to,
  elections are safe exactly in networks of at most one node (`RaftElection.ElectionSafety`; two nodes
  connected to each other are the witness in `RaftElection.TwoLeaders`). A leader commits what *all*
  tracked peers have (`RaftQuorum.LeadersCommitWhatAllHave`).
* As nobody remains a candidate and nobody sends a vote (`RaftVotes.NobodyAsks`), the candidate's handler
  and the vote handler are never reached in such a network. What they would do is proved of single nodes.
* Two leaders of one term can store different entries under one index and term
  (`RaftElection.LogsDisagree`): index and term do not say which entry is meant.
* The vote test assigns the candidate instead of comparing with it (`sapphiredb/raft/raft.cc:842`);
  `RaftReplication.GrantsAgain` says exactly what an earlier vote is worth.
* A follower takes its term from a heartbeat (`sapphiredb/raft/raft.cc:478`). A heartbeat without a term
  would set it to zero; `RaftSafety.GeneralStepSafe` has the exact condition and `RaftNetwork.NetSafe`
  shows that no node sends one.
* Proposals are numbered from the applied index (`sapphiredb/raft/raft.cc:1024-1028`), so two that arrive
  before the first is applied share a number; `RaftReplication.ProposalNumbers` has the exact condition
  and `RaftElection.ProposalsShareNumber` reaches it in every network.
* An append at index 0 without entries is answered as a refusal after the log was cleared
  (`sapphiredb/raft/raft.cc:761-764`); `RaftReplication.RefusedAppend` has the exact condition and
  `RaftReplication.EmptyLeaderClears` the message leaders send.
* `maybeCommit` reads past the end of its vector exactly if the quorum exceeds the number of tracked
  peers (`sapphiredb/raft/raft.cc:1013`, `RaftCommit.ReadsInside`), which a leader configured
  without peers does on its first proposal (`RaftElection.CommitsAnything`). The model lets that read yield
  any number, and what is proved holds for every one.
* Registering a descriptor for no event leaves epoll an entry the loop does not know
  (`sapphiredb/test/wrk/src/ae.c:135-153`); `FileEvents.EventLoop.CreateFileEvent` has the exact condition
  under which a loop stays consistent.
* Unregistering ignores the result of `epoll_ctl` (`sapphiredb/test/wrk/src/ae_epoll.c:99-105`), so a refused
  change leaves the kernel watching for more than the loop knows;
  `FileEvents.EventLoop.DeleteFileEvent` has the exact condition.
* The destructor of the asynchronous helper pushes its terminate message under the policy of any other
  message (`sapphiredb/common/spdlog/include/spdlog/details/async_log_helper.h:211-241`): when messages are
  discarded and the queue is full it is lost and the worker, for which the destructor waits, never exits
  (`AsyncDiscard.DiscardedTerminate`, `AsyncDiscard.WorkerRunsOn`).
* `stableTo` drops an entry only if it is the first one (`sapphiredb/raft/raft.cc:304`).
* The comment on `rotating_file_sink` shows a file being deleted as the last step; the code deletes it
  first, which is the order modelled (`sapphiredb/common/spdlog/include/spdlog/sinks/file_sinks.h:111-136`).
* A pool of no workers accepts tasks it never runs (`ThreadPoolSafety.EmptyPoolDropsTasks`).

## Model

| member | source | states |
|---|---|---|
| MpmcTheorems.ExactlyOnce | sapphiredb/common/spdlog/include/spdlog/details/mpmc_bounded_q.h:81-131 | over every schedule of any number of threads the i-th winning swap of either side has ticket i, each item moved out is the one its ticket's producer brought, by the ticket's one consumer and once; a taken ticket not yet moved has its consumer about to move it |
| MpmcTheorems.Bounded | sapphiredb/common/spdlog/include/spdlog/details/mpmc_bounded_q.h:84-129 | in every reachable state dequeue_pos <= enqueue_pos <= dequeue_pos + size, cell i's sequence is i + k*size or one more, and no two threads are in the data window of one cell |
| MpmcTheorems.RunGrows | sapphiredb/common/spdlog/include/spdlog/details/mpmc_bounded_q.h:92-129 | no schedule lowers either counter or any cell's sequence number, and the invariant holds after it |
| MpmcTheorems.StepGrows | sapphiredb/common/spdlog/include/spdlog/details/mpmc_bounded_q.h:92-129 | no single atomic access lowers a counter or a sequence number |
| MpmcTheorems.EnqueueRefusal | sapphiredb/common/spdlog/include/spdlog/details/mpmc_bounded_q.h:85-98 | `enqueue` refuses at its sequence load if and only if its ticket is the current one and the ticket one round earlier is unreleased; its argument is then still with the caller and the buffer is full or that consumer is mid-move |
| MpmcTheorems.DequeueRefusal | sapphiredb/common/spdlog/include/spdlog/details/mpmc_bounded_q.h:113-124 | `dequeue` gives up if and only if its ticket is the current one and unpublished: unclaimed, or its producer is mid-move |
| MpmcTheorems.RetrySeesLarger | sapphiredb/common/spdlog/include/spdlog/details/mpmc_bounded_q.h:92-102 | every retry that is not a spurious failure works on a strictly larger ticket, whatever runs in between |
| MpmcTheorems.EmptyInstant | sapphiredb/common/spdlog/include/spdlog/details/mpmc_bounded_q.h:133-144 | when `is_empty` returns, its answer is whether both counters had one value at an instant inside that call |
| MpmcTheorems.EmptyAlone | sapphiredb/common/spdlog/include/spdlog/details/mpmc_bounded_q.h:133-144 | undisturbed, `is_empty` answers after four accesses whether the counters are equal and changes nothing |
| MpmcTheorems.MovesOut | sapphiredb/common/spdlog/include/spdlog/details/mpmc_bounded_q.h:126-128 | a consumer moves out what the producer of its ticket brought and leaves the cell without an item |
| MpmcTheorems.Quiescent | sapphiredb/common/spdlog/include/spdlog/details/mpmc_bounded_q.h:104-105 | with no call in progress the buffer holds exactly the claimed and untaken items, each under its ticket |
| MpmcTheorems.WindowsExclude | sapphiredb/common/spdlog/include/spdlog/details/mpmc_bounded_q.h:104-129 | two threads moving data of one cell are the same thread |
| MpmcSafety.StepInv | sapphiredb/common/spdlog/include/spdlog/details/mpmc_bounded_q.h:81-144 | every atomic access of every thread, spurious failures included, keeps the invariant |
| MpmcSafety.RunInv | sapphiredb/common/spdlog/include/spdlog/details/mpmc_bounded_q.h:58-144 | the invariant holds after every schedule from the constructed queue |
| MpmcSafety.InitInv | sapphiredb/common/spdlog/include/spdlog/details/mpmc_bounded_q.h:58-71 | the constructor establishes the invariant |
| Bits.PowerOfTwoTest | sapphiredb/common/spdlog/include/spdlog/details/mpmc_bounded_q.h:63-65 | `n & (n - 1) == 0` accepts exactly the powers of two |
| Bits.MaskIsRemainder | sapphiredb/common/spdlog/include/spdlog/details/mpmc_bounded_q.h:87 | masking with 2^k - 1 is the remainder by 2^k |
| MpmcSafety.SlotGap | sapphiredb/common/spdlog/include/spdlog/details/mpmc_bounded_q.h:87 | two tickets of one cell are at least `size` apart |
| MpmcObject.MpmcBoundedQueue.Create | sapphiredb/common/spdlog/include/spdlog/details/mpmc_bounded_q.h:58-71 | construction succeeds exactly for powers of two from 2 on, and gives an empty queue |
| MpmcObject.MpmcBoundedQueue.constructor | sapphiredb/common/spdlog/include/spdlog/details/mpmc_bounded_q.h:58-71 | the cells start with their own index and the contents are empty |
| MpmcObject.MpmcBoundedQueue.Enqueue | sapphiredb/common/spdlog/include/spdlog/details/mpmc_bounded_q.h:81-107 | run by one thread: appends the item, or refuses and changes nothing exactly when `size` items are held, for any number of spurious failures |
| MpmcObject.MpmcBoundedQueue.Dequeue | sapphiredb/common/spdlog/include/spdlog/details/mpmc_bounded_q.h:109-131 | run by one thread: takes the oldest item, or nothing from an empty queue |
| MpmcObject.MpmcBoundedQueue.IsEmpty | sapphiredb/common/spdlog/include/spdlog/details/mpmc_bounded_q.h:133-144 | true exactly for the empty contents |
| AsyncSafety.DrainedBeforeExit | sapphiredb/common/spdlog/include/spdlog/details/async_log_helper.h:251-332 | over every interleaving each sink was offered exactly the log messages of the tickets dealt with, in ticket order; at the worker's exit a terminate message was among them, every taken ticket was dealt with and a flush of all sinks is the last event |
| AsyncSafety.FirstTerminateWaits | sapphiredb/common/spdlog/include/spdlog/details/async_log_helper.h:211-318 | at the exit every log message of a ticket before the first terminate message has been offered to every sink in ticket order |
| AsyncSafety.RetryNeverLoses | sapphiredb/common/spdlog/include/spdlog/details/async_log_helper.h:229-241 | with block-retry, what a thread began to push is at every moment what it has claimed tickets for, in order, plus at most the message it still holds |
| AsyncSafety.RunHelperInv | sapphiredb/common/spdlog/include/spdlog/details/async_log_helper.h:229-318 | the invariant of queue, worker and producers holds after every interleaving |
| AsyncFlush.FlushReachesSinks | sapphiredb/common/spdlog/include/spdlog/details/async_log_helper.h:244-332 | over every interleaving: for each flush or terminate message dealt with, either every sink was flushed in turn behind the offers of all earlier log messages, or the request still stands |
| AsyncFlush.EmptyQueueFlushes | sapphiredb/common/spdlog/include/spdlog/details/async_log_helper.h:311-332 | on an empty queue every sink is flushed exactly if a flush was requested or the interval is over, no request stands afterwards, and the worker exits exactly if a terminate message was taken |
| AsyncFlush.EmptyQueueFlushed | sapphiredb/common/spdlog/include/spdlog/details/async_log_helper.h:311-332 | after that every flush asked for so far has reached every sink behind the messages before it |
| AsyncExit.WorkerExits | sapphiredb/common/spdlog/include/spdlog/details/async_log_helper.h:251-332 | with a terminate message in the queue and nobody pushing, the worker exits after a bounded number of its own steps, from wherever it is |
| AsyncExit.WorkerLowers | sapphiredb/common/spdlog/include/spdlog/details/async_log_helper.h:279-318 | each of these steps brings the exit nearer |
| AsyncDiscard.DiscardedTerminate | sapphiredb/common/spdlog/include/spdlog/details/async_log_helper.h:211-241 | a terminate message pushed by a thread that runs alone is lost if and only if messages are discarded and the next ticket has no room; then the worker never exits, whatever follows, until another one is pushed |
| AsyncDiscard.NeverExits | sapphiredb/common/spdlog/include/spdlog/details/async_log_helper.h:211-318 | with no terminate message in the queue's history or on its way, and none pushed later, no interleaving lets the worker exit |
| AsyncDiscard.WorkerRunsOn | sapphiredb/common/spdlog/include/spdlog/details/async_log_helper.h:211-241 | for every size of the queue, number of threads and sinks: a run under the discarding policy that loses the terminate message, after which the worker never exits |
| AsyncObject.AsyncLogHelper.ProcessNextMsg | sapphiredb/common/spdlog/include/spdlog/details/async_log_helper.h:279-318 | takes the oldest message: a log message is offered to each sink in turn, a flush or terminate message requests a flush and only the latter the end; on an empty queue flushes if due and reports whether to go on |
| AsyncObject.AsyncLogHelper.HandleFlushInterval | sapphiredb/common/spdlog/include/spdlog/details/async_log_helper.h:321-332 | flushes every sink once and clears the request exactly when requested or due |
| AsyncObject.AsyncLogHelper.WorkerLoop | sapphiredb/common/spdlog/include/spdlog/details/async_log_helper.h:251-275 | with the terminate message queued the loop ends with the queue empty, every message dealt with in order and the flush last |
| AsyncObject.AsyncLogHelper.OfferToSinks | sapphiredb/common/spdlog/include/spdlog/details/async_log_helper.h:301-307 | offers the message to each sink once, in order |
| AsyncObject.DrainedLog | sapphiredb/common/spdlog/include/spdlog/details/async_log_helper.h:258-332 | the result of the loop offers every sink exactly the log messages, in order; after a flush or terminate message, or when the interval is over, it ends with a flush of every sink in turn |
| ThreadPoolSafety.NoLostWakeup | sapphiredb/common/thread_pool.h:47-89 | over every interleaving: a queued task with no notification in flight has a worker awake; while any worker sleeps, notifications in flight and awake workers are at least as many as queued tasks |
| ThreadPoolSafety.StartedOnceInOrder | sapphiredb/common/thread_pool.h:52-61 | the tasks started are the first accepted ones in order, each by one worker, which runs it until it finishes, once |
| ThreadPoolSafety.WorkerActs | sapphiredb/common/thread_pool.h:47-62 | a worker at the lock starts the oldest queued task, stopped or not; with none it sleeps, or leaves if the pool is stopped; one running a task finishes it |
| ThreadPoolSafety.AwakeProgresses | sapphiredb/common/thread_pool.h:47-62 | in every phase each step of an awake worker takes exactly one off the steps that remain |
| ThreadPoolSafety.WakingActs | sapphiredb/common/thread_pool.h:68-90 | `enqueue` refuses exactly when stopped; a notification wakes one sleeper, or is lost if nobody sleeps |
| ThreadPoolSafety.RestMeansDone | sapphiredb/common/thread_pool.h:47-90 | over every interleaving: a pool with a worker in which nobody is awake and no notification is in flight has finished every accepted task |
| ThreadPoolSafety.DestructorDrains | sapphiredb/common/thread_pool.h:93-102 | when the destructor of a pool with a worker returns every accepted task has finished |
| ThreadPoolSafety.JoinProgresses | sapphiredb/common/thread_pool.h:99-101 | while joining some worker can step, each such step brings the end nearer and nothing delays it |
| ThreadPoolSafety.DestructorReturns | sapphiredb/common/thread_pool.h:93-102 | from every reachable state the pool can be stopped, notified and joined, and with a worker every accepted task has then finished |
| ThreadPoolSafety.NoWorkersNoStarts | sapphiredb/common/thread_pool.h:40-65 | a pool of no workers starts nothing, so all its tasks finish if and only if none was accepted |
| ThreadPoolSafety.EmptyPoolDropsTasks | sapphiredb/common/thread_pool.h:93-102 | a concrete run of such a pool ends with an accepted task never started |
| ThreadPoolSafety.RunPoolInv | sapphiredb/common/thread_pool.h:47-102 | order, single start, coverage of sleepers and phases hold after every run |
| ThreadPool.PoolMonitor.EnqueueLocked | sapphiredb/common/thread_pool.h:80-87 | the task joins the accepted ones, behind all others, exactly if the pool is not stopped; accepted is still taken followed by queued |
| ThreadPool.PoolMonitor.WorkerLocked | sapphiredb/common/thread_pool.h:52-59 | a worker gets the oldest accepted task not yet taken; it sleeps only with all accepted tasks taken and more to come, and leaves only with all taken and none to come |
| ThreadPool.PoolMonitor.SetStopLocked | sapphiredb/common/thread_pool.h:95-98 | stopping gives up no accepted task: what was accepted and not taken is still queued |
| CountDigits.CountDigits64 | sapphiredb/common/spdlog/include/spdlog/fmt/bundled/format.h:1127-1133 | the table lookup equals the true decimal digit count of every 64-bit number |
| CountDigits.CountDigits32 | sapphiredb/common/spdlog/include/spdlog/fmt/bundled/format.h:1160-1164 | likewise for every 32-bit number |
| CountDigits.IndexBounds | sapphiredb/common/spdlog/include/spdlog/fmt/bundled/format.h:1131-1132 | the index lies in 0..19, in 0..9 for 32 bits, and n is below the next power and not below the previous one |
| CountDigits.TableCounts | sapphiredb/common/spdlog/include/spdlog/fmt/bundled/format.h:1131-1163 | index and correction together give the digit count, the index inside the table |
| CountDigits.PowerTable | sapphiredb/common/spdlog/include/spdlog/fmt/bundled/format.cc:281-294 | the tables hold the powers of ten, with 0 first |
| CountDigits.CountDigitsLoop | sapphiredb/common/spdlog/include/spdlog/fmt/bundled/format.h:1136-1155 | the loop dividing by 10000 gives the same count |
| Numerals.NumDigitsBounds | sapphiredb/common/spdlog/include/spdlog/fmt/bundled/format.h:1125-1126 | the digit count is the logarithm: 10^(d-1) <= n < 10^d |
| Numerals.NumeralValue | sapphiredb/common/spdlog/include/spdlog/fmt/bundled/format.h:3468-3557 | reading a numeral back in its base gives the number |
| Numerals.NumeralShape | sapphiredb/common/spdlog/include/spdlog/fmt/bundled/format.h:3497-3557 | a numeral has no leading zero and only digits of its base, in the letter case of the type |
| FormatDecimal.FormatDecimal | sapphiredb/common/spdlog/include/spdlog/fmt/bundled/format.h:1202-1226 | the cells before the end are overwritten by exactly the numeral with its separators, and no other cell changes |
| FormatDecimal.ThousandsSep.Apply | sapphiredb/common/spdlog/include/spdlog/fmt/bundled/format.h:1189-1195 | writes the separator in front after every third digit and nothing otherwise |
| FormatDecimal.PairTable | sapphiredb/common/spdlog/include/spdlog/fmt/bundled/format.cc:263-268 | entries 2i and 2i+1 of the table spell i for every i below 100 |
| FormatDecimal.PutPair | sapphiredb/common/spdlog/include/spdlog/fmt/bundled/format.h:1210-1215 | one round writes both digits of the lowest pair with the separator due between them |
| Grouping.GroupedByThousands | sapphiredb/common/spdlog/include/spdlog/fmt/bundled/format.h:1189-1226 | written from the right with the functor, the numeral comes out as groups of three with the separator between, for any separator |
| Grouping.GroupedPlain | sapphiredb/common/spdlog/include/spdlog/fmt/bundled/format.h:1168-1171 | without a separator it is the plain numeral |
| Grouping.GroupedSize | sapphiredb/common/spdlog/include/spdlog/fmt/bundled/format.h:3558-3568 | the cells filled are num_digits + the separator length * ((num_digits - 1) / 3) |
| Grouping.Ungroup | sapphiredb/common/spdlog/include/spdlog/fmt/bundled/format.h:1189-1226 | deleting a separator without digits gives the plain numeral back, and no separator leads |
| FastInt.FormatInt.Unsigned | sapphiredb/common/spdlog/include/spdlog/fmt/bundled/format.h:4073-4084 | for every unsigned 64-bit value the text is its numeral, inside the 22 cells |
| FastInt.FormatInt.Signed | sapphiredb/common/spdlog/include/spdlog/fmt/bundled/format.h:4049-4072 | for every signed 64-bit value, the minimum included, the text is its signed numeral, inside the 22 cells |
| FastInt.FormatInt.FormatDecimal | sapphiredb/common/spdlog/include/spdlog/fmt/bundled/format.h:4025-4047 | fills the buffer from its end with the numeral and leaves the last cell |
| FastInt.FormatInt.Size | sapphiredb/common/spdlog/include/spdlog/fmt/bundled/format.h:4087-4090 | the size is that of the text |
| FastInt.NegatedIsAbs | sapphiredb/common/spdlog/include/spdlog/fmt/bundled/format.h:4051-4054 | wrapped negation is the absolute value, for the minimum too |
| FastInt.AtMostTwentyDigits | sapphiredb/common/spdlog/include/spdlog/fmt/bundled/format.h:4017-4020 | 64-bit values have at most 20 digits, signed ones 19 |
| ParseInt.ParseNonnegativeInt | sapphiredb/common/spdlog/include/spdlog/fmt/bundled/format.h:4315-4337 | no product or sum leaves 32 bits; the result is the value of the digit string and its end, or the error exactly when the value exceeds INT_MAX |
| ParseInt.ParsePrinted | sapphiredb/common/spdlog/include/spdlog/fmt/bundled/format.h:4315-4337 | wherever a numeral stands, parsing inverts printing on 0..INT_MAX and ends behind it, and rejects every larger number |
| ParseInt.BigOverflows | sapphiredb/common/spdlog/include/spdlog/fmt/bundled/format.h:4321-4329 | one more digit after a value above INT_MAX / 10 is too many |
| WriteInt.BasicWriter.WriteInt | sapphiredb/common/spdlog/include/spdlog/fmt/bundled/format.h:3468-3571 | for every 32- or 64-bit value, signed or not, and every specifier without precision, the text grows by exactly the laid-out field; an unknown type adds nothing |
| WriteInt.LayoutWidth | sapphiredb/common/spdlog/include/spdlog/fmt/bundled/format.h:3427-3466 | the field takes max(width, prefix + digits) cells |
| WriteInt.DigitsReadBack | sapphiredb/common/spdlog/include/spdlog/fmt/bundled/format.h:3486-3557 | the digits read back in the base of the type to the absolute value |
| WriteInt.ContentReadBack | sapphiredb/common/spdlog/include/spdlog/fmt/bundled/format.h:3471-3557 | sign, base prefix and digits say the value: a reader that demands exactly the marks the specifier asks for gets it back |
| WriteInt.LayoutPlaces | sapphiredb/common/spdlog/include/spdlog/fmt/bundled/format.h:3396-3466 | cell by cell: prefix and digits stand where the alignment puts them and every other cell has the fill character |
| WriteInt.AbsInWord | sapphiredb/common/spdlog/include/spdlog/fmt/bundled/format.h:3471-3478 | negation in the word gives the absolute value, the minimum included |
| WriteInt.BasicWriter.PrepareIntBuffer | sapphiredb/common/spdlog/include/spdlog/fmt/bundled/format.h:3396-3466 | reserves the field and writes prefix and padding as the alignment demands, numeric padding between prefix and digits |
| WriteInt.BasicWriter.FillPadding | sapphiredb/common/spdlog/include/spdlog/fmt/bundled/format.h:3380-3392 | left padding is half rounded down, right padding the rest, the content cells stay |
| WriteInt.BasicWriter.GrowBuffer | sapphiredb/common/spdlog/include/spdlog/fmt/bundled/format.h:3054-3059 | adds cells and keeps the text before them |
| WriteInt.BasicWriter.Grow | sapphiredb/common/spdlog/include/spdlog/fmt/bundled/format.h:966-981 | keeps the text in a buffer at least as large as needed |
| WriteInt.BasicWriter.WriteGrouped | sapphiredb/common/spdlog/include/spdlog/fmt/bundled/format.h:3558-3568 | type n writes the prefix, the grouped numeral and the padding |
| WriteInt.CountBase | sapphiredb/common/spdlog/include/spdlog/fmt/bundled/format.h:3503-3507 | the shift loop counts the digits of the power-of-two bases |
| WriteInt.WriteBase | sapphiredb/common/spdlog/include/spdlog/fmt/bundled/format.h:3508-3514 | the mask loop overwrites exactly the reserved cells with the numeral |
| RotatingFile.RotatingFileSink.Rotate | sapphiredb/common/spdlog/include/spdlog/sinks/file_sinks.h:116-138 | new file i is old file i-1 for 1..max_files, absent stays absent, file 0 is empty and no other file changes |
| RotatingFile.RotatingFileSink.SinkIt | sapphiredb/common/spdlog/include/spdlog/sinks/file_sinks.h:94-104 | appends the message, after a rotation exactly when it would exceed the limit; the size kept is that of file 0 |
| RotatingFile.RotatingFileSink.Create | sapphiredb/common/spdlog/include/spdlog/sinks/file_sinks.h:66-72 | opens file 0 for appending; fails exactly when it cannot be opened |
| RotatingFile.RotatingFileSink.constructor | sapphiredb/common/spdlog/include/spdlog/sinks/file_sinks.h:66-72 | keeps what file 0 held and knows its size |
| RotatingFile.StreamConserved | sapphiredb/common/spdlog/include/spdlog/sinks/file_sinks.h:94-138 | over any stream the files oldest to newest are a suffix of the initial contents followed by all messages, and the part cut off is whole oldest files |
| RotatingFile.LoggedKeepsRest | sapphiredb/common/spdlog/include/spdlog/sinks/file_sinks.h:94-138 | one message loses nothing but, on a rotation, the whole oldest file |
| RotatingFile.RotatesWhenFull | sapphiredb/common/spdlog/include/spdlog/sinks/file_sinks.h:94-103 | the current file is rotated away exactly when the message would make it larger than the limit; each file then has what the one before it had |
| RotatingFile.StreamSizes | sapphiredb/common/spdlog/include/spdlog/sinks/file_sinks.h:94-104 | the size kept is always file 0's, and file 0 is within the limit or holds just the last message |
| RotatingFile.NothingLostEarly | sapphiredb/common/spdlog/include/spdlog/sinks/file_sinks.h:116-138 | starting with no rotated file, the first max_files rotations lose nothing |
| RotatingFile.ShiftOne | sapphiredb/common/spdlog/include/spdlog/sinks/file_sinks.h:120-136 | one round of the descending loop shifts one more file |
| RotatingNames.CalcFilenameInjective | sapphiredb/common/spdlog/include/spdlog/sinks/file_sinks.h:77-91 | no two indices give one name |
| RotatingNames.CounterBeforeExtension | sapphiredb/common/spdlog/include/spdlog/sinks/file_sinks.h:75-91 | whichever valid extension the name has, the counter goes before it and the numbered name has it too |
| RotatingNames.SplitJoins | sapphiredb/common/spdlog/include/spdlog/details/file_helper.h:118-133 | base and extension make up the name |
| RotatingNames.SplitFindsExtension | sapphiredb/common/spdlog/include/spdlog/details/file_helper.h:104-133 | the split is the one valid extension if there is one, and no extension otherwise |
| RotatingNames.SplitIsExtension | sapphiredb/common/spdlog/include/spdlog/details/file_helper.h:118-133 | what is split off is a dot and a name without dots and folders after a base that does not end in a folder |
| RotatingFile.FileHelper.Open | sapphiredb/common/spdlog/include/spdlog/details/file_helper.h:41-55 | opens for appending or truncated, creating the file; what is written since starts empty; changes no other file |
| RotatingFile.FileHelper.Reopen | sapphiredb/common/spdlog/include/spdlog/details/file_helper.h:57-62 | opens the same name again, or fails if none was opened |
| RotatingFile.FileHelper.Write | sapphiredb/common/spdlog/include/spdlog/details/file_helper.h:78-84 | the file stays what it held when opened followed by everything written since, in order, and no other file changes |
| RotatingFile.FileHelper.Size | sapphiredb/common/spdlog/include/spdlog/details/file_helper.h:86-93 | what the file held when opened plus everything written since, or an error when closed |
| FileEvents.EventLoop.CreateFileEvent | sapphiredb/test/wrk/src/ae.c:135-153 | the new records and maximum; from a consistent loop the call fails exactly for a descriptor out of range or a refusal, and the loop stays consistent if and only if the call failed, the mask or the recorded mask is non-empty, or (select) the descriptor is below the maximum |
| FileEvents.EventLoop.DeleteFileEvent | sapphiredb/test/wrk/src/ae.c:155-171 | removes the mask and rescans the maximum; a consistent loop stays consistent if and only if it is not that epoll refuses the change while some of the mask is removed and some left; an unregistered descriptor changes nothing |
| FileEvents.EventLoop.ResizeSetSize | sapphiredb/test/wrk/src/ae.c:106-122 | succeeds exactly when every registered descriptor fits and the back end allows it, keeps the registered records and consistency |
| FileEvents.EventLoop.GetFileEvents | sapphiredb/test/wrk/src/ae.c:173-178 | in a consistent loop, exactly what the back end watches the descriptor for, and nothing above the maximum |
| FileEvents.EventLoop.constructor | sapphiredb/test/wrk/src/ae.c:63-84 | a new loop is consistent and empty |
| FileEvents.Api.AddEvent | sapphiredb/test/wrk/src/ae_epoll.c:73-88 | adds or modifies the entry of the descriptor; records whether the operation was one the kernel refuses |
| FileEvents.Api.DelEvent | sapphiredb/test/wrk/src/ae_epoll.c:90-106 | modifies or removes the entry; a refused modification is ignored and leaves it |
| FileEvents.CreateMirrors | sapphiredb/test/wrk/src/ae_epoll.c:73-88 | registering keeps what is watched equal to what is recorded; an empty entry arises exactly from an empty registration of an unregistered descriptor |
| FileEvents.CreateMax | sapphiredb/test/wrk/src/ae.c:150-151 | the maximum stays exact if and only if the descriptor is registered or below it |
| FileEvents.DeleteMirrors | sapphiredb/test/wrk/src/ae_epoll.c:90-106 | deleting keeps what is watched equal to what is recorded, and the entry it names exists |
| FileEvents.DeleteRefused | sapphiredb/test/wrk/src/ae_epoll.c:90-106 | after a refused modification what is watched equals what is recorded if and only if nothing was removed |
| FileEvents.EmptyMaskMisleads | sapphiredb/test/wrk/src/ae_epoll.c:78-86 | for every unregistered descriptor: after an empty registration the next one issues an illegal addition and fails |
| FileEvents.Api.PollSelect | sapphiredb/test/wrk/src/ae_select.c:77-102 | the scan fills `fired` with the ready part of every registered mask and never overruns it |
| FileEvents.ScanReportsOnce | sapphiredb/test/wrk/src/ae_select.c:87-99 | reports are registered descriptors in strictly ascending order with what is ready |
| FileEvents.ScanIsComplete | sapphiredb/test/wrk/src/ae_select.c:87-99 | with an exact maximum the scan reports exactly the registered descriptors |
| TimerPass.PassOutcome | sapphiredb/test/wrk/src/ae.c:262-334 | a pass visits every old timer; the list becomes the timers it created followed by the old survivors in their old order, ids strictly decreasing; it fires in list order exactly the timers that are due at their visit, were live and were deleted by no callback that fired before |
| TimerPass.DueTimerFiresOnce | sapphiredb/test/wrk/src/ae.c:310-330 | a live timer whose time, in milliseconds, the clock of its visit has reached and which no callback deletes fires exactly once and is rescheduled or marked |
| TimerPass.FiresWhenReached | sapphiredb/test/wrk/src/ae.c:310-330 | of a list with normal times a timer fires if and only if it is live at its visit and its time, in milliseconds, is reached |
| TimerPass.SkewReaches | sapphiredb/test/wrk/src/ae.c:275-281 | after a clock that went backwards every timer is reached from the first second on |
| TimerPass.FiredOnce | sapphiredb/test/wrk/src/ae.c:310-330 | each old timer fires once if it was live, is due at its visit and no callback fired before has deleted it, and otherwise never |
| TimerPass.DeletedNeverFires | sapphiredb/test/wrk/src/ae.c:222-234 | a timer that an earlier callback of the pass deletes never fires |
| TimerPass.NoneCreatedFires | sapphiredb/test/wrk/src/ae.c:302-309 | no timer created during the pass fires in it |
| TimerPass.LiveStays | sapphiredb/test/wrk/src/ae.c:287-300 | a timer live when visited is never unlinked |
| TimerPass.VisitKeeps | sapphiredb/test/wrk/src/ae.c:282-333 | every visit keeps the invariant of the pass |
| TimerPass.FinishKeeps | sapphiredb/test/wrk/src/ae.c:282-333 | the invariant holds at the end, with every old timer visited |
| Timers.MarkedExact | sapphiredb/test/wrk/src/ae.c:222-233 | deleting by id takes liveness from the timer with that id only |
| Timers.EditAllKeeps | sapphiredb/test/wrk/src/ae.c:203-233 | whatever a callback creates and deletes, the timers it finds keep their places behind the new ones and ids stay ordered |
| Timers.AddMillisecondsExact | sapphiredb/test/wrk/src/ae.c:189-201 | the sum of seconds and milliseconds is exact for every delay, and normal for delays that are not negative |
| Timers.DueMeans | sapphiredb/test/wrk/src/ae.c:315-317 | comparing seconds first and milliseconds then compares times in milliseconds; a time written with negative milliseconds is seen when its second is reached |
| Timers.CreatedDue | sapphiredb/test/wrk/src/ae.c:203-220 | a created timer is due exactly its delay after the clock read then, and the rest of the list stays |
| Timers.SettledDue | sapphiredb/test/wrk/src/ae.c:324-328 | a rescheduled timer is due exactly its delay after the clock read then; AE_NOMORE marks it and nothing else |
| Timers.PassKeepsTimes | sapphiredb/test/wrk/src/ae.c:262-334 | milliseconds stay below 1000 in size over every pass, and from 0 on if no delay is negative |
| TimerList.TimerLoop.CreateTimeEvent | sapphiredb/test/wrk/src/ae.c:203-220 | prepends a timer with the next id |
| TimerList.TimerLoop.DeleteTimeEvent | sapphiredb/test/wrk/src/ae.c:222-234 | marks the first timer showing the id; reports whether there was one |
| TimerList.TimerLoop.ProcessTimeEvents | sapphiredb/test/wrk/src/ae.c:262-334 | the pass over the linked nodes, with callbacks changing the list, gives the list, the firings and the finalizations of the pass on values |
| TimerList.TimerLoop.RunPass | sapphiredb/test/wrk/src/ae.c:282-333 | the loop with its two pointers does what the visits on values do |
| TimerList.TimerLoop.Unlink | sapphiredb/test/wrk/src/ae.c:287-300 | relinks around one node; every other node stays linked in order |
| TimerList.TimerLoop.Fire | sapphiredb/test/wrk/src/ae.c:310-329 | runs the callback and reschedules or marks its timer, wherever new timers have moved it |
| TimerList.TimerLoop.ForceAll | sapphiredb/test/wrk/src/ae.c:275-281 | makes every timer due after the clock went back |
| RaftSafety.RunSafe | sapphiredb/raft/raft.cc:386-918 | over every run of one node, of any messages, ticks, proposals and persistence, the first min(commitIndex, size) entries never change, commit and applied index and tracked matches never decrease, lastApplied <= commitIndex, and role, handler, tick and leader agree |
| RaftSafety.GeneralStepSafe | sapphiredb/raft/raft.cc:777-893 | whatever the message, the same for one step; and the term goes back if and only if a follower gets a termless heartbeat from someone it does not know as leader |
| RaftSafety.NextSafe | sapphiredb/raft/raft.cc:777-918 | the same for every event at a node |
| RaftSafety.TickSafe | sapphiredb/raft/raft.cc:44-107 | a tick lowers nothing, the term included |
| RaftSafety.HandleAppendQuiet | sapphiredb/raft/raft.cc:492-549 | appending keeps the committed entries, since a message below the commit index is refused first |
| RaftSafety.MaybeAppendQuiet | sapphiredb/raft/raft.cc:758-767 | appending at or above the commit index keeps the committed entries |
| RaftSafety.LeaderStepQuiet | sapphiredb/raft/raft.cc:176-264 | no message moves a leader's term or role from its own handler, and its matches only grow |
| RaftSafety.CandidateStepSteps | sapphiredb/raft/raft.cc:386-469 | a candidate's handler keeps the term and everything a step must keep |
| RaftSafety.FollowerStepSteps | sapphiredb/raft/raft.cc:471-568 | a follower's handler sets the term to zero for exactly one kind of message and else keeps it |
| RaftSafety.OnHupSteps | sapphiredb/raft/raft.cc:808-839 | standing for election raises the term and keeps everything else |
| RaftSafety.AdvancedMatch | sapphiredb/raft/progress.cc:12-32 | a response leaves the match at the larger of itself and the index it names, whatever the state |
| RaftHandling.TermAdopted | sapphiredb/raft/raft.cc:777-806 | a message of a higher term is taken in exactly that term, one more for a node told to stand, unless it is a vote request ignored while a leader is heard of, which changes nothing |
| RaftHandling.StaleDropped | sapphiredb/raft/raft.cc:792-805 | a message of an older term changes nothing and is answered only with quorum checking, if a heartbeat or an append |
| RaftHandling.HeartbeatTaken | sapphiredb/raft/raft.cc:473-491 | a heartbeat of the present or a higher term, at any node not leading that term: it follows the sender in that term, its timer restarts, it commits the larger of what it had and what the sender says, and answers once |
| RaftHandling.LeaderIgnoresHeartbeat | sapphiredb/raft/raft.cc:176-264 | a leader ignores a heartbeat of its own term |
| RaftHandling.AppendTaken | sapphiredb/raft/raft.cc:402-549 | an append at a follower or candidate: it cuts and extends the log if and only if it starts between the commit index and the end of the log and its log term is the node's term, and exactly one answer says which |
| RaftHandling.VoteRequested | sapphiredb/raft/raft.cc:782-869 | a vote request of a higher term: the node follows in it and grants if and only if the candidate is as far |
| RaftHandling.VoteAsked | sapphiredb/raft/raft.cc:840-870 | a vote request of the present term, with the exact condition for a grant and the whole new state |
| RaftHandling.TransferForwarded | sapphiredb/raft/raft.cc:557-566 | a follower forwards a transfer request to the leader it knows, if any |
| RaftHandling.StandsForElection | sapphiredb/raft/raft.cc:808-839 | told to stand, a node leads without a message if its grants are the quorum, and otherwise is a candidate of the next term that asks every tracked peer but itself once |
| RaftHandling.VoteAnswered | sapphiredb/raft/raft.cc:453-467 | the first answer of each peer counts; a quorum of grants makes it lead and send its log to all, a quorum of refusals makes it step down |
| RaftHandling.RolesGuarded | sapphiredb/raft/raft.cc:109-138 | a leader does not stand and a follower cannot start to lead |
| RaftHandling.BeatSends | sapphiredb/raft/raft.cc:647-689 | a leader told to beat sends every tracked peer but itself exactly one heartbeat with its term and the smaller of match and commit index, and does nothing else |
| RaftHandling.AllAppendsSent | sapphiredb/raft/raft.cc:702-775 | a broadcast sends every tracked peer but itself and peer 0 exactly one append, the log from its next entry on with the term of the entry before |
| RaftHandling.PeerConnected | sapphiredb/raft/raft.cc:895-902 | a node connected to is tracked from the applied index on, or stays as it was, and is told |
| RaftHandling.PeerMet | sapphiredb/raft/raft.cc:871-883 | a node that makes itself known is tracked likewise, remembered and answered |
| RaftHandling.ElectionTimer | sapphiredb/raft/raft.cc:44-59 | a node not leading counts until its timer expires, and then stands with the timer restarted |
| RaftHandling.HeartbeatTimer | sapphiredb/raft/raft.cc:61-107 | a leader beats once its heartbeat timer is full, and restarts it |
| RaftLeading.AppendAnswered | sapphiredb/raft/raft.cc:214-247 | an answer sets the sender's match to the larger of itself and its index, no other, and commits whatever enough peers then hold |
| RaftLeading.AnsweredExactly | sapphiredb/raft/raft.cc:214-247 | with the counted map empty the commit index then reaches a value if and only if it was there or every tracked peer now holds it |
| RaftLeading.CommitTold | sapphiredb/raft/raft.cc:243-245 | whenever the commit index grows every tracked peer but itself and peer 0 is sent one append that says so |
| RaftLeading.AppendRefused | sapphiredb/raft/raft.cc:218-221 | a refusal moves no match and commits nothing; the peer counts as active and is sent more if it lags |
| RaftLeading.AnswerRepeated | sapphiredb/raft/raft.cc:223-247 | an answer that tells nothing new moves no match and commits nothing |
| RaftLeading.HeartbeatAnswered | sapphiredb/raft/raft.cc:249-257 | a heartbeat answered marks the peer active and sends it an append exactly if its match is below the applied index |
| RaftLeading.AnsweredPeer | sapphiredb/raft/progress.cc:12-72 | state, position and pending snapshot of a peer after an answer, for each state and whether its match grew |
| RaftLeading.SendingAhead | sapphiredb/raft/raft.cc:702-749 | an append moves the next entry to send only for a replicating peer, to behind what is sent |
| RaftLeading.ProposalTaken | sapphiredb/raft/raft.cc:183-197 | a proposal is stored in order behind the log in the leader's term, numbered on from the applied index, and the log sent to all; with the counted map empty it commits exactly what all peers had |
| RaftLeading.ReplicatedAndCommitted | sapphiredb/raft/raft.cc:702-767 | a whole round: the follower takes over the leader's log, its answer commits at the leader what all other peers had, and the next heartbeat commits it at the follower |
| RaftNetwork.NetSafe | sapphiredb/raft/raft.cc:777-893 | over every run of any number of nodes with messages lost, repeated, reordered and misdelivered, no node's term, commit index, applied index, committed entries or matches go back, and every node stays coherent |
| RaftNetwork.InFlightTerm | sapphiredb/raft/raft.cc:647-659 | every heartbeat in flight carries a term of at least one |
| RaftNetwork.NetStepOk | sapphiredb/raft/raft.cc:777-893 | one event at one node keeps the network invariant |
| RaftNetwork.BootedOk | sapphiredb/raft/node.cc:87 | a node set going by `init` has term one and is coherent |
| RaftNetwork.BootedIs | sapphiredb/raft/node.cc:84-101 | a node set going by `init` tracks exactly the configured peers, has told each of them and nothing else, holds no votes and no entries, and stands at the applied index storage gave it |
| RaftElection.LeadsAtOnce | sapphiredb/raft/raft.cc:808-818 | for every node that does not lead: standing for election makes it leader if and only if the grants on record with its own are as many as the quorum |
| RaftElection.LeadsAlone | sapphiredb/raft/raft.cc:808-818 | with the counted map empty, and no refusal of its own on record: if and only if no other node's grant is on record |
| RaftElection.AnyTwoLead | sapphiredb/raft/raft.cc:44-59 | for every network, whichever peers its nodes are connected to, and any two of its nodes a run ends with both leading one term, each tracking all its peers, by their timers alone |
| RaftElection.ElectionSafety | sapphiredb/raft/raft.cc:808-818 | for every network and every choice of peers: no run ends with two leaders of one term if and only if there is at most one node |
| RaftElection.CommitsAnything | sapphiredb/raft/raft.cc:1005-1021 | in every network a node configured without peers can lead, take a proposal and end with whatever number is read past its vector as its commit index |
| RaftElection.ProposalsShareNumber | sapphiredb/raft/raft.cc:1023-1030 | in every network a leader stores two proposals under one number, when the first is not applied yet |
| RaftElection.TimesOut | sapphiredb/raft/raft.cc:44-59 | a node nobody voted for yet, whatever peers it tracks and whatever it sent, left to its timer becomes leader of the second term with peers, log and messages sent unchanged; no other node changes |
| RaftElection.TwoLeaders | sapphiredb/raft/raft.cc:808-818 | a run of two nodes connected to each other that ends with both leading the second term |
| RaftElection.LogsDisagree | sapphiredb/raft/raft.cc:1023-1035 | log matching fails: in every network two nodes that resumed from one index can lead one term and store different entries under one index and term, whichever peers they know |
| RaftVotes.NobodyAsks | sapphiredb/raft/raft.cc:808-839 | over every run of a network, whichever peers the nodes know: between events no node is a candidate, no vote but a node's own is on record, and no vote or vote answer has been sent |
| RaftVotes.ExpiredLeads | sapphiredb/raft/raft.cc:44-59 | when a node wins: at every moment of every run a node that does not lead and whose election timer expires leads the next term at once, without a message |
| RaftVotes.NextUncontested | sapphiredb/raft/raft.cc:777-918 | any event but the arrival of a vote message keeps a node from asking for votes or holding others' votes |
| RaftProgress.CommandsReplicated | sapphiredb/raft/raft.cc:777-918 | the protocol works: in every network, a node with nothing stored connected to one or more peers with nothing stored can lead, and for every sequence of commands a run ends with all of them, in order, stored, committed and applied by it and every one of its peers |
| RaftProgress.CommandSettles | sapphiredb/raft/raft.cc:777-918 | one more command, from any state where leader and peers agree and have applied everything to the next such state |
| RaftProgress.Settles | sapphiredb/raft/raft.cc:674-689 | a leader that has applied everything brings peers that hold its log in step by its next heartbeats |
| RaftQuorum.LeadersCommitWhatAllHave | sapphiredb/raft/raft.cc:1005-1035 | over every run of a network: the quorum is one, and whenever an event raises the commit index of a node that then leads, every peer it tracks has a match of that index |
| RaftCommit.ReadsInside | sapphiredb/raft/raft.cc:1006-1013 | the matches are read inside their vector if and only if the quorum is no larger than the number of tracked peers |
| RaftCommit.CommitCounted | sapphiredb/raft/raft.cc:1005-1021 | with a quorum no larger than the number of tracked peers, whenever the commit index is raised, to mci, at least the peer count - quorum + 1 of them have a match of mci |
| RaftCommit.CommitComplete | sapphiredb/raft/raft.cc:1005-1021 | and when that many peers have v, the commit index ends at v or above |
| RaftCommit.CommitNeedsAll | sapphiredb/raft/raft.cc:148-150 | with the counted map empty, what maybeCommit commits every tracked peer has |
| RaftCommit.SortedSorts | sapphiredb/raft/raft.cc:1006-1013 | sorting orders the matches and loses none |
| RaftReplication.ReplicationRound | sapphiredb/raft/raft.cc:702-749 | a follower that agrees with the leader up to the index sent, in the term of the entry there, ends with the leader's log, and its answer raises the leader's match to that log's length |
| RaftReplication.RefusedAppend | sapphiredb/raft/raft.cc:758-767 | a refusal changes the log if and only if the append has no entries and index 0, nothing is committed, the terms agree and the log is not empty; the log is then cleared |
| RaftReplication.EmptyLeaderClears | sapphiredb/raft/raft.cc:702-749 | the append a leader with an empty log builds for a peer still to get the first entry clears a follower of its term that has committed nothing |
| RaftReplication.ProposalNumbers | sapphiredb/raft/raft.cc:1023-1030 | proposals keep the log numbered by position if and only if everything in it was applied when they arrive |
| RaftReplication.PipelinedOnce | sapphiredb/raft/raft.cc:702-749 | a replicating peer is sent everything it lacks once, and nothing the next time |
| RaftReplication.HeartbeatCommitsHeld | sapphiredb/raft/raft.cc:647-659 | a heartbeat commits nothing the follower does not hold, if it holds what the leader thinks |
| RaftReplication.GrantsAgain | sapphiredb/raft/raft.cc:840-870 | exactly when a node grants two requests of one term in a row: the guard that assigns makes an earlier vote matter only for requests naming no sender, and granting one of these is not remembered |
| RaftReplication.VotesForBoth | sapphiredb/raft/raft.cc:820-870 | as the requests the code builds name no sender, one node grants two of them if and only if it had not voted and both are up to date; no vote is remembered and the answer is addressed to nobody |
| UnstableLog.TruncateAndAppendIs | sapphiredb/raft/raft.cc:324-340 | the three-way truncate keeps everything below the first new index and then has the new entries |
| UnstableLog.TruncateWellFormed | sapphiredb/raft/raft.cc:324-340 | entries[i].index == _offset + i is kept if and only if the new entries are contiguous from an index of at least one, past the snapshot |
| UnstableLog.StableToIs | sapphiredb/raft/raft.cc:300-310 | takes away the first entry exactly when its index and term are named, and keeps the log well formed |
| UnstableLog.StableSnapToIs | sapphiredb/raft/raft.cc:312-316 | the entries stay; only the term and, without entries, the last index of the snapshot named are forgotten |
| UnstableLog.RestoreIs | sapphiredb/raft/raft.cc:318-322 | an empty well-formed log behind the snapshot |
| UnstableLog.MaybeTermIs | sapphiredb/raft/raft.cc:278-298 | the term of the entry in the map, else of the snapshot, else 0 |
| UnstableLog.MaybeLastIndexIs | sapphiredb/raft/raft.cc:266-276 | the largest index in the map, else the snapshot's |
| RaftObject.Raft.TakeMessage | sapphiredb/raft/raft.cc:777-893 | on the object: whatever the message, what is held committed stays, the commit and applied index and the matches do not go back, roles stay coherent, and the term goes back exactly for a termless heartbeat from someone not known as leader; a higher term is adopted, a heartbeat of one is followed and answered, and an answer that completes the replication of an entry commits it |
| RaftObject.Raft.StepAsLeader | sapphiredb/raft/raft.cc:176-264 | likewise the leader's handler, the fall-through from append to heartbeat responses included |
| RaftObject.Raft.TakeVote | sapphiredb/raft/raft.cc:840-870 | likewise the vote, with the assignment in its condition |
| RaftObject.Raft.TakeAppend | sapphiredb/raft/raft.cc:406-451 | likewise the handling of appends common to candidates and followers |
| RaftObject.Raft.TryAppend | sapphiredb/raft/raft.cc:758-767 | popping and inserting gives the kept prefix and the new entries |
| RaftObject.Raft.TryCommit | sapphiredb/raft/raft.cc:1005-1021 | collecting and sorting the matches and taking one gives the commit of the machine |
| RaftObject.Raft.AppendEntries | sapphiredb/raft/raft.cc:1023-1035 | the stamping loop numbers the proposals from the applied index |
| RaftObject.Raft.SendAppendTo | sapphiredb/raft/raft.cc:702-749 | builds the append message and updates the peer optimistically |
| RaftObject.Raft.BroadcastAppend | sapphiredb/raft/raft.cc:769-775 | sends to every tracked peer but itself and peer 0 |
| RaftObject.Raft.BroadcastHeartbeat | sapphiredb/raft/raft.cc:674-689 | sends to every tracked peer but itself |
| RaftObject.Raft.CountVote | sapphiredb/raft/raft.cc:361-384 | records a first vote and counts the grants |
| RaftObject.Raft.TickNode | sapphiredb/raft/raft.cc:44-107 | on the object: a tick lowers nothing, the term included, and keeps the roles coherent |
| RaftObject.Raft.PersistLog | sapphiredb/raft/raft.cc:1136-1164 | afterwards everything committed is applied; nothing goes back and the roles stay coherent |
| RaftObject.Raft.Truncate | sapphiredb/raft/raft.cc:324-340 | on the object: the entries by index are those below the first new index and then the new ones |
| RaftObject.Raft.Stabilise | sapphiredb/raft/raft.cc:300-310 | on the object: the entries by index lose the one named if it is the first and of that term, and the log stays well formed |
| RaftObject.Raft.StabiliseSnap | sapphiredb/raft/raft.cc:312-316 | on the object: the entries and their numbering stay; the index named has no term any more unless an entry has it |
| RaftObject.Raft.RestoreFrom | sapphiredb/raft/raft.cc:318-322 | on the object: no entries, and the snapshot's index and term answer as the last |
| RaftObject.Raft.constructor | sapphiredb/raft/raft.cc:1166-1196 | the initial state, resumed from what storage answers, is coherent |
| RaftObject.ProgressRecord.MaybeUpdate | sapphiredb/raft/progress.cc:62-72 | the match reaches at least the index, never falls, grows exactly when reported, and the next index stays past it |
| RaftObject.ProgressRecord.BecomeProbe | sapphiredb/raft/progress.cc:12-22 | the match stays, and the next index is past it and past a pending snapshot |

## Left out

- Queue: weak memory orderings (steps are sequentially consistent), wrap-around of the 64-bit positions, cache-line padding, and exceptions thrown by moving an item.
- Async helper: exceptions from sinks and formatters, level filters of sinks (a message is offered to a sink, which may ignore it), warm-up and teardown callbacks, `flush` waiting for an empty queue, sleeping and clocks (a parameter says when the flush interval has expired).
- AsyncObject.AsyncLogHelper.WorkerLoop: run alone, with no producer left; the interleaved worker is the machine of AsyncHelper.
- Thread pool: futures, exceptions thrown by tasks, and the failure to create a thread.
- WriteInt.BasicWriter.WriteInt: precision is not modelled; floating point, strings, the format-string parser and the printf front end are not part of this model.
- WriteInt.BasicWriter.PrepareIntBuffer: sizes are unbounded, so a field longer than an unsigned int does not arise; allocation failure is not modelled.
- Rotating files: failures of open other than for the empty name, of remove, rename and write, other processes touching the files, directories, flushing, and the sink's mutex; daily rotation and the other sinks.
- File events: mask bits other than readable and writable, `epoll_wait` and the dispatch of fired events, descriptors closed while registered, and the kqueue and evport back ends.
- FileEvents.EventLoop.CreateFileEvent: with the select back end a descriptor must be below FD_SETSIZE, as `FD_SET` demands of its callers.
- Timers: finalizers that change the list (a timer created by one could be lost when the head is unlinked), memory exhaustion, integer width of seconds and ids, and `aeSearchNearestTimer`.
- TimerList.TimerLoop.RunCallback: a callback is the list of timers it creates and deletes and the value it returns; everything else it does is left out.
- Raft: leader completeness is not modelled (log matching fails, `RaftElection.LogsDisagree`); `stop`, `bcastHeartbeat_fast`, snapshots being sent, leader transfer beyond forwarding the request, `deleteNode`, log lines, and the width of 64-bit counters.
- Raft storage: reading and writing files and protobuf encoding; the terms storage answers are a parameter, and which slice of entries `storageLog` hands over is not modelled.
- Raft queues: the receive buffer and the threads that fill and drain it; a message is handed to the node directly, and what it sent stays in a history.
- RaftObject.Raft.SendAppendTo: peers are values in a map, as in the code; a record is loaded, changed and stored back where the code changes the element through a reference.
- RaftObject.Raft.TryCommit: `std::sort` is the sorting function whose result RaftCommit.SortedSorts describes.
- UnstableLog.TruncateAndAppendIs: asks for new entries that leave no gap, since the code slices past the end of its vector otherwise.
