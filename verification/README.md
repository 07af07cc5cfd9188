# Speculative read-write locks and the index under them: a Dafny model

This project models the synchronisation core of the repository and the B+ tree that its TPC-C
benchmark runs under those locks, and proves what each of them is for.

* **The speculative read-write lock** (`backends/10.02-RHTMNW`, `backends/10.2-RHTMS`). A section runs
  as a hardware transaction, as an uninstrumented reader, or under the fallback lock. `SpRwl.dfy` is the
  lock as an interleaving of atomic steps over *any* readers' indicator; `SpRwlSafety.dfy` proves
  serialisability, reader snapshots and exclusion from the indicator's contract alone. `FlagLock.dfy`
  (one flag per thread) and `SnziLock.dfy` (a SNZI object whose own compare-and-swaps interleave with the
  lock) are two instances. `SpRwlEvents.dfy` reads off the events of a run what each section asked for,
  what it began as and how often it was aborted, and proves that the run does what they say;
  `SpRwlAlone.dfy` proves that a section that meets nobody gets in, does what plain code does and gets
  out. `FallbackProgress.dfy` gives the exact retry budget and shows that a fallback writer gets through.
  `ScheduledLock.dfy` adds the waiting code of 10.2, `ReaderWait.dfy` says whom a reader waits for and who
  posts a time, `ScheduleProgress.dfy` proves it free of deadlock, and `SchedulingBoard.dfy` runs it in
  place.
* **The SNZI readers' indicator** (`backends/common/thread.c`, `thread.h`). `SnziRoot.dfy` and
  `SnziTree.dfy` are the root and the whole object with unbounded versions; `SnziWords.dfy`,
  `SnziPackedRoot.dfy` and `SnziPacked.dfy` are the object on its packed 32-bit words, shown to take the
  same steps while versions and counters fit; `SnziPackedLock.dfy` carries that over to runs of the lock.
  `SnziAlone.dfy` follows a snzi_inc and a snzi_dec that meet nobody to their return.
* **HERWL** (`backends/herwl`). Readers run concurrently with speculating writers. `Herwl.dfy`,
  `HerwlSafety.dfy`, `HerwlProgress.dfy`, `HerwlEvents.dfy`, `HerwlAlone.dfy`, `HerwlLock.dfy`.
* **The big-reader lock** (`backends/brlock`). `BrLock.dfy`.
* **The B+ tree** (`benchmarks/tpcc/code/btree_orig.h`). `BTree.dfy` says what each operation computes,
  `BTreeShape.dfy`, `BTreeInsert.dfy` and `BTreeQuery.dfy` prove that this is a finite map,
  `BTreeHeap.dfy` and `BPlusTree.dfy` are the nodes and the tree with arrays shifted in place.
* **The secondary index over orders** (`benchmarks/tpcc/code/tpcctables_tm.cc`, `tpcctables.cc`).
  `OrderIndex.dfy`.
* **The estimators of section length** (10.2, 10.04). `Estimator.dfy`.

`Replay.dfy` (logs and serial replay), `Requests.dfy` (what sections ask for, and plain code), `Htm.dfy` (hardware transactions) and `Words.dfy` (bitwise or and
and) are shared.

## How concurrency is modelled

Threads interleave one atomic access to a shared word at a time, sequentially consistent. A spin loop is
a step that leaves the state as it is. A hardware transaction buffers its writes and keeps a read set and
a write set; an access of another thread that conflicts, transactional or not, condemns it; the hardware
may abort any transaction at any time; a transaction that is not condemned commits in one step. A HERWL
rollback-only transaction tracks writes but not reads. Nothing is assumed about what a committing
transaction finds: that every reader flag is clear at a commit is derived from the conflict rule, although
the flags are read one by one.

Each lock, and the SNZI object, is a step function `Next` on states together with a class whose methods
take one step each and update the shared words in place; the methods are proved to do what `Next` says,
and the theorems about all runs of `Next` are therefore theorems about the objects.

## What the code does where one might expect otherwise

* `leaf_insert_nonfull_tm` compares `keys[index]` without asking whether `index < num_keys`. On every
  reachable tree that comparison is wrong exactly where the insertion point lies past the keys and the
  slot there holds the key (`BTreeInsert.FalseHit`). That needs key 0, and then the entry is lost:
  `BTreeInsert.InsertIsUpdate` is the exact condition, `BTreeInsert.ZeroIsLost` the smallest instance.
* `del_tm` answers true for a key that was inserted and deleted before (`BTreeQuery.DelTwice`), although
  its comment promises true only for keys that are found; for a key other than 0 this is the only
  disagreement with the map (`BTreeQuery.DelAgrees`).
* The comment on `findLastLessThan_tm` says that it does not work with deletes; its restart on deleted
  keys makes it work.
* `leaf_encode` of the half state is all ones whatever the version, so helpers see count and version -1.
  `root_decode` inverts `root_encode` exactly on counts that are not negative.
* `root_arrive` never clears the announce bit: its last compare-and-swap expects the word without the bit
  and stores it with the bit. Only departures clear it. The safety of the indicator does not need more.
* The digits of an order number past the shift spill into the customer part of the key
  (`OrderIndex.PastTheShift`); two orders share a key exactly when the customer parts with the spilled
  digits and the rests agree (`OrderIndex.SameKey`). So no order has its key alone once numbers may pass
  the shift (`OrderIndex.NeverAlone`). With the shift of 8 in `tpcctables.cc` order 257 of customer
  (1, 1, 1) takes the key of its order 1, and its order 513 that of order 1 of customer (1, 1, 3), so the
  query gives one customer an order of the other (`OrderIndex.EightBitsMislead`).
  `OrderIndex.AnswerPastTheShift` says exactly when the query finds an order that was just filed,
  whatever numbers are on file.
* `findLastOrderByCustomer` returns another customer's order when the customer has none
  (`OrderIndex.FallsThrough`).
* The running mean of 10.2 weighs a sample by the earlier commits of its access mode, of all section
  types. It is within (k - 1) / 2 of the true mean of a type's k samples, whatever the times, exactly
  when for every section of the type that weight is the number of the type's earlier samples
  (`Estimator.AccurateIffBalanced`); for a type that runs in one mode, exactly when no other type ran in
  that mode before a section of it (`Estimator.AccurateIffUnmixed`). The samples 0, 1, .., k - 1 reach the
  bound (`Estimator.MeanUndershoots`).
* With one slot in a leaf, which the source's assertion admits, a second insertion with a smaller key
  stores past the arrays (`BTreeInsert.SplitStoresPast`).

## Model

| member | source | states |
|---|---|---|
| SpRwlSafety.InvNext | backends/10.02-RHTMNW/spec.h:22-106 | every step of every thread keeps the invariant: at most one holder of the lock word, live transactions only while it is clear and with reads that still hold, scanned cells still clear, no reader behind the holder's scan, and memory equal to the serial memory |
| SpRwlSafety.Serialisable | backends/10.02-RHTMNW/spec.h:22-106 | every run, for any number of threads, any aborts and any indicator that keeps its contract, is serialisable in the order in which sections complete: same value for every logged read, and same memory in every state but those where a fallback writer is in its section, which is then the next in that order |
| SpRwlSafety.ReaderSnapshot | backends/10.02-RHTMNW/spec.h:60-74 | while a thread is in an uninstrumented read section no step changes memory, and all its reads are reads of that one memory |
| SpRwlSafety.CommitSeesAllClear | backends/10.02-RHTMNW/spec.h:76-85 | at the instant a hardware writer commits, all cells and the lock word are clear at once and no reader is inside or about to enter, though the cells were read one by one |
| SpRwlSafety.FallbackWriterAlone | backends/10.02-RHTMNW/spec.h:31-38 | the fallback writer in its section owns the lock word and excludes readers, other holders and transactions that could commit |
| SpRwlSafety.OwnedAlways | backends/common/tm.h:309-320 | the lock word is never set without a thread that holds it |
| SpRwlEvents.LogsAreRequests | backends/common/tm.h:499-504 | in every run the log of a thread in its section is the list of the reads and writes it was asked for since its attempt began, with their addresses and written values, and the history lists the completed sections with theirs |
| SpRwlEvents.RunsAsPlainCode | backends/10.02-RHTMNW/spec.h:22-106 | every run leaves the memory, and makes the accesses, that plain code makes when it runs the requests of the completed sections one section after the other; a fallback writer in its section is the next of them |
| SpRwlEvents.ReadAnswers | backends/common/tm.h:499-501 | a read answers with the value of the section's last write to the address, by the events, or else with what memory holds |
| SpRwlEvents.CondemnedIffConflict | backends/10.02-RHTMNW/spec.h:60-85 | a step of another thread condemns a live transaction iff it reads what that wrote, writes what that read or wrote, stores to the lock word, or stores to a cell that has been scanned |
| SpRwlEvents.RolesAreKept | backends/10.02-RHTMNW/spec.h:22-58 | a section that began as a reader never scans, waits for the lock word to take it, or holds it; one that began as a writer is never in read mode |
| SpRwlEvents.EachSectionOnce | backends/common/tm.h:326-348 | of the sections that a thread has begun each has completed once, save the one under way |
| SpRwlAlone.AloneInTransaction | backends/10.02-RHTMNW/spec.h:22-106 | with the lock word, and for a writer the cells, clear, a section alone runs in a transaction: two steps to its first access, for a writer one step a cell and one to commit, and memory and history are what plain code makes of them |
| SpRwlAlone.AloneUnderLock | backends/10.02-RHTMNW/spec.h:31-38 | a fallback writer alone enters after as many steps as there are cells and two more, does what plain code does, and frees the lock word |
| SpRwlAlone.AloneAsReader | backends/10.02-RHTMNW/spec.h:60-106 | a reader alone raises its flag, looks at the lock word, reads what memory holds, and lowers its flag |
| SpRwlAlone.ReaderEnters | backends/10.02-RHTMNW/spec.h:60-74 | among any steps of other threads, a reader that finds the lock word clear is in its section after two steps of its own |
| SpRwlAlone.TransactionBegins | backends/10.02-RHTMNW/spec.h:26-30 | among any steps of other threads, a transaction has begun after two steps that find the lock word clear |
| SpRwlAlone.BacksOff | backends/10.02-RHTMNW/spec.h:65-70 | a reader that finds the lock word set lowers its flag and waits, and comes back once it is clear |
| SpRwlAlone.StaysWhileSet | backends/10.02-RHTMNW/spec.h:26-36 | a thread that waits for the lock word or for a flag takes no other step until it is clear |
| FlagLock.FlagsKeepContract | backends/10.02-RHTMNW/spec.h:60-74 | the array of reader flags keeps the indicator's contract in every run, and a flag is set exactly between its two stores |
| FlagLock.FlagLockSerialisable | backends/10.02-RHTMNW/spec.h:22-106 | every run of the flag-array lock is serialisable in that sense |
| FlagLock.SpecRwLock.constructor | backends/10.02-RHTMNW/spec.h:11-18 | the lock starts with all words clear |
| FlagLock.SpecRwLock.Begin | backends/common/tm.h:326-334 | a section begins as what it asks for, with a fresh retry budget |
| FlagLock.SpecRwLock.ReadWord | backends/common/tm.h:499-501 | a data read returns the value its section stored there last, by the events of the run, or else what memory holds, and condemns the transactions it conflicts with |
| FlagLock.SpecRwLock.WriteWord | backends/common/tm.h:502-504 | a data write is recorded with the address and value it was asked with, is buffered in a transaction and lands in memory under the fallback lock, and condemns the transactions it conflicts with |
| FlagLock.SpecRwLock.End | backends/10.02-RHTMNW/spec.h:76-106 | the first step of a release: a reader's or the fallback writer's section completes, a hardware reader commits, a hardware writer starts its flag scan |
| FlagLock.SpecRwLock.Publish | backends/common/tm.h:480-482 | commit publishes the whole buffer and nothing else in one step; memory is again the replay of the completed sections, and no value that another live transaction or a reader has read changes |
| FlagLock.SpecRwLock.RollBack | backends/common/tm.h:444-478 | an abort leaves memory and history alone; an ordinary one with tries to spare costs one try of the loop, and the last try, or capacity under policy 0, sends a reader to read mode and a writer to the fallback lock |
| FlagLock.SpecRwLock.StoreFlag | backends/10.02-RHTMNW/spec.h:63-66 | a thread stores 1 or 0 in its own flag, which condemns the transactions that have scanned it |
| FlagLock.SpecRwLock.AdvanceTx | backends/10.02-RHTMNW/spec.h:26-30 | one step of the spin before a transaction, of the lock subscription, or of the flag scan of a committing writer |
| FlagLock.SpecRwLock.AdvanceLock | backends/10.02-RHTMNW/spec.h:31-39 | one step of taking the lock word and waiting for the flags, or of a reader's check and back-off; a clear lock word lets the reader in and is taken by the writer; taking it leaves no live transaction, the writer enters its section alone, and a reader enters its own on the serial memory |
| FlagLock.SpecRwLock.ReaderIsConsistent | backends/10.02-RHTMNW/spec.h:60-74 | a reader in its section sees the serial memory of the object, and every value it has read is the value memory still holds |
| FallbackProgress.RetriesBounded | backends/common/tm.h:444-478 | a section reaches its fallback after at most HTM_RETRIES aborts, for every policy and every sequence of aborts |
| FallbackProgress.BudgetIsExact | backends/common/tm.h:444-478 | in every run a section is in the retry loop, with exactly the tries its aborts have left it, until they run out, and then past the loop; capacity takes all tries under policy 0 and half under policy 2, every other abort takes one |
| FallbackProgress.OneTryEach | backends/common/tm.h:444-478 | without capacity aborts, or under another policy, the tries left are HTM_RETRIES less the aborts |
| FallbackProgress.CapacityEndsLoop | backends/common/tm.h:311-311 | under policy 0 a capacity abort leaves no tries |
| FallbackProgress.CapacityHalves | backends/common/tm.h:311-311 | under policy 2, k capacity aborts and no others leave HTM_RETRIES / 2^k tries |
| FallbackProgress.WhereAfterAborts | backends/10.02-RHTMNW/spec.h:22-58 | after k aborts, none for capacity, a section is still trying iff k is less than HTM_RETRIES, and at HTM_RETRIES a reader is in read mode and a writer at the fallback lock |
| FallbackProgress.WorkLosesWeight | backends/10.02-RHTMNW/spec.h:31-38 | while a writer owns the lock word and scans the flags, every step that is neither a spin nor a data access lowers a measure over all program counters, and no step raises it |
| FallbackProgress.ScanNotStuck | backends/10.02-RHTMNW/spec.h:33-36 | until the scan ends some thread can take a step that lowers the measure |
| FallbackProgress.WorkBounded | backends/10.02-RHTMNW/spec.h:31-38 | the number of such steps in any continuation of any run is bounded by the measure at its start |
| FallbackProgress.FallbackGetsThrough | backends/10.02-RHTMNW/spec.h:31-38 | from owning the lock word to the end of the scan, all threads together take at most 5 n + 1 steps that work, and one is always possible |
| FallbackProgress.RaisesAtMostOnce | backends/10.02-RHTMNW/spec.h:60-74 | from taking the lock word to its release, through the scan and the writer's section, every thread raises its reader flag at most once |
| FallbackProgress.NoDeadlock | backends/10.02-RHTMNW/spec.h:22-106 | in every reachable state of the base lock with an unfinished operation some thread can take a step that is neither a data access nor a turn of a spin loop |
| SnziRoot.InvNext | backends/common/thread.c:306-362 | every step of any number of arrivals and departures keeps the root's invariant: the surplus is accounted for thread by thread, and once the bit must stay set every pending clear is stale |
| SnziRoot.ExactNext | backends/common/thread.c:337-362 | clearing departures belong to distinct versions, and a set bit over a zero surplus is owed by the one of the current version |
| SnziRoot.RootSafety | backends/common/thread.c:306-366 | whenever more arrivals have completed than departures have started, the query answers true: late clears of an older version never hide a present thread |
| SnziRoot.RootExactness | backends/common/thread.c:337-366 | if the surplus is zero and the query answers true, exactly one departure of the current version is still in its clear loop |
| SnziRoot.RootQuiescent | backends/common/thread.c:306-366 | with no operation in flight the root count is the surplus and the query answers true iff it is positive |
| SnziTree.InvNext | backends/common/thread.c:368-419 | every step of leaves and root, with any mapping of threads to leaves, keeps both invariants and the balance of every leaf |
| SnziTree.RootSees | backends/common/thread.c:281-298 | the root in the tree only ever takes steps of the root machine, and no departure reaches it without a completed arrival |
| SnziTree.TreeSafety | backends/common/thread.c:281-298 | while some leaf has more completed snzi_inc than started snzi_dec, snzi_query answers true, however threads share leaves |
| SnziTree.LeafConservation | backends/common/thread.c:368-419 | arrivals completed at the root minus departures started from it, leaf by leaf, are 1 if the leaf is not empty plus what its threads still owe; so the root surplus never falls below the number of non-empty leaves |
| SnziTree.QuietIndicator | backends/common/thread.c:364-366 | with no operation in flight the query answers true iff some leaf has a thread present |
| SnziTree.TreeQuiescent | backends/common/thread.c:281-298 | the same for every reachable state without an operation in flight |
| SnziAlone.IncAlone | backends/common/thread.c:368-403 | a snzi_inc alone returns within 11 steps: it adds one to a leaf in use, and fills an empty one under a new version after one arrival at the root |
| SnziAlone.DecAlone | backends/common/thread.c:405-419 | a snzi_dec alone returns within 9 steps: it takes one from its leaf, and the last one departs from the root and clears the indicator if the root is then empty |
| SnziLock.AlwaysReady | backends/10.2-RHTMS/spec.h:143-158 | the lock calls snzi_dec only after its snzi_inc has returned, so every step of the object is one the object allows |
| SnziLock.ContractFromObject | backends/10.2-RHTMS/spec.h:143-158 | the SNZI object keeps the indicator's contract: a reader that has arrived and not started to leave finds the query bit set |
| SnziLock.Refines | backends/10.2-RHTMS/spec.h:105-185 | every run of the lock interleaved with the compare-and-swaps of its SNZI object is a run of the abstract lock |
| SnziLock.ObjectDisturbs | backends/10.2-RHTMS/spec.h:160-170 | a step of the object condemns exactly the transactions that have queried it, and only if it stores to root.state |
| SnziLock.SnziLockSerialisable | backends/10.2-RHTMS/spec.h:105-185 | every run of the lock over the SNZI object is serialisable in that sense |
| SnziLock.SnziLockSnapshot | backends/10.2-RHTMS/spec.h:143-158 | while a reader is in its section no step of lock or object changes memory and no fallback writer is in its section |
| SnziWords.RootRoundTrip | backends/common/thread.h:180-194 | root_decode inverts root_encode iff the count is not negative |
| SnziWords.LeafRoundTrip | backends/common/thread.h:196-202 | leaf_decode inverts leaf_encode iff the count is not negative or the version is -1 |
| SnziWords.HalfIsAllOnes | backends/common/thread.h:294-298 | the half state is all ones whatever its version, and reads as count and version -1 |
| SnziWords.SuccessorForm | backends/common/thread.c:326-328 | the next root.state word has the counter plus one and the chosen bit, as long as the counter fits 31 bits |
| SnziWords.QueryForm | backends/common/thread.c:364-366 | the query's mask tests the indicator bit |
| SnziPackedRoot.WordInjective | backends/common/thread.h:180-187 | within range, equal packed words are equal counts, announce bits and versions, so a compare-and-swap on the packed word decides as on the tuple |
| SnziPackedRoot.RootStepPacked | backends/common/thread.c:306-362 | within range, a step of root_arrive or root_depart on packed words is the step on tuples |
| SnziPacked.RootCountBounded | backends/common/thread.c:288-296 | with one thread per leaf the root count never exceeds the number of leaves |
| SnziPacked.LeafStepPacked | backends/common/thread.c:368-419 | with one thread per leaf, a step of leaf_arrive or leaf_depart on packed words is the step on tuples, even when the leaf version wraps around |
| SnziPacked.PackedNext | backends/common/thread.c:306-419 | within range, a step of the packed object is the step of the unbounded one |
| SnziPacked.PackedRefines | backends/common/thread.c:306-419 | every run with fewer than 2^16 root versions, 2^31 state changes and 2^15 arrivals at a time per leaf is, on the packed words, the run on unbounded versions and counters |
| SnziPacked.PackedQuery | backends/common/thread.c:298-298 | in such a run the packed query answers 1 while a thread is present, and with no operation in flight only then |
| SnziPacked.SnziObject.constructor | backends/common/thread.c:281-286 | all words start at 0 |
| SnziPacked.SnziObject.Increment | backends/common/thread.c:288-291 | snzi_inc starts leaf_arrive at the thread's own leaf |
| SnziPacked.SnziObject.Decrement | backends/common/thread.c:293-296 | snzi_dec starts leaf_depart at the thread's own leaf |
| SnziPacked.SnziObject.ReadIndicator | backends/common/thread.c:364-366 | the answer is the bit, and it is 1 while a thread is present in any run within range |
| SnziPacked.SnziObject.StepLeafArrive | backends/common/thread.c:373-393 | one read or compare-and-swap of leaf_arrive on the leaf word in place |
| SnziPacked.SnziObject.StepLeafFill | backends/common/thread.c:395-403 | the arrival at the root, the filling of the half state and the undoing of surplus arrivals, in place |
| SnziPacked.SnziObject.StepLeafDepart | backends/common/thread.c:406-419 | one step of leaf_depart in place |
| SnziPacked.SnziObject.StepRootArrive | backends/common/thread.c:306-335 | one read or compare-and-swap of root_arrive in place |
| SnziPacked.SnziObject.StepRootDepart | backends/common/thread.c:337-362 | one read or compare-and-swap of root_depart in place |
| SnziPackedLock.LeafCountsAtMostOne | backends/10.2-RHTMS/spec.h:146-158 | in every run of the lock no leaf counts past 1 |
| SnziPackedLock.PackedCell | backends/10.2-RHTMS/spec.h:118-118 | in every run within range the bit the lock reads from the packed words is the cell of the abstract lock |
| ScheduledLock.Unscheduled | backends/10.2-RHTMS/spec.h:69-158 | every run of the lock with its waiting code is a run of the lock without it |
| ScheduledLock.ScheduledSerialisable | backends/10.2-RHTMS/spec.h:69-185 | every run of the scheduled lock is serialisable in that sense |
| ScheduledLock.ScheduledSnapshot | backends/10.2-RHTMS/spec.h:143-158 | while a reader is in its section no step of the scheduled lock changes memory |
| ReaderWait.ScanPicks | backends/10.2-RHTMS/spec.h:69-87 | a whole scan over a board that stands still ends within 3 n + 1 steps: the reader joins the wait of the first thread that waits, else waits for the first thread with the latest posted time, else does not wait |
| ReaderWait.WaitsUntilWithdrawn | backends/10.2-RHTMS/spec.h:83-87 | the reader announces whom it waits for, stays while that thread has a time posted, and then takes back the announcement |
| ReaderWait.OnlyThenGoesOn | backends/10.2-RHTMS/spec.h:83-103 | whatever others do, a waiting reader goes on iff a step of its own finds the time withdrawn, and a pausing writer iff its time has come |
| ReaderWait.WritersPost | backends/10.2-RHTMS/spec.h:52-59 | outside waiting code a writer has a time posted throughout its transaction or its fallback section, and a reader or an idle thread has none |
| ReaderWait.WaitsBegin | backends/10.2-RHTMS/spec.h:143-146 | read mode begins with a scan from the first thread, a reader that has backed off does not scan again, and a writer that finds a reader at its end pauses |
| ScheduleProgress.OperationCanMove | backends/common/thread.c:306-419 | a thread inside the SNZI object can always take a step that moves it on |
| ScheduleProgress.HolderCanMove | backends/10.2-RHTMS/spec.h:115-121 | the holder of the lock word waits at most for a thread inside or present at the indicator, which can move |
| ScheduleProgress.LockedCanMove | backends/10.2-RHTMS/spec.h:110-112 | whoever waits for the lock word has a holder below it that lets some thread move |
| ScheduleProgress.WriterCanMove | backends/10.2-RHTMS/spec.h:83-87 | a posted time that a reader waits for belongs to a writer that lets some thread move |
| ScheduleProgress.NoDeadlock | backends/10.2-RHTMS/spec.h:69-158 | in every reachable state with an unfinished operation some thread can take a step that is not a turn of a spin loop, at the latest when the running pauses are over |
| ScheduleProgress.BoardIsSane | backends/10.2-RHTMS/spec.h:69-88 | is_waiting is 0 or a thread index plus one, a waiting reader announces whom it waits for and has no time posted itself, and only writers in their section have one |
| SchedulingBoard.ScheduledRwLock.constructor | backends/10.2-RHTMS/spec.h:16-32 | all scheduling words start at 0 |
| SchedulingBoard.ScheduledRwLock.Advance | backends/10.2-RHTMS/spec.h:105-185 | a thread takes steps of lock and object only outside its waiting code, what waiting code follows is fixed by the step, and memory stands still while a reader is in its section |
| SchedulingBoard.ScheduledRwLock.PostTime | backends/10.2-RHTMS/spec.h:52-59 | the writer's clock word is set to the given time at START_RDTSC_W2 and cleared at END_RDTSC_W2 |
| SchedulingBoard.ScheduledRwLock.Scan | backends/10.2-RHTMS/spec.h:69-82 | one read of the reader's scan, as the state machine takes it whose whole scans ReaderWait.ScanPicks describes |
| SchedulingBoard.ScheduledRwLock.Join | backends/10.2-RHTMS/spec.h:83-87 | the reader announces whom it waits for, spins on that thread's posted time with none of its own, and withdraws the announcement |
| SchedulingBoard.ScheduledRwLock.Rest | backends/10.2-RHTMS/spec.h:99-102 | the writer pauses until the clock has passed |
| SchedulingBoard.ScheduledRwLock.InRange | backends/10.2-RHTMS/spec.h:72-85 | every index that the waiting code reads is a thread index |
| HerwlSafety.InvNext | backends/herwl/spec.h:24-166 | every step keeps the invariant: one owner of the lock word, odd counters exactly for announced readers, reads of live transactions and of readers in their section still hold, and no scan has passed a reader that a buffered write could hurt |
| HerwlSafety.ReaderConsistency | backends/herwl/spec.h:24-42 | after any step of any thread every address that a reader in its section has read still holds the value it read |
| HerwlSafety.CommitAvoidsReaders | backends/herwl/spec.h:116-159 | a hardware or rollback-only commit while a reader is in its section writes nothing the reader has read |
| HerwlSafety.HerwlSerialisable | backends/herwl/spec.h:24-166 | every run is serialisable in the order in which sections complete, readers at their release; memory is the serial memory also while the owner of the lock word waits for the readers |
| HerwlProgress.SerialButForGlobal | backends/herwl/spec.h:24-166 | memory is the serial memory in every reachable state in which no thread runs its section under the global lock |
| HerwlSafety.GlobalWriterAlone | backends/herwl/spec.h:83-87 | a writer under the global lock is alone: no reader in its section, no other owner, no transaction that could commit |
| HerwlProgress.SoundNext | backends/herwl/spec.h:24-166 | every step keeps the lock word owned by some thread while it is 1 or 2, and every snapshot made of odd counters only |
| HerwlProgress.ScanMoves | backends/herwl/spec.h:116-145 | a thread that scans the counters waits at most for an announced reader, which can move |
| HerwlProgress.NoDeadlock | backends/herwl/spec.h:24-166 | in every reachable state with an unfinished operation some thread can take a step that is neither a data access nor a turn of a spin loop |
| HerwlProgress.RetriesBounded | backends/herwl/spec.h:93-113 | a section aborts at most HTM_RETRIES times in hardware transactions and, counted apart, at most ROT_RETRIES times in rollback-only ones, for every policy and every sequence of causes |
| HerwlEvents.LogsAreRequests | backends/common/tm.h:499-504 | in every run the log of a thread in its section is the list of the reads and writes it was asked for since its attempt began, with their addresses and written values, and the history lists the completed sections with theirs |
| HerwlEvents.RunsAsPlainCode | backends/herwl/spec.h:24-166 | every run leaves the memory, and makes the accesses, that plain code makes when it runs the requests of the completed sections one section after the other; a global-lock writer in its section is the next of them |
| HerwlEvents.ReadAnswers | backends/common/tm.h:499-501 | a read answers with the value of the section's last write to the address, by the events, or else with what memory holds |
| HerwlEvents.CondemnedIffConflict | backends/herwl/spec.h:45-166 | a step of another thread condemns a hardware transaction iff it reads what that wrote, writes what that read or wrote, or stores to the lock word, and a rollback-only one iff it accesses what that wrote |
| HerwlEvents.RolesAreKept | backends/herwl/spec.h:24-113 | a section that began as a reader never speculates or takes the lock word, and one that began as a writer never runs uninstrumented |
| HerwlEvents.EachSectionOnce | backends/common/tm.h:326-348 | of the sections that a thread has begun each has completed once, save the one under way |
| HerwlEvents.BudgetIsExact | backends/herwl/spec.h:54-113 | in every run a writer is in the hardware loop until its aborts have used up those tries, then in the rollback-only loop until they have used up these, and then at the global lock |
| HerwlEvents.CostOfAborts | backends/common/tm.h:397-430 | without capacity aborts each abort has cost one try of its loop, and a conflict in hardware two |
| HerwlAlone.AloneInHtm | backends/herwl/spec.h:93-151 | with the lock word clear and no reader announced a section alone commits its hardware transaction after one step a counter and does what plain code does |
| HerwlAlone.AloneInRot | backends/herwl/spec.h:45-157 | the same for a rollback-only transaction, which takes the lock word, scans the counters twice, and frees it |
| HerwlAlone.AloneUnderGlobal | backends/herwl/spec.h:78-166 | the same under the global lock |
| HerwlAlone.AloneAsReader | backends/herwl/spec.h:24-42 | while the lock word is not 2 a reader alone enters after three steps, reads what memory holds, and leaves its counter two further on |
| HerwlAlone.ReaderEnters | backends/herwl/spec.h:24-40 | among any steps of other threads a reader that finds the lock word below 2 is in its section after three steps of its own |
| HerwlAlone.SnapEnds | backends/herwl/spec.h:116-128 | the snapshot of a rollback-only writer notes exactly the odd counters |
| HerwlAlone.WaitEnds | backends/herwl/spec.h:129-136 | once every noted counter has moved, even to another odd value, the writer commits after one step a counter |
| HerwlAlone.BacksOff | backends/herwl/spec.h:30-38 | a reader that meets a global-lock writer makes its counter even again and spins until the lock word changes |
| HerwlAlone.StaysWhileSet | backends/herwl/spec.h:24-145 | a thread that waits for the lock word or a counter takes no other step until that has changed |
| HerwlLock.ElidedLock.constructor | backends/herwl/spec.h:15-22 | lock word and counters start at 0 |
| HerwlLock.ElidedLock.Begin | backends/herwl/spec.h:93-97 | a section begins as what it asks for, a writer with its retry budget, a reader with its spin |
| HerwlLock.ElidedLock.ReadWord | backends/common/tm.h:499-501 | a read returns the value its section stored there last, by the events of the run, or else what memory holds, and condemns every writer that has the address in its buffer |
| HerwlLock.ElidedLock.WriteWord | backends/common/tm.h:502-504 | a write is recorded with the address and value it was asked with, is buffered, or lands in memory under the global lock, and condemns what it conflicts with |
| HerwlLock.ElidedLock.End | backends/herwl/spec.h:147-166 | the first step of a release: the reader's counter becomes even, the global writer frees the lock word, a speculating writer starts to wait |
| HerwlLock.ElidedLock.Publish | backends/herwl/spec.h:151-159 | commit publishes the whole buffer and nothing else in one step; memory is again the replay of the completed sections, and no value that another live transaction or a reader in its section has read changes |
| HerwlLock.ElidedLock.RollBack | backends/common/tm.h:397-430 | an abort leaves memory and history alone and spends the budget of its loop by its cause, two tries for a conflict in hardware; with none left a hardware section goes to the lock word |
| HerwlLock.ElidedLock.StepReader | backends/herwl/spec.h:24-40 | one step of a reader's acquire loop with its parity counter; a reader enters its section on the serial memory |
| HerwlLock.ElidedLock.StepHtm | backends/herwl/spec.h:97-103 | one step of the hardware loop, or of the quiescence of a suspended transaction |
| HerwlLock.ElidedLock.StepLock | backends/herwl/spec.h:45-87 | one step of taking and freeing the lock word at 1 and at 2, and of the wait for even counters; an owner leaves no other owner and no live hardware transaction, and at last no reader |
| HerwlLock.ElidedLock.StepQuiesce | backends/herwl/spec.h:116-136 | one step of the snapshot of odd counters and of the wait for each to move |
| HerwlLock.ElidedLock.ReaderIsConsistent | backends/herwl/spec.h:24-42 | a reader in its section of the object sees the serial memory, and its reads still hold |
| BrLock.InvNext | backends/brlock/spec.h:19-66 | every step keeps every set word, and writer_lock, with exactly one owner |
| BrLock.OneOwner | backends/brlock/spec.h:19-66 | in every reachable state a word is set iff exactly one thread owns it |
| BrLock.WriterAlone | backends/brlock/spec.h:34-56 | a writer in its section owns writer_lock and every word, and nobody else is in a section |
| BrLock.WritersExclude | backends/brlock/spec.h:19-66 | by the events: who last began a section as a writer and has acquired excludes everybody who has acquired, and who began one as a reader holds at most its own word |
| BrLock.RolesAreKept | backends/common/tm.h:326-334 | a section runs the code of what it began as |
| BrLock.EachSectionOnce | backends/common/tm.h:326-348 | of the sections that a thread has begun each has been left once, save the one under way |
| BrLock.ReaderGetsThrough | backends/brlock/spec.h:19-32 | a reader alone gets in with two steps and out with one |
| BrLock.WriterGetsIn | backends/brlock/spec.h:34-56 | a writer alone gets in with 2 n + 3 steps, holding writer_lock and every word |
| BrLock.WriterGetsOut | backends/brlock/spec.h:58-66 | a writer gets out with n + 3 steps, having freed all of them |
| BrLock.StaysWhileSet | backends/brlock/spec.h:19-54 | a thread that spins takes no other step until its word is clear |
| BrLock.FailedSwapLooksAgain | backends/brlock/spec.h:19-54 | a failed compare-and-swap changes no word and sends the thread back to its spin |
| BrLock.NoDeadlock | backends/brlock/spec.h:45-54 | the ordered collection of words admits no cyclic wait: with an unfinished operation some thread can take a step that is neither a turn of a spin loop nor a compare-and-swap that fails |
| BrLock.BigReaderLock.constructor | backends/brlock/spec.h:10-17 | all words start clear |
| BrLock.BigReaderLock.Begin | backends/common/tm.h:326-334 | a section begins as what it asks for |
| BrLock.BigReaderLock.StepReader | backends/brlock/spec.h:19-32 | one step of a reader's spin, compare-and-swap or release on its own word, in place; a reader that is in excludes writers |
| BrLock.BigReaderLock.StepWriter | backends/brlock/spec.h:34-56 | one step of taking writer_lock and then the words in order, in place; a writer that is in is alone |
| BrLock.BigReaderLock.StepRelease | backends/brlock/spec.h:58-66 | one step of giving the words back in order and writer_lock last, in place |
| Estimator.AccurateIffBalanced | backends/10.2-RHTMS/spec.h:39-64 | the average of a section type is, for all times, at most the true mean of its k samples and at most (k - 1) / 2 below it, iff each sample is weighed by as many commits of its mode as the type had samples before |
| Estimator.AccurateIffUnmixed | backends/10.2-RHTMS/spec.h:39-64 | for a type that runs in one access mode that is so iff no section of another type and that mode was counted before one of this type; sections of the other mode do not matter |
| Estimator.MeanUndershoots | backends/10.2-RHTMS/spec.h:44-46 | the samples 0, 1, .., k - 1 of a type, with no other sections, leave the average at 0 and so reach the lower bound |
| Estimator.SectionTimer.Record | backends/10.2-RHTMS/spec.h:39-64 | recording a section updates the average of its type with the weight of the commits of its mode and counts one commit of that mode, leaves the other types alone, and keeps the bounds as long as the weights are right |
| Estimator.AverageInRange | backends/10.04-RHTMRW/spec.h:39-46 | the 19/20 average stays within the range of its start and samples |
| Estimator.AverageSettles | backends/10.04-RHTMRW/spec.h:39-46 | on a constant input the 19/20 average settles, exactly at the input from above and within 19 below it from below |
| BTreeInsert.InsertKeeps | benchmarks/tpcc/code/btree_orig.h:65-90 | insert_tm keeps sortedness, uniform leaf depth, bounds, occupancy, separators equal to the least key on their right, and stale slots that are 0 or at least the leaf's upper bound; and it is map update save for the false hit |
| BTreeInsert.LeafInsertFits | benchmarks/tpcc/code/btree_orig.h:348-400 | insertion into a leaf, split or not, fits where the leaf was and updates its contents |
| BTreeInsert.InnerInsertFits | benchmarks/tpcc/code/btree_orig.h:402-480 | insertion below an inner node, with the early split, fits where the node was and updates its contents |
| BTreeInsert.FalseHitNeedsZero | benchmarks/tpcc/code/btree_orig.h:384-389 | the unguarded comparison fires wrongly only for key 0, and only if the key is absent |
| BTreeInsert.InsertIsUpdate | benchmarks/tpcc/code/btree_orig.h:65-90 | insert_tm is map update iff the compared slot is no false hit; for a key other than 0 it always is |
| BTreeInsert.ZeroIsLost | benchmarks/tpcc/code/btree_orig.h:384-389 | key 0 inserted into the empty tree is lost |
| BTreeInsert.SplitStoresPast | benchmarks/tpcc/code/btree_orig.h:348-400 | an insertion into a full leaf writes past the slots of its half iff a leaf has one slot and the key is below the one in it |
| BTreeQuery.FindIsLookup | benchmarks/tpcc/code/btree_orig.h:95-116 | find_tm answers with the value of a live key and with nothing otherwise |
| BTreeQuery.DelIsUpdate | benchmarks/tpcc/code/btree_orig.h:123-140 | del_tm writes null to the key's value and changes nothing else; its answer is true iff the key is a physical key or the slot compared past the keys is a false hit |
| BTreeQuery.CandidateIsPredecessor | benchmarks/tpcc/code/btree_orig.h:146-168 | one descent finds the greatest physical key below the argument, deleted or not |
| BTreeQuery.FindLastIsPredecessor | benchmarks/tpcc/code/btree_orig.h:146-186 | findLastLessThan_tm returns the greatest live key strictly below the argument with its value, or nothing iff there is none, on trees with deleted keys |
| BTreeQuery.FewerBelow | benchmarks/tpcc/code/btree_orig.h:175-181 | each restart at a deleted key has strictly fewer physical keys below it, so the restarts end |
| BTreeQuery.RunKeeps | benchmarks/tpcc/code/btree_orig.h:65-140 | after any run from the empty tree the physical keys are the keys ever put and the live entries are the map, save for key 0 while every insertion of it was a false hit |
| BTreeQuery.RunRefinesMap | benchmarks/tpcc/code/btree_orig.h:65-186 | from the empty tree any run of insertions and deletions answers find and the predecessor query on every key like that map, and del, for a key other than 0, with whether the key was ever put |
| BTreeQuery.DelAgrees | benchmarks/tpcc/code/btree_orig.h:119-140 | del_tm answers whether the key is live iff the key is not one that was deleted before and the slot compared past the keys is no false hit |
| BTreeQuery.DelTwice | benchmarks/tpcc/code/btree_orig.h:119-140 | after one insertion and one deletion of key 1 del_tm answers true again |
| BTreeQuery.DepthBound | benchmarks/tpcc/code/btree_orig.h:353-376 | a tree of depth d >= 1 holds at least 2 * floor((N+1)/2)^(d-1) * floor(M/2) physical keys |
| BTreeHeap.Node.NewLeaf | benchmarks/tpcc/code/btree_orig.h:234-238 | a new leaf has no keys and zeroed key slots |
| BTreeHeap.Node.LeafPosition | benchmarks/tpcc/code/btree_orig.h:305-312 | the number of leading keys below the key |
| BTreeHeap.Node.InnerPosition | benchmarks/tpcc/code/btree_orig.h:335-342 | the number of leading keys at most the key |
| BTreeHeap.Node.LeafInsertNonfull | benchmarks/tpcc/code/btree_orig.h:384-400 | overwrites the value if the compared slot holds the key, else shifts keys and values up in place and stores the entry; slots past the keys stay |
| BTreeHeap.Node.SplitLeaf | benchmarks/tpcc/code/btree_orig.h:353-363 | copies the upper half to a fresh leaf and leaves the stale keys behind |
| BTreeHeap.Node.LeafInsert | benchmarks/tpcc/code/btree_orig.h:348-382 | in place, what BTree.LeafInsert computes, with the new sibling in cells of its own |
| BTreeHeap.Node.ShiftInner | benchmarks/tpcc/code/btree_orig.h:468-473 | moves separators and children up by one in place |
| BTreeHeap.Node.PlaceSibling | benchmarks/tpcc/code/btree_orig.h:459-478 | the separator goes to its index and the sibling right after the split child |
| BTreeHeap.Node.InnerInsertNonfull | benchmarks/tpcc/code/btree_orig.h:438-480 | in place, what BTree.InsertNonfull computes; no cell outside the subtree changes |
| BTreeHeap.Node.SplitInner | benchmarks/tpcc/code/btree_orig.h:408-423 | the early split: upper separators and children go to a fresh node, the middle separator is left for the parent |
| BTreeHeap.Node.InnerInsert | benchmarks/tpcc/code/btree_orig.h:402-436 | in place, what BTree.InnerInsert computes |
| BTreeHeap.Node.DeleteInLeaf | benchmarks/tpcc/code/btree_orig.h:132-139 | writes null to the value of the compared slot |
| BPlusTreeObject.BPlusTree.constructor | benchmarks/tpcc/code/btree_orig.h:40-56 | a new tree is well-formed and empty |
| BPlusTreeObject.BPlusTree.Insert | benchmarks/tpcc/code/btree_orig.h:65-90 | in place, what BTree.Insert computes; for a key other than 0 the entries are updated at the key |
| BPlusTreeObject.BPlusTree.Find | benchmarks/tpcc/code/btree_orig.h:95-116 | found iff the key is live, with its value |
| BPlusTreeObject.BPlusTree.Delete | benchmarks/tpcc/code/btree_orig.h:123-140 | removes the key from the live entries; answers whether the key is a physical one |
| BPlusTreeObject.BPlusTree.LeafBefore | benchmarks/tpcc/code/btree_orig.h:147-158 | the leaf that holds the predecessor of the key, if there is one |
| BPlusTreeObject.BPlusTree.FindLastLessThan | benchmarks/tpcc/code/btree_orig.h:146-186 | the greatest live key below the argument with its value, found iff there is one |
| OrderIndex.KeyOrder | benchmarks/tpcc/code/tpcctables_tm.cc:736-740 | for order numbers the shift leaves room for, keys compare as the tuples (w, d, c, o) do, so they are injective |
| OrderIndex.KeyFits | benchmarks/tpcc/code/tpcctables_tm.cc:736-740 | with the shift of 32 keys and query bound fit a signed 64-bit word |
| OrderIndex.KeyIsSum | benchmarks/tpcc/code/tpcctables_tm.cc:739-739 | the key is shift-and-add iff customer and order number share no binary digit |
| OrderIndex.PastTheShift | benchmarks/tpcc/code/tpcctables.cc:872-876 | the digits of any order number past the shift are or-ed into the customer part of the key |
| OrderIndex.SameKey | benchmarks/tpcc/code/tpcctables.cc:872-876 | any two orders have the same key iff their customer parts with the spilled digits and their rests agree |
| OrderIndex.NeverAlone | benchmarks/tpcc/code/tpcctables.cc:872-876 | every order whose number fits the shift shares its key with a larger number of the same customer |
| OrderIndex.EightBitsCollide | benchmarks/tpcc/code/tpcctables.cc:872-876 | with the shift of 8 order 257 of customer (1, 1, 1) has the key of its order 1, and order 513 that of order 1 of customer (1, 1, 3) |
| OrderIndex.LastKeyBounds | benchmarks/tpcc/code/tpcctables_tm.cc:767-769 | the bound of the query is above exactly the keys of the customer and of those before it |
| OrderIndex.AnswerPastTheShift | benchmarks/tpcc/code/tpcctables.cc:903-915 | whatever numbers are on file, an order is, once filed, the answer for its customer iff its spilled digits leave the customer part alone and no order on file has a key above its own and below the bound, or they raise that part by one and leave no rest |
| OrderIndex.EightBitsMislead | benchmarks/tpcc/code/tpcctables.cc:872-915 | with orders 1 and 513 of customer (1, 1, 1) on file under the shift of 8, that customer is answered with order 1 and customer (1, 1, 3), who has none, with order 513 |
| OrderIndex.FallsThrough | benchmarks/tpcc/code/tpcctables_tm.cc:764-773 | a customer without an order is answered with the order of the customer before it |
| OrderIndex.OrdersByCustomer.constructor | benchmarks/tpcc/code/btree_orig.h:40-56 | the index starts empty |
| OrderIndex.OrdersByCustomer.InsertOrder | benchmarks/tpcc/code/tpcctables_tm.cc:751-757 | for any order number the order is filed under its packed key and replaces what was there; nothing else changes |
| OrderIndex.OrdersByCustomer.FindLastOrder | benchmarks/tpcc/code/tpcctables_tm.cc:764-773 | the order under the greatest key below the bound, or null; while all numbers on file fit the shift, the customer's order with the largest number if it has one, else the last order of the customers before it, or null iff there is none |

## Left out

- Real hardware transactions, time-stamp reads, memory fences, cache alignment and weak memory: replaced by the step semantics above, a clock that only goes forward, and sequential consistency.
- FallbackProgress.RetriesBounded: counts the tries of the x86 retry loop (backends/common/tm.h:444-478); the Power loop (lines 397-430) takes further tries for conflicts and capacity, and only HERWL's model follows it.
- ScheduledLock.Unscheduled: the times that writers post and pauses wait for are free (any positive time, any instant), so the averages and the readers' clock words that would fix them are not part of the scheduled state.
- ScheduleProgress.NoDeadlock: is freedom from deadlock, not fairness between threads; livelock of retrying compare-and-swaps is not excluded.
- FallbackProgress.FallbackGetsThrough: assumes nothing about scheduling and so does not bound time; data accesses inside read sections are not counted.
- SnziPacked.PackedRefines: is for one thread per leaf, as snzi_inc and snzi_dec use the object; SnziTree has any sharing of leaves, with unbounded versions.
- SnziPacked.SnziObject.ReadIndicator: says what the answer means only for runs whose versions and counter stay in range; past that the words wrap around.
- BPlusTreeObject.BPlusTree.constructor: asks M > 1 where the source asserts M > 0; with one slot the lower half of a split leaf is as full as the leaf was, and inserting a smaller key stores past its arrays (BTreeInsert.SplitStoresPast).
- OrderIndex.OrdersByCustomer.constructor: asks M > 1 for the same reason.
- BPlusTreeObject.BPlusTree.Delete: the comparison past the last slot of a full leaf, which the source makes without a bound, counts as no match; the descent is written as recursion so that the nodes above can record the change of the subtree.
- BPlusTreeObject.BPlusTree.FindLastLessThan: a position of -1 stands for the unsigned wrap-around of the source.
- BTreeHeap.Node.NewLeaf: one class stands for leaves and inner nodes, which the source tells apart by casts; a value of 0 stands for the null pointer.
- OrderIndex.OrdersByCustomer.InsertOrder: order numbers start at 1 and orders are not null; the primary order table, into which insertOrder also puts the order, is not part of the index.
- The scheduled variants over the flag array (10.1, 10.05, 10.04) and the variant whose readers never speculate (2.0): the same steps in other combinations. For 10.05, 10.1 and 2.0 `backends/common/tm.h:383-390` replaces the release text.
- `btree.h`: the same tree with access macros; its slow `find` has a path without a return.
- Estimator.SectionTimer.Record: averages and counters are unbounded naturals; wrap-around of the 64-bit product is not modelled.
- Statistics, option parsing, thread pinning, barriers, node reclamation, the TPC-C transaction bodies, hash tables and lists.
- The pthread lock, the single-global-lock variant and the random number generators.
