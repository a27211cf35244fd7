# Verified models of the multicore practice repository

The repository collects multicore exercises: a multi-version store with a concurrent garbage
collector (Project2), an all-pairs breadth-first search pruned by shared bits (Project1), two
concurrent sorted-list sets (Lab11), breadth-first searches that meet on shared vertices (Lab4), a
CLH queue lock (Lab6), and pieces of the MariaDB and InnoDB sources it was tuned with (Project3).
This project models the cores of these programs and proves what they promise.

`dafny verify dfyconfig.toml` checks everything.

## How the programs are modelled

Concurrent code is a transition system: a datatype for the whole state, one `Step` per access to
shared memory or per section under a mutex, and runs that interleave the steps of all threads in any
order.  An access to freed memory and a failing assertion of the program set a `fault` flag, so that
"no run faults" is memory safety and the truth of the program's own assertions.  Theorems about runs
hold for any number of threads, any input and any schedule.  Sequential code is imperative Dafny:
methods with the loops of the source, and classes where objects are updated in place, proved against
functions on sequences whose own properties are proved beside them.

| files | program |
|---|---|
| Mvcc, MvccProof, MvccTheorems, MvccCollection, MvccAlone, MvccWitness, NodeList | Project2: updaters, collector, MyMutex, linked lists |
| Graph, LevelSearch, LevelControl, LevelProof, LevelTheorems, LevelTermination | Project1: one search by a team of workers |
| HouseSearch, HouseTheorems, HouseTermination, SingleSearch | Project1: all searches together; the single-threaded program |
| SetSpec, OptimisticList, OptimisticProof, OptimisticTheorems, OptimisticAlone | Lab11: the optimistic list |
| FineGrainedList, FineGrainedProof, FineGrainedTheorems, FineGrainedAlone | Lab11: the lock-coupling list |
| MeetingSearch, MeetingProof, MeetingTheorems | Lab4: the meeting searches |
| QueueLock | Lab6: the CLH lock |
| PageWatch, ChunkLayout, DataFilePaths | Project3: InnoDB |
| CompletionTable, LineBuffer | Project3: the MariaDB client |

Assumptions:

- Memory is sequentially consistent.  Sections under one mutex are atomic, also where some of their
  variables are read elsewhere without it; those reads are steps of their own.
- The collector's test and assignment of a list head (Project2/src/mvcc.cpp:105-106) read the head
  once; the code loads it twice.  The barrier test of a team (Project1/src/bfs.cpp:338) reads both
  masks at once.
- Project1: symmetric adjacency, distinct houses.  Bit masks are sets, so the limits of 64 houses, 64
  workers and ten neighbours play no part.  `visit_bits == full_visit_bits` is "every other house is in
  the row", which is the same because a row never holds its own bit.  A house worker with one thread
  is a team of one; SingleSearch has its loop in full.
- Lab11: keys lie strictly between INT_MIN and INT_MAX, and the mutexes of head and tail start
  unlocked.  Lab4: a connected graph, distinct houses, depths that fit their type.
- A lock cell of Lab6 may be allocated at any address that is not live, so addresses are reused; the
  nodes of the lists get fresh addresses.
- Version counters, fix counts and buffer sizes do not wrap around.
- Chains of buckets and the page hash are sequences and sets of their entries.

History variables (the committed versions and snapshots of Project2, the chain of linked nodes and the
removed nodes of Lab11, the level of a team, the order of swaps, the users of a block) record the past of
a run; no step of the programs reads them.

Where code and comments differ the code is modelled.  Project2/README.md:44 says that the collector
starts from the smallest active version and keeps one version below its bound; the code takes the last
entry of the active list, lowers it to the smallest head, and keeps two.  The comment at
Project3/ryul/buf0buf.cc:1321-1324 expects more or fewer blocks depending on alignment; the number is
always one less than requested.  The syntax check of the data files looks at the maximum instead of
the size where one is given, so a file of size zero gets through there.

## Model

| member | source | states |
|---|---|---|
| MvccTheorems.RunsNeverFault | Project2/src/mvcc.cpp:146-275 | in every run of any number of updaters and the collector nobody follows a freed node, both assertions of the search hold, and leaving always finds the own active entry |
| MvccTheorems.OnlyGarbageIsFreed | Project2/src/mvcc.cpp:90-130 | whatever the collector frees has two newer versions of the same thread below its bound, the bound is at most the recent version of every updater still reading, and the freed version is older than what any of them can read from that list |
| MvccTheorems.OnlyCollectorFrees | Project2/src/mvcc.cpp:118-125 | versions leave a list only in the erase step, which removes exactly the node after `prev`; that nothing is left that should go is PassIsThorough |
| MvccCollection.NothingLeftBehind | Project2/src/mvcc.cpp:110-129 | in every run, while the collector is about to load list i, no list before i holds a version with two newer ones below the bound, whatever was published meanwhile |
| MvccCollection.PassIsThorough | Project2/src/mvcc.cpp:110-129 | when a collection ends this holds of every list |
| MvccAlone.CollectAlone | Project2/src/mvcc.cpp:90-130 | from every state of the invariant with a free lock, steps of the collector alone finish a collection; its bound is the least of the version of the last active entry and all newest versions, it frees exactly the versions with two newer ones below the bound, and it changes nothing else |
| MvccTheorems.TwoNewerStay | Project2/src/mvcc.cpp:110-129 | the two newest versions below the bound survive each erasure |
| MvccWitness.TwoVersionsNeeded | Project2/src/mvcc.cpp:110-129 | two is also necessary: a run that ends with the collector standing on the second version below its bound while a reader, whose recent version is not below the bound, has still to read exactly that version |
| MvccProof.FreedIsBelowSnapshot | Project2/src/mvcc.cpp:94-129 | although the bound starts from the last active entry and not from the smallest, the head scan makes what is freed older than every reader's snapshot of that list |
| MvccTheorems.ReadsAreSnapshots | Project2/src/mvcc.cpp:180-224 | the data an updater publishes from is the newest version of the chosen thread among updates that had left the active list when the read-view was copied, by either branch and whatever others did meanwhile |
| MvccTheorems.PublishedVersion | Project2/src/mvcc.cpp:226-230 | the step that publishes puts one version in front of the own list and changes no other list; the version has the number the updater took, and A and B of the previous one shifted by q: the C++ remainder by 100 (between -100 and 100, zero or of the same sign, the difference divisible by 100) of the A committed by the chosen thread when the read-view was copied |
| MvccTheorems.ChoiceKept | Project2/src/mvcc.cpp:180-224 | the thread read from is the one that was drawn |
| MvccAlone.UpdateAlone | Project2/src/mvcc.cpp:166-267 | from every state of the invariant with a free lock, steps of thread t alone finish an update that draws thread i; it publishes and commits one version, numbered by the execution order and computed from the A committed by thread i, counts itself, and leaves active list, lock and all other threads as they were |
| MvccTheorems.UpdatesCounted | Project2/src/mvcc.cpp:267 | the throughput counter is the number of updates the thread has finished |
| MvccTheorems.CommittedIs | Project2/src/mvcc.cpp:226-235 | the committed versions, defined on the run alone, are those the state records |
| MvccTheorems.SnapshotKept | Project2/src/mvcc.cpp:174-224 | a reader's snapshot is fixed from the copy of the read-view until it publishes |
| MvccProof.ViewMatchesCommitted | Project2/src/mvcc.cpp:180-224 | when a read-view is copied, the committed version of every thread, the reader included, is the one the view will lead the search to: the version recorded in the entry for threads in the view, the newest below the own version number for the others |
| MvccProof.WalkOutcome | Project2/src/mvcc.cpp:197-224 | a step of the unlocked walk meets no freed node, does not drop below its target, and ends, if it ends, on the snapshot version |
| MvccTheorems.MutualExclusion | Project2/src/my_mutex.cpp:22-58 | at most one thread, updater or collector, is between Lock and Unlock |
| MvccTheorems.ActiveListExact | Project2/src/mvcc.cpp:166-235 | a thread is in the active list exactly between joining and leaving, and once |
| MvccTheorems.ListsExact | Project2/src/mvcc.cpp:226-230 | every version list is non-empty and strictly descending, and every version has A + B = 100 |
| MvccTheorems.SumConserved | Project2/src/mvcc.cpp:280-290 | the sum over all heads is 100 times the number of threads in every state of every run |
| MvccTheorems.PrintSum | Project2/src/mvcc.cpp:280-290 | the loop computes that sum |
| MvccTheorems.InitialiseContexts | Project2/src/mvcc.cpp:338-347 | the loop gives thread i one version, numbered i, with A the value drawn and B what is missing to 100; this is the initial state of the transition system |
| MvccProof.StepInv | Project2/src/mvcc.cpp:90-275 | every step of every thread keeps the invariant of lock, active list, version lists, cursors and collector |
| NodeList.List.PushFront | Project2/src/node.h:26-31 | the list becomes the new element followed by the old contents |
| NodeList.List.EraseAfter | Project2/src/node.h:57-66 | exactly the given node leaves the list and its successor is returned |
| NodeList.List.FindPredecessor | Project2/src/node.h:36-52 | the search finds the node and its predecessor, null for the head |
| NodeList.List.Erase | Project2/src/node.h:36-52 | exactly the given node leaves the list, wherever it is |
| NodeList.CopyReadView | Project2/src/mvcc.cpp:174-178 | the copied read-view is the active list reversed, on fresh nodes |
| NodeList.LastActiveVersion | Project2/src/mvcc.cpp:94-102 | the version in the last node of the list, INT_MAX for an empty list |
| NodeList.KeptIsExact | Project2/src/mvcc.cpp:110-129 | of a descending list exactly the versions with two newer ones below the bound are dropped |
| NodeList.TrimVersions | Project2/src/mvcc.cpp:110-129 | run alone, the trimming loops leave exactly what KeptIsExact describes and never touch the head |
| NodeList.DropAllAfter | Project2/src/mvcc.cpp:118-125 | everything behind the second version below the bound is erased |
| LevelTheorems.OneLevel | Project1/src/bfs.cpp:262-371 | in every reachable state all expanding workers are on the same level, and the full mask of that level is exactly the busy workers |
| LevelTheorems.LowerLevelsDone | Project1/src/bfs.cpp:284-358 | while a worker expands its level, every vertex of a lower level is marked, waits with nobody, and has all its neighbours marked |
| LevelTheorems.SplitFindsWorker | Project1/src/bfs.cpp:297-324 | when the counter says so, the search for a free worker succeeds |
| LevelTheorems.SplitShares | Project1/src/bfs.cpp:297-324 | a worker with more than one vertex left, while somebody is free, hands its last vertex to the first free worker, who starts from it on the same level; otherwise it goes on to visit |
| LevelTheorems.BarrierMakesProgress | Project1/src/bfs.cpp:330-346 | a worker held at the barrier is on the current level and waits for a busy one that is not held |
| LevelTheorems.TeamMakesProgress | Project1/src/bfs.cpp:262-371 | until all workers have left, one of them can get on: a busy one that the barrier does not hold back or, when nobody is busy and the counter is full, any that has not left |
| LevelTheorems.BusyWorkerMoves | Project1/src/bfs.cpp:262-371 | a busy worker that is not held back changes its place with its next step |
| LevelTermination.StepsLessenWork | Project1/src/bfs.cpp:262-371 | every step of a worker that can get on lessens a well-founded measure of the work the team has left: levels, vertices that can be handed over, steps, exits |
| LevelTermination.NothingAddsWork | Project1/src/bfs.cpp:262-371 | no step of the team and no bit set by another search adds to it |
| LevelTermination.StepBounded | Project1/src/bfs.cpp:284-358 | the level of a team never exceeds the number of vertices |
| LevelTheorems.FinishedHasMetAll | Project1/src/bfs.cpp:252-382 | when all workers have left, the row of the house has a bit for every house it is connected with |
| LevelControl.StepControl | Project1/src/bfs.cpp:262-371 | every step keeps the barrier invariant through joining mid-level, leaving, and recycling of both mask buffers |
| LevelControl.AllAtBarrier | Project1/src/bfs.cpp:338-346 | the barrier opens only when every busy worker of the level is waiting at it |
| LevelProof.StepSearch | Project1/src/bfs.cpp:390-443 | every step keeps marks sound and, level by level, complete, although two workers may take the same vertex |
| LevelProof.RecordIsGenuine | Project1/src/bfs.cpp:390-409 | a recorded distance is the true distance of the two houses |
| HouseTheorems.PrunedEqualsAllPairs | Project1/src/main.cpp:63-86 | for every graph, any number of house workers, any team sizes and every interleaving, the printed minimum and maximum are those over the shortest distances of all connected pairs of different houses, although searches stop early on shared bits and the last house is never searched |
| HouseTheorems.AnswerUnique | Project1/src/main.cpp:147-152 | that answer is unique, so the output does not depend on the schedule |
| HouseTermination.GettingOnLessens | Project1/src/main.cpp:63-86 | every step of a house worker that is not waiting for its team, and of a member of its team that can get on, lessens a well-founded measure of what that house worker has left to do |
| HouseTermination.NobodyAddsWork | Project1/src/main.cpp:63-86 | no step of anybody adds to what a house worker has left to do |
| HouseTermination.HouseWorkersGetOn | Project1/src/main.cpp:63-86 | until it has ended, a house worker always has such a step |
| HouseTheorems.StepInv | Project1/src/main.cpp:63-86 | every step of dispatch, search and merge keeps: each bit stands for a distance in some result, each house taken is being searched or done, each house done has bits for all it reaches |
| HouseTheorems.RowsSymmetric | Project1/src/bfs.cpp:390-409 | in every run a house has a bit in the row of another exactly if the other has one in its own |
| HouseTheorems.BitIsRecorded | Project1/src/bfs.cpp:390-409 | a bit is set only after its distance went into the team's result |
| HouseTheorems.JoinCovers | Project1/src/main.cpp:47-50 | joining loses no distance a worker has found |
| HouseTheorems.MergeGenuine | Project1/src/bfs.cpp:30-33 | merging results of true distances, or none, gives such a result |
| HouseTheorems.AssignThreads | Project1/src/main.cpp:119-136 | every house worker gets a thread, team sizes differ by at most one, and together they use exactly the cores |
| SingleSearch.VisitVertex | Project1/src/bfs.cpp:43-54 | visiting a neighbour marks it, and keeps the frontier, the bits and the result exact |
| SingleSearch.SearchLevel | Project1/src/bfs.cpp:83-117 | one pass over a level turns a complete level into a complete next one |
| SingleSearch.StoppedHasMet | Project1/src/bfs.cpp:83-85 | whichever condition ends the loop, every connected house has its bit |
| SingleSearch.SearchFrom | Project1/src/bfs.cpp:57-128 | the search terminates; every connected house has a bit, no bit is lost, and every new bit stands for a distance in the result |
| SingleSearch.FindMinMax | Project1/src/main.cpp:63-86 | run by one worker, the loop over all houses but the last computes the all-pairs answer |
| OptimisticTheorems.RunsRefineSet | Lab11/optimistic.cpp:42-159 | every run is, state by state, a run of a set of integers on which each operation takes effect in one step between call and return and answers accordingly: the list is linearizable |
| SetSpec.AnswersAre | Lab11/optimistic.cpp:54-159 | the law of the set on answers alone: contains and remove answer true exactly if the last add or remove of the key that succeeded before was an add, and add exactly if not |
| SetSpec.KeysAre | Lab11/optimistic.cpp:54-159 | a key is in the set exactly if the last add or remove of it that succeeded was an add |
| OptimisticTheorems.AnswersFollowSet | Lab11/optimistic.cpp:54-159 | every answer of the list, in the step in which the operation takes effect, obeys that law |
| OptimisticAlone.ReturnsAlone | Lab11/optimistic.cpp:54-159 | from every reachable state in which no other thread holds a lock, a thread that runs alone comes out of its operation: neither its walks nor its retries go on for ever |
| OptimisticAlone.AloneStep | Lab11/optimistic.cpp:42-51 | alone, a thread whose two nodes are linked and neighbouring validates them, and every step brings it closer to its return |
| OptimisticTheorems.StepRefines | Lab11/optimistic.cpp:42-159 | each step of the list is a step of the set or leaves it alone |
| OptimisticTheorems.ValidationIsSound | Lab11/optimistic.cpp:42-51 | when the unlocked validation walk succeeds under both locks, following `next` from the head leads to `prev` now, and the successor of `prev` is `curr` |
| OptimisticTheorems.ChainIsReachable | Lab11/optimistic.cpp:42-51 | the chain the abstract set is read from is what can be reached from the head in the heap |
| OptimisticProof.MetIsLinked | Lab11/optimistic.cpp:42-51 | when the validation walk meets `prev`, that node is linked right now, although the walk may have run over removed nodes |
| OptimisticTheorems.KeyAtCurr | Lab11/optimistic.cpp:132-159 | between validated neighbours the set holds the key exactly when `curr` carries it |
| OptimisticTheorems.LinkTakesEffect | Lab11/optimistic.cpp:54-92 | writing `prev->next` adds the key, which was not in the set, and the add answers true |
| OptimisticTheorems.UnlinkTakesEffect | Lab11/optimistic.cpp:95-129 | writing `prev->next` removes the key, which was in the set, and the remove answers true |
| OptimisticTheorems.DecideRefines | Lab11/optimistic.cpp:54-159 | the operations that change nothing answer what the set says at that moment |
| OptimisticTheorems.WalksAdvance | Lab11/optimistic.cpp:42-51 | every step of an unlocked walk and of a validation walk, also off a removed node, goes to a strictly larger key and not beyond the tail, so the walk ends |
| OptimisticTheorems.RemovedFrozen | Lab11/optimistic.cpp:119-123 | no step changes where a removed node points |
| OptimisticTheorems.RemovedStaysFrozen | Lab11/optimistic.cpp:119-123 | over a run a removed node keeps its successor for good |
| OptimisticTheorems.WaitsGoUp | Lab11/optimistic.cpp:65-70 | a blocked thread waits for a node with a larger key than any it holds |
| OptimisticTheorems.NoDeadlock | Lab11/optimistic.cpp:54-159 | in every reachable state, if anybody is inside an operation somebody who is inside is not waiting for a lock |
| OptimisticProof.StepInv | Lab11/optimistic.cpp:54-159 | every step keeps the chain sorted and linked, removed nodes pointing at linked or later removed ones with larger keys, and validated neighbours adjacent |
| FineGrainedTheorems.RunsRefineSet | Lab11/fine_grained.cpp:42-125 | the lock-coupling list is linearizable to a set although add publishes its node before setting the node's successor |
| FineGrainedTheorems.AnswersFollowSet | Lab11/fine_grained.cpp:42-125 | every answer of the list, in the step in which the operation takes effect, obeys the law of the set |
| FineGrainedAlone.ReturnsAlone | Lab11/fine_grained.cpp:42-125 | from every reachable state in which no other thread holds a lock, a thread that runs alone comes out of its operation |
| FineGrainedTheorems.RemovedIsFreed | Lab11/fine_grained.cpp:94-99 | nothing leaks: whoever returns from a remove that succeeded has freed the node |
| FineGrainedTheorems.StepRefines | Lab11/fine_grained.cpp:42-125 | each step of the list is a step of the set or leaves it alone |
| FineGrainedTheorems.RunsNeverFault | Lab11/fine_grained.cpp:42-125 | no run touches a freed node or follows the missing successor of a half-linked one |
| FineGrainedProof.WantedIsWhole | Lab11/fine_grained.cpp:47-57 | the node a thread waits to lock is none that another thread has half linked |
| FineGrainedProof.HalfLinkedPosition | Lab11/fine_grained.cpp:64-69 | a half-linked node stands between the two nodes its inserter has locked |
| FineGrainedTheorems.FreeIsSafe | Lab11/fine_grained.cpp:93-99 | when `free(curr)` runs no other thread holds the node, waits for it or would read it, it is not linked, and no linked node points at it |
| FineGrainedTheorems.LinkTakesEffect | Lab11/fine_grained.cpp:64-69 | publishing the node adds the key and the add answers true |
| FineGrainedTheorems.UnlinkTakesEffect | Lab11/fine_grained.cpp:93-97 | unlinking removes the key and the remove answers true |
| FineGrainedTheorems.TestRefines | Lab11/fine_grained.cpp:52-63 | finding or not finding the key answers what the set says at that moment |
| FineGrainedTheorems.WaitsGoUp | Lab11/fine_grained.cpp:47-57 | a blocked thread waits for a node with a larger key than any it holds |
| FineGrainedTheorems.NoDeadlock | Lab11/fine_grained.cpp:42-125 | in every reachable state, behind a blocked thread there is one inside an operation that is not blocked |
| MeetingTheorems.MeetingBound | Lab4/project1_TA.cpp:238-244 | if search a first met b at depth D1 and b first met a at depth D2, then D1 + D2 - 1 <= d <= D1 + D2 for their distance d, in every interleaving |
| MeetingTheorems.AllPairsPinned | Lab4/project1_TA.cpp:147-236 | when all searches have stopped, every pair of houses has met in both directions and is pinned by that bound |
| MeetingTheorems.MeetingsAreReal | Lab4/project1_TA.cpp:147-236 | a recorded meeting names a vertex both have marked, at its true distance |
| MeetingTheorems.StoppedHasMetAll | Lab4/project1_TA.cpp:147-236 | a search stops only when it has met every other one |
| MeetingTheorems.ExhaustedHasMetAll | Lab4/project1_TA.cpp:147-236 | a search that runs out of vertices has met every other one, so its next fence stops it |
| MeetingTheorems.StepsLessen | Lab4/project1_TA.cpp:147-236 | every own step lessens a well-founded measure of a search's remaining work |
| MeetingTheorems.OthersAddNoWork | Lab4/project1_TA.cpp:147-236 | steps of other searches leave that measure alone, so every search stops |
| MeetingProof.StepInv | Lab4/project1_TA.cpp:147-236 | every step keeps queues ordered by depth around the fences, marks sound and complete up to the current depth, and recorded meetings first meetings |
| QueueLockProof.RunsNeverFault | Lab6/clh.cpp:17-39 | no run reads, writes or frees a cell that is not live |
| QueueLockProof.FreedBySuccessor | Lab6/clh.cpp:22-33 | the thread about to free a cell is the one whose swap followed that of the owner, the owner has released the lock, and the cell is live and set |
| QueueLockProof.FreedOnce | Lab6/clh.cpp:22-33 | whenever a cell dies it is that of the last thread to release, freed by the step with which its successor gets the lock |
| QueueLockProof.MutualExclusion | Lab6/clh.cpp:17-50 | at most one thread is between lock and unlock |
| QueueLockProof.FirstComeFirstServed | Lab6/clh.cpp:17-39 | the lock is granted in the order of the swaps on `tail` |
| QueueLockProof.CounterExact | Lab6/clh.cpp:43-50 | although an increment is a load and a store, the counter is the number of completed sections whenever nobody is inside |
| QueueLockProof.OneCellRemains | Lab6/clh.cpp:17-50 | when everybody is outside all swaps have been served and exactly the last cell is live |
| QueueLockProof.QueueMovesOn | Lab6/clh.cpp:17-39 | the first thread in the queue is never stuck |
| QueueLockProof.StepInv | Lab6/clh.cpp:17-50 | every step, with any reuse of addresses, keeps the invariant of queue and cells |
| PageWatchProof.RunsNeverFault | Project3/ryul/buf0buf.cc:1967-2180 | no run lacks a slot, fails to find the page of a watch or drops a count below zero |
| PageWatchProof.SetEffect | Project3/ryul/buf0buf.cc:1990-2060 | setting a watch: if a block holds the page the thread is free again and nothing else changes; if a sentinel does, its count grows by one; if nothing does, the first lookup only leads to the second, which takes an unused slot with count one; a call that returns so has left the thread watching, one more watch on the page, and the page not occurred |
| PageWatchProof.SlotFound | Project3/ryul/buf0buf.cc:2024-2071 | with no more purge threads than slots the search for an unused slot succeeds, so the error behind the loop is not reached |
| PageWatchProof.WatchesConserved | Project3/ryul/buf0buf.cc:1967-2149 | the outstanding watches on a page are the fix count of its sentinel, or that of the block that replaced it less its other users; a page outside the hash has none |
| PageWatchProof.AtMostOneEntry | Project3/ryul/buf0buf.cc:2001-2071 | no page is in the hash twice, although setting a watch lets go of its lock between two lookups |
| PageWatchProof.LoadKeeps | Project3/ryul/buf0buf.cc:3962-3985 | after a load the page is in the pool, watches are unchanged, and a page that was there stays as it was |
| PageWatchProof.LoadUnwatched | Project3/ryul/buf0buf.cc:3962-3985 | a page nobody watches gets a block without a fix |
| PageWatchProof.LoadWatched | Project3/ryul/buf0buf.cc:3962-3985 | loading over a sentinel hands its whole fix count, which is the number of watches, to the new block, and the slot becomes unused |
| PageWatchProof.OccurredStep | Project3/ryul/buf0buf.cc:2158-2180 | for a thread that watches a page, `watch_occurred` turns true exactly with the load and no step turns it back |
| PageWatchProof.OccurredStays | Project3/ryul/buf0buf.cc:2158-2180 | over a run it stays true until that thread unsets its watch |
| PageWatchProof.UnsetKeeps | Project3/ryul/buf0buf.cc:2114-2149 | unsetting finds the page and gives back exactly one count, of the block or of the sentinel, which leaves the hash and frees its slot with the last one |
| ChunkLayout.InitChunk | Project3/ryul/buf0buf.cc:1274-1371 | for every page size, descriptor size, alignment and size granted: a request of at least a page gets exactly one page fewer and a smaller one as many as fit, frames are page-aligned and consecutive, behind all descriptors and inside the memory; the block count wraps around exactly if less than a page was granted at an unaligned address, which takes a request of less than a page |
| ChunkLayout.ReservedExactly | Project3/ryul/buf0buf.cc:1285-1291 | the memory asked for is the whole pages of the request and the least number of pages that holds their descriptors |
| ChunkLayout.WrapsExactly | Project3/ryul/buf0buf.cc:1326-1328 | when the unsigned number of blocks goes below zero |
| ChunkLayout.ShrinkToFit | Project3/ryul/buf0buf.cc:1330-1340 | the loop ends with the descriptors before the first frame and never takes away more pages than they need |
| ChunkLayout.FramesDisjoint | Project3/ryul/buf0buf.cc:1352-1365 | no pointer lies in two frames |
| ChunkLayout.FindBlock | Project3/ryul/buf0buf.cc:2617-2714 | the block returned owns the frame the pointer lies in; nothing is returned only if no frame holds it |
| CompletionTable.MatchesAreWords | Project3/mariadb/server/client/completion_hash.cc:219-225 | the words entered by any sequence of add_word under a non-empty key are exactly the added words with that prefix, with multiplicity |
| CompletionTable.TableOf | Project3/mariadb/server/client/completion_hash.cc:219-225 | a table filled by add_word holds exactly what these calls enter |
| CompletionTable.FindAfterAdding | Project3/mariadb/server/client/completion_hash.cc:113-133 | after any sequence of add_word, with any hash function and table size, the bucket found for a key lists exactly the added words with that prefix, with multiplicity and count |
| CompletionTable.CompleteAfterAdding | Project3/mariadb/server/client/completion_hash.cc:173-202 | after any sequence of add_word the completion returns those words and the length of their longest common prefix |
| CompletionTable.Table.constructor | Project3/mariadb/server/client/completion_hash.cc:42-57 | the table starts empty |
| CompletionTable.Table.Update | Project3/mariadb/server/client/completion_hash.cc:60-111 | for any hash function the word is entered under the key and nothing else changes; an empty key is refused |
| CompletionTable.Table.Find | Project3/mariadb/server/client/completion_hash.cc:113-133 | the bucket found lists exactly the words entered under the key with the right count; none is found only if there are none or the key is empty |
| CompletionTable.Table.AddWord | Project3/mariadb/server/client/completion_hash.cc:219-225 | the word is entered under each of its prefixes |
| CompletionTable.Table.FindLongestMatch | Project3/mariadb/server/client/completion_hash.cc:173-202 | the words with the prefix are returned with the length of the longest common prefix of all of them |
| CompletionTable.LongerPrefix | Project3/mariadb/server/client/completion_hash.cc:192-199 | comparing counts is enough: with equal counts the longer prefix has the same words, with a smaller one some word is left out |
| LineBuffer.UnlinesOfLines | Project3/mariadb/server/client/readline.cc:57-79 | splitting loses nothing but a newline missing at the end, and no line holds a newline |
| LineBuffer.ReadAll | Project3/mariadb/server/client/readline.cc:57-79 | for any input and any pieces the file is delivered in, repeated reading returns exactly the lines, in text mode without the carriage returns that stand before a newline, unless one was truncated, and none is truncated if each leaves room for a block at the largest size the limit allows |
| LineBuffer.Buffer.constructor | Project3/mariadb/server/client/readline.cc:111-123 | the stream starts as the file |
| LineBuffer.Buffer.Grow | Project3/mariadb/server/client/readline.cc:165-191 | room for a block behind the bytes held, which are kept; refused only when doubling exceeds the limit |
| LineBuffer.Buffer.FillBuffer | Project3/mariadb/server/client/readline.cc:157-224 | the bytes held are kept and moved to the front, new ones follow, and at the end of the file a newline completes them; all accesses stay inside bufread + 1 bytes |
| LineBuffer.Buffer.InternReadLine | Project3/mariadb/server/client/readline.cc:227-265 | a call takes exactly the first line off the stream, the unterminated last one, or the part of a line that fits |
| LineBuffer.Buffer.BatchReadLine | Project3/mariadb/server/client/readline.cc:57-79 | the stream is the line, its ending and the rest: the ending is a newline or, in text mode exactly if a carriage return stands before it, both, and is missing only at the end of the input; a truncated line is returned in pieces; the null character written behind the line touches nothing else |
| DataFilePaths.RoundTrip | Project3/ryul/srv0start.cc:307-491 | every list of files written as path:size, with drive letters in the paths, sizes in gigabytes, megabytes, kilobytes or bytes in either case, both raw marks and an ending that lets the last file grow, reads back as written |
| DataFilePaths.ReadWritten | Project3/ryul/srv0start.cc:307-491 | the same in place through both passes: every path, size and mark is stored as written, `raw` and `newraw` as a new raw partition exactly during bootstrap and as an old one otherwise, and growth and maximum of the last file |
| DataFilePaths.ItemForm | Project3/ryul/srv0start.cc:331-387 | whatever is accepted is in the documented form: a path ended by the first colon not followed by a slash, a backslash or a colon, a size read to its end, and `:autoextend`, with or without a positive maximum, at the end of the string, or the raw marks and a semicolon |
| DataFilePaths.NewAlone | Project3/ryul/srv0start.cc:368-376 | `new` without `raw` is taken for a mark too, but only where at least three characters follow |
| DataFilePaths.StrToUlReads | Project3/ryul/srv0start.cc:220 | strtoul reads white space, a sign and all digits, saturates, and negates in unsigned arithmetic |
| DataFilePaths.StrToUlReadsNothing | Project3/ryul/srv0start.cc:220 | without digits it reads nothing and answers zero |
| DataFilePaths.MegabytesOfDigits | Project3/ryul/srv0start.cc:209-241 | a decimal number reads as that many megabytes with M, times 1024 modulo 2^64 with G, divided by 1024 with K and by 1048576 without a unit, in either case, and how many characters are read |
| DataFilePaths.CountFiles | Project3/ryul/srv0start.cc:328-395 | the first pass accepts exactly the strings that have a meaning and name a file, and counts the files |
| DataFilePaths.CheckFile | Project3/ryul/srv0start.cc:328-387 | one turn of its loop accepts exactly one well-formed file and stops behind it |
| DataFilePaths.StoreFile | Project3/ryul/srv0start.cc:413-487 | one turn of the storing loop does not fail where the first pass did not, stops at the same position, and changes only the colon behind the path |
| DataFilePaths.ParseDataFiles | Project3/ryul/srv0start.cc:307-491 | whatever the first pass accepts the second one stores without failing: exactly the counted entries, each path ended by a null character in place; a refused string is unchanged |
| DataFilePaths.ItemsChecked | Project3/ryul/srv0start.cc:346-378 | only the last file can extend itself, and every accepted file has a positive maximum where one is given and a positive size otherwise |
| DataFilePaths.ZeroSizeAccepted | Project3/ryul/srv0start.cc:351-378 | with a maximum given, a size of zero is accepted |

## Left out

- The run-time assembly around the cores: thread creation and joining, sleeping and back-off, timing, throughput and fairness output.
- Weak memory: the fences and volatile qualifiers of Lab3, Lab6 and Project2 have no counterpart.
- HouseTheorems.PrunedEqualsAllPairs: states what is printed when all house workers have ended; that they do takes a scheduler that lets those step who can get on, by the measure of HouseTermination; waiting threads spin without a bound.
- NodeList.TrimVersions: describes the trimming loops without interference; under interference the transition system of Mvcc does.
- ChunkLayout.InitChunk: what the code does once the number of blocks has wrapped around is not modelled.
- LineBuffer.Buffer.BatchReadLine: read errors of the file are not modelled; `init_line_buffer_from_string` is not modelled.
- CompletionTable.Table.FindLongestMatch: find_all_matches, which only adds a length to Find, and completion_hash_exists, which compares whole strings, are not modelled.
- PageWatchProof.RunsNeverFault: the page hash is a set of entries and block numbers are never reused; LRU and flush lists, I/O and compression of buf0buf.cc are not modelled.
- The choice between D1 + D2 and D1 + D2 - 1 in MakeResult of Lab4: it looks at the first meeting vertex only.
- OptimisticTheorems.NoDeadlock: excludes deadlock, not starvation by endless failing validations, which other threads can cause in the code; OptimisticAlone.ReturnsAlone states the return of a thread that runs alone.
- Lab1, Lab2, Lab3, Lab5, Lab7, Lab12, the coarse-grained and lock-free lists of Lab11: trivial next to the modelled locks and lists, or unfinished.
- The pools of buffers in Project1/src/util.cpp: buffers are fresh sequences.
