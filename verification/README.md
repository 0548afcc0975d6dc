# Verified models of two concurrent programs

This project models two programs of the repository as step machines and proves what they guarantee in every
run, under every schedule, for any number of threads.

**The hand-over-hand list (2.3/src).** Searchers walk a linked list holding one or two node locks and count
adjacent pairs; swappers walk to a random index under a sliding window of locks and exchange two neighbours
with three separate writes of `next`. The lock order is the list order, which the swappers keep changing.
One machine covers the mutex, the spinlock and the rwlock build: a configuration says whether searchers take
their locks shared. Every lock, unlock, read or write of a `next`, counter update and test of `is_running`
is a step of its own; only the second write of an exchange reads and writes in one step, on nodes that are locked.

**Exit, join, detach and the reaper (1.6/src).** The exiting thread of a handle, any number of joins and any
number of detaches race on its `finished` and `state` words; whoever sets MT_QUEUED first links the handle
into a spinlocked queue whose `count` it increments only after giving the lock back; one reaper takes the
whole queue, marks and frees, and sleeps on `count`. Every atomic access, futex call, store and queue write
is a step of its own; weak compare-exchanges may fail and sleepers may wake for no reason.

## How it is built

| file | what it holds |
|---|---|
| `list_ops.dfy` | lists of node numbers, the six predicates on lengths, one operation run alone and the same in lengths, inversions |
| `traversals.dfy` | the discipline seen from list positions: windows, and the order in which `first` was locked |
| `locked_list.dfy` | the machine of 2.3/src: memory, threads, steps, schedules, and the history of a schedule |
| `list_simulation.dfy`, `list_simulation_steps.dfy` | program and history agree in every reachable state |
| `list_theorems.dfy`, `list_progress.dfy`, `list_conservation.dfy` | the theorems about the list |
| `list_meaning.dfy`, `list_sharing.dfy`, `list_liveness.dfy` | the draws and counters in plain terms, which locks are granted, what the program does while it runs |
| `storage.dfy` | the list in the heap: construction, one operation at a time, destruction |
| `list_program.dfy` | the running program over arrays, updated in place and proved against the machine |
| `lifecycle.dfy` | the machine of 1.6/src: handles, agents, queue, reaper, steps and schedules |
| `lifecycle_invariant.dfy`, `lifecycle_steps.dfy` | the invariant and that every step keeps it |
| `lifecycle_theorems.dfy`, `lifecycle_progress.dfy`, `lifecycle_fairness.dfy` | the theorems about exit, join, detach and the reaper |
| `lifecycle_meaning.dfy` | what decides each branch: the word last read, the count found, what comes for no reason |
| `lifecycle_underflow.dfy` | a run in which the reaper subtracts more than its counter holds |
| `reap_queue.dfy` | the queue in the heap: linked nodes appended one by one and taken all at once |
| `lifecycle_program.dfy` | the running process over arrays, updated in place and proved against the machine |
| `sums.dfy`, `rounds.dfy` | sums over threads, schedules made of rounds |

The step functions follow the code line by line: `LockedList.SearcherStep` is 2.3/src/mutex/main.c:27-69,
`LockedList.SwapperStep` is 2.3/src/mutex/main.c:106-160 and 165-193, `Lifecycle.ExitStep` is
1.6/src/mythread.c:54-78, `Lifecycle.JoinStep` is 1.6/src/mythread.c:134-175, `Lifecycle.DetachStep` is
1.6/src/mythread.c:178-214, `Lifecycle.HandOverStep` is 1.6/src/queue.h:64-92 and 162-168 up to the clone,
`Lifecycle.DequeueStep`, `Lifecycle.WalkStep` and `Lifecycle.ReaperStep` are 1.6/src/queue.h:94-153.
A schedule is any sequence of actions and `Exec` the state it leads to. `History` records, beside a run and
without influence on it, the order in which `first` was locked, or the order in which handles were linked.
The `requires` of a theorem never restricts the schedule: it selects the states that the theorem is about.
Only the two theorems named `FairRunsEnd` ask something of the schedule, that everybody keeps getting a turn.

Two things found on the way. The exits of `swap_pairs` and `search_pairs` on a null `next` are unreachable
for every list of two nodes and more (`ListTheorems.NoEarlyExit`). The message "ERROR: old < processed" of
`reaper_main` does not report an error: it appears exactly when more linked nodes are still uncounted than
the queue holds (`LifecycleTheorems.UnderflowReported`), which two detached threads are enough to bring about
(`LifecycleUnderflow.UnderflowHappens`).

## Model

| member | source | states |
|---|---|---|
| ListTheorems.SerialEquivalence | 2.3/src/mutex/main.c:35-67 | serializability: whenever no operation is under way, the list in the heap and all nine counters are those of running the same operations one at a time in the order in which they locked `first`, and no lock is held |
| ListTheorems.SearchIsSerial | 2.3/src/mutex/main.c:49-73 | with exclusive or shared locks, a finished search holds the number of places where the next data node is longer (asc), shorter (desc) or of the same length (equal), all in one single list: the one left by exactly the operations that locked `first` before it |
| ListTheorems.SwapIsSerial | 2.3/src/mutex/main.c:101-156 | a swapper about to compare holds the nodes at left_index and the next of the list as it is, which are those of the serial list at its place, and goes on to the three writes exactly if their lengths fall (asc), rise (desc) or differ (not equal) |
| ListMeaning.SerialListGrows | 2.3/src/mutex/main.c:101-110 | one more operation on the serial list: a search leaves it alone, a swap exchanges the two nodes at its index exactly if their lengths ask for it |
| ListMeaning.CountersMean | 2.3/src/mutex/main.c:60-67 | at rest each counter is, per flavor: the number of searches, the sum of the pairs each had to find, the number of swaps that had to exchange two nodes, all counted off the head-lock order |
| ListMeaning.IndexDrawn | 2.3/src/mutex/main.c:116-117 | a swapper granted the lock of `first` starts a swap at the value of its last draw modulo Size - 1 |
| ListMeaning.EveryIndexDrawn | 2.3/src/mutex/main.c:116-117 | every index that has a successor can be drawn |
| ListTheorems.ExactlyOnce | 2.3/src/rwlock/main.c:45-64 | under any concurrent swaps a finished search has locked every data node exactly once and made Size - 1 comparisons |
| ListTheorems.VisitedIsPrefix | 2.3/src/rwlock/main.c:49-64 | the nodes an operation has visited are at every step those now standing at the indices up to its front |
| ListTheorems.ChainIntegrity | 2.3/src/mutex/main.c:106-110 | between the three writes of any exchanges, `next` spells a permutation of the original nodes with the sentinel first, except for the links still to be written, and no thread reads one of those |
| ListTheorems.MutualExclusion | 2.3/src/rwlock/main.c:35-62 | two threads hold the same node only if both are searchers of the rwlock build; that such two do is ListSharing.OvertakingHappens |
| ListSharing.GrantedExactly | 2.3/src/rwlock/main.c:35-56 | in every reachable state a thread that asks for a node goes on if and only if everybody who holds it is a searcher of the rwlock build and the thread is one too |
| ListSharing.ReadersPass | 2.3/src/rwlock/main.c:35-56 | a searcher of the rwlock build that cannot go on asks for a node that a swapper holds |
| ListSharing.OvertakingHappens | 2.3/src/rwlock/main.c:45-62 | in the rwlock build any two searchers come to hold one node together in some run, and the later one in head-lock order passes the earlier |
| ListTheorems.LockProtects | 2.3/src/rwlock/main.c:35-62 | a thread reads a node's `next` only while it holds that node's lock, and writes one only while it holds it exclusively |
| ListTheorems.NoRace | 2.3/src/rwlock/main.c:106-159 | no two threads are ever about to access the same `next` with one of them writing it |
| ListTheorems.StepReadsThere | 2.3/src/mutex/main.c:36-51 | a step depends on no other `next` than the one these two name: any other may hold anything |
| ListTheorems.StepWritesThere | 2.3/src/mutex/main.c:106-110 | a step changes no other `next` than the one these two name |
| ListTheorems.NoOvertaking | 2.3/src/rwlock/main.c:122-159 | unless both are rwlock searchers, of two operations in the list the one that locked `first` earlier is wholly ahead |
| ListTheorems.NoEarlyExit | 2.3/src/mutex/main.c:124-146 | no run reaches the exits on a null `next` |
| ListTheorems.LogIsHeadOrder | 2.3/src/mutex/main.c:35-36 | the order recorded in the history is the order in which threads were granted the lock of `first` |
| ListSteps.Reachable | 2.3/src/mutex/main.c:27-160 | in every reachable state pointers, lock words, local variables and counters agree with the history |
| Traversals.EventKeeps | 2.3/src/mutex/main.c:131-159 | taking or giving back a lock in hand-over-hand order, and an exchange inside three locks, keep every window apart and the pending exchanges strictly ahead |
| ListProgress.DeadlockFree | 2.3/src/rwlock/main.c:122-159 | while some thread has not returned, some thread can take a step, although swaps reorder the lock order |
| ListProgress.MeasureDrops | 2.3/src/mutex/main.c:169-171 | after `stop`, every step that changes anything makes a natural-number measure smaller |
| ListProgress.Drains | 2.3/src/mutex/main.c:195-197 | after `stop`, no schedule has more than that many real steps |
| ListProgress.EndsSerial | 2.3/src/mutex/main.c:169-197 | a state in which no thread can take a step is the end: all have returned, every lock is free, and list and counters are those of the serial run |
| ListProgress.FairRunsEnd | 2.3/src/mutex/main.c:195-197 | after `stop`, every schedule that gives each thread its turn, in any order, for more rounds than the measure reaches that end |
| ListProgress.StopFinishes | 2.3/src/mutex/main.c:195-197 | from every reachable state `stop` can be followed, by some schedule, to an end with all threads returned, no lock held and the serial list in the heap |
| ListLiveness.RunningNotDone | 2.3/src/mutex/main.c:27-31 | with two nodes or more no thread has returned as long as `is_running` is 1 |
| ListLiveness.EveryoneGoesOn | 2.3/src/mutex/main.c:165-171 | from every reachable state with `is_running` 1, some run without `stop` has every single thread complete another operation and ends at rest |
| ListLiveness.EveryOrderHappens | 2.3/src/mutex/main.c:27-160 | the converse of serializability: every sequence of operations of existing threads, at any indices with a successor, is the head-lock order of some run without `stop` that ends at rest with the serial list |
| ListConservation.Stability | 2.3/src/mutex/main.c:101-103 | at every step the nodes of one length stand in the order in which they were made |
| ListConservation.MadeFirstComesFirst | 2.3/src/mutex/main.c:101-103 | at every step, of two nodes of one length the one made first comes first |
| ListConservation.StableAtRest | 2.3/src/mutex/main.c:101-103 | at rest, in the list that `next` spells, of two nodes of one length the one made first comes first |
| ListConservation.InversionsConserved | 2.3/src/mutex/main.c:153-156 | at every step the change in length inversions plus ascending minus descending swaps is, in size and parity, covered by the swaps of unequal lengths, counting swaps made but not yet counted |
| ListConservation.SwapsConserved | 2.3/src/mutex/main.c:101-110 | at rest the counters alone account for the disorder of the list in the heap, and ascending and descending swaps differ by at most n(n-1)/2 and the number of unequal swaps |
| ListConservation.SortedExactly | 2.3/src/mutex/main.c:101-110 | if only ascending swaps have been made, the list at rest is sorted by length exactly if they are as many as the original list had pairs out of order |
| ListOps.SwapAtStable | 2.3/src/mutex/main.c:101-103 | exchanging neighbours of different lengths moves no two nodes of one length past each other |
| ListOps.InversionsSwap | 2.3/src/mutex/main.c:106-110 | exchanging two neighbours changes the number of inversions by one, by the way they compare |
| ListOps.InversionsZero | 2.3/src/mutex/main.c:101-103 | the number of inversions is 0 exactly if nothing is out of order |
| Storage.List.constructor | 2.3/src/mutex/list.c:26-57 | the loop builds n nodes behind the sentinel, in order, with the lengths given |
| Storage.StorageInit | 2.3/src/mutex/list.c:17-58 | no list for n <= 0, else the list of n nodes |
| Storage.List.SwapNodes | 2.3/src/mutex/main.c:106-110 | the three writes, on the `next` fields |
| Storage.List.SwapPairs | 2.3/src/mutex/main.c:114-160 | run alone for a given index: exchanges the two nodes there exactly if their lengths fall, rise or differ, by the flavor, says whether it did, returns early past the end, and keeps the heap a linked list |
| Storage.List.SearchPairs | 2.3/src/mutex/main.c:49-73 | run alone: the number of places where the next data node is longer, shorter or of the same length, by the flavor |
| Storage.List.RunSerially | 2.3/src/mutex/main.c:27-160 | operations run one at a time on the heap do to list and counters what the serial run of the theorems says |
| Storage.List.Destroy | 2.3/src/mutex/list.c:60-71 | frees every node exactly once, in list order |
| ListProgram.Program.Search | 2.3/src/mutex/main.c:27-69 | one step of a searcher, in place on the shared arrays; it goes on while `running`, counts a pair exactly if the lengths say so, writes no `next` and touches no other thread |
| ListProgram.Program.Swap | 2.3/src/mutex/main.c:114-160 | one step of a swapper, in place on the shared arrays; it goes on while `running`, takes as index the draw modulo Size - 1, exchanges exactly if the lengths say so, writes at most the one `next` of its place in the exchange and touches no other thread |
| ListProgram.RunProgram | 2.3/src/mutex/main.c:27-197 | the program run in place under a schedule reaches the state of the machine, and at rest its `next` array spells the serial list |
| LifecycleTheorems.LifecycleWords | 1.6/src/mythread.h:21-26 | the only reachable state words are 0, JOINED, JOINED and REAPED, DETACHED, DETACHED and QUEUED, DETACHED and QUEUED and REAPED; a handle is freed at most once and only after its thread has finished |
| LifecycleTheorems.FreedBy | 1.6/src/mythread.c:168-172 | every freeing of a handle is the first, of a finished thread, and by its one joiner or else by the reaper, never both: the word tells which |
| LifecycleTheorems.JoinCorrect | 1.6/src/mythread.c:142-174 | a join that returns 0 is the only one of its handle and excludes a winning detach; it delivers what the start routine returned, or nothing if the caller wants nothing, and leaves the handle freed once |
| LifecycleTheorems.CallsFailRightly | 1.6/src/mythread.c:134-196 | a join fails only on a null handle or when a join or detach was first, a detach only on a null handle or when a join was first; a detach that returns 0 leaves the handle detached |
| LifecycleTheorems.OneSetter | 1.6/src/mythread.c:153-203 | of all joins and detaches of a handle exactly one has set the bit that the word shows |
| LifecycleMeaning.BitsRead | 1.6/src/mythread.h:21-26 | the four masks find exactly the flags of the word in its number |
| LifecycleMeaning.HoldsLastRead | 1.6/src/mythread.c:140-158 | a call at its compare-exchange compares with the word it read last, by its first load or by an exchange that failed |
| LifecycleMeaning.JoinDecides | 1.6/src/mythread.c:142-159 | a join fails if the word it read last shows a join or a detach, wins and sets the joined bit alone exactly if that word is still there, and else tries again |
| LifecycleMeaning.DetachDecides | 1.6/src/mythread.c:186-203 | a detach likewise, except that a word already detached makes it return 0 and that its exchange may fail for no reason |
| LifecycleTheorems.SingleSleeper | 1.6/src/mythread.c:62-164 | waking one thread is enough: at most one sleeps on `finished`, and once the thread has finished only until the wake-up it is about to make |
| LifecycleTheorems.OneSidedHandOff | 1.6/src/mythread.c:62-74 | when a detach that won and the thread's exit are both over, exactly one of these two has enqueued the handle, exactly once |
| LifecycleTheorems.FifoOrder | 1.6/src/queue.h:72-105 | at every step the handles reaped, then the reaper's private list, then the shared list, both read off the `next` pointers, make up the order in which handles were linked |
| LifecycleTheorems.LinkedOnce | 1.6/src/mythread.c:69-73 | every handle is linked into the queue at most once |
| LifecycleTheorems.BatchUntouched | 1.6/src/queue.h:80-84 | no agent writes into a node that the reaper has taken |
| LifecycleTheorems.CounterAccounting | 1.6/src/queue.h:86-88 | at every step `count` is the length of the list at `head` and of what the reaper has taken and not yet subtracted, less what is linked and not yet counted |
| LifecycleTheorems.UnderflowReported | 1.6/src/queue.h:142-148 | `old < processed` holds exactly when more linked nodes are uncounted than the list at `head` holds |
| LifecycleUnderflow.UnderflowHappens | 1.6/src/queue.h:142-148 | that it does hold in some run: two threads detached while running, the first counted, the second linked and not counted when the reaper takes both |
| LifecycleTheorems.NodesFreedOnce | 1.6/src/queue.h:124-140 | a queue node has been freed exactly once if the reaper is through with it, and not at all otherwise |
| LifecycleTheorems.NoLostReaperWakeup | 1.6/src/queue.h:88-118 | while the reaper sleeps, `count` is 0 or the wake-up is still to come, and if the list is not empty some agent has its increment or its wake-up still to do |
| LifecycleMeaning.WakesAtZero | 1.6/src/queue.h:88-91 | an enqueuer asks for a wake-up exactly if it found the count 0 |
| LifecycleTheorems.NoLeak | 1.6/src/mythread.c:62-74 | whenever no exit, detach or hand-over is under way and the reaper sleeps or was never started, the queue is empty, `count` is 0 and every handle detached and finished has been freed exactly once |
| LifecycleTheorems.EndsClean | 1.6/src/mythread.c:54-214 | a state in which nobody can take a step is a clean end: every thread and call has returned, the queue is empty and exactly the joined or detached handles have been freed, each once |
| LifecycleProgress.BoundedWork | 1.6/src/mythread.c:142-203 | the compare-exchange and wait loops end: in every run n agents take at most 18 n (n + 1) steps that change anything, and those of one wait round for each spurious wake-up of a joiner |
| LifecycleFairness.FairRunsEnd | 1.6/src/mythread.c:54-214 | from every reachable state every schedule in which each agent and the reaper have their turn, in any order, for a number of rounds known from the number of agents, reaches the clean end |
| LifecycleProgress.CleanEnd | 1.6/src/mythread.c:54-214 | from every reachable state some schedule leads to a state in which nobody can take a step, which is the clean end |
| LifecycleTheorems.NoFault | 1.6/src/queue.h:76-139 | no agent and not the reaper ever follows a null pointer |
| LifecycleTheorems.LockExcludes | 1.6/src/queue.h:47-60 | at most one agent, or else the reaper, is inside the queue lock |
| LifecycleTheorems.OneReaper | 1.6/src/queue.h:162-168 | at most one agent ever gets to clone the reaper, and only while there is none |
| LifecycleSteps.Reachable | 1.6/src/mythread.c:54-214 | the invariant on words, sleepers, hand-overs, queue, reaper and the ledger of what agents are in the middle of holds in every reachable state |
| ReapQueue.Queue.Enqueue | 1.6/src/queue.h:64-92 | appends the handle, writes of the nodes there already only this queue's last one, and asks for a wake-up exactly when the count was 0 |
| ReapQueue.Queue.Dequeue | 1.6/src/queue.h:94-105 | the whole list changes hands and the queue is empty |
| ReapQueue.Queue.Walk | 1.6/src/queue.h:124-140 | every thread in the list taken is marked, and freed unless it was marked before, however often it comes, and every node is freed once |
| ReapQueue.Queue.Drain | 1.6/src/queue.h:120-150 | one round of the reaper: the queue is empty, its nodes freed once, the count back by the number of nodes, every thread freed unless it was marked |
| ReapQueue.HandOverAll | 1.6/src/queue.h:64-150 | any handles enqueued one by one and one round of the reaper: each is freed once, in whatever order and however often it comes, and queue and count are empty again |
| LifecycleProgram.Process.Join | 1.6/src/mythread.c:134-175 | one step of a join, in place on its handle and on no other; only its last step frees it |
| LifecycleProgram.Process.Detach | 1.6/src/mythread.c:178-204 | one step of a detach, in place on its handle and on no other; it neither frees nor finishes it |
| LifecycleProgram.Process.Exit | 1.6/src/mythread.c:54-71 | one step of an exit, in place on its handle and on no other; it frees nothing |
| LifecycleProgram.Process.HandOver | 1.6/src/queue.h:64-92 | one step of `start_reaper` or `reap_enqueue`, in place on the queue; it writes no node but its own when allocating and the old tail when linking |
| LifecycleProgram.Process.ReaperMain | 1.6/src/queue.h:109-153 | one step of the reaper, in place |
| LifecycleProgram.RunProcess | 1.6/src/mythread.c:54-214 | the process run in place under a schedule reaches the state of the machine; if nobody can move any more, exactly the joined or detached handles have been freed |

## Left out

- Memory ordering: steps are sequentially consistent. The exit's release store of `finished` followed by its acquire load of `state` is not ordered by C11 alone, so the one-sided hand-over is proved for this interleaving only.
- Use of a freed handle: freeing is only counted, and no address is used twice. A joiner may free a handle while its thread is still between `finished` and its end; nothing here says otherwise.
- Failures of malloc, mmap, mprotect and clone, and the errors they cause; `start_reaper` always gets its reaper.
- Widths of counters: the nine counters, `cycle_pairs` and `count` are unbounded integers, so wrap-around is not modelled.
- Fairness: a lock goes to any thread that asks for it while it can be granted, and a shared lock whenever no writer holds it; queueing of writers ahead of readers is not modelled. So while the program runs a thread may be kept waiting for ever by an unfair lock, and ListLiveness.EveryoneGoesOn says that it can go on, not that it will.
- `generate_gandom_string` and `rand_r`: the lengths are any natural numbers and the index any choice modulo n - 1.
- Lists of fewer than two nodes: all threads return at once, as in the source; the theorems cover them but say little.
- The monitor thread, printing, timing, seeds and the results files.
- 2.3/src/rwlock/list.c and 2.3/src/spinlock/list.c differ from the mutex list only in how a lock is initialised.
- Storage.List.SwapPairs: run alone for a given index, so it takes no locks, draws no index and updates no counter; the locks and the draw are in the machine, the counter in Storage.List.RunAlone.
- Storage.List.SearchPairs: run alone, so it takes no locks and updates no counter; the locks are in the machine, the counters in Storage.List.RunAlone.
- Storage.List.RunSerially: one operation after the other without threads; that the threads amount to this is ListTheorems.SerialEquivalence.
- ListProgress.StopFinishes: shows one schedule; that every fair one ends is ListProgress.FairRunsEnd.
- LifecycleProgress.CleanEnd: shows one schedule; that every fair one ends is LifecycleFairness.FairRunsEnd.
- ReapQueue.Queue.Enqueue: run with the lock held, and the count is incremented at once; the lag of the count is in the machine.
- Creation of handles: they all exist from the start with their threads somewhere in their start routines; a join or detach made from inside a start routine is a call like any other and does not hold that routine up.
- Unfair schedules: one that never lets a thread take its turn again, or keeps waking sleepers or failing compare-exchanges for no reason, need not reach the end.
- 1.6/src/wo_reaper: exit takes the joined branch even for a thread that is not detached, so exactly-once freeing does not hold there.
- 3/src: sockets, name resolution and in-place rewriting of requests.
