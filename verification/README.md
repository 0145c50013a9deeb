# Verified model of the BFS accelerator simulator

The repository simulates a breadth-first-search accelerator on top of a DRAM, cache and memory-controller simulator.
This project models its discrete state machines in Dafny and proves properties of whole runs. Components that change
state step by step are classes with methods and loops; each is proved equal to a function on values, and the theorems
are about those functions.

| component | files | main results |
|---|---|---|
| inclusive write-back cache chain | `Cache*.dfy` | no assertion fires and no lower level refuses in any run; no written data is lost; exactly which level shapes are safe; every level evicts the least recently touched line; written data is kept until it is sent to the memory; exactly when delayed requests reach the memory in order; every hit is answered once, on exactly the tick its level's latency calls for |
| DRAM timing tree | `DramNode`, `DramTree`, `DramRuns`, `Dram`, `Ddr3`, `Ddr3Timing` | `next[]`/`prev[]` summarise the whole history exactly; `check` holds if and only if no constraint of the history forbids the command, and if and only if `get_next` has passed; a DDR3 command is ready exactly when it has kept every DDR3 timing rule, and the histories a controller can produce are exactly those that keep them all |
| bank state and row table | `RowModel`, `RowTheorems`, `Rows` | the table refines the bank states, so its assertions never fire; exact progress of a request; a refresh finds all banks of its rank closed |
| subarray parallelism | `SalpModel`, `SalpTheorems`, `Salp` | what may be open or selected together under SALP-1, SALP-2 and MASA; PRE_OTHER always hits an open sibling |
| request scheduling | `Scheduler` | which request wins under each policy; hit priority never closes a row that a queued request hits |
| controller queues and service counters | `Service*.dfy`, `Queue*.dfy` | every accepted request in exactly one place; every answered read fetched from the memory or accepted while a write to its address waited; which queue a tick serves; every pending read answered once, on an exact tick, within the read latency plus one tick for each read before it; exact counters and Little's law, request by request, at every node of the DRAM tree |
| per-bank refresh | `Refresh*.dfy` | exact credit accounts within the postpone/pull-in limits; exactly when which bank is refreshed; exactly when a tick fails, and exactly which configurations can read past their subarray counters |
| BFS engines | `Csr`, `Distance`, `Bfs*.dfy` | all five variants end with the shortest distances; the direction of every turn and the reads of every run, from the graph's distances alone; closed forms for the variants that never switch; the hub cache's savings and their bound for hubs with no more outgoing than incoming edges |
| address and page mapping | `AddressMap`, `Pages` | which bits of an address each level takes; both layouts are bijections below the capacity and alias beyond it; pages keep distinct frames until there are more pages than frames |

`Arith.dfy` holds division facts. Throughout, integers are unbounded, statistics that nothing reads back are omitted,
and latencies, thresholds and sizes are parameters.

## Cache chain

Level 0 is the cache next to the core. `fault` in the model records a failed assertion, a dangling MSHR iterator, or a
lower level that refuses a miss (`Cache::send` drops the answer of the next level, src/Cache.cpp:188). Set counts are
powers of two, as src/Cache.cpp:39-42 asserts. Let a level have m MSHR entries and n sets of w ways, the first level m0,
n0 and w0. A chain is safe in every run if and only if every lower level has m >= min(m0, n0 * w0) and
w >= min(m0, w0 * max(1, n0 / n)); the sizes in src/Processor.h are safe. The completion of a fetch may happen at any
time. `invalidate` reads the dirty bit of a list node after erasing it (src/Cache.cpp:230-249); the model reads it
before. `tick` stops at the first delayed request that is not ready; which requests the memory takes is a parameter. The
order of the delayed requests is not always kept: a write-back that the memory refuses is passed by a later fetch of its
own block (`CacheRefetch`). It is kept exactly when on every cycle the memory takes a prefix of the ready requests.

## DRAM timing

The timing tables are arbitrary; `Ddr3` instantiates them, and `Ddr3Timing` states the rules they stand for pair by pair
of commands, without the tables. A command's `Issue` carries its address vector and clock.
`Starts` says declaratively when a constraint between two commands is in force: a sibling constraint from every issue to
a sibling, a constraint of distance d from an issue as soon as d issues of that command have been seen, and from then on.

## Row table and subarrays

Runs are arbitrary sequences of requests, each step issuing the command that `decode` asks for; readiness only removes
runs. The row policy is the default one, which never closes a row on its own.

## Controller queues

A tick answers at most one pending read, takes in refresh requests, decides whether to drain writes and issues one
command; which request the scheduler picks and whether its command is the last one are parameters. Requests carry a
number in the order of acceptance, and answered and closed requests are kept, so that conservation can be stated. Reads
and writes arrive with an address that names nodes of the memory tree, as `BuildReaches` shows every address within
bounds to do; an update along any other address leaves failed counters. The service totals are stated twice: as sums
over all cycles, and as sums over requests of the time from their own start to their own finish. The two thresholds of
the write drain are parameters; `DrainsBetween` takes the lower one to be below the upper one, as 6 and 25 are for the
32 entries of src/Controller.h:77.

## Refresh

`rand()` and the order in which `std::sort` leaves ties are parameters of a tick, and the queues may change in any way
between ticks. The documentation of write-refresh parallelisation says that an idle bank is chosen at random. The loop
that looks for the number of idle banks tests the bank number instead of the demand (src/Refresh.cpp:201-206), so the
draw never matters: `WrpLeast` proves that the first bank of the order, one of least demand, is always the choice. The
subarray counters of a rank are allocated by the number of subarrays but indexed by bank (src/Refresh.cpp:37-38,
src/Refresh.cpp:93), and src/DSARP.cpp:62 admits fewer subarrays than banks. `wild` in the model records a read past the
end; `StraysIff` says which configurations have a run that gets there. The accounts are exact in every run up to there.

## BFS

The float comparisons that switch direction are arbitrary predicates of the hub count and of the visit count. `tdBfs`
and `buBfs` are the level loop that never switches. The scans that fill the frontier, count hubs and fill the hub cache
are separate methods over the same range. `GoesDown` defines the direction of a turn from the distances in the graph,
and the traffic counters are sums over the turns in those directions. A bottom-up level of the cached variant counts hubs over the vertices found
instead of those on the level, but the count is read only after a top-down level. The reported potential saving bounds
the hits on undirected graphs, and on directed ones if no hub has more outgoing than incoming edges; in general it does
not, because hubs are chosen by outgoing and reported by incoming edges (bfs/graph.cpp:582, bfs/graph.cpp:769).

## Model

| member | source | states |
|---|---|---|
| `CacheRuns.ReachableSafe` | src/Cache.cpp:103-383 | in every run from the empty chain no assertion fires, no iterator dangles, no lower level refuses; each level's blocks are included in every lower level, and a block locked below is locked above |
| `CacheRuns.NoWriteLost` | src/Cache.cpp:119-297 | after an accepted write, in every continuation some level holds the block dirty or a write of it has been put on the memory queue since |
| `CacheRuns.RunKeeps` | src/Cache.cpp:103-383 | over any run the invariant is kept, and a block is dirty or written back exactly if it was dirty before or an access of the run wrote it |
| `CacheRuns.StepKeeps` | src/Cache.cpp:103-383 | each access, completed fetch or wait keeps the invariant; dirty data is neither lost, duplicated nor invented |
| `CacheLru.VictimLeastRecent` | src/Cache.cpp:299-330 | in every reachable state the line any level would evict is, of the set's lines it may evict, the one whose last touch at that level is longest ago |
| `CacheLru.RunRanked` | src/Cache.cpp:103-383 | in every run each set of each level is sorted by last touch, whatever the levels around it do |
| `CacheLru.AccessRanked` | src/Cache.cpp:103-195 | an access moves what it touches at a level to the recent end, in order: a block hit or allocated there, a victim handed down to it; it disturbs nothing else |
| `CacheLru.FirstTouches` | src/Cache.cpp:119-130 | the first level is touched by exactly the accepted accesses that are not merged into a fetch under way |
| `CacheRuns.DefaultConfigValid` | src/Processor.h:77-85 | the built-in sizes satisfy the conditions of the theorems, and the accumulated latencies are the sums of the levels' own |
| `CacheTheorems.AccessKeeps` | src/Cache.cpp:103-195 | an access keeps the invariant, raises no fault, conserves dirty data, and is refused exactly when the first level's MSHRs are full or its set is all locked |
| `CacheTheorems.ForwardedAccepted` | src/Cache.cpp:178-194 | a miss handed down is always accepted by the next level |
| `CacheTheorems.AllocateKeeps` | src/Cache.cpp:299-330 | making room for a block finds a victim, and keeps inclusion, locks and dirty data |
| `CacheTheorems.CallbackKeeps` | src/Cache.cpp:365-383 | a completed fetch unlocks exactly that block at the level and above, erasing its MSHR entries |
| `CacheTheorems.UnlockKeeps` | src/Cache.cpp:365-376 | unlocking one level keeps locked lines and MSHR entries in bijection |
| `CacheInvariant.MshrFree` | src/Cache.cpp:154-164 | counting: while a miss is on its way down, the lower level has a free MSHR entry |
| `CacheInvariant.VictimExists` | src/Cache.cpp:302-321 | counting: while a miss is on its way down, a full set of the lower level has an evictable line |
| `CacheViews.CheckUnlockMeaning` | src/Cache.h:150-173 | `check_unlock` holds exactly when no copy at this level or above is locked |
| `CacheViews.InvalidateView` | src/Cache.cpp:213-253 | back-invalidation removes the block here and above, changes nothing else, and reports exactly whether a removed copy was dirty |
| `CacheViews.EvictLineView` | src/Cache.cpp:197-211 | the lower copy becomes unlocked and inherits the dirty bit; nothing else changes |
| `CacheEviction.EvictView` | src/Cache.cpp:255-297 | an eviction removes the victim from this level and above, hands its dirt one level down or to the memory queue |
| `CacheSend.EvictKeeps` | src/Cache.cpp:255-297 | an eviction keeps locks, inclusion below and dirty data |
| `CacheFaults.SendFault` | src/Cache.cpp:103-195 | a fault-free access had a fault-free allocation and forward on the way |
| `CacheLimits.SafeIff` | src/Cache.cpp:154-194 | of the chains that can be built, exactly those never fail, in any run, whose lower levels have MSHR entries for all blocks the first level can be fetching and ways for all of those that can share a set |
| `CacheLimits.MshrsFault` | src/Cache.cpp:154-158 | any lower level with too few MSHR entries refuses the last of one read more than it has entries |
| `CacheLimits.WaysFault` | src/Cache.cpp:160-164 | any lower level with too few ways refuses the last of one read more than it has ways, all into one of its sets |
| `CacheLimits.WaysNeeded` | src/Cache.cpp:186-189 | the smallest chain with too few ways below, and its run of two reads |
| `CacheLimits.MshrsNeeded` | src/Cache.cpp:186-189 | the smallest chain with too few MSHR entries below, and its run of two reads |
| `CacheLimits.SetsNeeded` | src/Cache.cpp:186-189 | the smallest chain with fewer sets below that fails, and its run of two reads |
| `CacheFlow.NoWriteLost` | src/Cache.cpp:103-416 | after an accepted write, however accesses, completed fetches and cycles follow and whatever the memory takes, some level holds the block dirty, or a write of it queued since waits or has been sent, and not both |
| `CacheFlow.RunFlows` | src/Cache.cpp:103-416 | over any such run all requests queued were sent or wait, once, and a block is dirty or had a write queued exactly if it was dirty before or written |
| `CacheFlow.InOrderIff` | src/Cache.cpp:386-401 | in a run from the empty chain nobody is overtaken on the way to the memory, and what was sent, then what waits, is what was queued, if and only if on every cycle the memory takes a prefix of what is ready |
| `CacheOrder.InOrderIff` | src/Cache.cpp:386-401 | the same from any state of the wait list and for any requests queued |
| `CacheOrder.InOrderMeans` | src/Cache.cpp:386-401 | nobody has been overtaken exactly when the requests sent, then those waiting, are all requests in the order they were queued |
| `CacheOrder.OvertakenRefused` | src/Cache.cpp:386-401 | over any run a delayed request reaches the memory before one queued ahead of it only if the memory has refused the one ahead |
| `CacheRefetch.RefetchOvertakes` | src/Cache.cpp:278-294 | a run of the smallest cache: the write-back of a block is queued before the second fetch of the block, and the memory gets the fetch while the write-back waits |
| `CacheWait.RunConserves` | src/Cache.cpp:386-401 | over any run every delayed request is sent once or still waits |
| `CacheWait.RunInOrder` | src/Cache.cpp:386-401 | while the memory refuses nothing, requests reach it in the order they were queued |
| `CacheWait.LeavesOnTime` | src/Cache.cpp:386-401 | then a request is sent on exactly the first tick by which everything queued up to it is ready |
| `CacheWait.DueAnswers` | src/Cache.cpp:403-415 | a cycle answers exactly the hits whose time has come, each once, and leaves exactly the others, each once, both in their order |
| `CacheHits.AnsweredOnTime` | src/Cache.cpp:403-415 | in every run from the empty chain each hit is answered exactly once, on exactly the tick it is expected, and none before |
| `CacheHits.RunBalanced` | src/Cache.cpp:403-415 | over any run from any state what is answered and what is still expected is, as a multiset, what was expected before and what was added |
| `CacheHits.AccessHits` | src/Cache.cpp:119-194 | an accepted access leaves one hit if some level holds its block and the first is not fetching it, due the latency of the first level that holds it later; otherwise none |
| `CacheHits.AccessAdds` | src/Cache.cpp:119-130 | a hit queued at clock k on level j is expected on tick max(k + latency of j, k + 1) |
| `CacheDelay.InvalidateDelay` | src/Cache.cpp:213-253 | the reported delay is the sum over the levels visited of each one's own latency, doubled on every level on the way down that hears of a dirty copy |
| `CacheDelay.EvictTime` | src/Cache.cpp:255-297 | the last level queues a write exactly for a victim dirty there or above, ready at exactly the time that delay gives |
| `Cache.CacheSystem.Tick` | src/Cache.cpp:386-416 | what is sent, what still waits; of the hits exactly those whose time has come are answered, in order, and the others stay |
| `Cache.Hierarchy.Tick` | src/Cache.cpp:386-416 | a cycle changes the clock and the two lists, answers exactly the hits whose time has come, and keeps the invariant of the caches |
| `Cache.Hierarchy.constructor` | src/Processor.cpp:115-139 | builds the linked, empty chain and establishes the invariant |
| `Cache.Hierarchy.Access` | src/Cache.cpp:103-195 | the whole new state and answer of an access, for any valid chain without further preconditions |
| `Cache.Hierarchy.Receive` | src/Processor.cpp:64-79 | the whole new state after a completed fetch |
| `Cache.CacheNode.Send` | src/Cache.cpp:103-195 | the whole new chain state and answer, recursively through the levels |
| `Cache.CacheNode.Hit` | src/Cache.cpp:119-130 | a hit moves the line to the most recent place, keeps or sets its dirty bit, and schedules the answer |
| `Cache.CacheNode.Miss` | src/Cache.cpp:131-194 | MSHR merge, the refusals, allocation and the forwarded read |
| `Cache.CacheNode.Forward` | src/Cache.cpp:186-193 | the read goes to the next level, which accepts it, or to the memory queue |
| `Cache.CacheNode.Allocate` | src/Cache.cpp:299-330 | room is made if the set is full, and the locked line appended |
| `Cache.CacheNode.Evict` | src/Cache.cpp:255-297 | invalidation above, hand-down below, removal here |
| `Cache.CacheNode.InvalidateAbove` | src/Cache.cpp:261-273 | the higher level's answer: delay and dirty bit |
| `Cache.CacheNode.HandDown` | src/Cache.cpp:278-294 | the victim goes to the next level or, if dirty, to the memory queue with its issue time |
| `Cache.CacheNode.Invalidate` | src/Cache.cpp:213-253 | removal at this level and above, with delay and dirty bit |
| `Cache.CacheNode.EvictLine` | src/Cache.cpp:197-211 | the line moves to the most recent place with the inherited dirty bit |
| `Cache.CacheNode.CheckUnlock` | src/Cache.h:150-173 | the recursive lock test through the levels above |
| `Cache.CacheNode.FindVictim` | src/Cache.cpp:305-318 | the least recent line that is evictable at every level above |
| `Cache.CacheNode.HitMshr` | src/Cache.h:175-184 | the first MSHR entry for the block |
| `Cache.CacheNode.AllSetsLocked` | src/Cache.h:138-148 | a full set all of whose lines are locked |
| `Cache.CacheNode.Callback` | src/Cache.cpp:365-383 | unlocking at this level and every level above |
| `Cache.CacheNode.Unlock` | src/Cache.cpp:368-376 | the MSHR entry's line is unlocked and the entry erased |
| `Cache.CacheNode.ConcatLower` | src/Cache.cpp:343-347 | the links between two levels |
| `DramNode.AfterExact` | src/DRAM.h:350-393 | after any history `next[c]` is the largest bound the history puts on c, and `prev[c]` its most recent issue times |
| `DramNode.ReadyIffAllowed` | src/DRAM.h:265-269 | the test on `next[c]` holds exactly when every constraint of the history does |
| `DramNode.RaiseIsMax` | src/DRAM.h:371-391 | the loop over a timing list takes the maximum over exactly the applicable entries |
| `DramTree.CheckPath` | src/DRAM.h:265-278 | `check` visits exactly the nodes on the addressed path down to the scope |
| `DramTree.RunAt` | src/DRAM.h:350-406 | each node's timing state is the summary of exactly the commands it saw as target or sibling |
| `DramTree.CheckExact` | src/DRAM.h:265-278 | after any run `check` accepts a command exactly when all constraints of the full history on its path hold |
| `DramRuns.ForceExact` | src/DRAM.h:265-278 | `check` admits a command exactly when no issue of the history has a constraint in force that lasts longer |
| `DramRuns.GuardedIff` | src/Controller.h:489-495 | a history is one of checked commands if and only if every command has waited for every constraint in force for it |
| `DramRuns.ConstraintKept` | src/Controller.h:489-495 | in a run of checked commands every constraint in force separates its two commands by its value |
| `DramRuns.WindowKept` | src/DRAM.h:371-391 | a constraint of distance n keeps any n+1 such commands of a rank at least its value apart |
| `DramRuns.CheckIffNext` | src/DRAM.h:312-322 | from the last issue on, `check` holds exactly from `get_next` on, which is not before that |
| `DramRuns.GuardedSnoc` | src/Controller.h:489-495 | issuing a ready command extends a checked run |
| `DramRuns.TargetsApart` | src/DRAM.h:371-391 | in a checked run any two commands to one node keep a constraint between them that counts from the latest issue |
| `DramRuns.SiblingsApart` | src/DRAM.h:355-362 | so do commands to two ranks of a channel for a sibling constraint |
| `Ddr3Timing.ReadyIffRules` | src/DDR3.cpp:219-355 | after any history a command is ready exactly when it has waited for every rule: the gaps by bank, by rank, between ranks and on the channel, and nFAW after the first of any four activates of its rank; nothing else holds it back |
| `Ddr3Timing.RunIffRules` | src/DDR3.cpp:219-355 | the histories of checked commands are exactly those in which every command has kept every rule |
| `Ddr3Timing.ChannelRow` | src/DDR3.cpp:224-235 | the channel table holds the channel's gaps and no others |
| `Ddr3Timing.RankRow` | src/DDR3.cpp:238-334 | the rank table holds the rank's gaps, those between ranks, and the four-activate window, and no others |
| `Ddr3Timing.BankRow` | src/DDR3.cpp:337-355 | the bank table holds the bank's gaps and no others |
| `Ddr3Timing.RankTiming` | src/DDR3.cpp:240-334 | in any checked DDR3 run two commands to one rank keep nCCD, the turnarounds, nRRD, nRAS, nRP, nRTP, write recovery, nRFC, nPD, nXP, nCKESR, nXS, and the delays before precharging all banks and powering down |
| `Ddr3Timing.ChannelTiming` | src/DDR3.cpp:224-235 | column commands of one kind anywhere on a channel keep nBL |
| `Ddr3Timing.BankTiming` | src/DDR3.cpp:337-355 | two commands to one bank keep nRCD, nRAS, nRC, nRP, nRTP and the write recovery |
| `Ddr3Timing.BusTiming` | src/DDR3.cpp:257-274 | column commands to two ranks leave the bus time to change hands |
| `Ddr3Timing.FourActivateWindow` | src/DDR3.cpp:293-294 | in any checked DDR3 run nFAW consecutive cycles hold at most four activates to one rank |
| `Dram.Dram.constructor` | src/DRAM.h:188-228 | builds the tree of nodes with no issue recorded |
| `Dram.Dram.UpdateHere` | src/DRAM.h:350-393 | one node's `next` and `prev` after a command |
| `Dram.Dram.Update` | src/DRAM.h:350-406 | the whole tree after a command |
| `Dram.Dram.Check` | src/DRAM.h:265-278 | the recursive readiness test |
| `Dram.Dram.GetNext` | src/DRAM.h:312-322 | the loop down the path yields the largest `next` |
| `Dram.Channel.IsReady` | src/Controller.h:424-433 | a command is ready exactly when no constraint over the whole history forbids it now |
| `Dram.Channel.EarliestIssue` | src/DRAM.h:312-322 | the earliest time from the last issue on at which no constraint forbids the command |
| `Dram.Channel.IssueCmd` | src/Controller.h:489-495 | issuing a ready command extends the checked history by exactly that command |
| `RowTheorems.IssueRefines` | src/Scheduler.h:224-259 | issuing the decoded command keeps "open, exactly one row, table entry with that row" equivalent for every bank, and no assertion of the row table fires |
| `RowTheorems.RunRefines` | src/Scheduler.h:224-259 | the same over every run |
| `RowTheorems.AccessIsHit` | src/DDR3.cpp:93-118 | a read or write is issued only to a powered rank with exactly the requested row open |
| `RowTheorems.Progress` | src/DRAM.h:246-262 | every preparing command brings its request exactly one command nearer, from at most three |
| `RowTheorems.HitsExact` | src/Scheduler.h:236-243 | the hit counter is the number of accesses since the row was opened |
| `RowTheorems.RefreshFindsClosed` | src/DDR3.cpp:119-125 | in every run a refresh is issued exactly when every bank of its rank is closed, holds no row and has no table entry; PREA exactly when some bank is open, and it closes all |
| `RowTheorems.AccessFollowsTable` | src/DDR3.cpp:95-116 | in every run the next command of a read or write is what its rank's power state and the table's entry for its bank call for |
| `RowTheorems.PowerExact` | src/DDR3.cpp:202-215 | in every run a rank is in self-refresh or powered down exactly from the command that sends it there to the next one that wakes it |
| `RowTheorems.PowerFollows` | src/DDR3.cpp:128-146 | a request to power down is preceded by SRX exactly when the last power command was SRE, one for self-refresh by PDX exactly when it was PDE |
| `RowTheorems.PowerDownTells` | src/DDR3.cpp:202-209 | a rank that powers down remembers exactly whether any of its banks has an open row |
| `RowTheorems.TimestampExact` | src/Scheduler.h:224-243 | the timestamp of an open row is the time it was last opened or accessed |
| `Rows.RowTable.Update` | src/Scheduler.h:224-259 | the whole new table, and whether an assertion fails |
| `Rows.RowTable.Erase` | src/Scheduler.h:245-256 | exactly the entries within the closing command's scope go, and whether there was one |
| `Rows.Controller.FirstCommand` | src/DRAM.h:246-262 | the command a request needs next; for a refresh PREA exactly when some bank of the rank is open, else REF |
| `Rows.Controller.UpdateState` | src/DDR3.cpp:181-216 | the whole new device state after a command |
| `Rows.Controller.Issue` | src/Controller.h:402-420 | one command for a request: no failed assertion, exact progress; an open requested row when a read or write completes, all banks closed when a refresh does |
| `SalpTheorems.StepKeeps` | src/SALP.cpp:314-423 | each issued command keeps every bank safe, and no prerequisite meets an unexpected state |
| `SalpTheorems.AccessSafe` | src/SALP.cpp:121-199 | in every run a read or write finds exactly the requested row in its subarray; no sibling open under SALP-1 and SALP-2, none selected under MASA |
| `SalpTheorems.OtherIsOpen` | src/Controller.cpp:11-26 | PRE_OTHER is retargeted to the first other open subarray; under SALP-1 the only open one |
| `SalpTheorems.RefreshFindsClosed` | src/SALP.cpp:140-196 | in every run, under all variants, a refresh is issued exactly when every subarray of the rank is closed and holds no row; PRER exactly when some is not, and it closes all |
| `SalpTheorems.PowerDownTells` | src/SALP.cpp:345-420 | a rank that powers down remembers exactly whether any subarray is open |
| `SalpTheorems.PowerExact` | src/SALP.cpp:345-429 | the rank is in self-refresh or powered down exactly from the command that sends it there to the next one that wakes it |
| `SalpTheorems.DeselectOnly` | src/SALP.cpp:381-396 | the loop that stops at the first selected sibling deselects the only one |
| `SalpTheorems.Progress` | src/SALP.cpp:121-199 | every preparing command brings its request exactly one command nearer, from any power state; for an access under SALP-2 each other open subarray costs one |
| `Salp.SalpRank.OffendingSubarray` | src/Controller.cpp:11-26 | the loop returns the first other open subarray |
| `Salp.SalpRank.DeselectOther` | src/SALP.cpp:384-387 | the loop with its early exit |
| `Salp.SalpRank.UpdateBank` | src/SALP.cpp:314-396 | the whole new bank after a command |
| `Salp.SalpRank.UpdateState` | src/SALP.cpp:314-433 | the whole new rank after a command |
| `Salp.SalpRank.Issue` | src/Controller.h:402-404 | one command for a request keeps the rank safe, completes it exactly at distance 0 and else lowers the distance by one |
| `Scheduler.GetHead` | src/Scheduler.h:35-104 | FCFS, FR-FCFS and capped FR-FCFS minimality; with hit priority the earliest ready hit if there is one, else the FR-FCFS-minimal request that closes no hit row group; a nonempty queue always yields a request |
| `Scheduler.First` | src/Scheduler.h:42-48 | the fold over a comparison yields the first in the policy's order |
| `Scheduler.FirstHarmless` | src/Scheduler.h:65-101 | the second pass is minimal among the requests that violate no hit |
| `Scheduler.Compare` | src/Scheduler.h:108-154 | the chosen request goes before both |
| `Scheduler.NeverClosesHit` | src/Scheduler.h:76-101 | a DDR3 precharge chosen with hit priority never hits a bank whose open row a queued request hits |
| `QueueTheorems.EnqueueKeeps` | src/Controller.h:297-314 | a request is accepted exactly when its queue has room; a read goes to the end of the pending ones, due on the next cycle, if and only if some queued write has its address, anything else to the end of its queue; nothing else changes, and a refusal changes nothing |
| `QueueTheorems.TickKeeps` | src/Controller.h:316-422 | a tick keeps every accepted request in exactly one place, the queue sizes, the order of reads and writes to one address, timely answers and balanced counters |
| `QueueTheorems.WorkPlaces` | src/Controller.h:402-421 | issuing a command moves its request, never losing or duplicating one |
| `QueueTheorems.ReapBalanced` | src/Controller.h:323-335 | answering a pending read counts a finish exactly for a read that was started in the memory |
| `QueueRuns.AnsweredOnce` | src/Controller.h:297-422 | after any run every accepted request is in exactly one place; a read has been answered at most once and not before its time, then waits nowhere, and a waiting read is older than every waiting write to its address |
| `QueueRuns.PendingAnswered` | src/Controller.h:322-335 | from any state, whatever arrives in between, the j-th pending read is answered, in order, at most j ticks after all up to it are due or the next tick has come |
| `QueueRuns.AnsweredExactly` | src/Controller.h:322-335 | the j-th pending read has been answered by the end of a run if and only if the clock has reached its tick, and then on that tick: its due time, or the tick after the answer before it if later |
| `QueueRuns.EveryPendingAnswered` | src/Controller.h:322-335 | after any run every pending read is answered within the read latency and one tick for each read before it |
| `QueueRuns.CountersExact` | src/DRAM.h:408-447 | after any run, at every node of the tree down to one level below the banks, no assertion has failed, the counter is the number of reads and writes started through the node and unfinished, the service total is the sum over cycles of that number and the sum over requests of their time in service, and the active total the number of cycles with any |
| `QueueAnswers.AnsweredFrom` | src/Controller.h:303-413 | in every run each answered read was accepted while a write to its address waited, or a tick issued its last command and it was due exactly the read latency later |
| `QueueAnswers.TickServes` | src/Controller.h:340-421 | a tick serves other requests as long as there are any, then writes while they are drained, then reads, and takes the chosen request out exactly on its last command |
| `QueueAnswers.DrainsBetween` | src/Controller.h:340-350 | in every run writes are served exactly from a tick that found the write queue filled, or no read, until one that finds few writes and a read |
| `QueueAnswers.RefreshAdds` | src/Controller.h:337-338 | a tick's refreshes join the other requests in order, numbered as they are accepted; reads and writes are left alone |
| `QueueLives.TickTracked` | src/Controller.h:316-422 | a tick counts each request's start once and its finish once, after it, at every node of its address, which names nodes of the tree |
| `ServiceTree.UpdateAt` | src/DRAM.h:408-447 | an update along an address of the tree counts at exactly the nodes on it and fails no assertion on the way |
| `ServiceTree.FoldAt` | src/DRAM.h:408-447 | over any updates along addresses of the tree each node holds the counters of the events that pass through it |
| `ServiceTree.BuildReaches` | src/DRAM.h:188-228 | the tree as built is numbered consistently and at zero, and every address within its bounds names nodes of it |
| `Service.Exact` | src/DRAM.h:408-439 | the counters after any proper history: number in service, sum over all cycles of it, number of busy cycles, no failed assertion |
| `Service.Little` | src/DRAM.h:408-439 | the service total, a sum over cycles, is the sum over requests of the time from each one's start to its finish, or to the last event |
| `Queue.MemoryController.constructor` | src/Controller.h:81-101 | empty queues satisfy the invariant |
| `Queue.MemoryController.Exact` | src/DRAM.h:408-447 | the counters in the object's own tree are exact between any two calls |
| `Queue.MemoryController.Enqueue` | src/Controller.h:297-314 | the whole new state and answer: refused exactly when the queue is full, a read forwarded exactly when a queued write has its address |
| `Queue.MemoryController.Reap` | src/Controller.h:323-335 | the oldest pending read is answered once due |
| `Queue.MemoryController.Work` | src/Controller.h:355-421 | the whole new state after one command |
| `Queue.MemoryController.UpdateServing` | src/DRAM.h:408-447 | the counters of the nodes on the address, with the assertion on the node's number |
| `Queue.MemoryController.Tick` | src/Controller.h:316-422 | the whole new state of a tick, keeping the invariant |
| `Pages.AssignKeeps` | src/Memory.h:350-401 | the remaining counter is the number of free frames, pages keep their frames, a new page gets the first free frame on the circle from the one drawn while there is one, and distinct pages have distinct frames until the first replacement |
| `Pages.RunInjective` | src/Memory.h:350-401 | in every run no two pages share a frame unless more pages than frames have been used |
| `Pages.ProbeFinds` | src/Memory.h:376-388 | the circular probe ends on the first free frame whenever there is one, from any start |
| `Pages.PageTable.Translate` | src/Memory.h:350-401 | the whole new state; the frame replaces the page and the offset is kept |
| `Pages.PageTable.FindFree` | src/Memory.h:376-390 | the probing loop terminates on a free frame |
| `AddressMap.IndexVector` | src/Memory.h:284-306 | an index comes back from its address vector modulo the capacity |
| `AddressMap.VectorIndex` | src/Memory.h:284-306 | every vector within its bounds is that of exactly one index below the capacity |
| `AddressMap.Alias` | src/Memory.h:284-306 | two indices share a vector exactly when they agree modulo the capacity |
| `AddressMap.FieldBits` | src/Memory.h:284-306 | each level's component is its own bits of the index, from the offset its layout gives it: column lowest and channel highest, or channel, column, then rank up to row |
| `AddressMap.Split` | src/Memory.h:284-306 | the slicing loop computes the address vector of either layout, each component its own bits of the address |
| `AddressMap.CalcLog2` | src/Memory.h:405-410 | the position of the highest bit; 0 for 0 |
| `RefreshRuns.RunBalanced` | src/Refresh.cpp:228-252 | after any run a bank's backlog is its refreshes less its due slots, in -7..8 for DARP and DSARP and 0 for REFPB and SARP |
| `RefreshRuns.WindowRule` | src/Refresh.h:93-95 | over any stretch of a run refreshes and due slots of a bank differ by at most 15 |
| `RefreshRuns.RunShare` | src/Refresh.cpp:143-146 | after any run each subarray of a bank has had exactly its share of the bank's refreshes, in closed form |
| `RefreshRuns.EvenShare` | src/Refresh.cpp:143-146 | refreshes that go to a bank's subarrays in turn give each subarray exactly its turns |
| `RefreshRuns.WrpLeast` | src/Refresh.cpp:197-212 | whatever the random draw, the first bank of the sorted order, one of least demand, is chosen |
| `RefreshRuns.PullFinds` | src/Refresh.cpp:65-97 | the circular search finds a bank to pull in exactly when there is one, from any start |
| `RefreshChoices.EarlyRefresh` | src/Refresh.cpp:48-98 | in read mode a rank pulls in a refresh exactly when there is room and some bank has no waiting read, no queued refresh and a backlog below -6, and then of the first such bank on the circle from the one drawn |
| `RefreshChoices.WriteRefresh` | src/Refresh.cpp:164-224 | in write mode it refreshes the first bank of its order, one that as few requests wait for as for any, exactly when there is room, no refresh of the rank is queued, a write waits for it and the bank is less than eight ahead |
| `RefreshChoices.SlotUsed` | src/Refresh.cpp:108-150 | a due slot is owed, and used at once exactly for the in-order policies, with no refresh queued and no read waiting, or at eight behind |
| `RefreshChoices.AheadInTurn` | src/Refresh.cpp:237-247 | refreshes ahead of their slots are looked for by DARP and DSARP only, on every tick in read mode and on the one that enters write mode, rank by rank |
| `RefreshFailures.TickFails` | src/Refresh.cpp:228-252 | from the state and the queues before the tick: it reads past the subarray counters exactly when a refresh ahead of its slot, or a slot that is used, is for a bank without one; otherwise the enqueue assertion fires exactly when a slot falls due and the queue has no room |
| `RefreshFailures.AheadExact` | src/Refresh.cpp:48-98 | which ranks refresh ahead of their slots, for which banks, how many queue entries they take, and when one reads past the counters |
| `RefreshFailures.InjectRoom` | src/Refresh.cpp:101-153 | how many queue entries a slot takes over all ranks, and how it fails |
| `RefreshLimits.StraysIff` | src/Refresh.cpp:25-46 | some run reads past the subarray counters if and only if there is a rank, there are fewer subarrays than banks, and either the policy is out of order or the queue holds the refreshes of a slot |
| `RefreshLimits.FourSubarrays` | src/DSARP.cpp:61-66 | with 8 banks of 4 subarrays a run reads past the counters |
| `RefreshLimits.OverflowRun` | src/Refresh.h:99-109 | a run in which the enqueue assertion fires |
| `RefreshCredit.TickKeeps` | src/Refresh.cpp:228-252 | a tick keeps every account balanced, within the limits, and the slot counter in step with the clock |
| `RefreshCredit.InjectRankKeeps` | src/Refresh.cpp:108-150 | a due slot is used at once or postponed, never beyond the limit |
| `RefreshCredit.AheadKeeps` | src/Refresh.cpp:88-94 | a refresh ahead of its slot earns one credit within the limit |
| `Arith.TurnsClosed` | src/Refresh.cpp:116-117 | slots dealt out in turn, in closed form |
| `Refresh.RefreshScheduler.constructor` | src/Refresh.cpp:25-46 | all accounts at zero, which satisfies the invariant |
| `Refresh.RefreshScheduler.TickRef` | src/Refresh.cpp:228-252 | the whole new state of a tick, or that it fails |
| `Refresh.RefreshScheduler.InjectRefresh` | src/Refresh.cpp:101-153 | the slot over all ranks, stopping at a failure |
| `Refresh.RefreshScheduler.WrpRank` | src/Refresh.cpp:164-224 | one rank of write-refresh parallelisation |
| `Refresh.RefreshScheduler.EarlyRank` | src/Refresh.cpp:65-97 | the circular search of one rank and the refresh it pulls in |
| `Refresh.RefreshScheduler.Occupied` | src/Refresh.cpp:50-62 | the array marks exactly the banks with waiting reads |
| `Refresh.RefreshScheduler.RefreshBank` | src/Refresh.h:99-109 | request, credit and subarray turn, or the failure |
| `Refresh.Controller.Enqueue` | src/Controller.h:297-304 | appended unless the queue is full |
| `Csr.Graph.constructor` | bfs/graph.cpp:81-117 | the adjacency lists record every input row with its multiplicity in both families, in the order of the rows |
| `Csr.Graph.MaxIdx` | bfs/graph.cpp:39-49 | the largest index in any column of any row |
| `Csr.BuildCsr` | bfs/graph.cpp:133-166 | monotone row pointers whose slices are the adjacency lists |
| `Csr.Load` | bfs/graph.cpp:81-166 | from input rows: every edge with its multiplicity and in the order of the rows, the incoming lists the multiset transpose of the outgoing ones, equal for undirected input |
| `Csr.UndirectedSymmetric` | bfs/graph.cpp:106-109 | undirected input counts edges symmetrically |
| `Distance.WithinIffWalk` | bfs/graph.cpp:185-221 | bounded reachability is the existence of a walk |
| `Distance.DepthExact` | bfs/graph.cpp:185-221 | k level steps compute exactly the distances up to k |
| `Distance.StableShortest` | bfs/graph.cpp:258-295 | a level that changes nothing leaves the shortest distances everywhere |
| `BfsPasses.ListIsNext` | bfs/graph.cpp:192-215 | a top-down pass over a level in any order is the level step |
| `BfsPasses.BuIsNext` | bfs/graph.cpp:347-367 | a bottom-up pass over the unvisited vertices is the same level step |
| `BfsPasses.TdWrites` | bfs/graph.cpp:279-284 | a top-down pass writes once per vertex it reaches |
| `BfsPasses.BuWrites` | bfs/graph.cpp:359-365 | so does a bottom-up pass |
| `BfsPasses.CachedTdSaves` | bfs/graph.cpp:622-640 | with the hub cache, one byte and one burst read less per hit, same writes |
| `BfsPasses.CachedBuSaves` | bfs/graph.cpp:641-686 | the same bottom-up |
| `BfsPasses.GetBurstNum` | bfs/graph.cpp:808-816 | the least number of 64-byte bursts that cover the data |
| `BfsRun.DoneShortest` | bfs/graph.cpp:499-513 | when the end test fires, under any switching policy, the depths are the shortest distances |
| `BfsRun.TurnProgress` | bfs/graph.cpp:418-513 | every other turn lowers the number of unfinished vertices |
| `BfsTurns.ControlIs` | bfs/graph.cpp:506-511 | turn k + 1 is bottom-up if and only if turn k was top-down and the hub test holds of the number of vertices at distance k with enough outgoing edges, or was bottom-up and the visit test fails of the number at distance k + 1; when the loop ends |
| `BfsTurns.StopsIs` | bfs/graph.cpp:504-513 | the loop takes exactly the turns up to the first that goes top-down from no vertex or bottom-up and finds none |
| `BfsTurns.ReadsAre` | bfs/graph.cpp:418-513 | a run reads the sum over its turns: a scan each, then 8 per vertex and 5 per edge of the level top-down, or the search of each unreached vertex bottom-up; the hub cache answers the edges into hubs of the level, or the decisive looks that find one |
| `BfsTurns.BufferHolds` | bfs/graph.cpp:575-603 | the hub cache of a level holds exactly the vertices at its distance whose degree reaches the threshold, in order |
| `BfsTurns.LevelHitsAre` | bfs/graph.cpp:606-686 | the hits of a turn, counted from the graph's distances |
| `BfsLoops.TopDownPass` | bfs/graph.cpp:268-287 | depths and traffic of a top-down level |
| `BfsLoops.BottomUpPass` | bfs/graph.cpp:347-367 | depths and traffic of a bottom-up level |
| `BfsLoops.CachedTopDownPass` | bfs/graph.cpp:606-639 | the same depths with the hub cache, and its traffic |
| `BfsLoops.CachedBottomUpPass` | bfs/graph.cpp:641-686 | the same bottom-up |
| `BfsEngines.Collect` | bfs/graph.cpp:425-460 | frontier and hub count of a level |
| `BfsEngines.CollectBuffer` | bfs/graph.cpp:575-603 | the hub cache of a level |
| `BfsEngines.HybridBfs` | bfs/graph.cpp:397-513 | terminates with the shortest distances, from either direction, for any switching policy, after exactly the turns that the distances call for; reads the sum over those turns, each in its direction; writes once per reached vertex but the start |
| `BfsEngines.CacheHybridBfs` | bfs/graph.cpp:548-711 | the same with the hub cache, saving exactly its hits |
| `BfsEngines.TdBfs` | bfs/graph.cpp:241-295 | terminates with the shortest distances and exact traffic |
| `BfsEngines.BuBfs` | bfs/graph.cpp:316-377 | terminates with the shortest distances and exact traffic |
| `BfsBottomUp.BuClosedForm` | bfs/graph.cpp:316-377 | one turn past the deepest level; a scan each turn, and for a vertex at distance d all its incoming edges d - 1 times and those up to the first parent once, for one out of reach all of them every turn; one write per reached vertex but the start |
| `BfsTraffic.WritesAt` | bfs/graph.cpp:397-513 | after any number of turns in any directions one byte and one burst have been written per reached vertex but the start |
| `BfsBasic.BasicBfs` | bfs/graph.cpp:168-221 | terminates with the shortest distances; reads 12 bytes per reached vertex and 5 per edge out of one, writes 5 per reached vertex but the start; bursts likewise |
| `BfsBasic.BasicLevel` | bfs/graph.cpp:185-221 | one level: depths, next frontier and traffic |
| `BfsBasic.TdClosedForm` | bfs/graph.cpp:258-295 | reads one byte per vertex and scan, 8 per reached vertex, 5 per edge; two scans past the deepest level; one write per reached vertex but the start |
| `BfsHits.Lockstep` | bfs/graph.cpp:548-711 | hybrid and cached hybrid take the same number of turns with the same writes; reads differ by exactly the hits |
| `BfsHits.HitsWithinPotential` | bfs/graph.cpp:766-776 | if no hub has more outgoing than incoming edges the hits of any run never exceed the potential saving; as long as all turns are top-down it is enough that every hub is reported |
| `BfsHits.UndirectedWithinPotential` | bfs/graph.cpp:766-776 | undirected graphs always meet that condition |
| `BfsHits.PotentialExceeded` | bfs/graph.cpp:766-776 | a directed graph of two edges with one hit and a potential saving of 0 |
| `BfsHits.GetPotentialCacheSaving` | bfs/graph.cpp:766-776 | the in-degrees of all vertices at or above the threshold |
| `BfsHits.TdHitsBound` | bfs/graph.cpp:622-628 | a top-down level hits at most once per edge into a buffered hub |
| `BfsHits.BuHitsBound` | bfs/graph.cpp:653-668 | a bottom-up level hits at most once per edge out of a buffered hub |

## Left out

- `send_memory`: which delayed requests the memory takes on a cycle is a parameter. In the runs of `CacheRuns` the wait
  list only grows; `CacheFlow` has the runs that also shorten it.
- Several cores sharing the last level: there a lower level can refuse, so inclusion is stated for one chain.
- Destructors, statistics, printing and configuration parsing.
- Timing tables of standards other than DDR3, and the speed arithmetic that fills the DDR3 values in.
- Refresh-overlap counters of the DRAM nodes.
- ServiceTree.UpdateAt: the service counters are modelled on a tree of values, not on the node objects of `Dram`.
- Queue.MemoryController.Tick: the scheduler's choice and the command it leads to are parameters here; `Scheduler` and `Rows` model them.
- A callback that enqueues another request while it runs.
- Closed and timeout row policies, which pass shortened address vectors, and closing accesses (RDA, WRA), which the default policy never issues and whose scope is longer than a row-table key.
- All-bank refresh, which keeps no accounts.
- Burst splitting and the per-port reorder buffer.
- The SystemC processing elements and memory wrapper, traces, random start vertices and random weights.
- BfsEngines.TdBfs: shares the level loop of the hybrid search instead of repeating it; the hub count it also computes is not used.
- BfsEngines.BuBfs: shares the level loop of the hybrid search instead of repeating it.
- Scheduler.GetHead: readiness and row state are given per request and do not change during the choice, as in the source.
