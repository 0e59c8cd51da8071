# Verified model of the work-item coarsening pipeline

The repository turns an OpenCL kernel, written for many work-items that meet at barriers, into
sequential code. It prepares the control-flow graph, hives off the barriers, cuts the kernel into
barrier-free regions, stores the values that one region hands to another in one array per value
(the context buffers), and puts a nest of three loops around each region. This project models the
passes that do this, and the analyses they ask, over a small IR of its own, and proves that they
do what they are for.

## The main results

- **Coarsening** (`BuiltCode`, on top of `Interleaving`, `Contexts`, `ContextBuffering`,
  `ContextPass`, `SharedRegisters`, `UniformStretch`, `Coarsening`, `WorkGroups`, `OneThread`,
  `LoopNest`, `NestCode`, `NestThread`). `BuiltCode.BuiltCodeIsEnough` is about the code that the
  pass leaves behind. It takes a kernel as it was written, n items at its entry that do not race
  between barriers and that come to all barriers together, and any execution in which the items are
  interleaved at will between barriers (section 6.12.8 of OpenCL 1.2). The kernel has its contexts
  buffered, a nest of loops built around each region and its barriers erased: headers with a PHI
  for each induction variable, latches that count and branch, local ids replaced by the induction
  variables, slots addressed by the flat index that the code computes. One thread steps through
  that code from its entry, one instruction or branch at a time. It finishes, and the execution of
  the items can go on until it ends and then leaves the shared memory that the thread leaves.
  The proof goes by way of a thread that is handed from item to item without any loops
  (`OneThread.OneThreadIsEnough`): with every nest that is put in place the machine catches up,
  step by step, with the one before (`NestThread.StepFollows`).
  `WorkGroups.CoarseningIsCorrect` says how many barriers are passed and what the items' own
  registers hold in the end.
  Between barriers the items go around a region that gets a loop or along code that gets none,
  which may also be nothing at all, as between contiguous barriers. PHIs may carry values over
  barriers and into regions: into a loop's entry where all edges from outside bring the same, and
  elsewhere in uniform code, as the counter of a loop around barriers does.
  `CountedLoop.BuildsTheCode` runs all of the pass, context buffering, loops and erasing, on a
  counted loop around barriers whose regions load and store, for any number of rounds and of
  items. `HeadedLoop.BuildsTheWrongCode` runs the loop builder on a kernel that meets all
  conditions but one, and the code that it builds leaves something else.
- **The loops** (`LoopNest`, `FlatIndex`). Three calls of the loop builder make a nest whose every
  run visits the region once per local id, with flat indices 0, 1, ..., N-1, 32-bit arithmetic
  included; it leaves to where the region led before. This holds of all runs that can be reached
  exactly if the entry of the region dominates no predecessor outside it that can be reached.
- **Regions** (`Regions`, `Gathering`). The region before a barrier is exactly what reaches the
  barrier without crossing another; gathering terminates. On a graph where no block behind a barrier
  has two predecessors outside its loop, and barriers lead to each region at one block, it covers
  all that is on a way through the function; where barriers and regions are one to one, it gathers
  each region once and none overlap (`GatheringRuns.GatherAll`).
- **Tail replication** (`Graphs`, `Cloning`, `TailReplication`, `Meetings`, `Replicas`, `Survival`).
  On a reducible graph the pass terminates, and every barrier, copies included, dominates all that
  forward edges reach from it. Dominance is defined over paths. With copied instructions defining new names, operands
  and PHI entries renamed, the result is in SSA form and runs like the source on any schedule of
  any number of items. Where ways from a barrier that come together do so below a block on both
  of them, the executions with barriers before and after are the same, whatever rounds the pass
  makes (`Survival.NoExecutionIsLost`).
- **Other preparation**: PHI elimination (`PhiElimination`), hiving off barriers (`HiveOff`),
  constant expressions (`ConstantExprs`), backward slices and sinking (`Slices`), cleaning PHIs
  (`PhiCleanup`).
- **Analyses**: two computations of control dependence (`ControlDependence`, `Digraphs`). The
  block worklist of thread invariance (`Invariance`) ends with the meet over all walks along
  operands, and two work-items that differ on one local axis only run alike as far as that goes
  (`InvarianceRuns`). The cached triplets (`Triplets`) are invariant exactly where such items have
  equal values whatever the operations mean.

## Where the code does less than one might expect

- `CleanupPHIs` goes on at index 1 after a removal, so that a stale entry can stay in first place:
  exactly when the first two entries are both stale (`PhiCleanup.ScanIsCompleteIff`). Removing a
  PHI starts the clean-up over, which gives those before it another scan, and that finds the rest;
  those behind it keep such an entry (`PhiCleanup.CleanupIsCompleteIff`).
- The two computations of control dependence agree about different blocks exactly when no block
  that reaches an exit has a successor that reaches none (`ControlDependence.DefinitionsAgreeIff`).
  The quadratic one never has a block depend on itself; the frontiers can.
- Context buffering gives up on a value that a PHI receives along two edges, and on no other
  (`ContextPass.CondBarrier.BufferContexts`). Values that PHIs define get no buffer at all; where
  other regions read them, they have to be the same for all items (`SharedRegisters.Uniform`), as
  a comment at LoopInserter.cpp:1094 says too.
- The triplet analysis takes an id of a computed dimension for invariant. It is sound exactly for
  code that asks for constant dimensions (`Triplets.SoundIffFixedDims`).
- Sinking looks at data dependence only. It preserves what the block does, for all meanings of the
  instructions, exactly when no two conflicting memory accesses change places
  (`Slices.SinkPreservesIff`).
- In the table above `join` (ThreadInvariance.cpp:65-79), kNonInvariant and kMaybeNonInvariant give
  kNonInvariant; the code gives kMaybeNonInvariant, and the model follows the code.
- A loop tests at its bottom, so that a local size of 0 still gives one round
  (`LoopNest.OncePerItemIff`).
- Predecessors that the region's entry dominates keep leading straight to it. That is right inside
  the region; outside, at the latch of a loop that the entry heads, it lets runs into the region
  past the nest, with induction variables left over (`LoopNest.PastTheNest`). Runs are in order
  exactly if there is no such predecessor (`LoopNest.LoopInserter.BuildNest`,
  `LoopNest.InOrderIff`), and `BuiltCode.Buildable` asks that of every region. `HeadedLoop` is the
  kernel `do { a[id]++; again := a[id] < 2; barrier } while (again)`: its region heads the loop, the
  second round is made by the last item only, and for two items the cells end as 1 and 2 where every
  execution of the kernel leaves 2 and 2. LoopBarriers.cpp:84 puts a barrier into the header of a
  loop only if the header begins with a PHI, and here it does not.
- Tail replication turns one edge at a time, and a join below a barrier that two edges lead to is
  copied for each (`TailReplication.SecondEdgeTurns`; `TailReplication.DivergingJoin` is a graph
  on which both edges are turned). Items that part behind the barrier and meet again at a barrier
  in the join then stand at two copies of that barrier (`Replicas.BarrierIsParted`). An execution
  of the kernel before a replication is one of the kernel after it exactly if at every barrier
  either all items have last come into the copied blocks by the turned edge or none has, which
  their own walks through the source tell (`Replicas.ExecutionMirrors`); every execution after it
  is one before it. `Diverging.ExecutionIsLost` gives a kernel, two rounds of the pass and an
  execution that is lost. None is lost where two ways from a barrier, no other barrier being on
  them, that come together do so below a block on both (`Meetings.MeetBelow`,
  `Survival.NoExecutionIsLost`): branches behind a barrier may join again, also behind the join at
  which the pass turns an edge (`Diverging.MeetBelowTheJoin`).
- `gatherParallelRegions` keeps one of the unvisited barriers outside the loop and drops the
  others (`Gathering.NextBarrier`), so that a region can be missed in whatever order predecessors
  come (`GatheringFaults.OneRegionIsLost`). A barrier that waits on the stack can be visited by
  another way and is then taken again, and its region gets its loops twice
  (`GatheringFaults.RegionComesTwice`). Conditions on the graph under which neither happens are
  those of `GatheringRuns.GatherAll`.
  It takes every predecessor of a region's entry for a barrier; where the entry heads a loop inside
  the region the latch is none (`Gathering.LatchIsStray`).

## What is assumed

- LLVM's dominator and post-dominator trees answer as the path-based definitions say, and its loop
  and region information is an oracle. `Graphs.DominatesQuery` shows that dominance can be decided.
- In the coarsening theorem: the kernel is in SSA form; the regions that get a loop lie in front of
  a barrier, do not overlap, are not headed by a loop around them (`BuiltCode.Buildable`)
  and are entered at one block, whose PHIs receive the same, computed outside, along all edges
  from outside (LoopInserter.cpp:847-863 lets all these edges come from the loop's header); no
  other PHI of a region receives what an instruction of another looped region computes; barriers
  are hived off, with PHIs left in front of them (hive_off_barrier.cpp:97-131); code without a
  loop asks for no local id and keeps no private variable; registers are empty when the items
  begin. Whatever a PHI in a looped region passes to other code is the same for all items, as a
  comment at LoopInserter.cpp:1094 has it, and so is what that other code computes
  (`SharedRegisters.Uniform`). Race freedom and uniform barriers are what section 6.12.8 of
  OpenCL 1.2 asks of the kernel's author. The state is finite sequences of items and a memory of
  unbounded integers; the arithmetic of instructions is a parameter, of which the loops need
  addition and comparison of 32-bit words (`BuiltCode.Counts`): no local size is 0, their product is
  n and below 2 to the 32, and item w has the w-th local id.
- Dominance in `LoopNest` is that of the graph each loop is built in. The source asks a tree that
  it has added its own blocks to, below the entry; for the second and third loop neither has the
  preheader dominate a predecessor.
- Pointer sets whose order the source leaves open are sets here, and worklists take their elements
  in any order.

## Model

| member | source | states |
|---|---|---|
| `BuiltCode.BuiltCodeIsEnough` | LoopInserter.cpp:444-503 | Race-free kernel with uniform barriers, launched with n items, on a graph that suits the loop builder: a thread that steps through the code with buffered contexts, nests of loops and no barriers finishes, and every barrier-respecting interleaving of the items can go on until it ends and ends with the thread's shared memory |
| `NestCode.InsertLoops` | LoopInserter.cpp:456-503 | One region after the other gets its nest in the kernel, whose graph stays the one the loop builder works on, and then the barriers are erased; what the later regions need outlasts the earlier nests |
| `NestCode.PlaceNest` | LoopInserter.cpp:789-979 | The kernel with the nest: PHIs 0 and incremented in the headers, latches that add, compare and branch, local ids replaced, old blocks with retargeted branches |
| `NestCode.MovePhi` | LoopInserter.cpp:847-863 | What a PHI of the entry received from redirected blocks it receives from the innermost header; all other entries stay |
| `NestCode.NestIsCfg` | LoopInserter.cpp:789-979 | The control-flow graph of the kernel with the nest is the graph that the loop builder has made |
| `NestCode.ReadyStays` | LoopInserter.cpp:456-477 | With one region's nest in place, the other regions are entered and left as before, and no new block is dominated by their entries |
| `NestThread.StepFollows` | LoopInserter.cpp:789-979 | Whatever step the thread makes that is handed from item to item, the thread that runs the nest's code catches up, with the same memory and the item's local id in its induction variables |
| `NestThread.ToNextItem` | LoopInserter.cpp:866-912 | From the innermost latch the code comes to the header with the local id of the next item, or out of the nest after the last |
| `NestThread.FromTop` | LoopInserter.cpp:866-912 | From the outermost preheader the code comes to the innermost header with all induction variables 0 |
| `NestThread.CarryIsNext` | LoopInserter.cpp:469-474 | Incrementing the first variable that can be and setting those below to 0 goes through the local ids in flat order |
| `NestThread.ItemIs` | LoopInserter.cpp:425-433 | In the region, the flat index computed of the induction variables is the item whose turn it is |
| `NestThread.ExecInRegion` | LoopInserter.cpp:915-978 | With the induction variables for the local ids, an instruction of the region does what it does for that item |
| `NestThread.HeaderMatch` | LoopInserter.cpp:847-863 | From the innermost header the entry's PHIs receive what they received along any edge from outside |
| `BuiltCode.FinishesWithNest` | LoopInserter.cpp:456-477 | One nest more, and the thread finishes with the same memory |
| `BuiltCode.StepErased` | LoopInserter.cpp:479-503 | Without the barriers, every other step is the same step |
| `BuiltCode.BufferedIsReady` | LoopInserter.cpp:450-477 | What the loop builder needs of the kernel as written still holds when contexts have been buffered |
| `CountedLoop.BuildsTheCode` | LoopInserter.cpp:444-503 | The pass from context buffering to erased barriers, run on a counted loop around barriers, gives code that does the work of every execution |
| `HeadedLoop.BuildsTheWrongCode` | LoopInserter.cpp:836-839 | A kernel with a dominated predecessor outside its region that meets all other conditions: built by the pass, the thread leaves 1 in a cell in which an execution leaves 2 |
| `HeadedLoop.AllLeaveTwo` | LoopInserter.cpp:836-839 | Some execution of that kernel ends, and all that end leave 2 in both cells |
| `HeadedLoop.BuiltLeavesOneAndTwo` | LoopInserter.cpp:836-839 | Whatever nest the loop builder returns for it, the finished code leaves 1 and 2 |
| `OneThread.OneThreadIsEnough` | LoopInserter.cpp:444-477 | The same for a thread that is handed from item to item in place of the loops: it needs no condition on the graph, and is what the built code is compared with |
| `OneThread.ThreadIterates` | LoopInserter.cpp:458-477 | A visit to a looped region brings that thread to the entry for the next item, or out of the region after the last |
| `WorkGroups.CoarseningIsCorrect` | LoopInserter.cpp:444-477 | For the same executions and the thread that is handed from item to item: they pass no more barriers than the loops, the thread is led by its own registers to each barrier, the shared memories agree in every cell, and the registers of the items are those that the buffers stand for |
| `CountedLoop.ConditionsCanBeMet` | LoopInserter.cpp:444-477 | A counted loop around barriers, whose regions load and store, meets all conditions for any number of rounds and items and any shared memory, and buffering does not give up on it |
| `WorkGroups.UniformRunIsKept` | LoopInserter.cpp:1039-1143 | If the items of the original come to all barriers together, around regions or along uniform code, they do so in the buffered kernel by the same way |
| `WorkGroups.VisitBuffered` | LoopInserter.cpp:1213-1355 | Every visit of an item to a region in the original is matched by a visit in the buffered kernel that ends in the state standing for the same one |
| `WorkGroups.StepBuffered` | LoopInserter.cpp:1271-1355 | Inserted stores and reloads delay a step of the original but never prevent it |
| `WorkGroups.EditKeepsUniform` | LoopInserter.cpp:1213-1355 | Edits inside looped regions make no register uniform that was not |
| `WorkGroups.EntryStays` | LoopInserter.cpp:847-863 | Edits leave a region with one entry, whose PHIs still receive the same along all edges from outside |
| `WorkGroups.StretchIsKept` | LoopInserter.cpp:406-413 | A stretch of uniform code is the same stretch, step by step, in the buffered kernel |
| `WorkGroups.SlotsAtBarriers` | LoopInserter.cpp:1213-1308 | From launch on, in every execution, whenever the group stands at a barrier every item's slot of a saved value holds the item's register |
| `Coarsening.LoopsMatchSchedule` | LoopInserter.cpp:450-477 | From behind a barrier on, the looped kernel's memory is that of one flat-order, race-free execution of the original, and its thread passes the same barriers |
| `Coarsening.LoopsAreCoarsened` | LoopInserter.cpp:456-477 | What the items do interval by interval in the buffered kernel is, in the original, an execution in flat order that passes the same barriers |
| `Coarsening.LoopedIsPrivate` | LoopInserter.cpp:456-477 | Over a whole run, one register file leaves the same memory as a register file per item |
| `Coarsening.VisitsAreSchedule` | LoopInserter.cpp:456-477 | The visits of the items one after the other are a schedule of the group from barrier to barrier |
| `Coarsening.IntervalIsLoop` | LoopInserter.cpp:456-477 | One interval on one register file: the thread comes to the same barrier, leaves the same memory and holds the same uniform values |
| `Coarsening.MetIsOk` | LoopInserter.cpp:406-413 | Of uniform code it is enough that item 0 comes to the barrier: without races all items go with it and only a single item stores |
| `Coarsening.TwoStoresRace` | LoopInserter.cpp:406-413 | Two items that store in one stretch of uniform code store to one cell, which is a race |
| `Coarsening.FormKept` | LoopInserter.cpp:1039-1143 | The SSA form and the shape of the regions outlast all edits of context buffering |
| `Interleaving.LoopsRefineInterleavings` | LoopInserter.cpp:450-477 | Any execution of the group agrees, barrier by barrier, with the race-free flat-order one, is never longer and never stuck before the end |
| `Interleaving.RaceFreeIsOnTrack` | LoopInserter.cpp:450-477 | Along a race-free schedule each item stands where its steps on its own would have led it, and memory holds what the items have written |
| `Interleaving.OthersFollow` | LoopInserter.cpp:450-477 | Every schedule is race-free and within a complete race-free one |
| `Interleaving.CompleteSchedulesAgree` | LoopInserter.cpp:450-477 | Two complete schedules, one of them race-free, end in the same state |
| `Interleaving.NoLongerSchedule` | LoopInserter.cpp:450-477 | No schedule is longer than a complete race-free one, so that intervals end |
| `WorkItems.StepFootprint` | LoopInserter.cpp:450-477 | A step changes memory only where it writes and depends on it only where it reads |
| `SharedRegisters.LoopMatchesItems` | LoopInserter.cpp:458-477 | If no region reads what another computes, the loop on one register file leaves the memory that the items leave with their own, and agrees with them on the uniform registers |
| `UniformStretch.GoTogether` | LoopInserter.cpp:406-413 | Where one item goes through uniform code, any other goes that stands with it and agrees on uniform values |
| `UniformStretch.StretchShared` | LoopInserter.cpp:406-413 | One pass of the thread through uniform code leaves the memory that all items leave one after the other |
| `SharedRegisters.VisitShared` | LoopInserter.cpp:789-979 | One visit with an item's own registers and one with the shared ones go the same way, leave the region at the same step and write the same |
| `SharedRegisters.ReadsAreDefined` | LoopInserter.cpp:789-979 | In SSA form a region of one entry reads, of its own values, only what the same visit has defined |
| `SharedRegisters.VisitPassesDominator` | LoopInserter.cpp:789-979 | A visit passes every block of the region that dominates where it has come |
| `SharedRegisters.SsaStays` | LoopInserter.cpp:1271-1355 | A context store or reload keeps the SSA form |
| `Contexts.StepBack` | LoopInserter.cpp:1271-1355 | After one context store or reload, every step is the step of the kernel before, or runs the inserted instruction and goes unnoticed |
| `Contexts.HoldsAfterStep` | LoopInserter.cpp:1271-1308 | Once every definition of a value is saved, the item's slot keeps up with its register |
| `Contexts.SaveMakesSaved` | LoopInserter.cpp:1271-1308 | The store behind the definition makes the value saved |
| `Contexts.SavedStays` | LoopInserter.cpp:1271-1355 | Later edits leave what is saved so |
| `Contexts.InvAfterStep` | LoopInserter.cpp:1310-1355 | The reloaded register equals the buffered one whenever its user runs, as an invariant of the item's steps |
| `Contexts.InvBesideStep` | LoopInserter.cpp:1310-1355 | Steps of other items do not disturb that |
| `ContextBuffering.StepBefore` | LoopInserter.cpp:1213-1355 | The same for any number of edits |
| `ContextBuffering.BufferedRunsAreOriginalRuns` | LoopInserter.cpp:1213-1355 | Every schedule of the buffered kernel is a schedule of the original with the inserted steps left out, in flat order if it was |
| `ContextBuffering.SlotsHold` | LoopInserter.cpp:1213-1308 | However the items are interleaved, slot w of a buffered value is item w's register |
| `ContextBuffering.ReloadYieldsRegister` | LoopInserter.cpp:1310-1355 | A reload yields what the item has computed last |
| `ContextBuffering.FreshInvs` | LoopInserter.cpp:1213-1355 | An item that begins stands for itself in the original |
| `ContextPass.CondBarrier.BufferContexts` | LoopInserter.cpp:444-455 | Afterwards no looped region reads what another computes other than by PHIs, stores to the variables of broken PHIs included; all such values are saved, and the kernel is the original changed by legitimate edits inside looped regions; gives up exactly if such a value comes to a PHI along two edges |
| `ContextPass.CondBarrier.DeployRegionContext` | LoopInserter.cpp:1039-1143 | The values that a region defines and other looped regions read are saved and no longer read across; all other values and their uses stay |
| `ContextPass.CondBarrier.PerformContextBuffering` | LoopInserter.cpp:1213-1269 | One value: saved, no longer read across regions, nothing else touched; success exactly if no PHI receives it twice |
| `ContextPass.CondBarrier.DoContextStore` | LoopInserter.cpp:1271-1308 | The store goes right behind the definition |
| `ContextPass.CondBarrier.DoContextReload` | LoopInserter.cpp:1310-1355 | The reload goes in front of the user, or to the end of the block a PHI receives the value from, and the user reads the new register |
| `ContextPass.CondBarrier.ReloadInBlock` | LoopInserter.cpp:1226-1266 | All uses of the value in a block are reloaded, but for its own context store; uses in other blocks stay as they are |
| `ContextPass.WorkListIsCross` | LoopInserter.cpp:1060-1118 | What is chosen for a region is exactly what the region defines and another looped region reads |
| `ContextPass.CrossShrinks` | LoopInserter.cpp:1213-1355 | No edit makes one looped region read what another computes |
| `ContextPass.BufferedIsNotCross` | LoopInserter.cpp:1213-1269 | A value that looped blocks read only to save it is not read across regions |
| `FlatIndex.FlatIdxIsBijection` | LoopInserter.cpp:425-433 | In 32 bits, the flat index is a bijection from local ids onto 0 .. Flat3DSize - 1 |
| `FlatIndex.FlatIdxIsPosition` | context_spill.cpp:345-351 | No intermediate result wraps when the number of items fits, and the index is the row-major position |
| `FlatIndex.PositionIsBijection` | context_spill.cpp:345-351 | Positions number the local ids, both ways |
| `FlatIndex.PositionOrder` | LoopInserter.cpp:469-474 | The order of positions is that of nested loops with dimension 0 innermost |
| `FlatIndex.GlobalIdIsOnto` | LoopInserter.cpp:100-109 | The expansion of get_global_id reaches every id from the offset on up to the global size (section 3.2 of OpenCL 1.2) |
| `FlatIndex.GlobalIdIsOneToOne` | LoopInserter.cpp:100-109 | Group and local id are determined by the global id, which stays within these bounds |
| `LoopNest.LoopInserter.BuildDWLoopOverRegion` | LoopInserter.cpp:789-979 | The four new blocks and every old edge are as a bottom-tested loop around the region demands, predecessors that the entry dominates being left alone |
| `LoopNest.LoopInserter.RedirectPredecessors` | LoopInserter.cpp:834-845 | Exactly the predecessors that the entry does not dominate lead to the preheader |
| `LoopNest.LoopInserter.BuildNest` | LoopInserter.cpp:469-474 | Three calls give a nest of three loops, with every successor of every block stated; outside blocks lead to the outermost preheader, unless the entry dominates them; it is entered at its top only exactly if the entry dominates no predecessor outside the region that can be reached |
| `LoopNest.ReachedStill` | LoopInserter.cpp:789-979 | What could be reached can be reached with the nest, and what an old block did not dominate it does not dominate now |
| `LoopNest.ReachedBefore` | LoopInserter.cpp:789-979 | An old block that can be reached with the nest could be reached before |
| `LoopNest.VisitsAreInOrder` | LoopInserter.cpp:469-474 | Along every run that begins at a block that can be reached, each round through the nest visits the region under the local ids in flat order |
| `LoopNest.NestIsComplete` | LoopInserter.cpp:789-979 | Outside the nest all rounds are complete; in the region the induction variables are the ids of the current visit |
| `LoopNest.OncePerItemIff` | LoopInserter.cpp:789-979 | A round has one visit per item exactly when no local size is 0 |
| `LoopNest.InOrderIff` | LoopInserter.cpp:834-845 | All runs of the nest from blocks that can be reached visit the region in order exactly if it is entered at its top only |
| `LoopNest.PastTheNest` | LoopInserter.cpp:836-839 | A dominated predecessor outside gives a run into the region that has begun no visit |
| `LoopNest.HeadedIsDominated` | LoopInserter.cpp:836-839 | A graph with such a predecessor: the latch of a loop that the region's entry heads |
| `LoopNest.EntryDominates` | LoopInserter.cpp:836-839 | Inside a region with one entry, the entry dominates every block |
| `LoopNest.AroundAll` | LoopInserter.cpp:469-474 | For the second and third loop no predecessor is dominated |
| `LoopNest.StageStep` | LoopInserter.cpp:789-979 | How a step of control changes the number of visits made, stage by stage of the nest |
| `Regions.AddPredecessors` | LoopInserter.cpp:135-147 | Pushes exactly the predecessors, those of contiguous barriers looked up through the barriers; terminates without a cycle of barriers |
| `Regions.CreateRegionBeforeBarrier` | LoopInserter.cpp:149-208 | The region is exactly the non-barrier blocks that reach the barrier, or one contiguous above it, without crossing a barrier; its entry lies in it and follows a barrier; there is none exactly if nothing lies there or no barrier leads to it |
| `Regions.BetweenBarriers` | LoopInserter.cpp:149-208 | What a run passes between two barriers lies in the region of the later one |
| `Regions.SearchDone` | LoopInserter.cpp:166-186 | The worklist, when empty, has found all of the region, and a barrier leading to it if there is one |
| `Gathering.NextBarrier` | LoopInserter.cpp:248-280 | Every unvisited predecessor of the entry is taken next, pushed or dropped; one is dropped exactly if there are two outside the loop |
| `Gathering.GatherParallelRegions` | LoopInserter.cpp:210-285 | Terminates; every region gathered is the region before a barrier; every exit and every predecessor of an entry has its region, has none, or was dropped, which takes an entry with two predecessors outside its loop; nothing is dropped on a graph where no block behind a barrier has two; reports a predecessor that is no barrier exactly if some entry has one; the result is that of a run of the gathering, barrier by barrier |
| `Gathering.RegionsCover` | LoopInserter.cpp:210-285 | If every exit and every predecessor of an entry has been taken and barriers lead to each region at one block, every reachable block that reaches an exit lies in a gathered region |
| `GatheringRuns.GatherAll` | LoopInserter.cpp:210-285 | Under conditions on the graph alone, the gathered regions cover every block on a way to an exit; where barriers and regions are one to one they come once each and do not overlap |
| `GatheringRuns.RegionsLieApart` | LoopInserter.cpp:210-285 | Where no barrier leads to two blocks and no block lies before two barriers, no region is gathered twice and none overlap, in whatever order predecessors are taken |
| `GatheringRuns.RunsInOrder` | LoopInserter.cpp:210-285 | Then no barrier comes up twice along any run of the gathering |
| `GatheringRuns.EnteredAtEntry` | LoopInserter.cpp:149-208 | A region that barriers lead to at one block is entered there, from barriers, and nowhere else |
| `GatheringFaults.OneRegionIsLost` | LoopInserter.cpp:251-270 | A graph on which one of two regions is missed in whatever order predecessors are taken: its entry has two predecessors outside its loop |
| `GatheringFaults.RegionComesTwice` | LoopInserter.cpp:232-280 | A graph and a run of the gathering on which one region is formed twice: a barrier leads to two blocks |
| `Gathering.BarrierCovered` | LoopInserter.cpp:232-284 | Then every barrier on the way to an exit with something before it has its region or lies contiguous above one that has |
| `Gathering.LatchIsStray` | LoopInserter.cpp:251-270 | A graph on which an entry has a predecessor that is no barrier: it heads a loop in its region |
| `Graphs.DominatesQuery` | BarrierTailReplication.cpp:111-115 | Dominance over paths can be decided |
| `Cloning.Round.EdgeProjects` | BarrierTailReplication.cpp:185-199 | Every edge of the enlarged graph stands for an edge of the graph before |
| `Cloning.Round.DominatorOnWalk` | BarrierTailReplication.cpp:95-138 | A dominator of a block, or its copy for a copy, is on every walk to the block after a replication |
| `Cloning.Round.StaysReducible` | BarrierTailReplication.cpp:95-138 | A replication keeps the graph reducible |
| `Cloning.Round.KeepsGood` | BarrierTailReplication.cpp:95-138 | A block that dominates all that forward edges reach from it still does, and so does its copy |
| `Cloning.Round.CopiesCovered` | BarrierTailReplication.cpp:95-138 | The dominator below which code is replicated dominates all that the copy leads to |
| `Cloning.Round.ReachableGrows` | BarrierTailReplication.cpp:95-138 | Each replication makes strictly more blocks reachable and loses none |
| `Cloning.Round.PathsKept` | BarrierTailReplication.cpp:185-199 | The number of forward paths out of a block is that of the block it stands for |
| `Cloning.ReachableBound` | BarrierTailReplication.cpp:95-138 | The number of forward paths from the entry bounds the reachable blocks, so that replication ends |
| `TailReplication.ReplicationPreservesMeaning` | BarrierTailReplication.cpp:185-279 | For any meaning of the blocks, the rewritten function and the source run in lockstep through equal states, forwards and at the exits |
| `Replicas.ReplicationPreservesRuns` | BarrierTailReplication.cpp:185-279 | With the instructions copied, names, operands and PHI entries renamed, round after round: any schedule of n items gives the source's memory and leaves the items at the same instructions, up to copies |
| `Survival.NoExecutionIsLost` | BarrierTailReplication.cpp:62-138 | If in the source two ways from a barrier that meet do so below a block on both of them, the executions with barriers before and after any series of rounds are the same |
| `Survival.RoundLosesNone` | BarrierTailReplication.cpp:95-138 | The same for one round, from any barrier on |
| `Meetings.SameVersion` | BarrierTailReplication.cpp:95-138 | Ways from one barrier that end at one block before a round end at one block after it |
| `Meetings.MeetBelowStays` | BarrierTailReplication.cpp:95-138 | After a round, ways from a barrier or from its copy still meet only below a block on both |
| `Meetings.RoundsMeetBelow` | BarrierTailReplication.cpp:62-138 | And so after any series of rounds |
| `Diverging.ExecutionIsLost` | BarrierTailReplication.cpp:104-124 | A kernel, two rounds of the pass below a barrier and an execution of the kernel that is none of the result; ways from that barrier meet where no block on both dominates |
| `Diverging.MeetBelowTheJoin` | BarrierTailReplication.cpp:104-124 | The condition holds of a graph with an edge for the pass to turn, a barrier that can be passed over, and branches behind the join |
| `Replicas.ReplicationPreservesExecutions` | BarrierTailReplication.cpp:62-68 | Every execution with barriers of the result is an execution of the source, without any condition |
| `Replicas.ExecutionMirrors` | BarrierTailReplication.cpp:185-279 | One replication: an execution of the source is one of the result exactly if, at every barrier, all items have last come into the copied blocks by the turned edge or none has, as their walks through the source tell |
| `Replicas.SidesFollow` | BarrierTailReplication.cpp:116-124 | By which edge an item has last come into the copied blocks, told from its walk through the source, says whether it stands among the copies |
| `Replicas.BarrierIsParted` | BarrierTailReplication.cpp:116-124 | Two items that come to one barrier by two edges that have both been turned stand at two barriers |
| `Replicas.RunMirrors` | BarrierTailReplication.cpp:185-279 | One replication keeps all schedules |
| `Replicas.StepMirrors` | BarrierTailReplication.cpp:219-279 | A step with copies is the step without them |
| `Replicas.CurrentEnters` | BarrierTailReplication.cpp:219-279 | No definition that dominates a block has its version on the other side of the copies when control comes there |
| `Replicas.EntryFor` | BarrierTailReplication.cpp:239-259 | After renaming and adding, a PHI has for each edge into its block the entry of the old edge, in the right version |
| `Replicas.SsaReplicated` | BarrierTailReplication.cpp:219-279 | The kernel with copies is in SSA form |
| `Replicas.CfgReplicated` | BarrierTailReplication.cpp:185-199 | Its control-flow graph is the one that the pass on graphs makes |
| `Replicas.NewNamesOk` | BarrierTailReplication.cpp:232-236 | Fresh names for all copied definitions can always be had |
| `Replicas.CleanedRuns` | BarrierTailReplication.cpp:50-57 | Removing PHI entries for blocks that are no predecessors changes no run |
| `TailReplication.SecondEdgeTurns` | BarrierTailReplication.cpp:104-124 | After a join has been copied for one edge below a barrier, every other such edge still calls for a copy |
| `TailReplication.DivergingJoin` | BarrierTailReplication.cpp:104-124 | A graph on which two edges below a barrier are turned to copies of one join |
| `TailReplication.RoundReachesMore` | BarrierTailReplication.cpp:95-138 | Each round adds reachable blocks within a bound that no round changes |
| `TailReplication.AroundNewBarrier` | BarrierTailReplication.cpp:70-93 | Settling a barrier met for the first time changes no edge of a visited block and undoes no settled barrier |
| `TailReplication.RoundExtends` | BarrierTailReplication.cpp:95-138 | What one round keeps: edges elsewhere, dominance, forward reachability, settled barriers, path counts |
| `TailReplication.BarrierTailReplication.ProcessFunction` | BarrierTailReplication.cpp:62-68 | Afterwards every reachable barrier, copies included, dominates each block that forward edges reach from it; the result comes from the source by a series of replications, each below a barrier, that is, by rounds of which `Survival` speaks; the flag tells exactly whether the graph changed |
| `TailReplication.OneBarrierBefore` | BarrierTailReplication.cpp:62-68 | After the pass at most one barrier leads to a block by a forward edge |
| `TailReplication.BarrierTailReplication.FindBarriersDFS` | BarrierTailReplication.cpp:70-93 | Terminates although the graph grows; visits are closed under successors and all barriers visited are settled |
| `TailReplication.BarrierTailReplication.ReplicateJoinedSubgraphs` | BarrierTailReplication.cpp:95-138 | Afterwards the dominator dominates all that forward edges reach from the subgraph's entry; terminates; changed exactly if more blocks are reachable |
| `TailReplication.BarrierTailReplication.ReplicateBelowSuccessor` | BarrierTailReplication.cpp:104-134 | The same for one successor, whichever branch is taken |
| `TailReplication.BarrierTailReplication.TurnToCopy` | BarrierTailReplication.cpp:116-124 | Turning one edge to the copy changes nothing else and settles what it leads to |
| `TailReplication.BarrierTailReplication.ReplicateSubgraph` | BarrierTailReplication.cpp:185-199 | The copies are exactly of what forward edges reach, connected like the originals, nothing leading to them yet |
| `TailReplication.BarrierTailReplication.FindSubgraph` | BarrierTailReplication.cpp:201-217 | Appends without repetition exactly what non-back edges reach; terminates on any graph |
| `TailReplication.SubgraphIsForwardSet` | BarrierTailReplication.cpp:201-217 | The subgraph found is the set reached along forward edges |
| `TailReplication.BarrierTailReplication.ReplicateBasicBlocks` | BarrierTailReplication.cpp:219-262 | One new block per given block, recorded both ways, references unchanged |
| `TailReplication.BarrierTailReplication.UpdateReferences` | BarrierTailReplication.cpp:264-279 | References between copied blocks go to the copies, all others stay |
| `PhiCleanup.PhiBlock.CleanupPHIs` | BarrierTailReplication.cpp:140-183 | Terminates, restarts included; tells by its flag whether it changed anything; what has a live entry keeps its live entries in order. PHIs before the last one that had a single stale entry and nothing else are left with their live entries, or go; each behind it is left as one scan leaves it |
| `PhiCleanup.CleanupIsCompleteIff` | BarrierTailReplication.cpp:140-186 | Only live entries are left exactly unless, behind that PHI, the first two entries of some PHI are both stale |
| `PhiCleanup.PhiBlock.ScanPhi` | BarrierTailReplication.cpp:153-175 | The scan with its restart at index 1 computes the function `Scanned` |
| `PhiCleanup.ScanIsCompleteIff` | BarrierTailReplication.cpp:163-175 | A scan leaves only live entries exactly unless the first two entries are stale |
| `PhiCleanup.ScanKeepsLive` | BarrierTailReplication.cpp:163-175 | A scan loses no live entry |
| `PhiCleanup.StaleEntryStays` | BarrierTailReplication.cpp:163-175 | A PHI with two stale entries keeps the second |
| `PhiElimination.BrokenRunsAreOriginalRuns` | break_phi_to_alloca.cpp:240-285 | With any PHIs broken one after the other, every interleaved run is a run of the original with equal values in all surviving names and memory |
| `PhiElimination.BreakStep` | break_phi_to_alloca.cpp:257-285 | One PHI: a step is the load, a store, or the old step; covers PHIs that swap, feed themselves or sit on critical edges |
| `PhiElimination.BeginsLinked` | break_phi_to_alloca.cpp:240-285 | A group that begins is in lockstep with itself |
| `PhiElimination.BreakPhi.BreakPhi2Alloca` | break_phi_to_alloca.cpp:240-285 | Terminates with the unbreakable PHIs, each in its block, and no others; none of the PHIs broken is unbreakable, and the kernel is the original with those broken; what is left has what context buffering asks for, whatever the regions are: SSA names, and variables that no region reads from another as registers |
| `PhiElimination.PhisLeft` | break_phi_to_alloca.cpp:257-285 | Breaking a PHI takes that PHI from its block and no other PHI from any |
| `PhiElimination.BreakPhi.BreakOne` | break_phi_to_alloca.cpp:257-285 | One round of the loop breaks exactly the given PHI |
| `PhiElimination.BreakPhi.StoreIncoming` | break_phi_to_alloca.cpp:263-272 | Each incoming value is stored at the end of the block it comes from, and nothing else is |
| `PhiElimination.PhiFormStays` | break_phi_to_alloca.cpp:240-285 | Breaking one PHI leaves the others fit to be broken |
| `PhiElimination.BrokenKeepsSsa` | break_phi_to_alloca.cpp:240-285 | Breaking a PHI leaves every name with one definition |
| `PhiElimination.VariablesStay` | break_phi_to_alloca.cpp:240-285 | The variable of a broken PHI names no register any more |
| `HiveOff.HiveOffBarrier.RunOnFunction` | hive_off_barrier.cpp:34-81 | Every barrier alone in its block, entry and exits such blocks, the same runs but for barriers added there |
| `HiveOff.HiveOffBarrier.ProcessBarriers` | hive_off_barrier.cpp:97-131 | In whatever order barriers are taken, each ends up alone; runs stay the same |
| `HiveOff.HiveOffBarrier.SplitAround` | hive_off_barrier.cpp:97-131 | Splitting around one barrier leaves alone those that are |
| `HiveOff.HiveOffBarrier.HiveOffEntry` | hive_off_barrier.cpp:34-58 | A barrier block on top of the function |
| `HiveOff.HiveOffBarrier.HiveOffExits` | hive_off_barrier.cpp:34-81 | A barrier block at every exit; terminates |
| `HiveOff.SplitKeepsRuns` | hive_off_barrier.cpp:134-149 | Splitting a block anywhere gives the same instruction sequences, for finished runs and for runs cut off |
| `HiveOff.BarrierKeepsRuns` | hive_off_barrier.cpp:34-81 | Adding a barrier changes runs by that barrier only |
| `HiveOff.SameRunsTrans` | hive_off_barrier.cpp:34-131 | These changes add up |
| `ConstantExprs.BreakConstantGEPs.RunOnFunction` | BreakConstantGEPs.cpp:235-319 | Along every path all old names hold the same; succeeds exactly if no expression that cannot become an instruction has an address computation or bit cast at any depth, and then no operand has one at any depth; the old instructions stay in their order, operands without one as they were, and the others become new names; terminates |
| `ConstantExprs.HasConstantGepIff` | BreakConstantGEPs.cpp:66-82 | The search finds exactly the operands that have an address computation or a bit cast at any depth |
| `ConstantExprs.ConvertibleIff` | BreakConstantGEPs.cpp:66-223 | All that is to be converted can be, exactly if no expression without an instruction has an address computation or a bit cast at any depth |
| `ConstantExprs.ConversionKeepsRest` | BreakConstantGEPs.cpp:272-317 | A conversion changes the operands that it converts and nothing else of what was there |
| `ConstantExprs.BreakConstantGEPs.ConvertOperand` | BreakConstantGEPs.cpp:303-316 | Replaces the operand, wherever the instruction has it, and shrinks the expressions left |
| `ConstantExprs.BreakConstantGEPs.ConvertIncoming` | BreakConstantGEPs.cpp:282-301 | The same for a PHI, at the end of the block the value comes from, for all later entries of that block |
| `ConstantExprs.BreakConstantGEPs.CollectWork` | BreakConstantGEPs.cpp:247-266 | Finds every instruction with such an operand |
| `ConstantExprs.BreakConstantGEPs.Process` | BreakConstantGEPs.cpp:272-317 | One instruction from the worklist |
| `ConstantExprs.UserPreserved` | BreakConstantGEPs.cpp:99-223 | Converting an operand in front of its user keeps all values along all paths |
| `ConstantExprs.PhiPreserved` | BreakConstantGEPs.cpp:282-301 | So does converting an incoming value at the end of its block |
| `ConstantExprs.ConversionShrinks` | BreakConstantGEPs.cpp:235-319 | The measure by which the worklist ends |
| `ConstantExprs.ConversionConvertible` | BreakConstantGEPs.cpp:131-223 | A conversion leaves exactly those conversions possible that were |
| `Slices.FindSlice` | break_phi_to_alloca.cpp:61-90 | The scan loop ends with exactly those results to which a chain of operands computed in the block leads from the terminator; so it has the terminator's operands and is closed under operands in the block |
| `Slices.LeastIsByChains` | break_phi_to_alloca.cpp:61-90 | The least closed set is what chains of operands lead to |
| `Slices.CollectUnbreakablePHIs` | break_phi_to_alloca.cpp:167-237 | With the analysis of `ControlDependence.ControlDep`: exactly the PHIs to which a chain of operands leads from a branch that the control of some barrier, in another block, depends on in one step or more |
| `Slices.CollectOnFunction` | break_phi_to_alloca.cpp:167-237 | The analysis and then the collection: the same, by the reflexive-transitive closure of the path-based dependences |
| `Slices.Sinking.SplitAndSinkFromTo` | break_phi_to_alloca.cpp:52-118 | What a chain of operands leads to from the branch stays, the rest moves in order, PHIs as loads of their variables, and nothing that stays uses what moved |
| `Slices.SinkPreservesIff` | break_phi_to_alloca.cpp:92-118 | Sinking preserves the block's effect, whatever instructions mean and PHIs receive, exactly when no conflicting accesses change places; always for code without memory effects |
| `Slices.NothingLeftUsesMoved` | break_phi_to_alloca.cpp:92-118 | No instruction left above uses one that was moved |
| `ControlDependence.DefinitionsAgreeIff` | ControlDependence.cpp:53-77 | Frontiers and quadratic search agree on different blocks exactly when no exit-reaching block has a successor that reaches none |
| `ControlDependence.EdgeIntoTrap` | ControlDependence.cpp:53-77 | The edge on which they differ otherwise |
| `ControlDependence.NeedsTwoSuccessors` | ControlDependence.cpp:54-57 | The shortcut for blocks with fewer than two successors loses nothing |
| `ControlDependence.NotOnItself` | ControlDependence.cpp:62-63 | The search never has a block depend on itself |
| `ControlDependence.TreeFrontierIs` | control_dependence.cpp:88-118 | The recursion over the tree characterises the path-based frontier |
| `ControlDependence.FrontierFromKids` | control_dependence.cpp:94-117 | A node's frontier from its predecessors and its children's frontiers |
| `ControlDependence.DependenceSearch.RunOnFunction` | ControlDependence.cpp:41-79 | Both maps hold exactly the dependences by definition |
| `ControlDependence.DependenceSearch.PostDominatesSuccessor` | ControlDependence.cpp:64-69 | Finds whether the block post-dominates some successor |
| `ControlDependence.ControlDep.Calculate` | control_dependence.cpp:88-118 | Every frontier filled in is that of its block, for the whole subtree |
| `ControlDependence.ControlDep.RunOnFunction` | control_dependence.cpp:22-57 | Dependence is exactly membership in the path-based frontier; iterated dependence is exactly its reflexive-transitive closure |
| `Digraphs.DirectedDFS.Dfs` | control_dependence.h:101-135 | Marks what is reachable and not marked yet; terminates on cycles |
| `Digraphs.DirectedDFS.constructor` | control_dependence.h:129-133 | Marks exactly what is reachable from the source node |
| `Digraphs.TransitiveClosure.ComputeTC` | control_dependence.h:154-161 | A search per node gives reachability by zero or more edges |
| `Digraphs.Digraph.AddEdge` | control_dependence.h:61-70 | Appends one arc |
| `Digraphs.FromNothing` | control_dependence.h:101-135 | A search without marks marks exactly what is reachable |
| `Invariance.ThreadInvarianceImpl.Build` | ThreadInvariance.cpp:649-664 | Terminates with every instruction at what its rule asks for, stated by the order alone: under the standard rule the greatest lower bound of the operands, at a branch its condition; no other such values lie higher; and each value is the greatest lower bound of the constants, arguments and fixed results to which walks along operands lead |
| `InvarianceRuns.InvariantMeansEqual` | ThreadInvariance.cpp:308-497 | Run with two items that differ on one local axis only: as long as the branches met are invariant on that axis they go the same way, and every register that is invariant holds the same in both |
| `InvarianceRuns.SameComputed` | ThreadInvariance.cpp:308-497 | One instruction that is invariant on the axis, from registers that agree where invariant |
| `InvarianceRuns.IdsAreRight` | ThreadInvariance.cpp:260-268 | What the analysis takes as given of a call for a local id, varying on its own axis only, is right |
| `Invariance.GreatestMeetsWalks` | ThreadInvariance.cpp:484-497 | The greatest solution is the meet over all walks along operands |
| `Invariance.TransferByOperands` | ThreadInvariance.cpp:473-497 | The transfer function is what the rule asks for, by the order alone |
| `Invariance.ThreadInvarianceImpl.AnalyzeBlock` | ThreadInvariance.cpp:186-192 | After a block, all that does not wait is settled; values only descend |
| `Invariance.ThreadInvarianceImpl.Visit` | ThreadInvariance.cpp:588-637 | One update; if the value is new, exactly the blocks with users (its own only for a PHI) and at the end of a block its dependent blocks join the queue |
| `Invariance.UpdateSettles` | ThreadInvariance.cpp:601-614 | Users further down in the same block need not be enqueued |
| `Invariance.UpdateLowers` | ThreadInvariance.cpp:484-497 | An update descends in the meet order |
| `Invariance.TransferMonotone` | ThreadInvariance.cpp:484-497 | Transfer functions are monotone |
| `Invariance.MeetIsGreatestLowerBound` | ThreadInvariance.cpp:55-63 | meet is the greatest lower bound of its order |
| `Invariance.JoinIsLeastUpperBound` | ThreadInvariance.cpp:80-89 | join is the least upper bound of another order, with what is unknown at the bottom |
| `Triplets.InvariantMeansEqual` | triplet_invariance_analysis.cpp:215-484 | A value with invariant component k is equal for two items that differ in local id k only, if all dimensions are constant |
| `Triplets.InvariantIffEqual` | triplet_invariance_analysis.cpp:215-484 | For constant dimensions, component k is invariant exactly if the values are equal for all such items whatever the operations mean: nothing is missed |
| `Triplets.TripletIsByWalks` | triplet_invariance_analysis.cpp:215-484 | A component is invariant exactly if no walk along operands leads to where that local id comes in |
| `Triplets.UniformMeansEqual` | triplet_invariance_analysis.cpp:662-672 | A uniform value is equal across the group |
| `Triplets.SoundIffFixedDims` | triplet_invariance_analysis.cpp:215-484 | The analysis can be relied on exactly if every id is asked for a constant dimension |
| `Triplets.UnionInvariantIff` | triplet_invariance_analysis.h:75-98 | A union is invariant exactly where both are |
| `Triplets.TripletInvarianceAnalysis.GetOrCalculateTriplet` | triplet_invariance_analysis.cpp:215-484 | Component k is non-invariant exactly if a walk along operands (of a Gep with constant indices along its pointer) leads to a PHI or to an id call for dimension k, and invariant otherwise; the cache holds such triplets only |
| `Triplets.TripletInvarianceAnalysis.IsUniform` | triplet_invariance_analysis.cpp:662-672 | True exactly if no such walk exists for any of the three dimensions |

## Left out

- LLVM itself: dominator, post-dominator, loop and region trees, verification of the IR, pass registration; their path-based meaning is assumed.
- Kernel metadata, bitcode, linking and inlining, and the name tables of `OpenClAl.cpp`: input and output, and lookup by name.
- Names, alignment and debug output.
- `LoopInserter.cpp` also moves allocas to the entry, privatises local memory, gives variables without a value of their own an address-only context, and chooses trivial or uniform regions to spare them their loop: the model has registers and a shared memory, and the looped regions are any that are handed over.
- An instruction that uses a value twice gets a second, dead reload in the source; the model reloads once per user.
- `OneThread.OneThreadIsEnough`: its latch and header are part of the thread; the built ones are those of `BuiltCode.BuiltCodeIsEnough`.
- `OneThread.ThreadIterates`: likewise.
- `WorkGroups.CoarseningIsCorrect`: likewise; a region is entered n times from any barrier.
- `NestCode.PlaceNest`: a call for a local id becomes a copy of the induction variable in the same register, where the source replaces the uses of the call; calls for the local size are constants. The slots are addressed by the flat index as `NestThread.ItemOf` computes it, not by instructions at the region's entry.
- `BuiltCode.BuiltCodeIsEnough`: one way only; a dominated predecessor outside a region does no harm on a kernel whose items never take its edge, so that the condition on the graph is not necessary for a single kernel. For all runs of a nest it is (`LoopNest.InOrderIff`).
- `Gathering.RegionsCover`: one direction only; a barrier that was dropped may still be found by another way, so that a drop does not mean a gap.
- `context_spill.cpp` rewrites uses to loads and inserts stores by the scheme that `ContextPass` models; only its addressing is here.
- `TailReplication.ReplicationPreservesMeaning`: a copied block means what its origin means, by definition; registers and PHIs are the matter of `Replicas.ReplicationPreservesRuns`.
- `TailReplication.BarrierTailReplication.ReplicateBasicBlocks`: copies blocks and edges; the instructions and PHI entries that go with them are `Replicas.Replicated`, a function and not a loop. When in the course of copying an operand of a new PHI entry is looked up is not part of it.
- `TailReplication.BarrierTailReplication.UpdateReferences`: the same for the operands.
- `Replicas.CleanedRuns`: takes what is left of the PHIs as a condition; `PhiCleanup` has lists of entries with values of its own, and that its result meets the condition is not shown.
- `Slices.Sinking.SplitAndSinkFromTo`: the stores that the predecessors make for a PHI that moves are what the loads are taken to read; they are not inserted.
- Reverse control dependence uses LLVM's dominance frontiers and would repeat the closure.
- `InvarianceRuns.InvariantMeansEqual`: items that part at a branch that is not invariant are not followed any further; what a PHI below holds is a matter of its control part, which is left out.
- `ThreadInvariance.cpp`: vector lanes, base pointers, allocas, stores and atomics, and the control part of PHIs whose blocks are not comparable by dominance.
- Triplets: a call of some other function without arguments has a triplet that the source takes from an empty list; here it is invariant.
- Triplets: allocas and loads, the colouring of cycles, the marking of loop headers and latches. PHIs count as non-invariant, as in loops.
- `break_phi_to_alloca.cpp`: `SplitAndSink` chooses its blocks like `Slices.CollectUnbreakablePHIs`.
- Passes that place barriers by heuristics (`LoopBarriers.cpp`, `ImplicitLoopBarriers.cpp`, `ImplicitConditionalBarriers.cpp`, `ImplicitCdgBarriers.cpp`, `IsolateRegions.cpp`, `split_bb_at_condbr.cpp`): their result is a condition on the graph.
- Invoke instructions, exception edges, and code that is switched off.
