# Communication benchmarks: halo exchange, thread synchronisation and message rate

The repository measures communication on supercomputers: `cartex` exchanges halos of a periodic
three-dimensional grid between ranks and threads, `p2p` measures message rates, and both rest on a
thread pool, spin barriers, a synchronised timing loop and streaming statistics.  This project
models that logic in Dafny and proves what the benchmarks rely on.

The centre is the staged halo exchange on the CPU path.

- `Grid`, `GridOrder`, `Blocks`, `Layouts` and `Decomposition` compute the block decomposition
  over ranks and threads, with wrap-around neighbours.
- `Regions` and `Packing` hold the packing loops over flat arrays; `Transports` compares them with
  MPI datatypes and Tausch index lists.
- `StagedExchange` proves that three one-dimensional stages are a full exchange when no halo is
  wider than a block; `RepeatedExchange` gives the exact number of rounds for wider halos.
- `InPlace` says when a stage may send from the field it receives into, and `InPlaceRuns` that
  exactly then such builds have the same runs as those that pack first.
- `MessagePassing` is a step system of processes that exchange messages over channels named by
  source, destination and tag, and `LockstepRuns` the runs in which all take a stage together.
  `OrderedRuns` proves that asynchrony does not matter where the messages of a channel are forced
  into one order, and `Overtaking` that everywhere else some run goes wrong.
  `Fields`, `Tags` and `HaloProgram` make the exchange of several fields one of its programs, and
  `HaloOrder` says for which numbers of fields, threads and steps its messages are in order, so
  that every interleaving gives the lockstep result.  `Channels` ties the ranks and tags of that
  program to the neighbour records of the decomposition.
- `SelfCheck` and `CheckedRun` model the fields a run starts from and the check it makes, and
  prove that every run passes it; `CheckDetects` has what it finds when halos are too wide.
- `TagCollision` has the runs that go wrong when the tag code's factor is too small.

`Barrier`, `SyncLoop` and `ThreadPool` are step systems for any number of threads, with one step
per atomic access, critical section or notification.  `LoopTimes` says which elapsed times end a
timed loop, and `PoolCalls` what the pool does for the calls its client makes.  `PeerToPeer` models the self-reposting
callbacks.  `Statistics`, `HwTopo` and `MemoryView` (over `MixedRadix`) hold the arithmetic;
`Counting` holds counts and sums shared by the step systems.

`dafny verify dfyconfig.toml` covers all files, under Dafny's own time limit of 30 seconds a proof.

## What the code relies on

Where the code does not do what it is documented to do, the model follows the code:

- The tag code multiplies by a member described as the number of fields
  (cartex/src/runtime/mpi_comm/runtime.cpp:181-185) but initialised with the threads per rank
  (line 40).  `Tags.TagsInjectiveIff` gives the exact condition for distinct tags.  Tags that
  are not distinct do harm only if one message can overtake another: `Ordered` says of any two
  messages on one channel that the exchange itself forces their order, and
  `Overtaking.OrderedIff` that no run matches a receive with another's message if and only if
  this holds.  The asynchronous theorems hold under that condition.  It is met
  (`HaloOrder.OrderlyIsOrdered`) when there are no more fields than the factor, or when no
  dimension has more threads per rank than fields lie between two that share a tag; with the
  factor of the code, when there are no more fields than threads, when a run is one step, or when
  the threads divide the fields (`HaloOrder.OwnFactorOrderly`).  The timed steps are such runs of
  one step: barriers separate them (cartex/src/runtime/runtime.cpp:81-83).  The check step and
  the warm-up steps follow each other without (cartex/src/runtime/runtime.cpp:54-64, 102-108),
  and there one field more than threads is not met (`HaloOrder.OneFieldMore`);
  `TagCollision.WrongMessage` is a run in which a wait takes a wrong message.  What MPI then does
  with a message of another size is not part of this model.
- Halos wider than a block make the staged exchange copy stale halo cells.
  `RepeatedExchange.RoundsFullIff` gives the exact condition for any number of rounds.  The
  run's own check, where it is enabled, detects it: with two or more fields all domains pass
  after their first step if and only if the halos fit (`CheckedRun.CheckTellsFits`).
- The builds that send from the field (the datatypes, and z without packing) read it while halos
  are received.  `InPlaceRuns.InPlaceRunsIff` says when that makes no difference to any run.
- The datatype path offsets what it sends to the right by the wrong halo, and the Tausch boxes
  mix the two; this is harmless because all halos come from one option
  (cartex/src/runtime/runtime_inc.cpp:28).  `Transports.TransportsAgreeIff` gives the condition.
- The accumulator's maximum starts at the smallest positive number
  (include/ghexbench/accumulator.hpp:28); `Statistics.MaximumRightIff` says when it is right.
- A peer-to-peer run with zero repetitions still sends one message a slot
  (`PeerToPeer.ReportedIff`).

Assumptions: sequential consistency of the atomics, although the code uses relaxed exchanges;
messages on one channel do not overtake (section 3.5 of MPI 3.1); the numbering of ranks is one to
one, which is proved for the row-major numbering of section 7.2 of MPI 3.1; one thread calls the
pool's member functions; all threads call `repeat_for` with the same arguments; both peers run
the same number of threads, slots and repetitions.

## Model

| member | source | states |
|---|---|---|
| `RepeatedExchange.RoundsFullIff` | cartex/src/runtime/mpi_comm/runtime.cpp:408-482 | for every number of rounds k: k rounds fill every halo of every field if and only if the numbers of blocks the halos reach across along x, y and z, at least one each, exceed k together by no more than two |
| `RepeatedExchange.EnoughRounds` | cartex/src/runtime/mpi_comm/runtime.cpp:408-482 | that many rounds are a full exchange of cells of any type |
| `RepeatedExchange.TooFewRounds` | cartex/src/runtime/mpi_comm/runtime.cpp:408-482 | with fewer, the field with 0 inside and 1 in the halos is exchanged wrongly |
| `RepeatedExchange.RoundsAxes` | cartex/src/runtime/mpi_comm/runtime.cpp:408-482 | where k rounds bring a cell from: k moves along z, one along y in each round that finds it interior in z, one along x in each that finds it interior in both |
| `RepeatedExchange.CoversIff` | cartex/src/runtime/mpi_comm/runtime.cpp:408-482 | n moves along an axis reach the interior from everywhere if and only if no halo is wider than the next n blocks together, from any block |
| `RepeatedExchange.WalkIsWrapped` | cartex/src/decomposition/decomposition.cpp:225-238 | the interior cell so reached is the periodically wrapped one, however often the way goes round the grid |
| `RepeatedExchange.OneRound` | cartex/src/runtime/mpi_comm/runtime.cpp:408-482 | one round suffices if and only if no halo is wider than a block |
| `RepeatedExchange.StagedIsFullIff` | cartex/results/betzy/27_nodes/plots.md:94-97 | the documented claim, with its exact condition: three one-dimensional stages do the work of a 26-neighbour exchange for every field and every number of steps if and only if no halo is wider than any block |
| `StagedExchange.StagedIsFull` | cartex/src/runtime/mpi_comm/runtime.cpp:408-482 | after any positive number of x, y, z rounds every cell of every extended buffer (interior, face, edge, corner) holds the initial value of the periodically wrapped global cell, for cells of any type |
| `StagedExchange.InteriorsKept` | cartex/src/runtime/mpi_comm/runtime.cpp:408-482 | no number of stages changes an interior cell, whatever the halos |
| `StagedExchange.CellsComeFromSource` | cartex/src/runtime/mpi_comm/runtime.cpp:408-482 | which interior cell of which domain each cell's value comes from after three stages |
| `StagedExchange.GlobalCellUnique` | cartex/src/decomposition/decomposition.cpp:51-73 | every global cell is held in exactly one interior, so the value a cell must have is well defined |
| `StagedExchange.StageCell` | cartex/src/runtime/mpi_comm/runtime.cpp:408-482 | one stage, cell by cell: a received cell gets the value its neighbour's matching interior-side cell had before the stage, every other cell keeps its own |
| `StagedExchange.NbrInverse` | cartex/src/runtime/mpi_comm/runtime.cpp:43-48 | going left and then right in one dimension is the identity, also with one or two domains in it |
| `StagedExchange.NbrIsShift` | cartex/src/runtime/mpi_comm/runtime.cpp:43-48 | the six neighbours are the six unit offsets of the decomposition |
| `StagedExchange.SameMessageSize` | cartex/src/runtime/mpi_comm/runtime.cpp:499-535 | sender and receiver of a message agree on its size, although their blocks may differ |
| `Packing.Neighborhood.constructor` | cartex/src/runtime/mpi_comm/runtime.cpp:37-52 | the buffer extents and the size of a z plane |
| `Packing.Neighborhood.PackX` | cartex/src/runtime/mpi_comm/runtime.cpp:245-267 | the loops fill both send buffers with exactly the cells of the two x regions, in order, and read only the field |
| `Packing.Neighborhood.PackY` | cartex/src/runtime/mpi_comm/runtime.cpp:292-317 | the same for y, whose rows include the x halos |
| `Packing.Neighborhood.PackZ` | cartex/src/runtime/mpi_comm/runtime.cpp:347-374 | the same for z, whose planes include the x and y halos |
| `Packing.Neighborhood.UnpackX` | cartex/src/runtime/mpi_comm/runtime.cpp:269-290 | the loops put both receive buffers into the two x halo regions and change no other cell |
| `Packing.Neighborhood.UnpackY` | cartex/src/runtime/mpi_comm/runtime.cpp:319-345 | the same for y |
| `Packing.Neighborhood.UnpackZ` | cartex/src/runtime/mpi_comm/runtime.cpp:376-404 | the same for z |
| `Regions.PackAt` | cartex/src/runtime/mpi_comm/runtime.cpp:245-404 | cell q of a packed message is cell q of the packed region |
| `Regions.UnpackAt` | cartex/src/runtime/mpi_comm/runtime.cpp:269-290 | after unpacking, each cell holds the message cell of the region it lies in, or its old value |
| `Regions.FillCommutes` | cartex/src/runtime/mpi_comm/runtime.cpp:269-290 | the two unpacked regions may be filled in any order, because they are disjoint |
| `Transports.ShellTiled` | cartex/src/runtime/mpi_comm/runtime.cpp:104-175 | every halo cell is received in exactly one stage from exactly one side, and interior cells in none |
| `Transports.ReportedCount` | cartex/src/runtime/runtime.cpp:105-113 | the element count a run reports is the sum of the sizes of the six messages |
| `Transports.TransportsAgreeIff` | cartex/src/runtime/mpi_comm/runtime.cpp:104-175 | packed exchange, MPI subarray datatypes and Tausch index lists read and write the same cells in the same order, in all stages and directions, exactly under a condition on extents and halos, for all of them, empty ones included |
| `Transports.AgreeableMeans` | cartex/src/runtime/tausch_comm/runtime.cpp:77-113 | equal opposite halos meet the condition, and where no block and no halo is empty nothing else does |
| `Transports.CellsAreRegions` | cartex/src/runtime/mpi_comm/runtime.cpp:104-175 | the lists agree only if the regions do, or both are empty |
| `InPlace.InPlaceIff` | cartex/src/runtime/mpi_comm/runtime.cpp:207-243 | sending from the field while receives write into it reads what packing before would have read, whenever in the stage it happens, if and only if no halo of the dimension is wider than the block, or the messages are empty |
| `InPlace.PartlyReceived` | cartex/src/runtime/mpi_comm/runtime.cpp:445-463 | any part of the unpacking of a stage differs from the field in the stage's halos only |
| `InPlace.FitsUndisturbed` | cartex/src/runtime/mpi_comm/runtime.cpp:207-243 | where halos fit, all domains may send in place, for cells of any type |
| `InPlaceRuns.InPlaceRunsIff` | cartex/src/runtime/mpi_comm/runtime.cpp:207-243 | builds that send from the field, whose cells may be read at any moment of the stage, have exactly the runs of those that pack first if and only if in every domain and dimension no halo is wider than the block or the messages are empty, whatever the tags |
| `InPlaceRuns.LooseIsRun` | cartex/src/runtime/mpi_comm/runtime.cpp:207-243 | for cells of any type, every run with sends read late is then a run of the packed exchange |
| `InPlaceRuns.WideHalosDisturb` | cartex/src/runtime/mpi_comm/runtime.cpp:207-243 | otherwise some run sends a cell that was already received |
| `Transports.EqualHalosSameCells` | cartex/src/runtime/tausch_comm/runtime.cpp:77-113 | with equal opposite halos (zero included) all twelve boxes of the three transports list the same cells in the same order |
| `Transports.HaloIndices` | cartex/src/runtime/tausch_comm/runtime.cpp:45-69 | the triple loop lists exactly the cells of the box, in packing order, for any bounds |
| `Transports.TypeMapIsCells` | cartex/src/runtime/mpi_comm/runtime.cpp:120-127 | the displacements of a Fortran-order subarray (section 4.1.3 of MPI 3.1) are the cells of its box in packing order |
| `Transports.PackReadsCells` | cartex/src/runtime/mpi_comm/runtime.cpp:245-404 | the packed message reads the cells of that list in its order |
| `Transports.SlabIsContiguous` | cartex/src/runtime/mpi_comm/runtime.cpp:445-463 | a z message sent in place is the message the packing loops would build |
| `Transports.SlabsInPlace` | cartex/src/runtime/mpi_comm/runtime.cpp:445-463 | receiving the z messages in place gives the buffer the unpacking loops would give |
| `CheckedRun.EveryRunPassesTheCheck` | cartex/src/runtime/runtime.cpp:149-271 | end to end: in every interleaving, a domain that has made its fields and completed one or more steps passes the check in every field, whatever the other domains are doing |
| `CheckedRun.CheckTellsFits` | cartex/src/runtime/runtime.cpp:54-59 | with two or more fields, in every interleaving: all domains pass the check of their first step in all fields if and only if no halo is wider than a block |
| `HaloProgram.AnyRunExchangesFully` | cartex/src/runtime/mpi_comm/runtime.cpp:408-482 | in every interleaving, every cell of a domain that has completed k steps holds the initial value of the wrapped global cell, in every field, if k rounds suffice |
| `HaloProgram.FittingHalosFilled` | cartex/src/runtime/mpi_comm/runtime.cpp:408-482 | where no halo is wider than a block, that is so after the first and every later step |
| `HaloProgram.StepsAreStaged` | cartex/src/runtime/mpi_comm/runtime.cpp:541-555 | a domain that has completed k steps holds what 3k lockstep stages give, however far the others are |
| `HaloProgram.ExchangeNeverDeadlocks` | cartex/src/runtime/mpi_comm/runtime.cpp:408-482 | in every reachable unfinished state some domain can move, even if no send is buffered |
| `HaloProgram.ExchangeTerminates` | cartex/src/runtime/mpi_comm/runtime.cpp:541-555 | every run, whatever the tags, takes at most, and a finished run exactly, five moves per domain and stage |
| `HaloProgram.LockstepRunExists` | cartex/src/runtime/mpi_comm/runtime.cpp:408-482 | whatever the tag factor, the run in which all domains take each stage together exists and finishes |
| `LockstepRuns.SideBySide` | cartex/src/runtime/mpi_comm/runtime.cpp:408-482 | any plan whose channels are apart within each stage has that run |
| `HaloProgram.ExchangeCompletes` | cartex/src/runtime/mpi_comm/runtime.cpp:541-555 | every run can be continued to a finished one |
| `HaloProgram.NeighboursStayClose` | cartex/src/runtime/mpi_comm/runtime.cpp:408-482 | grid neighbours are never more than one three-stage exchange apart |
| `HaloProgram.KeysMatch` | cartex/src/runtime/mpi_comm/runtime.cpp:178-204 | source rank, destination rank and tag of a receive are those of the neighbour's send, and the two neighbour relations invert each other |
| `HaloProgram.StageKeysDistinct` | cartex/src/runtime/mpi_comm/runtime.cpp:178-204 | within a stage no two sends name the same channel, for any tag factor, also when left and right neighbour coincide or are the domain itself |
| `HaloProgram.KeysSeparate` | cartex/src/runtime/mpi_comm/runtime.cpp:178-204 | over a whole run, with fields not above the tag factor or one thread per rank, one channel serves one pair of domains |
| `HaloProgram.PlanSound` | cartex/src/runtime/mpi_comm/runtime.cpp:178-243 | under that condition the plan of the exchange is symmetric and its channels are separate |
| `HaloOrder.ExchangeRightIff` | cartex/src/runtime/mpi_comm/runtime.cpp:178-243 | for every grid, tag factor, number of fields and steps, and all initial fields: no run ever matches a receive with another's message if and only if the plan is in order |
| `HaloOrder.OrderlyIsOrdered` | cartex/src/runtime/mpi_comm/runtime.cpp:178-243 | it is in order if there are no more fields than the tag factor, or if no dimension has more threads per rank than the least distance of two fields that share a tag: the factor if a run is one step or the factor divides the fields, and the remainder otherwise |
| `HaloOrder.OwnFactorOrderly` | cartex/src/runtime/mpi_comm/runtime.cpp:37-52 | with the factor the code computes: no more fields than threads, or one step, or threads that divide the fields, in any shape of threads and ranks |
| `HaloOrder.KeptApartOrderly` | cartex/src/runtime/mpi_comm/runtime.cpp:178-204 | at most as many fields as the factor, or one thread per rank, is a special case |
| `HaloOrder.OrderlyNotApart` | cartex/results/betzy/27_nodes/staged.md:71 | a proper one: eight fields on two by two threads are in order for any number of steps |
| `HaloOrder.OneFieldMore` | cartex/src/runtime/mpi_comm/runtime.cpp:37-52 | on any number of ranks with two or more threads in x that have their z neighbours on the same rank, one field more than threads is not in order as soon as two steps follow each other |
| `HaloOrder.NearNeeds` | cartex/src/runtime/mpi_comm/runtime.cpp:408-482 | a domain that has completed stage s + 3d finds every domain within d in each coordinate beyond stage s |
| `HaloOrder.OnlyWrongMatchesBlock` | cartex/src/runtime/mpi_comm/runtime.cpp:408-482 | whatever the tag factor, the exchange can block only after a wrong match |
| `HaloProgram.LockIsStaged` | cartex/src/runtime/mpi_comm/runtime.cpp:541-555 | the lockstep meaning of the program is the staged exchange, field by field |
| `HaloProgram.ComputedLayoutUsable` | cartex/src/runtime/mpi_comm/runtime.cpp:37-52 | the layout a decomposition computes, with its own tag factor, is one the theorems apply to |
| `OrderedRuns.ReceivesAreLockstep` | cartex/src/runtime/mpi_comm/runtime.cpp:408-482 | each completed receive of any staged program whose channels are in order gets the buffer its neighbour packed for the same event, under the matching rule of section 3.5 of MPI 3.1 |
| `OrderedRuns.StoresAreLockstep` | cartex/src/runtime/mpi_comm/runtime.cpp:408-482 | a process's store depends on its own stage only and equals the lockstep store |
| `OrderedRuns.DriftBound` | cartex/src/runtime/mpi_comm/runtime.cpp:408-482 | a process has completed a stage only if the neighbours it receives from in that stage have reached it |
| `OrderedRuns.NoDeadlock` | cartex/src/runtime/mpi_comm/runtime.cpp:408-482 | some process can always move |
| `MessagePassing.RunsTerminate` | cartex/src/runtime/mpi_comm/runtime.cpp:408-482 | the length of a finished run, and a bound on all runs, of any plan |
| `OrderedRuns.RunsComplete` | cartex/src/runtime/mpi_comm/runtime.cpp:408-482 | every run extends to a finished run |
| `OrderedRuns.NobodyLags` | cartex/src/runtime/mpi_comm/runtime.cpp:408-482 | at every moment of every run each process has made all the moves that the progress of any other process needs of it |
| `OrderedRuns.SeparatedIsOrdered` | cartex/src/runtime/mpi_comm/runtime.cpp:178-204 | where every channel serves one pair of processes, program order is enough |
| `Overtaking.OrderedIff` | cartex/src/runtime/mpi_comm/runtime.cpp:408-482 | exactness, for any staged program and whatever it computes: in all runs every receive is matched with its own message if and only if of any two messages on one channel the earlier must be sent, and its receive posted, first |
| `Overtaking.CutsMismatch` | cartex/src/runtime/mpi_comm/runtime.cpp:408-482 | otherwise there is a run that matches a message with the receive of another event |
| `Overtaking.Reach` | cartex/src/runtime/mpi_comm/runtime.cpp:408-482 | as long as matches are right, every run can be continued to any cut that is closed under who waits for whom |
| `Overtaking.OnlyWrongBlocks` | cartex/src/runtime/mpi_comm/runtime.cpp:408-482 | a run of any plan can block only after a wrong match, even if no send is buffered |
| `Fields.StageAdvances` | cartex/src/runtime/mpi_comm/runtime.cpp:541-555 | one stage of one field advances that field's lockstep stage and leaves the others |
| `Fields.TurnOfDimension` | cartex/src/runtime/mpi_comm/runtime.cpp:541-555 | in the field-by-field order of a step each field sees its dimensions in the order x, y, z |
| `Fields.FieldsInOrder` | cartex/src/runtime/mpi_comm/runtime.cpp:541-555 | in every step the fields come one after the other, each with x, y and z |
| `Tags.TagsInjectiveIff` | cartex/src/runtime/mpi_comm/runtime.cpp:178-189 | the send tag tells field, dimension, direction and thread apart if and only if the factor is at least the number of fields exchanged; the factor is documented as the number of fields but set to the threads per rank (line 40) |
| `Tags.TagOfOneField` | cartex/src/runtime/mpi_comm/runtime.cpp:178-189 | within one field the tag tells direction and thread apart whatever the factor |
| `TagCollision.WrongMessage` | cartex/src/runtime/mpi_comm/runtime.cpp:178-243 | on every row of two or more threads of one rank, with one field more than threads, there is a run in which a receive gets another thread's message of another field and dimension, for every block layout, halo width and initial field |
| `Decomposition.View.InitAxis` | cartex/src/decomposition/decomposition.cpp:57-72 | the loop computes consecutive blocks that cover the axis and differ by at most one cell |
| `Decomposition.View.InitDomain` | cartex/src/decomposition/decomposition.cpp:51-73 | global size in local or global mode, the blocks of all three axes, the last cell, and the rank coordinate scaled to domains |
| `Decomposition.View.constructor` | cartex/src/decomposition/decomposition.cpp:120-140 | a rank's view agrees with the global configuration |
| `Decomposition.View.Coord` | cartex/src/decomposition/decomposition.cpp:190-210 | the coordinate of a thread: its place within the rank, counted x first, then y, then z, is the thread number |
| `Decomposition.ThreadsInOrder` | cartex/src/decomposition/decomposition.cpp:201-206 | thread 0 is at the rank's first domain; each next thread is one further in x, at the end of an x row back at its start and one further in y, at the end of a plane also one further in z |
| `GridOrder.CellsInOrder` | cartex/src/decomposition/decomposition.cpp:201-206 | a flat index runs through the cells of a grid in that order |
| `GridOrder.FlatOrders` | cartex/src/decomposition/decomposition.cpp:240-241 | flat indices order cells by z, then y, then x |
| `Decomposition.View.DomainOf` | cartex/src/decomposition/decomposition.cpp:212-223 | a thread's record: its own rank and thread number, the coordinate of the thread, and the id, origin and extent that belong to the coordinate |
| `Decomposition.View.Neighbor` | cartex/src/decomposition/decomposition.cpp:225-284 | the record of the domain at an offset: the coordinate moved and wrapped, the rank and thread whose own coordinate that is, the id, origin and extent that belong to it; in all six fields what that neighbour computes for itself, for every offset a single wrap can reach |
| `Decomposition.NamesIdentify` | cartex/src/decomposition/decomposition.cpp:212-284 | of two such records, equal rank and thread, equal ids and equal coordinates each mean that they are the same |
| `Channels.Connect` | cartex/src/runtime/mpi_comm/runtime.cpp:37-48 | the seven records a thread keeps are those of itself and of its left and right neighbours in x, y and z |
| `Channels.ChannelsOfRecords` | cartex/src/runtime/mpi_comm/runtime.cpp:178-216 | for every event, ranks and tags of the message-passing program are those worked out from these records: the own rank and thread and the neighbour's for a send, the sender's rank and thread for a receive |
| `Decomposition.View.Locate` | cartex/src/decomposition/decomposition.cpp:247-283 | rank and thread of a coordinate, on the own rank or by the rank map |
| `Decomposition.View.AllDomains` | cartex/src/decomposition/decomposition.cpp:286-293 | one record per thread, the i-th that of thread i of this rank; their coordinates are in thread order, distinct, and exactly those of the rank |
| `Decomposition.DomainToThread` | cartex/src/decomposition/decomposition.cpp:190-210 | every domain is a thread of a rank |
| `Decomposition.ThreadToDomain` | cartex/src/decomposition/decomposition.cpp:190-210 | every thread of every rank is a domain, and each is computed from the other |
| `Decomposition.RankAndThreadIdentify` | cartex/src/decomposition/decomposition.cpp:212-284 | rank and thread determine the domain |
| `Decomposition.RowMajorOneToOne` | cartex/src/decomposition/decomposition.cpp:129-135 | the row-major numbering of MPI Cartesian ranks (section 7.2 of MPI 3.1) is one to one |
| `Decomposition.RowMajorOrders` | cartex/src/decomposition/decomposition.cpp:129-135 | and orders the ranks by x, then y, then z |
| `Decomposition.LayoutWellFormed` | cartex/src/decomposition/decomposition.cpp:51-73 | the three axes of a computed layout are tilings |
| `Blocks.EvenTiles` | cartex/src/decomposition/decomposition.cpp:61-70 | blocks are consecutive, cover [0, global) and differ by at most one cell, also when there are more blocks than cells |
| `Blocks.OneOwner` | cartex/src/decomposition/decomposition.cpp:61-70 | no cell lies in two blocks |
| `Blocks.EveryCellOwned` | cartex/src/decomposition/decomposition.cpp:61-70 | every cell lies in a block |
| `Blocks.WrapInverse` | cartex/src/decomposition/decomposition.cpp:234-238 | offset d followed by -d is the identity on an axis |
| `Blocks.WrapIsMod` | cartex/src/decomposition/decomposition.cpp:234-238 | the two corrections are reduction modulo the number of blocks |
| `Blocks.FromIsWrapped` | cartex/src/runtime/mpi_comm/runtime.cpp:408-482 | on one axis, a halo not wider than the blocks is filled from the wrapped interior cell |
| `Layouts.ShiftPermutes` | cartex/src/decomposition/decomposition.cpp:225-238 | every offset is a permutation of all domains |
| `Layouts.ShiftInverse` | cartex/src/decomposition/decomposition.cpp:225-238 | an offset and its negative undo each other |
| `SelfCheck.MakeField` | cartex/src/runtime/runtime.cpp:149-179 | the loops number the interior by global cell, field count and field, and leave the halos 0 |
| `SelfCheck.Check` | cartex/src/runtime/runtime.cpp:207-271 | the nested loops with early return answer true if and only if every field is as expected for all 27 offsets |
| `SelfCheck.CheckPiece` | cartex/src/runtime/runtime.cpp:243-267 | one of the 27 pieces |
| `SelfCheck.CheckIsExact` | cartex/src/runtime/runtime.cpp:207-271 | the 27 offset tests together say that every cell of the buffer holds the number of the cell it comes from in one round, no more and no less |
| `SelfCheck.ExpectedIsWrapped` | cartex/src/runtime/runtime.cpp:207-271 | where halos fit, that is the number of the wrapped global cell |
| `SelfCheck.PieceCovers` | cartex/src/runtime/runtime.cpp:225-241 | every cell of the buffer lies in the piece of one offset |
| `SelfCheck.ExchangedFieldPasses` | cartex/src/runtime/runtime.cpp:207-271 | a made and fully exchanged field passes |
| `CheckDetects.PassingNames` | cartex/src/runtime/runtime.cpp:207-271 | where halos fit, a cell of a passing field holds the number of a global cell and field only if that is the very cell and field it should come from |
| `CheckDetects.NumberNames` | cartex/src/runtime/runtime.cpp:149-179 | the number of a cell names the cell and the field |
| `CheckDetects.PassesIff` | cartex/src/runtime/runtime.cpp:149-271 | after one round a made field other than the first passes on all domains if and only if the halos fit |
| `CheckDetects.TooFewRoundsFail` | cartex/src/runtime/runtime.cpp:149-271 | as long as the rounds do not suffice for the width of the halos, some domain does not pass |
| `Barrier.BarrierHolds` | src/thread_pool.cpp:29-70 | no thread leaves its k-th call before all have entered their k-th, for every number of threads, every interleaving and every k |
| `Barrier.CountersRestored` | src/thread_pool.cpp:29-70 | when all threads are outside, the counters are back at 0 and N and all have made equally many calls |
| `Barrier.BarrierProgress` | src/thread_pool.cpp:29-70 | whenever some thread has calls left, some thread has a step that decreases the measure, so no thread misses a reset it spins on |
| `Barrier.AdvanceDecreases` | src/thread_pool.cpp:41-70 | every step that is not a spin decreases the measure |
| `Barrier.SpinKeeps` | src/thread_pool.cpp:44-68 | no spin or failed exchange increases it |
| `Barrier.RunInv` | src/thread_pool.cpp:29-70 | every reachable state is gathering, full, draining or empty, with the counters counting the threads in each |
| `SyncLoop.BroadcastAgreement` | src/sync_loop.cpp:36-53 | the q-th number any thread receives is the q-th thread 0 stored, and thread 0 stores the next only when all have received all earlier ones |
| `SyncLoop.LoopAgreement` | include/ghexbench/sync_loop.hpp:42-57 | threads that have finished the same calls have returned the same numbers and executed the body equally often, whatever their clocks, also across ranks whose threads 0 store the same numbers |
| `SyncLoop.DoneResults` | include/ghexbench/sync_loop.hpp:42-57 | the returned numbers are positive multiples of the increment, not below the minimum unless the maximum was reached, not one increment too many, and follow from what thread 0 stored, in the way `LoopTimes.TimesEndCalls` gives |
| `LoopTimes.TimesEndCalls` | include/ghexbench/sync_loop.hpp:42-57 | in every run, what a finished thread has received splits into one part per call: all times of a part but the last are below the call's limit, the last is not unless the maximum was reached, and the result is given by the number of times, the minimum, the increment and the maximum |
| `LoopTimes.ReplayLeads` | include/ghexbench/sync_loop.hpp:42-57 | the same of a thread that is still in a call: all times of the current part are below its limit |
| `SyncLoop.CountersRestored` | src/sync_loop.cpp:36-53 | after the last call the counters are as at the start |
| `SyncLoop.LoopProgress` | src/sync_loop.cpp:36-53 | while some thread is not done, some thread has a step that decreases a measure bounded by the maximum iterations |
| `SyncLoop.AdvanceDecreases` | include/ghexbench/sync_loop.hpp:42-57 | every step that is not a spin decreases it |
| `SyncLoop.SpinKeeps` | src/sync_loop.cpp:41-52 | no spin increases it |
| `SyncLoop.RunInv` | src/sync_loop.cpp:36-53 | every reachable state is in one phase of one round, and every thread is where the numbers it has received lead |
| `SyncLoop.ReplayIsProper` | include/ghexbench/sync_loop.hpp:42-57 | what any sequence of elapsed times leads a thread to |
| `ThreadPool.JobsRunOnceInOrder` | src/thread_pool.cpp:88-102 | what was put into a worker's queue is at any time what it has finished, what it executes and what it has queued, in this order |
| `PoolCalls.ScheduleQueues` | src/thread_pool.cpp:143-159 | a call of schedule puts its job behind those in the queue of the worker it names, once, and changes no other worker; after join it changes none |
| `PoolCalls.LogIsAsked` | src/thread_pool.cpp:143-159 | over any sequence of calls, the client's jobs that were ever put into a worker's queue are those it was asked for, in the order of the calls |
| `PoolCalls.AskedRunInOrder` | src/thread_pool.cpp:88-102 | so at any time a worker was asked for what it has finished, then what it executes, then what it has queued |
| `PoolCalls.ScheduleAnswers` | src/thread_pool.cpp:143-159 | schedule returns true if and only if the pool is not joined |
| `PoolCalls.SyncFinishesAsked` | src/thread_pool.cpp:131-142 | when a call of sync returns, every worker has finished all that earlier calls asked it for |
| `PoolCalls.JoinFinishesAsked` | src/thread_pool.cpp:109-129 | when a call of join returns, the pool is joined, and every worker has exited, has nothing queued and has finished all it was ever asked for |
| `PoolCalls.RunHasTrace` | src/thread_pool.cpp:82-159 | every run is one of calls |
| `ThreadPool.SyncWaitsForAll` | src/thread_pool.cpp:131-142 | the first time the client is outside the pool after a call of sync, every job queued before the call has finished on every worker, although only queue emptiness is looked at, one queue after the other |
| `ThreadPool.JoinWaitsForAll` | src/thread_pool.cpp:109-129 | after join all workers have exited, all queues are empty and all jobs have finished |
| `ThreadPool.JoinedForGood` | src/thread_pool.cpp:143-159 | after join nothing is scheduled any more and schedule does not succeed |
| `ThreadPool.NoLostWakeUp` | src/thread_pool.cpp:95-95 | a blocked worker with a job, or whose pool is being joined, is about to be notified |
| `ThreadPool.PoolProgress` | src/thread_pool.cpp:82-159 | while the client is in a call or a queue holds a job, a worker's step reduces the load or the client's brings it closer to returning |
| `ThreadPool.ClientReduces` | src/thread_pool.cpp:109-142 | inside a call no client step adds to what is owed, and each lessens it or brings the client closer to returning, except looking at a queue that holds a job |
| `ThreadPool.WorkerReduces` | src/thread_pool.cpp:88-102 | no worker step adds to it |
| `ThreadPool.SyncReturnsWhenDrained` | src/thread_pool.cpp:131-142 | once the queues are empty, sync returns after at most 2 n + 2 steps of its own |
| `ThreadPool.RunInv` | src/thread_pool.cpp:82-159 | the invariant of every reachable state |
| `Statistics.Accumulator.Add` | include/ghexbench/accumulator.hpp:71-79 | one more sample: number, minimum, maximum, mean and sum of squared deviations stay those of all samples |
| `Statistics.Accumulator.AddAll` | include/ghexbench/accumulator.hpp:64-69 | the same for a batch |
| `Statistics.Accumulator.Merge` | include/ghexbench/accumulator.hpp:81-102 | merging equals having seen both sample sequences, also when one is empty or both are the same object |
| `Statistics.Accumulator.Clear` | include/ghexbench/accumulator.hpp:105-112 | back to no samples |
| `Statistics.Accumulator.Variance` | include/ghexbench/accumulator.hpp:53-56 | the unbiased sample variance, 0 for fewer than two samples |
| `Statistics.Accumulator.Sum` | include/ghexbench/accumulator.hpp:61-61 | the sum of the samples |
| `Statistics.AppendUpdates` | include/ghexbench/accumulator.hpp:75-77 | the update rule agrees with the batch definitions |
| `Statistics.MergeUpdates` | include/ghexbench/accumulator.hpp:95-100 | the merge rule agrees with the batch definitions of the concatenation |
| `Statistics.MeanIsClosest` | include/ghexbench/accumulator.hpp:75-77 | the accumulated deviation is the least over all centres, so it is the deviation from the mean |
| `Statistics.MaximumRightIff` | include/ghexbench/accumulator.hpp:27-28 | the maximum is the greatest sample if and only if some sample is at least the smallest positive number it starts from |
| `Statistics.ExtremesMean` | include/ghexbench/accumulator.hpp:73-74 | minimum and maximum bound all samples and are samples or initial values |
| `HwTopo.HwTopo.LevelGridCoord` | src/hw_topo.cpp:160-181 | the level coordinates of a grid coordinate lie within their levels and add up to it |
| `HwTopo.HwTopo.Rank` | src/hw_topo.cpp:183-196 | the rank of level coordinates is the rank of the grid coordinate they add up to |
| `HwTopo.HwTopo.RanksIdentify` | src/hw_topo.cpp:160-196 | under a one-to-one rank map, ranks and level coordinates identify each other |
| `HwTopo.HwTopo.Position` | src/hw_topo.cpp:184-194 | the loop that adds them up |
| `HwTopo.HwTopo.LevelsIdentify` | src/hw_topo.cpp:160-196 | level coordinates and grid coordinates correspond one to one, so the two functions undo each other both ways |
| `HwTopo.HwTopo.ResourcesAreBoxes` | src/hw_topo.cpp:118-196 | two ranks share a resource of a level if and only if their grid coordinates lie in the same box of that level's size: resources are boxes of the grid |
| `HwTopo.HwTopo.SizeTimesCount` | src/hw_topo.cpp:118-149 | ranks per resource times resources is all ranks, at every level |
| `HwTopo.HwTopo.Size` | src/hw_topo.cpp:118-125 | the nested loops multiply the extents below a level |
| `HwTopo.HwTopo.Count` | src/hw_topo.cpp:142-149 | and those from a level up |
| `HwTopo.HwTopo.SizeAlong` | src/hw_topo.cpp:127-133 | the same along one dimension: the weight of the level |
| `HwTopo.HwTopo.CountAlong` | src/hw_topo.cpp:151-157 | the product of the extents from a level up along one dimension |
| `HwTopo.HwTopo.constructor` | src/hw_topo.cpp:38-42 | the grid is the product of all levels |
| `PeerToPeer.ExactCount` | p2p/include/p2p/callbacks.hpp:31-51 | in every run a thread whose slots are all posted and idle has sent and received exactly nrep messages on every slot; one if nrep is 0 |
| `PeerToPeer.ReportedIff` | p2p/src/benchmark.cpp:248-248 | the number of messages received is the one reported if and only if nrep is at least 1 |
| `PeerToPeer.OwnMessages` | p2p/src/benchmark.cpp:110-123 | with distinct tags the k-th receive of a slot gets the k-th message of the peer's same slot |
| `PeerToPeer.DistinctTagsIff` | p2p/src/benchmark.cpp:110-123 | tags tell threads and slots apart if and only if there are at most 1000 threads or one slot |
| `PeerToPeer.SomeEndMoves` | p2p/include/p2p/callbacks.hpp:31-51 | no deadlock, even if no send is buffered, and however many slots share a tag |
| `PeerToPeer.BenchCompletes` | p2p/include/p2p/callbacks.hpp:31-51 | every run can be continued to a finished one |
| `PeerToPeer.BenchTerminates` | p2p/include/p2p/callbacks.hpp:31-51 | every run takes at most, and a finished run exactly, two posts and twice nrep completions a slot |
| `MemoryView.View.constructor` | cartex/include/cartex/memory/memory_view.hpp:39-47 | the strides are the running products of the extents, of which some may be 0 |
| `MemoryView.View.Index` | cartex/include/cartex/memory/memory_view.hpp:55-60 | the loop computes the number whose digits are the coordinates, within the memory |
| `MemoryView.View.Get` | cartex/include/cartex/memory/memory_view.hpp:55-60 | reading returns the element of that coordinate |
| `MemoryView.View.Set` | cartex/include/cartex/memory/memory_view.hpp:68-73 | writing changes the element of that coordinate and of no other |
| `MemoryView.OneElementPerCoordinate` | cartex/include/cartex/memory/memory_view.hpp:55-73 | different coordinates, different elements, in any number of dimensions |
| `MemoryView.EveryElementHasCoordinate` | cartex/include/cartex/memory/memory_view.hpp:39-47 | every element has a coordinate |
| `MemoryView.ThreeDimensions` | cartex/include/cartex/memory/memory_view.hpp:55-73 | in three dimensions it is the flat index the exchange and the check use |

## Left out

- GPU code paths and kernels: device semantics are not part of this model.
- GHEX, GCL and oomph backends: the first two live in libraries not shown, the third repeats the loops and tags modelled here.
- MPI, hwloc and hwcart internals, communicator and datatype lifetimes, thread affinity: only the one-to-one rank map is used.
- Options, printing, timers, histograms and result files: no algorithm of their own.
- `parse_order`, `get_level` and the topology builder: table look-ups.
- Floating point: fields are exchanged as values of any type, the check uses integers, statistics use reals; rounding is not modelled.
- Integer widths: all integers are unbounded; 32-bit and size_t overflow is not modelled.
- Weak memory: a relaxed exchange is a step of a sequentially consistent memory, and a failed exchange together with the reload that follows it is one step.
- Barrier, loop, pool and callbacks as classes: their methods run concurrently, so they are step systems over values; the object graph and the locking of each critical section are not represented.
- Message-passing runs: a message is packed when its send is posted (see `InPlaceRuns` for sends from the field), and the wait, the unpacking of both messages and the next stage's start are one step; the array loops are verified separately and are equal to the functions the runs use.
- HaloOrder.OrderlyIsOrdered: one way only; the exact condition is `Ordered`, which depends on who neighbours whom, so a check on the numbers of fields, threads and steps alone is stated as sufficient, with `HaloOrder.OneFieldMore` on the other side.
- TagCollision.WrongMessage: a wrong match, not a wrong final cell; the two messages differ in size unless block and halo extents agree, and what MPI does then is not modelled.
- HaloProgram.ExchangeNeverDeadlocks: where messages are not in order a finishing run exists (`HaloProgram.LockstepRunExists`) and a run can block only after a wrong match (`HaloOrder.OnlyWrongMatchesBlock`); whether it then does is not stated.
- Decomposition.View.Neighbor: offsets beyond one wrap are excluded, as the code corrects a coordinate once; the code uses -1, 0 and 1 only.
- SyncLoop.LoopAgreement: that ranks' threads 0 store the same numbers is what MPI_Bcast provides and is assumed.
- PeerToPeer.ExactCount: one round of `send_recv`; the benchmark's later rounds start from idle slots after a barrier of all ranks.
- ThreadPool.SyncWaitsForAll: jobs that schedule jobs are not modelled.
- Statistics.Accumulator.Merge: the two limits the extremes start from are parameters of the constructor instead of the constants of double; the square root of the variance is left out.
