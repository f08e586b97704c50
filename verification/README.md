# WebAsShared: a verified model of its partitioner, shared memory and data movement

This Dafny project models the parts of WebAsShared in which correctness is hardest to see, and proves what
they are for. All statements are for-all statements over every graph, every run or every byte sequence.

1. **The partitioner** (`Graphs`, `SymbolicDag`, `Apportionment`, `Expansion*`, `StreamSplit*`, `Topo`, `Placer`,
   `Slots`, `SlotProofs`, `Reclaim`, `InputSlices`, `Cut*`, `Ordering`, `Partition`, `Dataflow`, `ClusterRun`,
   `SlotClash`, `ListRuns`, `FreeOrder`, `FreedSlots`, `FreedExample`, `PlainGraph`, `Deadlock`, `Validation`,
   `EndToEnd`). A location-free graph is replicated, fanned out, split, placed, given slots and cut at the machine
   boundaries. The main results are `Partition.PartitionDag` (the lists are those of the graph, pass by pass; closed,
   acyclic and safely ordered; refused exactly for a stated cause), `EndToEnd.PartitionedDataflowIff` (every run of the
   emitted lists gives every node what it would read on one machine, if and only if every freed slot is freed in turn)
   and `EndToEnd.PartitionedRuns` (when the lists can be run to the end).
2. **The shared-memory heap** (`Bytes`, `Memory`, `Records`, `Chains`, `PageHeap`, `RecordLog`). Length-prefixed
   records in linked 4 KiB pages of a flat byte file, changed in place. The file is a `seq<Byte>`; `Memory.View`
   reads it as a structured heap and every primitive write is proved to change one component of that view.
3. **The software pipeline** (`Pipeline`, `Text`, `StreamStages`). The watermark protocol as a state machine over
   all interleavings of the workers, for any number of stages and rounds, and its four Python stages.
4. **Divide and merge** (`Windows`, `Shard`, `MergeSum`, `Staging`). Line-aligned windows, byte-balanced shards, the
   keyed-count reducer, and the staging of windows into compact receive buffers.
5. **Two protocol pieces** (`Reservation`, `Base64`).

`dafny verify dfyconfig.toml` checks the whole project.

## How to read it

- Names of generated nodes are built by constructors (`Replica`, `Worker`, `Segment`, `FreeOf`, `RecvOf`, `SendOf`),
  so a generated name never equals another name; the names of the input graph are assumed distinct.
- Numbers are unbounded except where a width matters: little-endian cells, the 64 MiB record limit, the 64-bit
  counters of the reducer (wrap-around, as a release build does), and the 32-bit filter of the slot scan.
- `f64` values are `real`. Iteration orders of hash maps are arbitrary or, where the order is visible in the result,
  the discovery order.
- Lemmas carry `{:induction false}`: every induction is written out, none is left to the verifier's heuristics.
- `Prelude.Key` guards a few large definitions, so that a proof unfolds them only where it asks for it.
- Four places where the code does less than its comments suggest are kept as they are and proved exactly.
  - The fresh-slot scan does not see the slot of an offset-output Func: `SlotClash.ClashIff` says exactly when a recv
    lands on a producer's slot, `SlotClash.ClashArises` and `SlotClash.ClashMisreads` show a graph and a run in which a
    value is misread.
  - An Output is told the slot its dep records, which an `output_slot` annotation may contradict:
    `SlotClash.OutputsCarryIff` says exactly when, `SlotClash.AnnotationMisleads` shows it.
  - An injected free waits for the same-machine consumers of its source and for nobody else who reads the slot:
    `FreeOrder.AlwaysRightIff` says exactly when every value survives until it is read, `FreedExample.FreedTooEarly`
    shows a value that does not, and `FreedSlots.UsualFrees` is the usual case in which all do.
  - The ordering pass looks at one machine at a time: `ListRuns.RunsThroughIff` says exactly when the ordered lists can
    be run to the end, `Deadlock.ChainStuck` shows an acyclic graph on which they cannot, and `ListRuns.OneWayRuns` that
    they can when no machine both receives from and sends to another.
- `Partition.Trace` holds the intermediate results of a run; `Partition.Realises` says of each of them what the pass
  that made it promises.

## Model

| member | source | states |
|---|---|---|
| `Partition.PartitionDag` | Partitioner/partitioner/src/splitter.rs:131-467 | on success the lists are those of the graph pass by pass (split by its plan, pinned, placed by quota, sliced, slot-assigned, freed, cut from the first fresh slot, every reference resolved, deps grown by ordering alone); each is closed and orders every same-peer recv/send pair; acyclic input gives acyclic lists and, before ordering, an acyclic cluster, embedded pipeline transfers included; refused if and only if a stated cause holds |
| `Partition.Expand` | Partitioner/partitioner/src/splitter.rs:147-158 | replication, fan-out and splitting keep names distinct and the graph acyclic together with the embedded transfers; the worker set is that of the replicated graph; refused if and only if a pipeline cannot be split |
| `Partition.Place` | Partitioner/partitioner/src/splitter.rs:160-188 | pins, quotas, hosts, slices and slots are what pinning, placement, slicing and slot assignment promise, each of the one before; refused if and only if some node lacks the slot it needs |
| `Partition.PlacedHosts` | Partitioner/partitioner/src/splitter.rs:160-188 | a given host stays, an unplaced node on the tail of an Output goes to the coordinator when the run converges, every other node to a machine in range |
| `Partition.EmitMachines` | Partitioner/partitioner/src/splitter.rs:187-467 | validation, cutting and ordering of a placed graph: transfers in discovery order from the first fresh slot, every kind resolved, closed, ordered and acyclic lists; a refusal has a cause in the graph |
| `Partition.OrderAll` | Partitioner/partitioner/src/splitter.rs:365-467 | the ordering pass on every machine only adds, to recvs, deps on sends to the same peer, and keeps acyclicity |
| `EndToEnd.PartitionedDataflow` | Partitioner/partitioner/src/splitter.rs:131-467 | for every graph the partitioner accepts, every run of its emitted lists, from any memory and with FreeSlots nodes emptying their slots, gives each node the inputs of the one-machine run, if frees come in turn and references are deps, producers that are read or sent do not share slots, no annotation contradicts and no producer hits a transfer |
| `EndToEnd.PartitionedDataflowIff` | Partitioner/partitioner/src/splitter.rs:78-467 | for lists that can be run to the end, all runs from all memories read right if and only if every free comes after all readers of what it frees, or before it is written |
| `EndToEnd.UsualIsInTurn` | Partitioner/partitioner/src/splitter.rs:78-129 | every free comes in turn when only planned consumer slots are freed and no node that is read or sent owns one |
| `EndToEnd.PartitionedRuns` | Partitioner/partitioner/src/splitter.rs:365-467 | some run of the emitted lists contains every listed node if and only if the waits-for graph (list deps, and recv after send) is acyclic; it is for an acyclic graph whose machines exchange one way |
| `Validation.ValidationFailsIff` | Partitioner/partitioner/src/splitter.rs:193-212 | for a closed graph whose given hosts exist, validation fails if and only if a node that does not become a sink depends on a split pipeline |
| `EndToEnd.CleanIsSound` | Partitioner/partitioner/src/splitter.rs:186-363 | the provisos other than frees in turn, stated on the graph before placement where they can be, make the cut graph sound |
| `ListRuns.ListRunIsRun` | Partitioner/partitioner/src/splitter.rs:365-467 | whatever order the ordered lists and their transfers allow is a run of the cut graph |
| `ListRuns.RunsThroughIff` | Partitioner/partitioner/src/splitter.rs:365-467 | emitted lists can be run to the end if and only if nobody waits, directly or not, for himself |
| `ListRuns.OneWayRuns` | Partitioner/partitioner/src/splitter.rs:365-467 | they can whenever the graph is acyclic and no machine both receives from and sends to another |
| `ListRuns.WaitsContain` | Partitioner/partitioner/src/splitter.rs:286-467 | the ordered lists wait for everything that the cut graph orders |
| `Deadlock.ChainRealised` | Partitioner/partitioner/src/splitter.rs:365-467 | an acyclic chain across two machines on which the partitioner succeeds |
| `Deadlock.ChainStuck` | Partitioner/partitioner/src/splitter.rs:365-467 | no run of its lists gets past the first node and its send: a recv is ordered after a send that waits for it through the other machine |
| `FreeOrder.AlwaysRightIff` | Executor/host/src/runtime/dag_runner/dispatch.rs:229-242 | all runs of lists that can be run to the end read right if and only if every free comes in turn |
| `FreeOrder.KeptIsInTurn` | Executor/host/src/runtime/dag_runner/dispatch.rs:229-242 | it does when no node that is read or sent sits on a freed slot |
| `FreedSlots.FreedIff` | Partitioner/partitioner/src/splitter.rs:78-129 | a slot is freed on a machine if and only if a fan-out consumer there reads it from a source there, said on the graph before slot assignment, or the graph frees it itself |
| `FreedSlots.UsualFrees` | Partitioner/partitioner/src/splitter.rs:78-129 | if only planned consumer slots are freed and no node that is read or sent owns one, nothing needed is freed |
| `FreedExample.FreedTooEarly` | Partitioner/partitioner/src/splitter.rs:78-129 | a graph that meets every other premise and a run of it in which an Aggregate reads a slot that was freed before |
| `EndToEnd.RefsKept` | Partitioner/partitioner/src/slot_assigner.rs:180-210 | placement, slicing and slot assignment keep explicit references, and derived ones are the deps |
| `ClusterRun.DataflowPreserved` | Partitioner/partitioner/src/splitter.rs:227-363 | for uninterpreted node functions, from any initial memory and in any run of a sound cut graph that respects the cluster order and frees no slot before its readers ran, every node that ran read exactly the inputs of the one-machine run |
| `ClusterRun.RunKeepsValues` | Partitioner/partitioner/src/splitter.rs:286-363 | every executed send, recv and node leaves the reference value where the readers still to come look for it |
| `ClusterRun.InputSlotsArrive` | Partitioner/partitioner/src/splitter.rs:533-658 | the slots written into a rewritten kind are the slots where the referenced values arrive |
| `ClusterRun.PlacesApart` | Partitioner/partitioner/src/splitter.rs:227-290 | no other item writes the place of a recv or of a needed producer |
| `ClusterRun.DepDelivered` | Partitioner/partitioner/src/splitter.rs:292-345 | before a node runs, the producer or the recv that delivers each of its deps has run |
| `ClusterRun.RunIntro` | Partitioner/partitioner/src/splitter.rs:292-363 | a run is any order in which each node follows its local deps, each send its producer and each recv its send |
| `Dataflow.OneMachineMeaning` | Partitioner/partitioner/src/splitter.rs:597-658 | running all nodes on one machine in dependency order gives each node the function of its inputs' values |
| `CutProofs.ListsClosed` | Partitioner/partitioner/src/splitter.rs:286-363 | after cutting, each machine's list contains every dep it names |
| `CutProofs.ClusterAcyclic` | Partitioner/partitioner/src/splitter.rs:235-363 | the cluster-wide graph in which each recv waits for its send, and each node for the embedded transfer that feeds it, is acyclic |
| `CutProofs.ListsAcyclic` | Partitioner/partitioner/src/splitter.rs:286-363 | each machine's own list is acyclic |
| `CutProofs.RecvSlotsFresh` | Partitioner/partitioner/src/splitter.rs:227-284 | recv slots are pairwise distinct and above every integer scanned from the kinds |
| `CutProofs.OffsetSlotScanned` | Partitioner/partitioner/src/slot_assigner.rs:159-168 | the scan sees an offset-output Func's slot if and only if its input slot or its offset is zero |
| `SlotClash.ClashIff` | Partitioner/partitioner/src/splitter.rs:227-284 | a recv lands on the slot of a producer of its machine if and only if, in the placed graph, that slot is the first fresh one plus the place of a transfer to that machine in discovery order |
| `SlotClash.HitIsHidden` | Partitioner/partitioner/src/splitter.rs:227-233 | only an annotated slot that appears in no kind can be hit |
| `SlotClash.ClashArises` | Partitioner/partitioner/src/slot_assigner.rs:159-168 | a concrete graph on which slot assignment gives an offset-output Func the slot that the splitter gives to a recv |
| `SlotClash.ClashMisreads` | Partitioner/partitioner/src/splitter.rs:227-284 | a run of that graph, every dep and transfer respected, in which an Output reads the wrong node's value |
| `SlotClash.OutputsCarryIff` | Partitioner/partitioner/src/slot_assigner.rs:212-218 | after slot assignment every local single-dep Output names the slot its dep writes if and only if the dep's annotation is absent or agrees with the slot it records |
| `SlotClash.AnnotationMisleads` | Partitioner/partitioner/src/slot_assigner.rs:126-140 | a Func with `arg` and a different annotation, and the run in which its Output reads a slot that nothing wrote |
| `Cut.Validate` | Partitioner/partitioner/src/splitter.rs:193-212 | accepts exactly the graphs whose nodes have a host in range and only known deps |
| `Cut.NextFreeSlot` | Partitioner/partitioner/src/splitter.rs:227-233 | one past the greatest integer found in any kind, and attained |
| `Cut.DiscoverCuts` | Partitioner/partitioner/src/splitter.rs:235-284 | records exactly the dep/machine pairs that cross machines, in the discovery order of the graph, with consecutive fresh slots; fails only if an Input or a slotless node would have to send |
| `Cut.CutOrderIff` | Partitioner/partitioner/src/splitter.rs:235-284 | the discovery order, a function of the placed graph, lists exactly the crossing pairs |
| `Cut.EmitNodes` | Partitioner/partitioner/src/splitter.rs:304-350 | the rewritten nodes, or failure exactly when a referenced node has no slot |
| `Cut.Distribute` | Partitioner/partitioner/src/splitter.rs:286-363 | each machine gets exactly its items, in order |
| `Cut.CutEdges` | Partitioner/partitioner/src/splitter.rs:227-363 | the per-machine lists are the recvs, rewritten nodes and sends of the cuts in discovery order from the first fresh slot, every kind resolved; failure has a stated cause |
| `CutProofs.PackedFanout` | Partitioner/partitioner/src/splitter.rs:565-589 | the packed fan-out argument gives back the consumer count, and the base slot if and only if it fits 16 bits |
| `Ordering.DagReachable` | Partitioner/partitioner/src/splitter.rs:660-680 | breadth-first search answers reachability exactly, and terminates on every graph, cyclic ones included |
| `Ordering.BuildSuccessorMap` | Partitioner/partitioner/src/splitter.rs:406-417 | the successor map has exactly the edges of the list |
| `Ordering.OrderPair` | Partitioner/partitioner/src/splitter.rs:431-449 | one recv/send pair ends up ordered, and the live graph stays acyclic |
| `Ordering.ChooseOrder` | Partitioner/partitioner/src/splitter.rs:375-450 | considers peers, recvs and sends in order and keeps exactly the pairs whose recv does not yet reach the send; only same-peer pairs; no added edge closes a cycle, although later checks see earlier edges |
| `Ordering.OrderRecvsAfterSends` | Partitioner/partitioner/src/splitter.rs:375-467 | writes exactly those edges back; afterwards every same-peer pair is ordered one way or the other; only deps grew, by sends to the recv's own peer; no cycle appears |
| `Expansion.ApportionQuota` | Partitioner/partitioner/src/splitter.rs:716-743 | fan-out counts sum to exactly n and each is the floor or ceiling of its exact share |
| `Expansion.ApportionFanout` | Partitioner/partitioner/src/splitter.rs:716-743 | the loop computes the largest-remainder apportionment |
| `Apportionment.LargestRemainderQuota` | Partitioner/partitioner/src/splitter.rs:726-742 | largest-remainder rounding satisfies the quota rule for every non-negative vector that sums to n |
| `Expansion.ExpandAllPlacements` | Partitioner/partitioner/src/splitter.rs:745-849 | the loops build the replicated graph |
| `Expansion.ExpandFanout` | Partitioner/partitioner/src/splitter.rs:851-893 | the loops build the fanned-out graph and collect the worker ids |
| `ExpansionProofs.ReplicateKeepsOrder` | Partitioner/partitioner/src/splitter.rs:745-849 | replication keeps acyclicity and distinct names |
| `ExpansionProofs.FanOutKeepsOrder` | Partitioner/partitioner/src/splitter.rs:851-893 | fan-out keeps acyclicity and distinct names |
| `ExpansionExact.ReplicateHas` | Partitioner/partitioner/src/splitter.rs:745-849 | every template has a copy on every machine and every other node stays; an unplaced consumer waits for all copies of a template, a placed one for the copy on its machine |
| `ExpansionExact.ReplicateOnly` | Partitioner/partitioner/src/splitter.rs:745-849 | replication adds nothing else, and nothing is wired otherwise |
| `ExpansionExact.ReplicateClosed` | Partitioner/partitioner/src/splitter.rs:745-849 | replication leaves no dangling dep |
| `ExpansionExact.ReplicaCounts` | Partitioner/partitioner/src/splitter.rs:775-800 | the copies' worker counts add up to the requested fan-out, clamped to the cluster's cores |
| `ExpansionExact.FanOutHas` | Partitioner/partitioner/src/splitter.rs:857-893 | a fanned-out node has all its workers, any other node stays; host and kind are kept |
| `ExpansionExact.FanOutOnly` | Partitioner/partitioner/src/splitter.rs:857-893 | fan-out adds nothing else |
| `ExpansionExact.FanOutClosed` | Partitioner/partitioner/src/splitter.rs:857-893 | fan-out leaves no dangling dep |
| `ExpansionExact.ConsumerWaitsForAll` | Partitioner/partitioner/src/splitter.rs:878-892 | a consumer of a fanned-out node waits for every worker |
| `StreamSplit.ChooseCutsCheapest` | Partitioner/partitioner/src/splitter.rs:916-942 | automatic cuts are ascending, never after an `avoid` stage, as many as asked for or available, and no unchosen candidate is cheaper |
| `StreamSplit.CutPointsValid` | Partitioner/partitioner/src/splitter.rs:957-987 | accepted cuts are strictly ascending, leave stages downstream and fit the machines; requested cuts are kept as a set |
| `StreamSplit.MachineOrderIsPermutation` | Partitioner/partitioner/src/splitter.rs:944-955 | coordinator first, then the other machines by falling capacity, all of them once |
| `StreamSplit.CollectCuts` | Partitioner/partitioner/src/splitter.rs:996-1016 | the plan lists exactly the pipelines that are cut; refuses exactly when some pipeline's cut points are invalid |
| `StreamSplit.EmitSegments` | Partitioner/partitioner/src/splitter.rs:1018-1055 | the segments of every split pipeline, refused exactly when a slot or the round count is missing |
| `StreamSplit.SplitStreamPipelines` | Partitioner/partitioner/src/splitter.rs:996-1089 | the split graph by the plan of the graph; refused if and only if cut points are invalid, a boundary slot or the round count is missing, or a returning Output has no paths |
| `StreamSplit.PlanUnique` | Partitioner/partitioner/src/splitter.rs:996-1016 | a graph has at most one plan |
| `StreamSplitProofs.SegmentsWired` | Partitioner/partitioner/src/splitter.rs:1018-1055 | segments are non-empty, concatenate to the original stages, sit on distinct machines, and each send's slot and peer match the next segment's recv |
| `StreamSplitProofs.SinkWired` | Partitioner/partitioner/src/splitter.rs:1056-1089 | the last segment's send and the sink that the Output becomes name each other's machine and the same slot |
| `StreamSplitProofs.SplitMeaning` | Partitioner/partitioner/src/splitter.rs:1018-1055 | for linearly chained stages a round through the segments returns what the unsplit pipeline computes |
| `StreamSplitProofs.SplitHas` | Partitioner/partitioner/src/splitter.rs:996-1089 | every cut pipeline has all its segments and every other node stays under its name |
| `StreamSplitProofs.SplitOnly` | Partitioner/partitioner/src/splitter.rs:996-1089 | splitting adds nothing else |
| `StreamSplitProofs.SplitKeepsOrder` | Partitioner/partitioner/src/splitter.rs:996-1089 | splitting keeps acyclicity, the transfers from segment to segment and to the sinks included |
| `StreamSplitProofs.SplitKeepsDistinct` | Partitioner/partitioner/src/splitter.rs:996-1089 | splitting keeps names distinct |
| `Topo.TopoOrder` | Partitioner/partitioner/src/placer.rs:266-312 | a permutation of all indices on every input, cyclic included; deps first on acyclic input |
| `Placer.ComputeQuotas` | Partitioner/partitioner/src/placer.rs:154-262 | quotas respect every host limit and the global cap and sum to exactly the auto nodes when the limits leave room; even without capacity data, else packed on a strongest host or in proportion to capacity by the quota rule, exactly where no limit binds |
| `Placer.Proportional` | Partitioner/partitioner/src/placer.rs:202-231 | largest-remainder parts sum to the auto nodes and each is its exact share rounded down or up |
| `Placer.CapAndTopUp` | Partitioner/partitioner/src/placer.rs:233-262 | capping and refilling by capacity loses no auto node that fits, takes nothing below its part or its limit, and changes nothing where no limit binds |
| `Placer.PickHost` | Partitioner/partitioner/src/placer.rs:118-143 | the chosen host has quota left if any has, and none with quota ranks above it; ties go to the larger id |
| `Placer.PlaceInOrder` | Partitioner/partitioner/src/placer.rs:108-150 | each node in turn goes to the best host of its moment; no host but 0 exceeds its quota, none does when the quotas cover the auto nodes, and all are used up when they sum to them |
| `Placer.AssignNodes` | Partitioner/partitioner/src/placer.rs:70-150 | every auto node gets a real host by that greedy order, pinned nodes are untouched, hosts stay within the quotas above |
| `Slots.RangesDisjoint` | Partitioner/partitioner/src/slot_assigner.rs:76-106 | fan-out ranges on one machine never overlap |
| `Slots.PlanFanouts` | Partitioner/partitioner/src/slot_assigner.rs:55-106 | the machine-by-machine loops compute the plan that the lemmas below describe |
| `Slots.AssignSlots` | Partitioner/partitioner/src/slot_assigner.rs:37-244 | the loop computes the assignment along a deps-first order, and refuses exactly when that assignment does |
| `SlotProofs.PlanRecords` | Partitioner/partitioner/src/slot_assigner.rs:76-106 | every fan-out source is recorded with its effective base, and its consumers hold consecutive slots below the next free one |
| `SlotProofs.ConsumerSlotsApart` | Partitioner/partitioner/src/slot_assigner.rs:76-106 | consumers of fan-out sources on one machine never share a slot, whatever their sources |
| `SlotProofs.AssignmentKeeps` | Partitioner/partitioner/src/slot_assigner.rs:108-244 | names, deps and hosts of the returned nodes are those of the input |
| `SlotProofs.SourceArg` | Partitioner/partitioner/src/slot_assigner.rs:145-157 | a returned fan-out source carries its effective base as its argument |
| `SlotProofs.FannedArg` | Partitioner/partitioner/src/slot_assigner.rs:159-168 | a returned offset-output Func behind a fan-out reads the slot planned for it and writes its offset above |
| `SlotProofs.FannedArgsApart` | Partitioner/partitioner/src/slot_assigner.rs:159-168 | two such Funcs fed from one machine never read the same slot |
| `SlotProofs.AutoSlotFresh` | Partitioner/partitioner/src/slot_assigner.rs:196-210 | a returned auto-allocated Aggregate slot exceeds every stream slot recorded before it |
| `SlotProofs.AutoSlotAbove` | Partitioner/partitioner/src/slot_assigner.rs:196-210 | every auto-allocated Aggregate slot lies above the whole fan-out plan |
| `SlotProofs.AutoSlotsApart` | Partitioner/partitioner/src/slot_assigner.rs:196-210 | no two auto-allocated Aggregates share a slot |
| `SlotProofs.AssignmentFailsIff` | Partitioner/partitioner/src/slot_assigner.rs:37-244 | refused if and only if some node needs a slot that neither a fan-out nor an earlier recording dep provides; with deps first a property of the graph alone |
| `Reclaim.PinConverge` | Partitioner/partitioner/src/splitter.rs:28-53 | pins exactly the nodes without a host that lie on a single-dep tail of an Output |
| `Reclaim.FreesAfterReaders` | Partitioner/partitioner/src/splitter.rs:78-129 | a free node waits for exactly the same-machine readers of its source and frees exactly their slots |
| `Reclaim.FreesKeepOrder` | Partitioner/partitioner/src/splitter.rs:78-129 | adding free nodes keeps acyclicity, whatever other links the graph has |
| `InputSlices.WeightedSlicesTile` | Partitioner/partitioner/src/splitter.rs:1091-1159 | for any worker counts the slices share endpoints and run from 0 to 1 |
| `InputSlices.AssignInputSlices` | Partitioner/partitioner/src/splitter.rs:1091-1159 | stamps exactly the replicated whole-file inputs with their machine's slice |
| `Windows.LineAlignedWindow` | NodeAgent/agent/src/coordinator.rs:960-972 | a window is a valid range of the file |
| `Windows.WindowsConcatenate` | NodeAgent/agent/src/coordinator.rs:960-972 | the windows of tiling slices concatenate to the file |
| `Windows.EveryLineOnce` | NodeAgent/agent/src/coordinator.rs:960-972 | every line lies whole in exactly one machine's window and outside all others |
| `Records.RoundTrip` | Executor/py_guest/python/shm.py:228-243 | decoding the encodings gives the records back, also behind a torn last record; the count is their number |
| `Records.DecodePartial` | Executor/py_guest/python/shm.py:228-243 | an incomplete record reads and counts as nothing |
| `Chains.GrowKeeps` | Executor/py_guest/python/shm.py:309-347 | linking a fresh page keeps every slot's bytes, and chains stay acyclic and page-disjoint |
| `Chains.FillKeeps` | Executor/py_guest/python/shm.py:349-353 | writing behind the tail's cursor appends to that slot's bytes and to nothing else |
| `Chains.SpliceReads` | Executor/connect/examples/shm_statesync.rs:311-326 | dst reads as its old bytes followed by src's, also behind a partly full tail page; src reads as before; the joined chain has no cycle |
| `Chains.SpliceOthers` | Executor/connect/examples/shm_statesync.rs:311-326 | every slot disjoint from dst reads as before |
| `PageHeap.Shm.Format` | Executor/connect/examples/shm_statesync.rs:109-122 | a zeroed file with a set bump pointer holds one empty chain per slot |
| `PageHeap.Shm.AllocPage` | Executor/connect/examples/shm_statesync.rs:141-151 | one fresh empty page at the bump pointer, or nothing changes when it does not fit |
| `PageHeap.Shm.WriteBytes` | Executor/connect/examples/shm_statesync.rs:175-208 | the slot gains exactly the bytes, across pages; other slots unchanged; on exhaustion a prefix is left, the memory is full and the slot has no room |
| `PageHeap.Shm.PutRecord` | Executor/connect/examples/shm_statesync.rs:169-173 | three writes append exactly one encoded record |
| `PageHeap.Shm.Append` | Executor/py_guest/python/shm.py:320-355 | the slot gains exactly the encoded record; other slots unchanged; an unencodable record changes nothing |
| `PageHeap.Shm.ChainOnto` | Executor/connect/examples/shm_statesync.rs:311-326 | the in-place splice: dst, src and every disjoint slot read as stated by the splice lemmas |
| `PageHeap.Shm.ReadN` | Executor/connect/examples/shm_statesync.rs:352-377 | the next n bytes across page boundaries, or nothing when the chain ends first |
| `PageHeap.Shm.ReadChain` | Executor/py_guest/python/shm.py:203-245 | reading a chain decodes its bytes |
| `PageHeap.Shm.Skip` | Executor/py_guest/python/shm.py:278-295 | moves the position exactly n bytes on, or reports that the chain ends first |
| `PageHeap.Shm.CountChain` | Executor/py_guest/python/shm.py:250-304 | the counting walk counts the records of the chain's bytes |
| `RecordLog.RunAppends` | Executor/py_guest/python/shm.py:309-355 | exactly the longest beginning of any sequence of appends whose pages fit the memory is stored; each slot reads as exactly its own records of it, in order, with no trace of a torn one |
| `RecordLog.AppendsThenRead` | Executor/py_guest/python/shm.py:203-355 | from a formatted file of any size: all appends succeed if and only if the pages of all slots fit, otherwise the longest beginning that fits is kept; read and count return exactly a slot's (origin, payload) list of it |
| `RecordLog.LongestUnique` | Executor/py_guest/python/shm.py:309-355 | the longest beginning that fits is unique |
| `RecordLog.LogPages` | Executor/py_guest/python/shm.py:309-355 | the bump pointer is a function of the history: one page for every 4084 encoded bytes of a slot, rounded up |
| `RecordLog.SpliceThenRead` | Executor/connect/examples/shm_statesync.rs:311-326 | after a splice dst's records are its own followed by src's, and src's are unchanged |
| `Pipeline.Window` | Executor/py_guest/python/shm.py:182-194 | the read window lies inside the records read |
| `Pipeline.StepInv` | Executor/host/src/runtime/dag_runner/pipeline.rs:787-868 | every step of the host and of every worker keeps the pipeline invariant |
| `Pipeline.TakeExact` | Executor/py_guest/python/shm.py:182-194 | whatever the producer appended meanwhile, a consumer's window is exactly its producer's batch of the round |
| `Pipeline.BatchesExact` | README.md:68-79 | in every reachable state the batches taken equal those of sequential rounds and concatenate to a prefix of what was produced |
| `Pipeline.PreviousTick` | README.md:68-79 | in every run, the batch a consumer takes on a tick is what its producer's slot gained between the start of the tick before and the start of this one |
| `Pipeline.RunComplete` | Executor/host/src/runtime/dag_runner/pipeline.rs:787-958 | after the last tick every slot holds the batches of all rounds, in order |
| `Pipeline.NeverStuck` | Executor/host/src/runtime/dag_runner/pipeline.rs:787-868 | some step is enabled until all ticks are over |
| `Pipeline.StepProgress` | Executor/host/src/runtime/dag_runner/pipeline.rs:787-868 | every step ends a tick, starts one or does one unit of its work, so runs terminate |
| `StreamStages.Store.Source` | Executor/py_guest/python/stream_pipeline.py:22-25 | appends the round's twenty records and nothing else |
| `StreamStages.Store.Filter` | Executor/py_guest/python/stream_pipeline.py:28-39 | appends the even items of the window, advances the cursor to its end |
| `StreamStages.Store.Transform` | Executor/py_guest/python/stream_pipeline.py:42-47 | appends every window record with its mark, advances the cursor |
| `StreamStages.Store.Sink` | Executor/py_guest/python/stream_pipeline.py:50-64 | appends one summary for a non-empty window, advances the cursor |
| `StreamStages.RoundBatch` | Executor/py_guest/python/stream_pipeline.py:1-16 | the four stages turn round r into one summary with count 10 and sum 10000*r+90 |
| `StreamStages.SinkReports` | Executor/py_guest/python/stream_pipeline.py:1-64 | under every interleaving a completed run's sink slot holds exactly those summaries, round by round |
| `Shard.RunSplit` | Executor/host/src/shard.rs:34-80 | n shards of whole lines that concatenate to the input; each smaller than the quota plus the longest line, the last within the quota; refuses only n = 0 |
| `Shard.LongestAttained` | Executor/host/src/shard.rs:34-80 | the longest-line bound is the length of an actual line |
| `Shard.MergeConcat` | Executor/host/src/shard.rs:323-330 | joins the partials in order |
| `Shard.SplitThenMerge` | Executor/host/src/shard.rs:34-80 | splitting and concatenating give the input back |
| `MergeSum.PrintParse` | Executor/host/src/shard.rs:257-289 | a printed `key: count` line parses back to the same pair |
| `MergeSum.ParsedKey` | Executor/host/src/shard.rs:257-275 | every key a line can produce prints safely |
| `MergeSum.FoldConcat` | Executor/host/src/shard.rs:308-320 | folding is a homomorphism from concatenation to addition of counters |
| `MergeSum.FoldTotals` | Executor/host/src/shard.rs:308-320 | each counter is the sum of its key's counts, modulo 2^64 |
| `MergeSum.SortedAscending` | Executor/host/src/shard.rs:282-289 | the output lists every key once, in ascending order |
| `MergeSum.MergedParses` | Executor/host/src/shard.rs:282-320 | the merged text parses back to the folded counters |
| `MergeSum.GroupingIndependent` | Executor/host/src/shard.rs:282-320 | merging the merges of any grouping equals merging all partials at once |
| `MergeSum.OrderIndependent` | Executor/host/src/shard.rs:282-320 | the order of the partials does not matter |
| `MergeSum.FoldKeyNums` | Executor/host/src/shard.rs:308-320 | the nested loops compute that fold |
| `MergeSum.MergePartials` | Executor/host/src/shard.rs:282-289 | the reducer prints the folded counters in key order |
| `Staging.BuildPlan` | NodeAgent/agent/src/coordinator.rs:1014-1040 | the plan lists exactly the worker's non-empty windows, laid out back to back |
| `Staging.WriteFile` | NodeAgent/agent/src/coordinator.rs:1153-1171 | chunks of at most 2^30 bytes extend the filled prefix by exactly the file's window |
| `Staging.WritePlan` | NodeAgent/agent/src/coordinator.rs:1153-1171 | the writes tile the receive buffer with no gap or overlap, and it ends up as the worker's shares |
| `Staging.Extract` | NodeAgent/agent/src/worker.rs:454-467 | the worker cuts the buffer back into exactly its shares |
| `Staging.StageWorker` | NodeAgent/agent/src/coordinator.rs:987-1171 | end to end, the worker's files equal its windows byte for byte; refused only above 4 GiB |
| `Reservation.CoordinatorState.PlacementOrder` | NodeAgent/agent/src/coordinator.rs:51-67 | a permutation of the live nodes, scored workers first in score order, the coordinator last |
| `Reservation.CoordinatorState.ReserveNode` | NodeAgent/agent/src/coordinator.rs:72-78 | reserves the preferred node if free, else the first free one, and nothing else |
| `Reservation.CoordinatorState.ReleaseNode` | NodeAgent/agent/src/coordinator.rs:80-82 | frees exactly that node |
| `Reservation.PickSpec` | NodeAgent/agent/src/coordinator.rs:72-78 | a node is found if and only if one is free; it is live and free; the preferred one goes first |
| `Reservation.CoordinatorLast` | NodeAgent/agent/src/coordinator.rs:46-67 | the coordinator is the first free node only when every other live node is busy |
| `Reservation.RunExclusive` | NodeAgent/agent/src/placed.rs:112-146 | over every interleaving the reserved set is exactly what live jobs hold, and no two hold the same node |
| `Reservation.AllReleased` | NodeAgent/agent/src/placed.rs:143-146 | once all jobs have ended, by success, failure or timeout, nothing is reserved |
| `Reservation.ReserveSucceeds` | NodeAgent/agent/src/placed.rs:112-130 | a waiting job's next try succeeds if and only if some of its live nodes is held by no job |
| `Base64.EncodeBytes` | NodeAgent/agent/src/protocol.rs:225-239 | the chunk loop computes the encoding |
| `Base64.DecodeText` | NodeAgent/agent/src/protocol.rs:241-264 | the shift loop computes the decoding, with an error exactly for a foreign character |
| `Base64.RoundTrip` | NodeAgent/agent/src/protocol.rs:225-264 | decoding an encoding gives the bytes back |
| `Base64.EncodedWellFormed` | NodeAgent/agent/src/protocol.rs:225-239 | padded length and alphabet of section 4 of RFC 4648 |
| `Base64.Push` | NodeAgent/agent/src/protocol.rs:257-262 | the accumulator stays below 2^bits with fewer than eight bits pending |

## Left out

- Dataflow into a Func whose dep is on another machine: its argument is not rewritten to the recv slot, so the meaning theorem covers `upstream_nodes` kinds and Output.
- EndToEnd.PartitionedDataflow: assumes that explicit references name deps, that no two producers of a machine share the slot of one that is read or sent, that no annotation contradicts the slot its node records for a local Output, that no producer hits a transfer, and that frees come in turn; `SlotClash`, `FreeOrder` and `FreedExample` show for the last three why, and say exactly when they hold. I/O and stream slots share one number space here, and a transfer is identified by its source and destination rather than by queue order.
- ClusterRun.DataflowPreserved: the same assumptions, as `ClusterRun.Sound` and `ClusterRun.Timely`.
- The executor's own reclamation after a wave (routed upstream slots, Input, Output and recv slots after their last reader): a value stays until it is overwritten or a FreeSlots node empties its slot. Waves: a run is any order the lists allow.
- The slots a fan-out source fills for its consumers, which its guest function writes; only the slot it is annotated with is written here.
- `upstream_nodes` on kinds that have no use for `upstream` (Input, Func, Output, StreamPipeline, FreeSlots).
- The `io` list of a FreeSlots node, which the partitioner never emits.
- Name collisions between generated and user names, JSON shape errors, barrier groups, hint policies and log output of the partitioner.
- Rounding and NaN of `f64`, the random placement policy, and 32-bit wrap-around of slot numbers.
- Page-level races between Python writers: an append is one atomic step of the pipeline machine; the reader's snapshot is taken in one step, but the producer may append before and after it.
- Page sizes other than 4 KiB, growth of the shared-memory file, mmap, free lists and page reclamation.
- PageHeap.Shm.AllocPage: the Rust allocator has already advanced the bump pointer when it refuses; the Python one has no capacity test and fails only when the new bump no longer fits 32 bits, which is this model with a memory of 2^32 - 1 bytes.
- The RDMA prefetch and double buffering of a pipeline, the atomic registry, and the Rust guest's stages.
- Staging of empty windows, whose slice is rewritten although nothing is sent.
- A thread that panics between reserve and release, and the contents of a dispatch.
- Files that cannot be opened or are not UTF-8; the `wordcount`, `counters` and `topk` reducers; the benchmarks and the image, ML, FINRA and TF-IDF workloads, which would only add application code.
