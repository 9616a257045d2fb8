# A verified model of the library-call sandbox

The repository compiles a program's control flow into an automaton of library
calls and lets the kernel enforce that automaton. This project models the two
halves and the listing that numbers the library functions, and proves what each
half promises:

* **The packed automaton and its monitor** (`PoolLayout`, `PoolWalk`, `MemGraph`,
  `Automaton`, `Sandbox`). `memgraph.c` allocates node and edge records into one
  flat 1 MiB pool, checks a pool by walking over its records, and runs the
  automaton by scanning raw records. The pool is an array of 64-bit words, the
  static variables are the fields of the class `MemGraph`, and pointers are word
  indices. The main result is a refinement: a graph built record by record,
  finalized, copied into a kernel pool, verified and stepped goes, for every
  sequence of calls, exactly through the states of the abstract automaton
  (`Sandbox.Enforce`).
* **The graph compiler** (`CallGraphs`, `LibcCallgraph`, `Expansion`,
  `ExpansionLoop`, `ExpansionTraces`, `Connectivity`, `Trails`, `Contraction`,
  `MergeOrders`, `VisitOrders`, `PassOrders`, `CleanVisits`, `CleanPasses`,
  `MergeExamples`, `MergeLoops`, `Traces`, `FunctionCompiler`, `ModuleGraph`).
  Basic blocks become chains of call edges, then vertices joined by control edges
  are merged until no control edge is left. `LibcCallgraph` is a class over ids
  that is proved against a graph by names. Every merge loop records its merges in
  a ghost log, and the theorems are about every log such a loop can produce.
* **The function listing** (`Decimals`, `Listing`): what `LibcFuncDump.cpp`
  prints, `LibcCallGraphUtils.h` reads back.

Vocabulary of the compiler part. A merge `(l, r)` is the call
`combine_vertex(l, r)`. *Silent* edges are the control edges and, in the
module's loop, also the "user:" edges. A run is *proper* if no vertex was merged
with itself, and *clean* if every merge also lost nothing: no self-loop of `r`
vanished and no two edges with different labels fell on the same pair.
`Rep(log, x)` is the vertex that stands for `x` after the merges of the log. A
*visit* merges all control neighbours of one vertex into it, in some order; the
contraction of a function's graph is a run of visits, and, more exactly, of passes
in which every vertex has one turn (`PassOrders.Reached`). A *straight cycle* is a
cycle of control edges, directions ignored, that runs straight through one of its
vertices, in by one edge and out by the next; a control edge from a vertex to itself
and two opposite ones between two vertices count as such.

## What the code does that its documentation does not say

* The monitor uses state 0 for "no transition", so a call along an edge back to
  the start node is refused (`Automaton.ReturnToStartIsRefused`). A call sequence
  is let through if and only if the graph has a walk that spells it without
  entering state 0 again (`Automaton.MonitorRunIsWalk`).
* The check of line 320 of `memgraph.c` looks at the word behind a node that has
  no edges. In a pool built by `alloc_node` that word is outside only when the
  last node has no edges and its record ends exactly at the end of the pool
  (`MemGraph.LookAheadExactly`).
* In the kernel build a pool that fails verification is reported, and the
  monitor is reset all the same; nothing is claimed of it then.
* `verify_graph` does not look at edge targets. No call sequence leads the monitor
  out of the graph if and only if the first edges of every node it can reach lead,
  after the conversions to int and back, to nodes (`Automaton.ConfinedExactly`).
  `Sandbox.EscapingPool` builds a pool that verifies and has such an edge.
* The merge loops can pick a vertex with a control edge to itself, and merging a
  vertex with itself deletes it. A loop of two blocks without calls disappears
  completely, in whatever order it is contracted (`MergeExamples.EmptyLoopVanishes`).
  No order of visits ever does this if there is no straight cycle; on graphs whose
  call edges join different control components, it is so only then
  (`VisitOrders.EveryVisitOrderProperIff`). Two blocks that branch to the same two
  blocks are harmless, although their control edges are no forest
  (`MergeExamples.DiamondIsSafe`). That the visits come in passes can also make a
  straight cycle harmless (`PassOrders.PassesAreFewer`).
* A merge gives the exact quotient if and only if it is clean
  (`Contraction.MergeIsQuotient`). Otherwise a call can be lost, depending on the
  order (`MergeExamples.LoopCallDependsOnOrder`). The passes of the loop lose nothing,
  in whatever order vertices and neighbours come, if and only if the graph is
  *collapsible* (`CleanPasses.EveryOrderCleanIffCollapsible`):
  there is no straight cycle; calls between the same two control components carry one
  label; from the target of a call inside a component control edges lead back to its
  source; and whatever vertices are visited first, a call that has become a loop at the
  target of a control edge (w, v) is carried by a call into w, from w itself or from
  what has become v. On graphs whose call edges join different components only the
  first two count (`CleanPasses.SeparatedIsCollapsible`). The two blocks that branch to
  the same two blocks are such a graph (`MergeExamples.DiamondIsCollapsible`).
* If `combine_vertex` were applied to the ends of silent edges one by one, in any order,
  nothing would be lost exactly on *contractible* graphs
  (`MergeOrders.EveryOrderCleanIffContractible`): the silent edges form a forest, calls
  between the same components carry one label, the silent path between the ends of a
  call leads back from its target, and the loop it becomes is carried over every silent
  edge beyond. These graphs are collapsible (`CleanPasses.ContractibleIsCollapsible`),
  but not the other way round.

## Model

| member | source | states |
|---|---|---|
| `PoolLayout.FitsExactly` | kernel/e0256-sandboxing/memgraphlib/definitions.h:4-48 | the records of a graph take 88 + 24 (nodes + edges) bytes with the header, and fit the 1 MiB pool exactly when there are at most 43687 of them |
| `PoolLayout.RecordsDisjoint` | kernel/e0256-sandboxing/memgraphlib/memgraph.c:194-228 | the records of different nodes never overlap |
| `PoolLayout.GraphSnoc` | kernel/e0256-sandboxing/memgraphlib/memgraph.c:194-228 | writing one node record and its edges behind a graph in memory, and nothing inside it, leaves exactly the longer graph in memory |
| `PoolLayout.DecodeUnique` | kernel/e0256-sandboxing/memgraphlib/memgraph.c:275-294 | memory holds at most one graph of a given number of nodes at a given place: decoding has one answer |
| `PoolLayout.ToInt32` | kernel/e0256-sandboxing/memgraphlib/memgraph.c:313-332 | the int that the monitor returns for an unsigned long is congruent to it modulo 2^32 |
| `PoolWalk.VerdictsExclude` | kernel/e0256-sandboxing/memgraphlib/memgraph.c:275-295 | "all records good", "first bad record is a node" and "first bad record is an edge" exclude each other |
| `PoolWalk.VerdictsCover` | kernel/e0256-sandboxing/memgraphlib/memgraph.c:275-295 | if every record the walk reaches lies inside the pool, one of the three verdicts applies |
| `PoolWalk.GoodWalkByWords` | kernel/e0256-sandboxing/memgraphlib/memgraph.c:275-295 | all records are good if and only if there are places, the first at the table offset and each behind the edges that the record before it claims, with a node magic and that many edge magics at each |
| `PoolWalk.BadNodeByWords` | kernel/e0256-sandboxing/memgraphlib/memgraph.c:278-281 | the walk stops at a node if and only if good records lead to a place, in the list, whose word is not the node magic |
| `PoolWalk.BadEdgeByWords` | kernel/e0256-sandboxing/memgraphlib/memgraph.c:286-293 | it stops at an edge if and only if good records lead to a node magic with a claimed edge without its magic |
| `PoolWalk.ReadNode` | kernel/e0256-sandboxing/memgraphlib/memgraph.c:278-293 | a node magic followed by as many edge magics as the record counts is the record of some node |
| `PoolWalk.GoodWalkInside` | kernel/e0256-sandboxing/memgraphlib/memgraph.c:276-294 | over the records of a graph in memory the walk never leaves the pool |
| `Automaton.FirstMatchWhere` | kernel/e0256-sandboxing/memgraphlib/memgraph.c:325-331 | the scan finds the first edge that carries the call, and no earlier edge does |
| `Automaton.StepFollows` | kernel/e0256-sandboxing/memgraphlib/memgraph.c:313-332 | a step enters a state other than 0 exactly along the first matching edge, and refuses exactly when there is none or it leads to 0 |
| `Automaton.MonitorRunIsWalk` | kernel/e0256-sandboxing/memgraphlib/memgraph.c:313-351 | a call sequence is let through with a given sequence of states if and only if these are a walk of the graph along first matching edges that spells the calls and never enters state 0 |
| `Automaton.StoppedMeansRefused` | kernel/e0256-sandboxing/sandboxing.c:81-87 | what was accepted before a program is killed is the longest prefix of its calls that the automaton accepts |
| `Automaton.ReturnToStartIsRefused` | kernel/e0256-sandboxing/memgraphlib/memgraph.c:339-348 | a call along a first edge back to state 0 is a walk of the graph, and the monitor stops it |
| `Automaton.ConfinedExactly` | kernel/e0256-sandboxing/memgraphlib/memgraph.c:334-351 | no call sequence leads the monitor out of the graph if and only if the first edges of every node it can reach lead to nodes once their targets have been converted |
| `Automaton.ConfinedByClosedSet` | kernel/e0256-sandboxing/memgraphlib/memgraph.c:334-351 | and if and only if some set of nodes contains the start and no step but a refusal leaves it |
| `Automaton.InsideIsConfined` | kernel/e0256-sandboxing/memgraphlib/memgraph.c:334-351 | graphs with all targets inside are never left |
| `MemGraph.LookAheadExactly` | kernel/e0256-sandboxing/memgraphlib/memgraph.c:313-323 | the word looked at behind the current record is inside a built pool for every node, if and only if there are fewer than 43687 records or the last node has an edge |
| `MemGraph.FinalizedPoolIsGood` | kernel/e0256-sandboxing/memgraphlib/memgraph.c:234-245 | setting the flag makes a built pool pass verification, and it still holds its graph |
| `MemGraph.MemGraph.CreatePool` | kernel/e0256-sandboxing/memgraphlib/memgraph.c:44-58 | word by word: magic, version, size and table offset in their places, every other word of a fresh pool 0, so that it is not finalized; the bump pointer is behind the header |
| `MemGraph.MemGraph.GrowListings` | kernel/e0256-sandboxing/memgraphlib/memgraph.c:198-204 | the lookup table gets the size the next node needs, and earlier entries survive the reallocation |
| `MemGraph.MemGraph.InOrderHasRoom` | kernel/e0256-sandboxing/memgraphlib/memgraph.c:198-212 | ids given in order always fall inside the lookup table, for any number of nodes |
| `MemGraph.MemGraph.AllocNode` | kernel/e0256-sandboxing/memgraphlib/memgraph.c:194-228 | the words of the new record are the magic, the id and the count, and for each edge the magic, `libcalls[i]` and `successors[i]`; the table entry is written, the bump pointer moves by the record's size, and no other word of the pool but the node count changes; a negative count writes a node without edges |
| `MemGraph.MemGraph.AddNode` | kernel/e0256-sandboxing/memgraphlib/memgraph.c:194-228 | on a pool that holds a graph and is not finalized, alloc_node gives such a pool that holds the graph with the node added, edge `i` carrying `libcalls[i]` to `successors[i]`; the lookup table stays the graph's table when ids come in order |
| `MemGraph.MemGraph.FinalizeGraph` | kernel/e0256-sandboxing/memgraphlib/memgraph.c:234-245 | the lowest byte of the flag word becomes 1; every other byte and word stays |
| `MemGraph.MemGraph.VerifyGraph` | kernel/e0256-sandboxing/memgraphlib/memgraph.c:254-296 | -1 without a pool; otherwise each of the five codes is returned if and only if its condition holds, the record codes for the first bad record in walk order; on 1 the pool holds a graph and the table is its table |
| `MemGraph.WalkRecords` | kernel/e0256-sandboxing/memgraphlib/memgraph.c:275-295 | the loops return 1 with the decoded graph and its table, or the verdict of the first bad record |
| `MemGraph.WalkEdges` | kernel/e0256-sandboxing/memgraphlib/memgraph.c:286-293 | the edge loop succeeds if and only if every claimed edge carries the edge magic, and then stops behind the last one |
| `MemGraph.WriteEdges` | kernel/e0256-sandboxing/memgraphlib/memgraph.c:215-224 | the three words of edge `i` are the magic, `libcalls[i]` and `successors[i]`, for every `i`, and nothing else is written |
| `MemGraph.MemGraph.InitializeGraph` | kernel/e0256-sandboxing/memgraphlib/memgraph.c:81-103 | the buffer is copied word by word over the front of the pool, which is created if there was none, the words behind it stay, and it is accepted if and only if the pool then verifies; without a buffer a fresh process starts an empty graph that is not finalized |
| `MemGraph.MemGraph.ResetProgstate` | kernel/e0256-sandboxing/memgraphlib/memgraph.c:308-311 | the monitor is in state 0 at the first table entry |
| `MemGraph.MemGraph.IsStateTransitionValid` | kernel/e0256-sandboxing/memgraphlib/memgraph.c:313-332 | scanning the raw records gives the automaton's step, converted to int |
| `MemGraph.MemGraph.TransitionToState` | kernel/e0256-sandboxing/memgraphlib/memgraph.c:334-351 | the monitor enters the automaton's step, converted to int and back, and returns it, or returns -5 and changes nothing; the step must have an entry in the lookup table |
| `Sandbox.Sandbox.SandboxInit` | kernel/e0256-sandboxing/sandboxing.c:8-53 | an empty buffer is refused with -EINVAL; otherwise the kernel's pool is the copied image and the monitor is reset, loaded if the image verifies |
| `Sandbox.Sandbox.DummyCall` | kernel/e0256-sandboxing/sandboxing.c:72-91 | the state announced by the check is the state the move enters and returns, provided it has an entry in the lookup table; without one announced the program is killed and the state is unchanged |
| `Sandbox.BuildPool` | kernel/e0256-sandboxing/memgraphlib/tests/test_memgraph.cc:290-311 | for every graph with ids in order that fits, `verify_graph` returns 1 on the built and finalized pool, which decodes from its table offset to the graph, and the rebuilt table has the offset of every allocated node |
| `Sandbox.FinishPool` | kernel/e0256-sandboxing/memgraphlib/tests/test_memgraph.cc:305-311 | finalizing and verifying a filled pool leaves the monitor loaded with the very graph that was allocated |
| `Sandbox.VerifyUnfinished` | kernel/e0256-sandboxing/memgraphlib/tests/test_memgraph.cc:98-101 | any graph that fits, the empty one included, gets -5 from `verify_graph` when it has been built record by record and is not finalized |
| `Sandbox.Enforce` | kernel/e0256-sandboxing/memgraphlib/tests/test_memgraph.cc:283-340 | build, hand over, verify, reset and call: for every monitorable graph and every call sequence the states and the verdict are those of the abstract automaton |
| `Sandbox.Drive` | kernel/e0256-sandboxing/memgraphlib/memgraph.c:305-351 | over any mix of checks, moves and resets that does not lead out of the graph the state stays a node and the current record is that node's |
| `Sandbox.LastOperation` | kernel/e0256-sandboxing/memgraphlib/memgraph.c:305-351 | after any operations a check changes nothing, a reset leads to state 0, and a move enters the automaton's step or changes nothing |
| `Sandbox.CallsConfineOperations` | kernel/e0256-sandboxing/memgraphlib/memgraph.c:305-351 | a graph that no call sequence leads out of is not left by any mix of checks, moves and resets either |
| `Sandbox.EscapingPool` | kernel/e0256-sandboxing/memgraphlib/memgraph.c:254-296 | a pool that verifies, and a call that would have the monitor read a table entry that does not exist |
| `CallGraphs.CombineWithItself` | GraphLib/GraphLib.cpp:59-88 | combining a vertex with itself removes it |
| `CallGraphs.CombineWhole` | GraphLib/GraphLib.cpp:59-88 | combining changes nothing if either name is unknown; otherwise exactly the right vertex goes, edges not at it keep their labels, its edges move to the left vertex where that has none, and nothing else appears |
| `CallGraphs.InsertIsUnion` | GraphLib/GraphLib.cpp:204-213 | inserting a graph is a union by name in which existing edges keep their labels; inserting it again changes nothing |
| `LibcCallgraph.MirrorCombine` | GraphLib/GraphLib.cpp:70-86 | whatever order the edges are visited in, the tables after the loop and the removal are those of the merged graph by names |
| `LibcCallgraph.NoNewEdgeAtRemoved` | GraphLib/GraphLib.cpp:70-83 | unless the removed vertex has a self-loop, the loop adds no edge at it, so visiting added edges would change nothing |
| `LibcCallgraph.LibcCallgraph.AddVertex` | GraphLib/GraphLib.cpp:9-19 | adds a new name with a fresh id, or returns the id it has; the name index stays a bijection |
| `LibcCallgraph.LibcCallgraph.AddEdge` | GraphLib/GraphLib.cpp:21-33 | adds the edge between two known names unless there is one |
| `LibcCallgraph.LibcCallgraph.RemoveEdge` | GraphLib/GraphLib.cpp:34-46 | removes the edge between two names and nothing else |
| `LibcCallgraph.LibcCallgraph.RemoveVertex` | GraphLib/GraphLib.cpp:48-57 | removes a name, its index and call entries and its incident edges |
| `LibcCallgraph.LibcCallgraph.CombineVertex` | GraphLib/GraphLib.cpp:59-88 | nothing changes if either name is unknown; otherwise, over ids and in any edge order, the result is the merged graph by names, from which only the right vertex is gone; the name index stays a bijection |
| `LibcCallgraph.LibcCallgraph.GetNeighbors` | GraphLib/GraphLib.cpp:147-158 | lists the successors of a vertex, each once |
| `LibcCallgraph.LibcCallgraph.GetControlEdgeNeighbors` | GraphLib/GraphLib.cpp:160-173 | lists the successors over control edges, each once |
| `LibcCallgraph.LibcCallgraph.GetUserEdgeNeighbors` | GraphLib/GraphLib.cpp:176-190 | lists the successors over edges whose label starts with "user:", each once |
| `LibcCallgraph.LibcCallgraph.GetOutgoingEdges` | GraphLib/GraphLib.cpp:134-145 | each label is listed as often as there are edges from the vertex that carry it |
| `LibcCallgraph.LibcCallgraph.GetVertices` | GraphLib/GraphLib.cpp:193-200 | lists the live names, each once |
| `LibcCallgraph.LibcCallgraph.InsertGraph` | GraphLib/GraphLib.cpp:204-213 | vertex by vertex and edge by edge, in any order, the result is the union by name |
| `Expansion.ShapeChain` | LLVM/LibcCallGraphGen.cpp:309-317 | one call adds one new vertex and one call edge at the end of its block's chain, and disturbs nothing else |
| `Expansion.ShapeMove` | LLVM/LibcCallGraphGen.cpp:323-328 | one neighbour step replaces the block edge by a control edge from the end of the chain, and disturbs nothing else |
| `Expansion.ControlEdgesConserved` | LLVM/LibcCallGraphGen.cpp:321-330 | the expansion has as many control edges as the block graph has edges: none is lost, and no two fall together |
| `Expansion.ExpandedEdges` | LLVM/LibcCallGraphGen.cpp:286-330 | the closed form has one solution: whatever the order of blocks, the expansion has the same vertices, edges and labels |
| `ExpansionLoop.DashFreeNamesAreFresh` | LLVM/LibcCallGraphGen.cpp:310-310 | if no block name contains a dash, chain vertices differ from blocks and from each other |
| `ExpansionLoop.BlockNeighbors` | LLVM/LibcCallGraphGen.cpp:297-298 | when a block's turn comes, its successors in the expanded graph are still those of the block graph |
| `ExpansionLoop.ExpandBlock` | LLVM/LibcCallGraphGen.cpp:293-330 | one block gets its whole chain, the exit node moves to its end if it was this block, and all its successors are reached from there |
| `ExpansionLoop.ExpandBBGraph` | LLVM/LibcCallGraphGen.cpp:277-346 | call `j` of block `b` leads, with its label, to the vertex named `b-libc_j`, or `b-user_j` for a "user:" call, `j` in decimal; one control edge per block edge leads from the end of the block's chain; nothing else is there, so it is one vertex and one edge more per call; the exit node is the end of the original exit's chain |
| `ExpansionTraces.EdgeFromChain` | LLVM/LibcCallGraphGen.cpp:309-330 | inside a chain only the next call leads on, and from its end only the block's own successors |
| `ExpansionTraces.ExpansionKeepsTraces` | LLVM/LibcCallGraphGen.cpp:293-330 | between two blocks the block walks and the paths of the expanded graph to the end of the last chain spell exactly the same call sequences, self-looping blocks included |
| `ExpansionTraces.CompiledTraces` | LLVM/LibcCallGraphGen.cpp:277-403 | through expansion and a contraction that is clean, or any contraction of a collapsible graph, every call sequence of a function is kept |
| `Connectivity.ForestMerge` | LLVM/LibcCallGraphGen.cpp:374-393 | merging the ends of one pair of a forest leaves a forest |
| `Connectivity.ForestNoCollision` | LLVM/LibcCallGraphGen.cpp:374-393 | and no two of its pairs fall together |
| `Contraction.MergeIsQuotient` | GraphLib/GraphLib.cpp:59-88 | a merge along an edge gives exactly the labelled edges of the graph with the two ends identified, if and only if it is clean |
| `Contraction.VertexLostWhere` | LLVM/LibcCallGraphGen.cpp:383-390 | for every log, merges of a vertex with itself and stale entries included: a vertex that is lost was the right end of an entry whose two ends were both there |
| `Contraction.VerticesOnlyGo` | LLVM/LibcCallGraphGen.cpp:383-390 | for every log: no vertex is added, and each entry whose ends are there removes its right end for good |
| `Contraction.EdgeUntouched` | GraphLib/GraphLib.cpp:59-88 | for every log: an edge whose ends are in no entry keeps its label |
| `Contraction.ProperRunKeepsReachability` | LLVM/LibcCallGraphGen.cpp:374-393 | in a proper run, label collisions included: every edge survives between representatives or inside one, every surviving edge has an original one with its label, and only vertices joined by silent edges share a representative |
| `Contraction.CleanRunIsQuotient` | LLVM/LibcCallGraphGen.cpp:370-394 | a complete clean run, in any order, ends in the quotient by silent components: representatives agree exactly for connected vertices, and the edges are exactly the call edges between components |
| `Contraction.OrderDoesNotMatter` | LLVM/LibcCallGraphGen.cpp:374-393 | two complete clean runs end in the same graph up to the choice of representatives |
| `Contraction.ForestRunIsProper` | LLVM/LibcCallGraphGen.cpp:374-393 | if the silent edges form a forest, no run the loops can make merges a vertex with itself |
| `Contraction.ContractibleMergeIsClean` | GraphLib/GraphLib.cpp:59-88 | in a contractible graph every merge along a silent edge loses nothing, calls inside a component included |
| `Contraction.ContractibleMerge` | GraphLib/GraphLib.cpp:59-88 | and leaves a contractible graph |
| `Contraction.ContractibleRunIsClean` | LLVM/LibcCallGraphGen.cpp:374-393 | so every run the loops can make is clean: the condition is on the graph before the run |
| `MergeOrders.EveryOrderProperIffForest` | GraphLib/GraphLib.cpp:59-88 | for merges along silent edges one by one, visits left aside: when call edges join different components, no order merges a vertex with itself if and only if the silent edges form a forest |
| `MergeOrders.EveryOrderCleanIffContractible` | GraphLib/GraphLib.cpp:59-88 | for `combine_vertex` applied along silent edges one by one: for every graph, all orders are clean if and only if the graph is contractible |
| `MergeOrders.WrongDirection` | GraphLib/GraphLib.cpp:59-88 | if all these orders are clean, each silent edge between the ends of a call edge points from its target back to its source |
| `MergeOrders.LoopNeedsCarrier` | GraphLib/GraphLib.cpp:59-88 | and a call edge whose loop would be moved over a silent edge is carried by another call edge |
| `MergeOrders.CleanRunNeedsOneLabel` | LLVM/LibcCallGraphGen.cpp:374-393 | no complete run in any order is clean unless calls between the same two components carry one label |
| `VisitOrders.VisitRunIsProper` | LLVM/LibcCallGraphGen.cpp:370-394 | if no cycle of control edges, directions ignored, runs straight through one of its vertices, no run of visits merges a vertex with itself, and none makes such a cycle; call edges may be anywhere |
| `VisitOrders.EveryVisitOrderProperIff` | LLVM/LibcCallGraphGen.cpp:370-394 | when call edges join different components, this condition is also necessary: otherwise some order of visits and of the neighbours in them merges a vertex with itself |
| `VisitOrders.BadVisits` | LLVM/LibcCallGraphGen.cpp:370-394 | any run of visits that leads to a graph with such a cycle can be continued until a vertex is merged with itself, as long as no silent edge can be lost to a call edge |
| `VisitOrders.ForestHasNoStraightCycle` | LLVM/LibcCallGraphGen.cpp:370-394 | forests have no such cycle |
| `PassOrders.ReachedIsVisitRun` | LLVM/LibcCallGraphGen.cpp:370-394 | the merges of any number of passes, in which each vertex has one turn in any order, are a run of visits |
| `PassOrders.PassesAreFewer` | LLVM/LibcCallGraphGen.cpp:370-394 | a graph with a straight cycle on which some order of visits merges a vertex with itself and no sequence of passes does |
| `CleanVisits.NoMixedMerge` | LLVM/LibcCallGraphGen.cpp:383-390 | while a vertex of a collapsible graph is being visited, no call edge falls on a control edge |
| `CleanVisits.CollapsibleVisitIsClean` | LLVM/LibcCallGraphGen.cpp:374-393 | a visit of a collapsible graph, in any order of the neighbours, is clean and leaves a collapsible graph |
| `CleanVisits.CollapsibleRunIsClean` | LLVM/LibcCallGraphGen.cpp:370-394 | on a collapsible graph every run of visits, in particular every run of the passes, is clean |
| `CleanPasses.EveryOrderCleanIffCollapsible` | LLVM/LibcCallGraphGen.cpp:370-394 | for every graph: all orders of the vertices in the passes and of the neighbours are clean if and only if the graph is collapsible, and the same for visits that need not come in passes |
| `CleanPasses.CyclePersists` | LLVM/LibcCallGraphGen.cpp:370-394 | no clean run gets rid of a directed cycle of control edges |
| `CleanPasses.NoShortcut` | LLVM/LibcCallGraphGen.cpp:374-393 | if all passes are clean, a vertex whose turn is to come has no control edge beside a longer directed path |
| `CleanPasses.CleanPassesNeedNoStraightCycle` | LLVM/LibcCallGraphGen.cpp:370-394 | clean passes are possible in all orders only without straight cycle, wherever the call edges are |
| `CleanPasses.CleanPassesNeedCallsLeadBack` | LLVM/LibcCallGraphGen.cpp:370-394 | and only if from the target of a call inside a component control edges lead back to its source |
| `CleanPasses.CleanPassesNeedLoopsCarried` | LLVM/LibcCallGraphGen.cpp:370-394 | and only if every call that visits can turn into a loop behind a control edge is carried over it |
| `CleanPasses.SeparatedIsCollapsible` | LLVM/LibcCallGraphGen.cpp:370-394 | when call edges join different components, collapsible means no straight cycle and one label |
| `CleanPasses.ContractibleIsCollapsible` | LLVM/LibcCallGraphGen.cpp:370-394 | graphs that lose nothing by merges one by one lose nothing by visits |
| `MergeExamples.DiamondIsCollapsible` | LLVM/LibcCallGraphGen.cpp:374-393 | two blocks that branch to the same two blocks lose nothing in any order of the passes, although they are not contractible |
| `MergeExamples.DiamondIsSafe` | LLVM/LibcCallGraphGen.cpp:374-393 | two blocks that branch to the same two blocks: no forest, and yet no order of visits merges a vertex with itself |
| `MergeExamples.EmptyLoopVanishes` | LLVM/LibcCallGraphGen.cpp:370-394 | two blocks that jump to each other without calls are contracted to the empty graph, in every order |
| `MergeExamples.LoopCallDependsOnOrder` | LLVM/LibcCallGraphGen.cpp:374-393 | for a loop that makes a call at every turn, one order of the vertices in a single pass keeps the call and another loses it |
| `MergeExamples.CallLoopNotContractible` | LLVM/LibcCallGraphGen.cpp:374-393 | this loop has a call inside its control component, and its control edges are a forest; that it is not contractible is due to the uncarried loop alone |
| `MergeExamples.CallLoopNotCollapsible` | LLVM/LibcCallGraphGen.cpp:374-393 | nor is it collapsible |
| `Traces.TracesSurvive` | LLVM/LibcCallGraphGen.cpp:370-394 | in a clean run every call trace is still one between the representatives |
| `Traces.TracesExactly` | LLVM/LibcCallGraphGen.cpp:370-394 | after a complete clean run the traces are exactly those of the original graph with silent edges open in both directions |
| `MergeLoops.MergeNeighbors` | LLVM/LibcCallGraphGen.cpp:383-390 | the loop over a list that may have become stale makes exactly the listed merges in order and removes at least one vertex; they are along silent edges as long as no vertex was merged with itself, and the exit node is the representative of the exit |
| `MergeLoops.ControlPass` | LLVM/LibcCallGraphGen.cpp:372-393 | every listed vertex has its turn; a pass that merges removes at least one vertex; one that does not leaves the graph alone, and it has no control edge |
| `MergeLoops.ConvertToLibcCallGraph` | LLVM/LibcCallGraphGen.cpp:355-403 | terminates after at most one pass more than there are vertices, without control edges; the recorded merges are those of such passes, hence a run of visits, and the result is their replay |
| `MergeLoops.VisitVertex` | LLVM/LibcCallGraphGen.cpp:443-480 | at one vertex all listed control neighbours are merged and then all "user:" neighbours of what that gives: either a vertex disappears or the vertex has no silent edge |
| `MergeLoops.ContractModuleGraph` | LLVM/LibcCallGraphGen.cpp:436-483 | the module's loop terminates by the same measure, with neither kind of edge left; its merges are those of passes in which each vertex has one turn, control before "user:" |
| `MergeLoops.ExitSurvives` | LLVM/LibcCallGraphGen.cpp:386-389 | the exit node is the representative of the original exit, and alive if the run was proper, in particular if the silent edges were a forest or, for a run of visits, had no straight cycle |
| `FunctionCompiler.CompileFunction` | LLVM/LibcCallGraphGen.cpp:277-403 | a block graph becomes a graph without control edges whose exit survives if the expanded graph has no straight cycle, and which keeps every call sequence if the expanded graph is collapsible |
| `ModuleGraph.Splice` | LLVM/LibcCallGraphGen.cpp:429-431 | the result is the graph after one call: the callee's graph inserted, a control edge to its entry and one from its exit to a neighbour of the calling vertex |
| `ModuleGraph.MainStays` | LLVM/LibcCallGraphGen.cpp:415-434 | of main's graph no vertex, edge or label is lost by the calls |
| `ModuleGraph.CalleeIsThere` | LLVM/LibcCallGraphGen.cpp:417-432 | every call has brought all vertices and pairs of its callee, with their labels unless main or an earlier call had the pair, an edge from the calling vertex to the entry, and one from the exit to a neighbour of that vertex |
| `ModuleGraph.VertexOrigin` | LLVM/LibcCallGraphGen.cpp:415-434 | every vertex is main's or an inserted callee's |
| `ModuleGraph.EdgeOrigin` | LLVM/LibcCallGraphGen.cpp:415-434 | every edge is main's or an inserted callee's, with its label, or one of the two control edges of a call |
| `ModuleGraph.CallIsKnown` | LLVM/LibcCallGraphGen.cpp:419-422 | each callee is called by main or by a function inserted before it |
| `ModuleGraph.MakesEvery` | LLVM/LibcCallGraphGen.cpp:417-422 | every "user:" label in the list of a vertex's outgoing edges is a call that is made |
| `ModuleGraph.SpliceVertex` | LLVM/LibcCallGraphGen.cpp:417-432 | exactly the "user:" edges that the vertex has at its turn are calls that are spliced in, once for each edge |
| `ModuleGraph.SpliceCallees` | LLVM/LibcCallGraphGen.cpp:415-434 | the result is main's graph with calls spliced in one after the other, and every "user:" edge of main is one of them |
| `ModuleGraph.ReplayLabels` | LLVM/LibcCallGraphGen.cpp:436-483 | merging makes no new labels, also when vertices are merged with themselves |
| `ModuleGraph.CombineLibcgGraph` | LLVM/LibcCallGraphGen.cpp:409-491 | main's graph with a call for each of its "user:" edges spliced in is contracted by passes over both kinds of silent edges; neither kind is left, and each label is one of main's or of an inserted callee's; the entry keeps main's name, the exit is the representative of main's exit, alive if the run was proper or the silent edges were a forest, and there is at most one pass more than spliced vertices |
| `Listing.PrintFunctionNames` | LibcListGen/LibcFuncDump.cpp:84-95 | exactly the named function symbols are printed, in order of their table entries, each as its index in decimal, a colon, its name and a newline |
| `Listing.PrintedLines` | LibcListGen/LibcFuncDump.cpp:84-95 | reading the text line by line gives these lines back, for newline-free names |
| `Listing.FileToMapReader.ReadFileToMap` | LLVM/LibcCallGraphUtils.h:48-70 | the lines are read into the map one after the other; a file that cannot be opened, or a line whose number cannot be converted, leaves the reader not loaded, with the entries of the lines before it in the map |
| `Listing.LinesFree` | LLVM/LibcCallGraphUtils.h:56-57 | no line contains a newline |
| `Listing.LinesExactly` | LLVM/LibcCallGraphUtils.h:56-57 | the lines, each with a newline behind it, are the text, but for the newline that the last line may lack |
| `Listing.LineWithoutColon` | LLVM/LibcCallGraphUtils.h:59-65 | a line without a colon changes nothing |
| `Listing.LineAtColon` | LLVM/LibcCallGraphUtils.h:58-62 | a line maps all that is behind its first colon to the number before it, or fails if that cannot be converted |
| `Listing.ReadLinesSnoc` | LLVM/LibcCallGraphUtils.h:57-67 | the last line is read into the map that the lines before it have made |
| `Listing.StoiParses` | LLVM/LibcCallGraphUtils.h:61-61 | `stoi` skips spaces, takes a sign and the longest run of digits, and is refused outside the range of int |
| `Listing.StoiRefuses` | LLVM/LibcCallGraphUtils.h:61-61 | and is refused without a digit |
| `Listing.ReadPrintedLine` | LLVM/LibcCallGraphUtils.h:58-62 | a printed line is read back as its index and its whole name, colons included |
| `Listing.ReadRendered` | LLVM/LibcCallGraphUtils.h:56-67 | reading a printed listing adds its entries in order, for any newline-free names |
| `Listing.IndexedLargest` | LLVM/LibcCallGraphUtils.h:60-62 | a name ends up with the largest index it is listed under, and other names are untouched |
| `Listing.PrintAndRead` | LLVM/LibcCallGraphUtils.h:78-97 | after the round trip a name is found exactly if it was listed, with its largest index, and otherwise has the value -1 |
| `Decimals.NumberOfDecimal` | LibcListGen/LibcFuncDump.cpp:92-92 | a printed number consists of digits and stands for the number |
| `Decimals.DecimalIsCanonical` | LibcListGen/LibcFuncDump.cpp:92-92 | it has no leading zero unless it is 0 |
| `Decimals.NumeralUnique` | LibcListGen/LibcFuncDump.cpp:92-92 | and is the only digit string without a leading zero that stands for the number |

## Left out

- LLVM IR walking, naming of blocks, injection of system calls, embedding of sections and the cleanup call: library calls without visible semantics; the model starts from a block graph and a call list per block.
- `GenerateInMemoryGraph`: its ids are hashes modulo 1000, so they are not in order, and the two arrays are handed over in exchanged order; nothing is claimed through it.
- Meaning of the splice of callee graphs: only calls that main's own vertices make at their turn are inlined, and the first listed neighbour, which can be any, is taken as the return point; which vertices, edges and labels are there before and after the merges is proved, call traces across functions are not.
- Insertion into the edge table while `combine_vertex` iterates over it: a snapshot of the edges is visited. This makes a difference only when the removed vertex has a self-loop.
- The graph library graaf is not part of this model; its operations are written out in `LibcCallgraph.dfy`.
- Splice: the callee's entry and exit names are those recorded for it; the entry is not updated when it is merged away, as in the source.
- VerifyGraph: table offsets that are not a multiple of 8 are excluded, because the pool is modelled by words.
- InitializeGraph: buffers larger than the pool are excluded, because the source clears that many bytes before it compares the sizes; buffers are whole words.
- SandboxInit: requires a header that verification accepts and at least one node, because the source then reads the first table entry; copying from user space and its failures, `kernel_buffer` management and `sandbox_cleanup` are not modelled.
- IsStateTransitionValid: required on a loaded graph; the branches for a wrong magic are in the method, but on such a graph only the second one is ever taken.
- ContractibleRunIsClean: gives a sufficient condition for one run, which can be clean by luck of the order on other graphs. The exact condition is given for one merge by `MergeIsQuotient`, and for all orders by `EveryOrderCleanIffCollapsible`.
- EveryOrderCleanIffContractible: speaks of merges one by one, which the loops cannot make in every order; for the loop that contracts a function `EveryOrderCleanIffCollapsible` gives the exact condition.
- EveryOrderProperIffForest: in the same way speaks of merges one by one; for runs of visits `EveryVisitOrderProperIff` gives the weaker condition.
- EveryVisitOrderProperIff: is about merging a vertex with itself, not about losing calls. The next visit may be to any vertex, while a pass gives each vertex one turn; for passes the condition is sufficient but not necessary (`PassesAreFewer` has the input). Call edges that join vertices of one component can swallow control edges; for such graphs only the sufficient half (`VisitRunIsProper`) is claimed. That no pass loses anything has its exact condition for all graphs in `EveryOrderCleanIffCollapsible`.
- ContractModuleGraph: the module's loop merges control neighbours and then "user:" neighbours; for it `ForestRunIsProper` and `ContractibleRunIsClean` are claimed, not the exact conditions for visits.
- ExpandBBGraph: requires non-empty call lists and edges labelled "control", which is what `runOnModule` builds; only one function is expanded at a time.
- Survival of the entry node by name: it is never updated on a merge; the theorems speak of its representative.
- `destroy_graph`, a second life of the static variables, more than one process, concurrent system calls and allocation failure.
- DOT output, printing, debug macros, ELF reading, `store_graph` and `load_graph`, `getLibraryCalls`.
