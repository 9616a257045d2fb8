/** One function from its block graph to its library call graph: expansion, then contraction. */
module FunctionCompiler {
  import opened CallGraphs
  import opened Contraction
  import opened Traces
  import opened LibcCallgraph
  import opened Expansion
  import opened ExpansionLoop
  import opened ExpansionTraces
  import opened VisitOrders
  import opened CleanVisits
  import opened MergeLoops

  /** Every call sequence of block walks of `g` is a call sequence of `h`, between the representatives. */
  ghost predicate KeepsBlockTraces(g: CallGraph, calls: CallLists, nm: Namer, h: CallGraph, log: Log) {
    forall b, c, tr | b in g.vertices && c in g.vertices && BlockWalkSpells(g, calls, b, c, tr) ::
      Spells(false, h, Rep(log, b), Rep(log, End(calls, nm, c)), tr)
  }

  /** ExpandBBGraph and ConvertBBGraphToLibcCallGraph for one function.  The exit node
      survives if no cycle of control edges runs straight through a vertex; no call sequence is lost if the
      expanded graph is collapsible. */
  method CompileFunction(bbGraph: LibcCallgraph, bbToLibcMap: CallLists, exitNode: Name)
    returns (libcCallGraph: LibcCallgraph, exit: Name, ghost x: CallGraph, ghost log: Log)
    requires bbGraph.Valid() && BlockGraph(bbGraph.value, bbToLibcMap, ChainNamer(bbToLibcMap))
    requires exitNode in bbGraph.value.vertices
    ensures fresh(libcCallGraph) && libcCallGraph.Valid() && Done(false, libcCallGraph.value)
    ensures Expanded(bbGraph.value, bbToLibcMap, ChainNamer(bbToLibcMap), x)
    ensures Recorded(false, x, End(bbToLibcMap, ChainNamer(bbToLibcMap), exitNode), libcCallGraph.value, exit, log)
    ensures VisitRun(x, log)
    ensures Proper(log) || NoStraightCycle(SilentPairs(false, x)) ==> exit in libcCallGraph.value.vertices
    ensures CleanRun(false, x, log) || Collapsible(x) ==>
              KeepsBlockTraces(bbGraph.value, bbToLibcMap, ChainNamer(bbToLibcMap), libcCallGraph.value, log)
  {
    var bbExpandedGraph, expandedExit := ExpandBBGraph(bbGraph, bbToLibcMap, exitNode);
    x := bbExpandedGraph.value;
    ghost var passes;
    libcCallGraph, exit, log, passes := ConvertToLibcCallGraph(bbExpandedGraph, expandedExit);
    ExitIsVertex(bbGraph.value, bbToLibcMap, ChainNamer(bbToLibcMap), x, exitNode);
    if Proper(log) || NoStraightCycle(SilentPairs(false, x)) {
      ExitSurvives(false, x, expandedExit, libcCallGraph.value, exit, log);
    }
    if CleanRun(false, x, log) || Collapsible(x) {
      TracesKept(bbGraph.value, bbToLibcMap, ChainNamer(bbToLibcMap), x, log);
    }
  }

  lemma ExitIsVertex(g: CallGraph, calls: CallLists, nm: Namer, x: CallGraph, b: Name)
    requires BlockGraph(g, calls, nm) && Expanded(g, calls, nm, x) && b in g.vertices
    ensures End(calls, nm, b) in x.vertices
  {
    assert ChainVertex(g, nm, AllCalls(calls), b, |CallsOf(calls, b)|, End(calls, nm, b));
  }

  lemma TracesKept(g: CallGraph, calls: CallLists, nm: Namer, x: CallGraph, log: Log)
    requires BlockGraph(g, calls, nm) && Expanded(g, calls, nm, x)
    requires CleanRun(false, x, log) || (Collapsible(x) && VisitRun(x, log))
    ensures KeepsBlockTraces(g, calls, nm, Replay(x, log), log)
  {
    forall b, c, tr | b in g.vertices && c in g.vertices && BlockWalkSpells(g, calls, b, c, tr)
      ensures Spells(false, Replay(x, log), Rep(log, b), Rep(log, End(calls, nm, c)), tr)
    {
      CompiledTraces(g, calls, nm, x, log, b, c, tr);
    }
  }
}
