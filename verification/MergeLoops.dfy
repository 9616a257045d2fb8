/** The merge loops of LibcCallGraphGen.cpp: contraction of a function's graph, and
    of the module's graph, to a fixpoint.  Each method also records its merges. */
module MergeLoops {
  import opened CallGraphs
  import opened LibcCallgraph
  import opened Contraction
  import opened Connectivity
  import opened VisitOrders
  import opened PassOrders

  /** `g` is what the merges of `log` have made of `g0`, and `exit` of `exit0`. */
  ghost predicate Recorded(user: bool, g0: CallGraph, exit0: Name, g: CallGraph, exit: Name, log: Log) {
    && g0.Valid()
    && g == Replay(g0, log) && Logged(user, g0, log)
    && exit == Rep(log, exit0)
  }

  lemma RecordedMerge(user: bool, g0: CallGraph, exit0: Name, g: CallGraph, exit: Name, log: Log, l: Name, r: Name)
    requires Recorded(user, g0, exit0, g, exit, log)
    requires Proper(log) ==> SilentEdge(user, g, (l, r))
    ensures Recorded(user, g0, exit0, Combine(g, l, r), Moved(l, r, exit), log + [(l, r)])
    ensures Proper(log + [(l, r)]) <==> Proper(log) && l != r
  {
    var log' := log + [(l, r)];
    assert log'[..|log|] == log && log'[|log|] == (l, r);
    if Proper(log') {
      forall i | 0 <= i < |log| ensures log[i].0 != log[i].1 {
        assert log'[i] == log[i];
      }
    }
  }

  /** The merges of all `neighbors` into `vertex`, in this order. */
  function MergesInto(vertex: Name, neighbors: seq<Name>): (log: Log)
    ensures |log| == |neighbors| && forall i | 0 <= i < |log| :: log[i] == (vertex, neighbors[i])
  {
    seq(|neighbors|, i requires 0 <= i < |neighbors| => (vertex, neighbors[i]))
  }

  /** One neighbour is merged into `vertex`; the exit node follows. */
  method MergeNeighbor(g: LibcCallgraph, vertex: Name, neighbor: Name, exitNode: Name,
                       ghost user: bool, ghost g0: CallGraph, ghost exit0: Name, ghost log0: Log)
    returns (exit: Name, ghost log: Log)
    requires g.Valid() && Recorded(user, g0, exit0, g.value, exitNode, log0)
    requires Proper(log0) ==> SilentEdge(user, g.value, (vertex, neighbor))
    modifies g
    ensures g.Valid() && g.value == Combine(old(g.value), vertex, neighbor)
    ensures Recorded(user, g0, exit0, g.value, exit, log)
    ensures log == log0 + [(vertex, neighbor)] && (Proper(log) <==> Proper(log0) && vertex != neighbor)
  {
    RecordedMerge(user, g0, exit0, g.value, exitNode, log0, vertex, neighbor);
    g.CombineVertex(vertex, neighbor);
    exit := if exitNode == neighbor then vertex else exitNode;
    log := log0 + [(vertex, neighbor)];
  }

  /** The inner loop: every listed neighbour is merged into `vertex`, also when the
      list has become stale; the exit node follows. */
  method MergeNeighbors(g: LibcCallgraph, vertex: Name, neighbors: seq<Name>, exitNode: Name,
                        ghost user: bool, ghost g0: CallGraph, ghost exit0: Name, ghost log0: Log)
    returns (exit: Name, ghost log: Log)
    requires g.Valid() && Recorded(user, g0, exit0, g.value, exitNode, log0)
    requires forall i | 0 <= i < |neighbors| :: SilentEdge(user, g.value, (vertex, neighbors[i]))
    requires forall i, j | 0 <= i < j < |neighbors| :: neighbors[i] != neighbors[j]
    modifies g
    ensures g.Valid() && Recorded(user, g0, exit0, g.value, exit, log)
    ensures |g.value.vertices| <= |old(g.value.vertices)|
    ensures neighbors != [] ==> |g.value.vertices| < |old(g.value.vertices)|
    ensures log == log0 + MergesInto(vertex, neighbors)
  {
    exit, log := exitNode, log0;
    for k := 0 to |neighbors|
      invariant g.Valid() && Recorded(user, g0, exit0, g.value, exit, log)
      invariant Proper(log) ==> StillSilent(user, g.value, vertex, neighbors, k)
      invariant k == 0 ==> g.value == old(g.value)
      invariant |g.value.vertices| <= |old(g.value.vertices)|
      invariant k > 0 ==> |g.value.vertices| < |old(g.value.vertices)|
      invariant log == Merged(log0, vertex, neighbors, k)
    {
      ghost var before := g.value;
      CombineCounts(before, vertex, neighbors[k]);
      exit, log := MergeNeighbor(g, vertex, neighbors[k], exit, user, g0, exit0, log);
      if Proper(log) {
        NextStillSilent(user, before, vertex, neighbors, k);
      }
    }
    MergedIsAll(log0, vertex, neighbors, |neighbors|);
  }

  /** The log when the first `k` neighbours have been merged. */
  ghost function Merged(log0: Log, vertex: Name, neighbors: seq<Name>, k: nat): Log
    requires k <= |neighbors|
  {
    if k == 0 then log0 else Merged(log0, vertex, neighbors, k - 1) + [(vertex, neighbors[k - 1])]
  }

  lemma {:induction false} MergedIsAll(log0: Log, vertex: Name, neighbors: seq<Name>, k: nat)
    requires k <= |neighbors|
    ensures Merged(log0, vertex, neighbors, k) == log0 + MergesInto(vertex, neighbors[..k])
    ensures neighbors[..|neighbors|] == neighbors
  {
    if k > 0 {
      MergedIsAll(log0, vertex, neighbors, k - 1);
      assert MergesInto(vertex, neighbors[..k])
          == MergesInto(vertex, neighbors[..k - 1]) + [(vertex, neighbors[k - 1])];
    }
  }

  /** From the `k`-th on, the edges to the listed vertices are silent. */
  ghost predicate StillSilent(user: bool, g: CallGraph, vertex: Name, neighbors: seq<Name>, k: nat) {
    forall i | k <= i < |neighbors| :: SilentEdge(user, g, (vertex, neighbors[i]))
  }

  lemma NextStillSilent(user: bool, g: CallGraph, vertex: Name, neighbors: seq<Name>, k: nat)
    requires g.Valid() && k < |neighbors| && StillSilent(user, g, vertex, neighbors, k) && vertex != neighbors[k]
    requires forall i, j | 0 <= i < j < |neighbors| :: neighbors[i] != neighbors[j]
    ensures StillSilent(user, Combine(g, vertex, neighbors[k]), vertex, neighbors, k + 1)
  {
    forall i | k < i < |neighbors| ensures SilentEdge(user, Combine(g, vertex, neighbors[k]), (vertex, neighbors[i])) {
      SilentEdgeStays(user, g, vertex, neighbors[k], neighbors[i]);
    }
  }

  lemma ControlNeighborsSilent(user: bool, g: CallGraph, v: Name, ns: seq<Name>)
    requires Lists(ns, ControlNeighbors(g, v))
    ensures forall i | 0 <= i < |ns| :: SilentEdge(user, g, (v, ns[i]))
    ensures ns == [] <==> !(exists e :: e in g.edges && e.0 == v && g.edges[e] == CONTROL)
  {
    forall i | 0 <= i < |ns| ensures SilentEdge(user, g, (v, ns[i])) {
      assert ns[i] in ControlNeighbors(g, v);
    }
    if e :| e in g.edges && e.0 == v && g.edges[e] == CONTROL {
      assert e.1 in ControlNeighbors(g, v);
    }
    if ns != [] {
      assert ns[0] in ControlNeighbors(g, v);
    }
  }

  /** Merging all control neighbours is a visit. */
  lemma NeighborsAreVisit(g: CallGraph, v: Name, ns: seq<Name>)
    requires Lists(ns, ControlNeighbors(g, v)) && ns != []
    ensures IsVisit(g, MergesInto(v, ns))
  {
    var visit := MergesInto(v, ns);
    ControlNeighborsSilent(false, g, v, ns);
    forall e | SilentEdge(false, g, e) && e.0 == v ensures e in visit {
      assert e.1 in ControlNeighbors(g, v);
      var i :| 0 <= i < |ns| && ns[i] == e.1;
      assert visit[i] == e;
    }
  }

  lemma UserNeighborsSilent(g: CallGraph, v: Name, ns: seq<Name>)
    requires Lists(ns, UserNeighbors(g, v))
    ensures forall i | 0 <= i < |ns| :: SilentEdge(true, g, (v, ns[i]))
    ensures ns == [] <==> !(exists e :: e in g.edges && e.0 == v && USER_PREFIX <= g.edges[e])
  {
    forall i | 0 <= i < |ns| ensures SilentEdge(true, g, (v, ns[i])) {
      assert ns[i] in UserNeighbors(g, v);
    }
    if e :| e in g.edges && e.0 == v && USER_PREFIX <= g.edges[e] {
      assert e.1 in UserNeighbors(g, v);
    }
    if ns != [] {
      assert ns[0] in UserNeighbors(g, v);
    }
  }

  /** Of the first `k` vertices none has a silent edge. */
  ghost predicate QuietSoFar(user: bool, g: CallGraph, vs: seq<Name>, k: nat)
    requires k <= |vs|
  {
    forall i | 0 <= i < k :: Quiet(user, g, vs[i])
  }

  ghost predicate Quiet(user: bool, g: CallGraph, v: Name) {
    forall e | e in g.edges && e.0 == v :: !Silent(user, g.edges[e])
  }

  lemma AllQuietIsDone(user: bool, g: CallGraph, vs: seq<Name>)
    requires g.Valid() && Lists(vs, g.vertices.Keys) && QuietSoFar(user, g, vs, |vs|)
    ensures Done(user, g)
  {
    forall e | e in g.edges ensures !Silent(user, g.edges[e]) {
      assert e.0 in vs;
      var i :| 0 <= i < |vs| && vs[i] == e.0;
      assert Quiet(user, g, vs[i]);
    }
  }

  /** The vertices whose turn is still to come, the `k`-th being the next. */
  function Todo(vertices: seq<Name>, k: nat): set<Name>
    requires k <= |vertices|
  {
    set i | k <= i < |vertices| :: vertices[i]
  }

  /** The turn of the next listed vertex, whether it has control neighbours or not. */
  lemma TurnReached(g0: CallGraph, log: Log, g: CallGraph, vertices: seq<Name>, vs: set<Name>, k: nat, ns: seq<Name>)
    requires k < |vertices| && Reached(g0, log, Stage(g, Todo(vertices, k)))
    requires Lists(vertices, vs) && Lists(ns, ControlNeighbors(g, vertices[k]))
    ensures var visit := MergesInto(vertices[k], ns);
            Reached(g0, log + visit, Stage(Replay(g, visit), Todo(vertices, k + 1)))
  {
    var v, visit := vertices[k], MergesInto(vertices[k], ns);
    var p, q := Stage(g, Todo(vertices, k)), Stage(Replay(g, visit), Todo(vertices, k + 1));
    assert q.todo == p.todo - {v};
    ControlNeighborsSilent(false, g, v, ns);
    if ns != [] {
      NeighborsAreVisit(g, v, ns);
    }
    assert Turn(p, v, visit, q);
    ReachedNext(g0, log, p, visit, q);
  }

  /** Before the turn of the `k`-th of the listed vertices; the pass began with the graph `start`. */
  ghost predicate PassSoFar(user: bool, g0: CallGraph, exit0: Name, start: CallGraph, vertices: seq<Name>, k: nat,
                            g: CallGraph, exit: Name, noMergeFound: bool, log: Log)
    requires k <= |vertices|
  {
    && Recorded(user, g0, exit0, g, exit, log)
    && (noMergeFound ==> g == start && QuietSoFar(user, g, vertices, k))
    && (!noMergeFound ==> |g.vertices| < |start.vertices|)
  }

  /** In a function's graph, the turns are known as well. */
  ghost predicate InPass(g0: CallGraph, exit0: Name, start: CallGraph, vertices: seq<Name>, k: nat,
                         g: CallGraph, exit: Name, noMergeFound: bool, log: Log)
    requires k <= |vertices|
  {
    && PassSoFar(false, g0, exit0, start, vertices, k, g, exit, noMergeFound, log)
    && Lists(vertices, start.vertices.Keys) && Reached(g0, log, Stage(g, Todo(vertices, k)))
  }

  /** One pass over the vertices of a function's graph. */
  method ControlPass(g: LibcCallgraph, exitNode: Name, ghost g0: CallGraph, ghost exit0: Name, ghost log0: Log)
    returns (exit: Name, noMergeFound: bool, ghost log: Log)
    requires g.Valid() && Recorded(false, g0, exit0, g.value, exitNode, log0) && Reached(g0, log0, Stage(g.value, {}))
    modifies g
    ensures g.Valid() && Recorded(false, g0, exit0, g.value, exit, log) && Reached(g0, log, Stage(g.value, {}))
    ensures noMergeFound ==> g.value == old(g.value) && Done(false, g.value)
    ensures !noMergeFound ==> |g.value.vertices| < |old(g.value.vertices)|
  {
    exit, noMergeFound, log := exitNode, true, log0;
    ghost var start := g.value;
    var vertices := g.GetVertices();
    PassBegins(g0, exit0, start, vertices, exit, log);
    for k := 0 to |vertices|
      invariant g.Valid() && InPass(g0, exit0, start, vertices, k, g.value, exit, noMergeFound, log)
    {
      exit, noMergeFound, log := VisitControl(g, vertices, k, exit, noMergeFound, g0, exit0, log, start);
    }
    PassEnds(g0, exit0, start, vertices, g.value, exit, noMergeFound, log);
  }

  lemma PassBegins(g0: CallGraph, exit0: Name, start: CallGraph, vertices: seq<Name>, exit: Name, log: Log)
    requires Recorded(false, g0, exit0, start, exit, log) && Reached(g0, log, Stage(start, {}))
    requires Lists(vertices, start.vertices.Keys)
    ensures InPass(g0, exit0, start, vertices, 0, start, exit, true, log)
  {
    assert Todo(vertices, 0) == set x | x in vertices;
    ReachedNext(g0, log, Stage(start, {}), [], Stage(start, Todo(vertices, 0)));
    assert log + [] == log;
  }

  lemma PassEnds(g0: CallGraph, exit0: Name, start: CallGraph, vertices: seq<Name>, g: CallGraph, exit: Name,
                 noMergeFound: bool, log: Log)
    requires g.Valid() && InPass(g0, exit0, start, vertices, |vertices|, g, exit, noMergeFound, log)
    ensures Recorded(false, g0, exit0, g, exit, log) && Reached(g0, log, Stage(g, {}))
    ensures noMergeFound ==> g == start && Done(false, g)
    ensures !noMergeFound ==> |g.vertices| < |start.vertices|
  {
    assert Todo(vertices, |vertices|) == {};
    if noMergeFound {
      AllQuietIsDone(false, g, vertices);
    }
  }

  /** The turn of the `k`-th of the listed vertices. */
  method VisitControl(g: LibcCallgraph, vertices: seq<Name>, k: nat, exitNode: Name, quiet: bool,
                      ghost g0: CallGraph, ghost exit0: Name, ghost log0: Log, ghost start: CallGraph)
    returns (exit: Name, noMergeFound: bool, ghost log: Log)
    requires k < |vertices| && g.Valid() && InPass(g0, exit0, start, vertices, k, g.value, exitNode, quiet, log0)
    modifies g
    ensures g.Valid() && InPass(g0, exit0, start, vertices, k + 1, g.value, exit, noMergeFound, log)
  {
    exit, noMergeFound, log := exitNode, quiet, log0;
    ghost var before := g.value;
    var neighbors := g.GetControlEdgeNeighbors(vertices[k]);
    ControlNeighborsSilent(false, before, vertices[k], neighbors);
    TurnReached(g0, log, before, vertices, start.vertices.Keys, k, neighbors);
    if |neighbors| >= 1 {
      exit, log := MergeNeighbors(g, vertices[k], neighbors, exit, false, g0, exit0, log);
      ReplayConcat(g0, log0, MergesInto(vertices[k], neighbors));
      noMergeFound := false;
    } else {
      assert MergesInto(vertices[k], neighbors) == [] && log + [] == log;
      assert Replay(before, []) == before;
      assert Quiet(false, before, vertices[k]);
    }
  }

  /** ConvertBBGraphToLibcCallGraph, for one function: control edges are contracted until none is left. */
  method ConvertToLibcCallGraph(bbExpandedGraph: LibcCallgraph, exitNode: Name)
    returns (libcCallGraph: LibcCallgraph, exit: Name, ghost log: Log, ghost passes: nat)
    requires bbExpandedGraph.Valid()
    ensures fresh(libcCallGraph) && libcCallGraph.Valid()
    ensures Recorded(false, bbExpandedGraph.value, exitNode, libcCallGraph.value, exit, log)
    ensures Reached(bbExpandedGraph.value, log, Stage(libcCallGraph.value, {})) && VisitRun(bbExpandedGraph.value, log)
    ensures Done(false, libcCallGraph.value)
    ensures forall e | e in libcCallGraph.value.edges :: libcCallGraph.value.edges[e] != "control"
    ensures passes <= |bbExpandedGraph.value.vertices| + 1
  {
    ghost var g0 := bbExpandedGraph.value;
    libcCallGraph := new LibcCallgraph.Copy(bbExpandedGraph);
    exit, log, passes := exitNode, [], 0;
    ReachedStart(g0);
    var noMergeFound := false;
    while !noMergeFound
      invariant libcCallGraph.Valid() && fresh(libcCallGraph)
      invariant Recorded(false, g0, exitNode, libcCallGraph.value, exit, log)
      invariant Reached(g0, log, Stage(libcCallGraph.value, {}))
      invariant noMergeFound ==> Done(false, libcCallGraph.value)
      invariant passes + |libcCallGraph.value.vertices| <= |g0.vertices| + (if noMergeFound then 1 else 0)
      decreases |libcCallGraph.value.vertices|, !noMergeFound
    {
      exit, noMergeFound, log := ControlPass(libcCallGraph, exit, g0, exitNode, log);
      passes := passes + 1;
    }
    ReachedIsVisitRun(g0, log, Stage(libcCallGraph.value, {}));
  }

  lemma ControlsAreSweep(g: CallGraph, v: Name, ns: seq<Name>)
    requires Lists(ns, ControlNeighbors(g, v))
    ensures Sweep(g, v, false, MergesInto(v, ns))
  {
    var sweep := MergesInto(v, ns);
    forall i | 0 <= i < |ns| ensures g.Has(v, ns[i], "control") {
      assert ns[i] in ControlNeighbors(g, v);
    }
    forall e | e in g.edges && e.0 == v && g.edges[e] == "control" ensures e in sweep {
      assert e.1 in ControlNeighbors(g, v);
      var i :| 0 <= i < |ns| && ns[i] == e.1;
      assert sweep[i] == e;
    }
  }

  lemma UsersAreSweep(g: CallGraph, v: Name, ns: seq<Name>)
    requires Lists(ns, UserNeighbors(g, v))
    ensures Sweep(g, v, true, MergesInto(v, ns))
  {
    var sweep := MergesInto(v, ns);
    forall i | 0 <= i < |ns| ensures (v, ns[i]) in g.edges && "user:" <= g.edges[(v, ns[i])] {
      assert ns[i] in UserNeighbors(g, v);
    }
    forall e | e in g.edges && e.0 == v && "user:" <= g.edges[e] ensures e in sweep {
      assert e.1 in UserNeighbors(g, v);
      var i :| 0 <= i < |ns| && ns[i] == e.1;
      assert sweep[i] == e;
    }
  }

  /** All neighbours over control edges, or all over "user:" edges, are merged into `vertex`. */
  method MergeKind(g: LibcCallgraph, vertex: Name, user: bool, exitNode: Name, quiet: bool,
                   ghost g0: CallGraph, ghost exit0: Name, ghost log0: Log)
    returns (exit: Name, noMergeFound: bool, ghost log: Log, ghost sweep: Log)
    requires g.Valid() && Recorded(true, g0, exit0, g.value, exitNode, log0)
    modifies g
    ensures g.Valid() && Recorded(true, g0, exit0, g.value, exit, log)
    ensures log == log0 + sweep && g.value == Replay(old(g.value), sweep) && Sweep(old(g.value), vertex, user, sweep)
    ensures noMergeFound <==> quiet && sweep == []
    ensures sweep == [] ==> g.value == old(g.value)
    ensures sweep != [] ==> |g.value.vertices| < |old(g.value.vertices)|
  {
    var neighbors;
    if user {
      neighbors := g.GetUserEdgeNeighbors(vertex);
      UserNeighborsSilent(g.value, vertex, neighbors);
      UsersAreSweep(g.value, vertex, neighbors);
    } else {
      neighbors := g.GetControlEdgeNeighbors(vertex);
      ControlNeighborsSilent(true, g.value, vertex, neighbors);
      ControlsAreSweep(g.value, vertex, neighbors);
    }
    sweep := MergesInto(vertex, neighbors);
    exit, noMergeFound, log := MergeListed(g, vertex, neighbors, exitNode, quiet, g0, exit0, log0);
  }

  lemma SweptQuiet(g: CallGraph, v: Name)
    requires Sweep(g, v, false, []) && Sweep(g, v, true, [])
    ensures Quiet(true, g, v)
  {
  }

  /** One vertex of the module's pass: first its control edges, then its "user:" edges. */
  method VisitVertex(g: LibcCallgraph, vertex: Name, exitNode: Name, ghost g0: CallGraph, ghost exit0: Name,
                     ghost log0: Log)
    returns (exit: Name, noMergeFound: bool, ghost log: Log, ghost controls: Log, ghost users: Log)
    requires g.Valid() && Recorded(true, g0, exit0, g.value, exitNode, log0)
    modifies g
    ensures g.Valid() && Recorded(true, g0, exit0, g.value, exit, log)
    ensures log == log0 + controls + users && g.value == Replay(Replay(old(g.value), controls), users)
    ensures Sweep(old(g.value), vertex, false, controls) && Sweep(Replay(old(g.value), controls), vertex, true, users)
    ensures noMergeFound ==> g.value == old(g.value) && Quiet(true, g.value, vertex)
    ensures !noMergeFound ==> |g.value.vertices| < |old(g.value.vertices)|
  {
    exit, noMergeFound, log, controls := MergeKind(g, vertex, false, exitNode, true, g0, exit0, log0);
    exit, noMergeFound, log, users := MergeKind(g, vertex, true, exit, noMergeFound, g0, exit0, log);
    if noMergeFound {
      SweptQuiet(g.value, vertex);
    }
  }

  /** The neighbours of one kind, if there are any. */
  method MergeListed(g: LibcCallgraph, vertex: Name, neighbors: seq<Name>, exitNode: Name, quiet: bool,
                     ghost g0: CallGraph, ghost exit0: Name, ghost log0: Log)
    returns (exit: Name, noMergeFound: bool, ghost log: Log)
    requires g.Valid() && Recorded(true, g0, exit0, g.value, exitNode, log0)
    requires forall i | 0 <= i < |neighbors| :: SilentEdge(true, g.value, (vertex, neighbors[i]))
    requires forall i, j | 0 <= i < j < |neighbors| :: neighbors[i] != neighbors[j]
    modifies g
    ensures g.Valid() && Recorded(true, g0, exit0, g.value, exit, log)
    ensures log == log0 + MergesInto(vertex, neighbors)
    ensures g.value == Replay(old(g.value), MergesInto(vertex, neighbors))
    ensures noMergeFound <==> quiet && neighbors == []
    ensures neighbors == [] ==> g.value == old(g.value)
    ensures neighbors != [] ==> |g.value.vertices| < |old(g.value.vertices)|
  {
    exit, noMergeFound, log := exitNode, quiet, log0;
    ReplayConcat(g0, log0, MergesInto(vertex, neighbors));
    if |neighbors| >= 1 {
      exit, log := MergeNeighbors(g, vertex, neighbors, exit, true, g0, exit0, log);
      noMergeFound := false;
    } else {
      assert log0 + MergesInto(vertex, neighbors) == log0;
    }
  }

  /** Before the turn of the `k`-th of the listed vertices of the module's graph. */
  ghost predicate InModulePass(g0: CallGraph, exit0: Name, start: CallGraph, vertices: seq<Name>, k: nat,
                               g: CallGraph, exit: Name, noMergeFound: bool, log: Log)
    requires k <= |vertices|
  {
    && PassSoFar(true, g0, exit0, start, vertices, k, g, exit, noMergeFound, log)
    && Lists(vertices, start.vertices.Keys) && ReachedBy(true, g0, log, Stage(g, Todo(vertices, k)))
  }

  /** One pass over the vertices of the module's graph. */
  method ModulePass(g: LibcCallgraph, exitNode: Name, ghost g0: CallGraph, ghost exit0: Name, ghost log0: Log)
    returns (exit: Name, noMergeFound: bool, ghost log: Log)
    requires g.Valid() && Recorded(true, g0, exit0, g.value, exitNode, log0)
    requires ReachedBy(true, g0, log0, Stage(g.value, {}))
    modifies g
    ensures g.Valid() && Recorded(true, g0, exit0, g.value, exit, log)
    ensures ReachedBy(true, g0, log, Stage(g.value, {}))
    ensures noMergeFound ==> g.value == old(g.value) && Done(true, g.value)
    ensures !noMergeFound ==> |g.value.vertices| < |old(g.value.vertices)|
  {
    exit, noMergeFound, log := exitNode, true, log0;
    ghost var start := g.value;
    var vertices := g.GetVertices();
    ModulePassBegins(g0, exit0, start, vertices, exit, log);
    for k := 0 to |vertices|
      invariant g.Valid() && InModulePass(g0, exit0, start, vertices, k, g.value, exit, noMergeFound, log)
    {
      var quiet;
      ghost var before, log1, controls, users := g.value, log, [], [];
      exit, quiet, log, controls, users := VisitVertex(g, vertices[k], exit, g0, exit0, log);
      NextSoFar(start, vertices, k, before, g.value, noMergeFound, quiet);
      ModuleTurnReached(g0, log1, before, vertices, start.vertices.Keys, k, controls, users);
      noMergeFound := noMergeFound && quiet;
    }
    ModulePassEnds(g0, exit0, start, vertices, g.value, exit, noMergeFound, log);
  }

  lemma ModulePassBegins(g0: CallGraph, exit0: Name, start: CallGraph, vertices: seq<Name>, exit: Name, log: Log)
    requires Recorded(true, g0, exit0, start, exit, log) && ReachedBy(true, g0, log, Stage(start, {}))
    requires Lists(vertices, start.vertices.Keys)
    ensures InModulePass(g0, exit0, start, vertices, 0, start, exit, true, log)
  {
    assert Todo(vertices, 0) == set x | x in vertices;
    ReachedByNext(true, g0, log, Stage(start, {}), [], Stage(start, Todo(vertices, 0)));
    assert log + [] == log;
  }

  lemma ModulePassEnds(g0: CallGraph, exit0: Name, start: CallGraph, vertices: seq<Name>, g: CallGraph, exit: Name,
                       noMergeFound: bool, log: Log)
    requires g.Valid() && InModulePass(g0, exit0, start, vertices, |vertices|, g, exit, noMergeFound, log)
    ensures Recorded(true, g0, exit0, g, exit, log) && ReachedBy(true, g0, log, Stage(g, {}))
    ensures noMergeFound ==> g == start && Done(true, g)
    ensures !noMergeFound ==> |g.vertices| < |start.vertices|
  {
    assert Todo(vertices, |vertices|) == {};
    if noMergeFound {
      AllQuietIsDone(true, g, vertices);
    }
  }

  lemma ModuleTurnReached(g0: CallGraph, log: Log, g: CallGraph, vertices: seq<Name>, vs: set<Name>, k: nat,
                          controls: Log, users: Log)
    requires k < |vertices| && Lists(vertices, vs) && ReachedBy(true, g0, log, Stage(g, Todo(vertices, k)))
    requires Sweep(g, vertices[k], false, controls) && Sweep(Replay(g, controls), vertices[k], true, users)
    ensures ReachedBy(true, g0, log + controls + users,
                      Stage(Replay(Replay(g, controls), users), Todo(vertices, k + 1)))
  {
    TodoNext(vertices, vs, k);
    ModuleTurnNext(g0, log, g, vertices[k], Todo(vertices, k + 1), controls, users);
  }

  lemma TodoNext(vertices: seq<Name>, vs: set<Name>, k: nat)
    requires k < |vertices| && Lists(vertices, vs)
    ensures Todo(vertices, k) == Todo(vertices, k + 1) + {vertices[k]} && vertices[k] !in Todo(vertices, k + 1)
  {
  }

  lemma NextSoFar(start: CallGraph, vertices: seq<Name>, k: nat, before: CallGraph, g: CallGraph, noMergeFound: bool,
                  quiet: bool)
    requires k < |vertices|
    requires if noMergeFound then before == start && QuietSoFar(true, before, vertices, k)
             else |before.vertices| < |start.vertices|
    requires if quiet then g == before && Quiet(true, g, vertices[k]) else |g.vertices| < |before.vertices|
    ensures if noMergeFound && quiet then g == start && QuietSoFar(true, g, vertices, k + 1)
            else |g.vertices| < |start.vertices|
  {
  }

  /** The merge loop of CombineLibcgGraph: contraction until neither a control edge
      nor a "user:" edge is left. */
  method ContractModuleGraph(finalGraph: LibcCallgraph, exitNode: Name)
    returns (exit: Name, ghost log: Log, ghost passes: nat)
    requires finalGraph.Valid()
    modifies finalGraph
    ensures finalGraph.Valid()
    ensures Recorded(true, old(finalGraph.value), exitNode, finalGraph.value, exit, log)
    ensures ReachedBy(true, old(finalGraph.value), log, Stage(finalGraph.value, {}))
    ensures Done(true, finalGraph.value)
    ensures forall e | e in finalGraph.value.edges ::
              finalGraph.value.edges[e] != "control" && !("user:" <= finalGraph.value.edges[e])
    ensures passes <= |old(finalGraph.value.vertices)| + 1
  {
    exit, log, passes := exitNode, [], 0;
    ReachedByStart(true, finalGraph.value);
    var noMergeFound := false;
    while !noMergeFound
      invariant finalGraph.Valid()
      invariant Recorded(true, old(finalGraph.value), exitNode, finalGraph.value, exit, log)
      invariant ReachedBy(true, old(finalGraph.value), log, Stage(finalGraph.value, {}))
      invariant noMergeFound ==> Done(true, finalGraph.value)
      invariant passes + |finalGraph.value.vertices|
             <= |old(finalGraph.value.vertices)| + (if noMergeFound then 1 else 0)
      decreases |finalGraph.value.vertices|, !noMergeFound
    {
      exit, noMergeFound, log := ModulePass(finalGraph, exit, old(finalGraph.value), exitNode, log);
      passes := passes + 1;
    }
  }

  /** If no vertex was merged with itself, the exit node is a live vertex: the
      representative of the original exit. */
  lemma ExitSurvives(user: bool, g0: CallGraph, exit0: Name, g: CallGraph, exit: Name, log: Log)
    requires Recorded(user, g0, exit0, g, exit, log) && exit0 in g0.vertices
    requires Proper(log) || Forest(SilentPairs(user, g0))
          || (!user && VisitRun(g0, log) && NoStraightCycle(SilentPairs(user, g0)))
    ensures exit == Rep(log, exit0) && exit in g.vertices
  {
    if !Proper(log) {
      if Forest(SilentPairs(user, g0)) {
        ForestRunIsProper(user, g0, log);
      } else {
        VisitRunIsProper(g0, log);
      }
    }
    ProperLog(user, g0, log);
    RepSurvives(user, g0, log);
  }
}
