/** The loops of ExpandBBGraph, and the names it makes. */
module ExpansionLoop {
  import opened CallGraphs
  import opened Decimals
  import opened LibcCallgraph
  import opened Expansion

  const USER_SUFFIX: string := "-user_"
  const LIBC_SUFFIX: string := "-libc_"

  function ChainName(b: Name, call: string, k: nat): Name {
    b + (if USER_PREFIX <= call then USER_SUFFIX else LIBC_SUFFIX) + Decimal(k)
  }

  /** The naming that ExpandBBGraph uses. */
  function ChainNamer(calls: CallLists): Namer {
    (b: Name, k: nat) => if 0 < k <= |CallsOf(calls, b)| then ChainName(b, CallsOf(calls, b)[k - 1], k) else b
  }

  lemma {:induction false} DashPlace(a: string, b: string, s: string, t: string)
    requires '-' !in a && '-' !in b
    requires s != [] && t != [] && s[0] == '-' && t[0] == '-'
    requires a + s == b + t
    ensures a == b && s == t
  {
    var w := a + s;
    assert w[|a|] == '-' && w[|b|] == '-';
    assert forall i | 0 <= i < |a| :: w[i] == a[i] != '-';
    assert forall i | 0 <= i < |b| :: w[i] == b[i] != '-';
    assert |a| == |b|;
    assert a == (a + s)[..|a|] && b == (b + t)[..|b|];
    assert s == (a + s)[|a|..] && t == (b + t)[|b|..];
  }

  lemma ChainNameInjective(b: Name, f: string, k: nat, c: Name, h: string, j: nat)
    requires '-' !in b && '-' !in c && ChainName(b, f, k) == ChainName(c, h, j)
    ensures b == c && k == j
  {
    var s := if USER_PREFIX <= f then USER_SUFFIX else LIBC_SUFFIX;
    var t := if USER_PREFIX <= h then USER_SUFFIX else LIBC_SUFFIX;
    assert b + s + Decimal(k) == b + (s + Decimal(k));
    assert c + t + Decimal(j) == c + (t + Decimal(j));
    DashPlace(b, c, s + Decimal(k), t + Decimal(j));
    assert Decimal(k) == (s + Decimal(k))[6..] && Decimal(j) == (t + Decimal(j))[6..];
    DecimalInjective(k, j);
  }

  /** Chain names are fresh when no block name contains a dash. */
  lemma DashFreeNamesAreFresh(vs: set<Name>, calls: CallLists)
    requires forall b | b in vs :: '-' !in b
    ensures FreshNames(vs, calls, ChainNamer(calls))
  {
    var nm := ChainNamer(calls);
    forall b, k: nat, c, j: nat | b in vs && c in vs && k <= |CallsOf(calls, b)| && j <= |CallsOf(calls, c)|
      ensures Distinct(nm, b, k, c, j)
    {
      if nm(b, k) == nm(c, j) {
        if k > 0 && j > 0 {
          ChainNameInjective(b, CallsOf(calls, b)[k - 1], k, c, CallsOf(calls, c)[j - 1], j);
        } else if k > 0 {
          ChainNameHasDash(b, CallsOf(calls, b)[k - 1], k);
        } else if j > 0 {
          ChainNameHasDash(c, CallsOf(calls, c)[j - 1], j);
        }
      }
    }
  }

  lemma ChainNameHasDash(b: Name, f: string, k: nat)
    ensures '-' in ChainName(b, f, k)
  {
    assert ChainName(b, f, k)[|b|] == '-';
  }

  /** An unexpanded block still has its original successors. */
  lemma BlockNeighbors(g: CallGraph, calls: CallLists, nm: Namer, len: Progress, moved: set<Pair>, x: CallGraph,
                       b: Name, s: Name)
    requires BlockGraph(g, calls, nm) && Shape(g, calls, nm, len, moved, x)
    requires b in g.vertices && Built(len, b) == 0 && forall d | d in moved :: d.0 != b
    ensures s in Neighbors(x, b) <==> (b, s) in g.edges
  {
    if (b, s) in g.edges {
      assert ControlEdge(g, calls, nm, moved, (b, s), (b, s));
      assert (b, s).1 in Neighbors(x, b);
    }
    if s in Neighbors(x, b) {
      var e := (b, s);
      assert e in x.edges && Accounted(g, calls, nm, len, moved, e);
      if c, k: nat :| ChainEdge(g, nm, len, c, k, e) {
        NamesDiffer(g, calls, nm, b, 0, c, k);
      } else {
        var d :| ControlEdge(g, calls, nm, moved, d, e);
        NamesDiffer(g, calls, nm, b, 0, d.0, if d in moved then |CallsOf(calls, d.0)| else 0);
      }
    }
  }

  function EdgesTo(b: Name, ns: seq<Name>, n: nat): set<Pair>
    requires n <= |ns|
  {
    set i | 0 <= i < n :: (b, ns[i])
  }

  /** The vertices that are there stay as they are, new ones are not marked as having a call. */
  ghost predicate Plain(before: map<Name, bool>, after: map<Name, bool>) {
    before.Keys <= after.Keys && forall v | v in after :: after[v] == (v in before && before[v])
  }

  lemma PlainTrans(a: map<Name, bool>, b: map<Name, bool>, c: map<Name, bool>)
    requires Plain(a, b) && Plain(b, c)
    ensures Plain(a, c)
  {
  }

  /** One turn of the call loop. */
  method BuildLink(x: LibcCallgraph, prevVertex: Name, vertexName: Name, libCall: string, ghost g: CallGraph,
                   ghost calls: CallLists, ghost nm: Namer, ghost len: Progress, ghost moved: set<Pair>, ghost b: Name)
    requires x.Valid() && BlockGraph(g, calls, nm) && Shape(g, calls, nm, len, moved, x.value)
    requires b in g.vertices && Built(len, b) < |CallsOf(calls, b)| && libCall == CallsOf(calls, b)[Built(len, b)]
    requires prevVertex == nm(b, Built(len, b)) && vertexName == nm(b, Built(len, b) + 1)
    modifies x
    ensures x.Valid() && Shape(g, calls, nm, len[b := Built(len, b) + 1], moved, x.value)
    ensures |x.value.vertices| == |old(x.value.vertices)| + 1 && |x.value.edges| == |old(x.value.edges)| + 1
    ensures Plain(old(x.value.vertices), x.value.vertices)
  {
    ShapeChain(g, calls, nm, len, moved, x.value, b);
    AddLink(x, prevVertex, vertexName, libCall);
  }

  /** A vertex and the call edge to it. */
  method AddLink(x: LibcCallgraph, prevVertex: Name, vertexName: Name, libCall: string)
    requires x.Valid()
    modifies x
    ensures x.Valid()
    ensures x.value == CallGraphs.AddEdge(CallGraphs.AddVertex(old(x.value), vertexName, false), prevVertex, vertexName,
                                          libCall)
    ensures Plain(old(x.value.vertices), x.value.vertices)
  {
    var _ := x.AddVertex(vertexName, false);
    x.AddEdge(prevVertex, vertexName, libCall);
  }

  /** The call loop: the chain of block `bbName` grows call by call. */
  method BuildChain(x: LibcCallgraph, bbName: Name, libCalls: seq<string>, ghost g: CallGraph,
                    ghost calls: CallLists, ghost nm: Namer, ghost len: Progress, ghost moved: set<Pair>)
    returns (prevVertex: Name, vertexName: Name)
    requires x.Valid() && BlockGraph(g, calls, nm) && Shape(g, calls, nm, len, moved, x.value)
    requires bbName in g.vertices && libCalls == CallsOf(calls, bbName) && bbName in len && len[bbName] == 0
    requires forall k | 0 <= k < |libCalls| :: nm(bbName, k + 1) == ChainName(bbName, libCalls[k], k + 1)
    modifies x
    ensures x.Valid() && Shape(g, calls, nm, len[bbName := |libCalls|], moved, x.value)
    ensures prevVertex == nm(bbName, |libCalls|) && (libCalls != [] ==> vertexName == prevVertex)
    ensures |x.value.vertices| == |old(x.value.vertices)| + |libCalls|
    ensures |x.value.edges| == |old(x.value.edges)| + |libCalls|
    ensures Plain(old(x.value.vertices), x.value.vertices)
  {
    prevVertex, vertexName := bbName, "";
    var counter: nat := 1;
    assert len[bbName := 0] == len;
    for k := 0 to |libCalls|
      invariant x.Valid() && counter == k + 1
      invariant Shape(g, calls, nm, len[bbName := k], moved, x.value)
      invariant prevVertex == nm(bbName, k) && (k > 0 ==> vertexName == prevVertex)
      invariant |x.value.vertices| == |old(x.value.vertices)| + k
      invariant |x.value.edges| == |old(x.value.edges)| + k
      invariant Plain(old(x.value.vertices), x.value.vertices)
    {
      ghost var before := x.value.vertices;
      assert len[bbName := k][bbName := k + 1] == len[bbName := k + 1];
      vertexName := ChainName(bbName, libCalls[k], counter);
      counter := counter + 1;
      BuildLink(x, prevVertex, vertexName, libCalls[k], g, calls, nm, len[bbName := k], moved, bbName);
      PlainTrans(old(x.value.vertices), before, x.value.vertices);
      prevVertex := vertexName;
    }
  }

  /** One turn of the neighbour loop. */
  method MoveSuccessor(x: LibcCallgraph, firstVertex: Name, prevVertex: Name, neighbor: Name, ghost g: CallGraph,
                       ghost calls: CallLists, ghost nm: Namer, ghost len: Progress, ghost moved: set<Pair>)
    requires x.Valid() && BlockGraph(g, calls, nm) && Shape(g, calls, nm, len, moved, x.value)
    requires prevVertex == End(calls, nm, firstVertex) && Built(len, firstVertex) == |CallsOf(calls, firstVertex)|
    requires (firstVertex, neighbor) in g.edges && (firstVertex, neighbor) !in moved
    modifies x
    ensures x.Valid() && Shape(g, calls, nm, len, moved + {(firstVertex, neighbor)}, x.value)
    ensures x.value.vertices == old(x.value.vertices) && |x.value.edges| == |old(x.value.edges)|
  {
    ShapeMove(g, calls, nm, len, moved, x.value, firstVertex, neighbor);
    x.RemoveEdge(firstVertex, neighbor);
    x.AddEdge(prevVertex, neighbor, CONTROL);
  }

  function WithEdges(moved: set<Pair>, b: Name, ns: seq<Name>, n: nat): set<Pair>
    requires n <= |ns|
  {
    moved + EdgesTo(b, ns, n)
  }

  lemma WithEdgesStep(moved: set<Pair>, b: Name, ns: seq<Name>, i: nat)
    requires i < |ns| && (b, ns[i]) !in moved
    requires forall j, k | 0 <= j < k < |ns| :: ns[j] != ns[k]
    ensures (b, ns[i]) !in WithEdges(moved, b, ns, i)
    ensures WithEdges(moved, b, ns, i + 1) == WithEdges(moved, b, ns, i) + {(b, ns[i])}
  {
    assert EdgesTo(b, ns, i + 1) == EdgesTo(b, ns, i) + {(b, ns[i])};
  }

  /** The first `i` of the block's successors have been moved to the end of its chain. */
  ghost predicate Moving(g: CallGraph, calls: CallLists, nm: Namer, len: Progress, moved: set<Pair>, b: Name,
                         ns: seq<Name>, i: nat, x: CallGraph)
    requires i <= |ns|
  {
    && BlockGraph(g, calls, nm) && Shape(g, calls, nm, len, WithEdges(moved, b, ns, i), x)
    && Built(len, b) == |CallsOf(calls, b)|
    && (forall j | 0 <= j < |ns| :: (b, ns[j]) in g.edges && (b, ns[j]) !in moved)
    && forall j, k | 0 <= j < k < |ns| :: ns[j] != ns[k]
  }

  lemma MovingBegins(g: CallGraph, calls: CallLists, nm: Namer, len: Progress, moved: set<Pair>, b: Name,
                     ns: seq<Name>, x: CallGraph)
    requires BlockGraph(g, calls, nm) && Shape(g, calls, nm, len, moved, x) && Built(len, b) == |CallsOf(calls, b)|
    requires forall j | 0 <= j < |ns| :: (b, ns[j]) in g.edges && (b, ns[j]) !in moved
    requires forall j, k | 0 <= j < k < |ns| :: ns[j] != ns[k]
    ensures Moving(g, calls, nm, len, moved, b, ns, 0, x)
  {
    assert WithEdges(moved, b, ns, 0) == moved;
  }

  /** The neighbour loop: the block's successors are reached from the end of its chain instead. */
  method MoveSuccessors(x: LibcCallgraph, firstVertex: Name, prevVertex: Name, neighbors: seq<Name>, ghost g: CallGraph,
                        ghost calls: CallLists, ghost nm: Namer, ghost len: Progress, ghost moved: set<Pair>)
    requires x.Valid() && Moving(g, calls, nm, len, moved, firstVertex, neighbors, 0, x.value)
    requires prevVertex == End(calls, nm, firstVertex)
    modifies x
    ensures x.Valid() && Shape(g, calls, nm, len, WithEdges(moved, firstVertex, neighbors, |neighbors|), x.value)
    ensures x.value.vertices == old(x.value.vertices) && |x.value.edges| == |old(x.value.edges)|
  {
    for i := 0 to |neighbors|
      invariant x.Valid() && Moving(g, calls, nm, len, moved, firstVertex, neighbors, i, x.value)
      invariant x.value.vertices == old(x.value.vertices) && |x.value.edges| == |old(x.value.edges)|
    {
      MoveNext(x, firstVertex, prevVertex, neighbors, i, g, calls, nm, len, moved);
    }
  }

  /** One turn of the neighbour loop. */
  method MoveNext(x: LibcCallgraph, firstVertex: Name, prevVertex: Name, neighbors: seq<Name>, i: nat,
                  ghost g: CallGraph, ghost calls: CallLists, ghost nm: Namer, ghost len: Progress,
                  ghost moved: set<Pair>)
    requires i < |neighbors| && x.Valid() && Moving(g, calls, nm, len, moved, firstVertex, neighbors, i, x.value)
    requires prevVertex == End(calls, nm, firstVertex)
    modifies x
    ensures x.Valid() && Moving(g, calls, nm, len, moved, firstVertex, neighbors, i + 1, x.value)
    ensures x.value.vertices == old(x.value.vertices) && |x.value.edges| == |old(x.value.edges)|
  {
    WithEdgesStep(moved, firstVertex, neighbors, i);
    MoveSuccessor(x, firstVertex, prevVertex, neighbors[i], g, calls, nm, len,
      WithEdges(moved, firstVertex, neighbors, i));
  }

  // ----- all blocks -----

  ghost function Total(calls: CallLists): nat {
    if calls == map[] then 0
    else var b :| b in calls; |calls[b]| + Total(calls - {b})
  }

  lemma {:induction false} TotalWithout(calls: CallLists, b: Name)
    requires b in calls
    ensures Total(calls) == |calls[b]| + Total(calls - {b})
    decreases |calls|
  {
    var c :| c in calls && Total(calls) == |calls[c]| + Total(calls - {c});
    if c != b {
      TotalWithout(calls - {c}, b);
      TotalWithout(calls - {b}, c);
      assert calls - {c} - {b} == calls - {b} - {c};
    }
  }

  /** Progress and moved edges when only the blocks of `rest` are still to be expanded. */
  function ProgressOf(calls: CallLists, rest: set<Name>): Progress {
    map b | b in calls :: if b in rest then 0 else |calls[b]|
  }

  function MovedOf(g: CallGraph, calls: CallLists, rest: set<Name>): set<Pair> {
    set d | d in g.edges && d.0 in calls && d.0 !in rest
  }

  /** One block: its chain, the exit node if it is this block, and its successors. */
  method ExpandBlock(x: LibcCallgraph, bbName: Name, calls: CallLists, exitNode: Name, ghost g: CallGraph,
                     ghost nm: Namer, ghost len: Progress, ghost moved: set<Pair>)
    returns (exit: Name)
    requires x.Valid() && BlockGraph(g, calls, nm) && Shape(g, calls, nm, len, moved, x.value)
    requires bbName in calls && bbName in len && len[bbName] == 0 && forall d | d in moved :: d.0 != bbName
    requires forall k | 0 <= k < |calls[bbName]| :: nm(bbName, k + 1) == ChainName(bbName, calls[bbName][k], k + 1)
    modifies x
    ensures x.Valid()
    ensures Shape(g, calls, nm, len[bbName := |calls[bbName]|], moved + (set d | d in g.edges && d.0 == bbName),
            x.value)
    ensures exit == if exitNode == bbName then End(calls, nm, bbName) else exitNode
    ensures |x.value.vertices| == |old(x.value.vertices)| + |calls[bbName]|
    ensures |x.value.edges| == |old(x.value.edges)| + |calls[bbName]|
    ensures Plain(old(x.value.vertices), x.value.vertices)
  {
    var neighbors := x.GetNeighbors(bbName);
    forall s ensures s in neighbors <==> (bbName, s) in g.edges {
      BlockNeighbors(g, calls, nm, len, moved, x.value, bbName, s);
    }
    var prevVertex, vertexName := BuildChain(x, bbName, calls[bbName], g, calls, nm, len, moved);
    exit := exitNode;
    if exit == bbName {
      exit := vertexName;
    }
    MovingBegins(g, calls, nm, len[bbName := |calls[bbName]|], moved, bbName, neighbors, x.value);
    MoveSuccessors(x, bbName, prevVertex, neighbors, g, calls, nm, len[bbName := |calls[bbName]|], moved);
    AllSuccessorsMoved(g, bbName, neighbors, moved);
  }

  lemma AllSuccessorsMoved(g: CallGraph, b: Name, ns: seq<Name>, moved: set<Pair>)
    requires forall s :: s in ns <==> (b, s) in g.edges
    ensures WithEdges(moved, b, ns, |ns|) == moved + (set d | d in g.edges && d.0 == b)
  {
    forall d: Pair ensures d in EdgesTo(b, ns, |ns|) <==> d in g.edges && d.0 == b {
      if d in g.edges && d.0 == b {
        assert d.1 in ns;
        var i :| 0 <= i < |ns| && ns[i] == d.1;
        assert d == (b, ns[i]);
      }
      if d in EdgesTo(b, ns, |ns|) {
        var i :| 0 <= i < |ns| && d == (b, ns[i]);
        assert ns[i] in ns;
      }
    }
  }

  /** `nm` names chain vertices the way ExpandBBGraph does. */
  ghost predicate NamesChains(calls: CallLists, nm: Namer) {
    && (forall b :: nm(b, 0) == b)
    && forall b, k: nat {:trigger nm(b, k + 1)} | b in calls && k < |calls[b]| ::
      nm(b, k + 1) == ChainName(b, calls[b][k], k + 1)
  }

  /** The state between two blocks of the outer loop. */
  ghost predicate Halfway(g: CallGraph, calls: CallLists, nm: Namer, rest: set<Name>, x: CallGraph) {
    Shape(g, calls, nm, ProgressOf(calls, rest), MovedOf(g, calls, rest), x)
  }

  function Remaining(calls: CallLists, rest: set<Name>): CallLists {
    map b | b in calls && b in rest :: calls[b]
  }

  lemma RemainingStep(calls: CallLists, rest: set<Name>, b: Name)
    requires b in rest && b in calls
    ensures Total(Remaining(calls, rest)) == |calls[b]| + Total(Remaining(calls, rest - {b}))
  {
    TotalWithout(Remaining(calls, rest), b);
    assert Remaining(calls, rest) - {b} == Remaining(calls, rest - {b});
  }

  /** The exit node and the sizes, when the blocks of `rest` are still to be expanded. */
  ghost predicate Accounts(g: CallGraph, calls: CallLists, nm: Namer, exit0: Name, rest: set<Name>, x: CallGraph,
                           exit: Name) {
    && exit == ExitWith(calls, nm, exit0, rest)
    && |x.vertices| + Total(Remaining(calls, rest)) == |g.vertices| + Total(calls)
    && |x.edges| + Total(Remaining(calls, rest)) == |g.edges| + Total(calls)
  }

  /** One turn of the outer loop. */
  method ExpandNext(x: LibcCallgraph, bbName: Name, calls: CallLists, exitNode: Name, ghost g: CallGraph,
                    ghost nm: Namer, ghost exit0: Name, ghost rest: set<Name>)
    returns (exit: Name)
    requires x.Valid() && BlockGraph(g, calls, nm) && NamesChains(calls, nm)
    requires bbName in rest && rest <= calls.Keys && Halfway(g, calls, nm, rest, x.value)
    requires Accounts(g, calls, nm, exit0, rest, x.value, exitNode)
    modifies x
    ensures x.Valid() && Halfway(g, calls, nm, rest - {bbName}, x.value)
    ensures Accounts(g, calls, nm, exit0, rest - {bbName}, x.value, exit)
    ensures Plain(old(x.value.vertices), x.value.vertices)
  {
    BlockStep(g, calls, rest, bbName);
    RemainingStep(calls, rest, bbName);
    assert nm(exit0, 0) == exit0;
    ExitStep(g, calls, nm, exit0, rest, bbName);
    exit := ExpandBlock(x, bbName, calls, exitNode, g, nm, ProgressOf(calls, rest), MovedOf(g, calls, rest));
  }

  /** The outer loop: the blocks with calls are expanded one by one, in an arbitrary order. */
  method ExpandBlocks(x: LibcCallgraph, calls: CallLists, exitNode: Name, ghost g: CallGraph, ghost nm: Namer)
    returns (exit: Name)
    requires x.Valid() && x.value == g && BlockGraph(g, calls, nm) && NamesChains(calls, nm)
    modifies x
    ensures x.Valid() && Halfway(g, calls, nm, {}, x.value)
    ensures Accounts(g, calls, nm, exitNode, {}, x.value, exit) && Plain(g.vertices, x.value.vertices)
  {
    exit := exitNode;
    var rest := calls.Keys;
    HalfwayStart(g, calls, nm);
    AccountsStart(g, calls, nm, exitNode);
    while rest != {}
      invariant rest <= calls.Keys && x.Valid()
      invariant Halfway(g, calls, nm, rest, x.value)
      invariant Accounts(g, calls, nm, exitNode, rest, x.value, exit) && Plain(g.vertices, x.value.vertices)
      decreases rest
    {
      ghost var before := x.value.vertices;
      var bbName :| bbName in rest;
      exit := ExpandNext(x, bbName, calls, exit, g, nm, exitNode, rest);
      PlainTrans(g.vertices, before, x.value.vertices);
      rest := rest - {bbName};
    }
  }

  lemma AccountsStart(g: CallGraph, calls: CallLists, nm: Namer, exitNode: Name)
    requires NamesChains(calls, nm)
    ensures Accounts(g, calls, nm, exitNode, calls.Keys, g, exitNode)
  {
    assert Remaining(calls, calls.Keys) == calls;
    assert nm(exitNode, 0) == exitNode;
  }

  /** ExpandBBGraph, for one function. */
  method ExpandBBGraph(bbGraph: LibcCallgraph, bbToLibcMap: CallLists, exitNode: Name)
    returns (bbExpandedGraph: LibcCallgraph, exit: Name)
    requires bbGraph.Valid() && BlockGraph(bbGraph.value, bbToLibcMap, ChainNamer(bbToLibcMap))
    ensures fresh(bbExpandedGraph) && bbExpandedGraph.Valid()
    ensures Expanded(bbGraph.value, bbToLibcMap, ChainNamer(bbToLibcMap), bbExpandedGraph.value)
    ensures exit == End(bbToLibcMap, ChainNamer(bbToLibcMap), exitNode)
    ensures forall v | v in bbExpandedGraph.value.vertices ::
              bbExpandedGraph.value.vertices[v] == (v in bbGraph.value.vertices && bbGraph.value.vertices[v])
    ensures forall b, k {:trigger bbToLibcMap[b][k]} | b in bbToLibcMap && 0 <= k < |bbToLibcMap[b]| ::
              bbExpandedGraph.value.Has(
                if k == 0 then b
                else b + (if "user:" <= bbToLibcMap[b][k - 1] then "-user_" else "-libc_") + Decimal(k),
                b + (if "user:" <= bbToLibcMap[b][k] then "-user_" else "-libc_") + Decimal(k + 1),
                bbToLibcMap[b][k])
    ensures forall d | d in bbGraph.value.edges ::
              bbExpandedGraph.value.Has(
                if d.0 !in bbToLibcMap then d.0
                else var cs := bbToLibcMap[d.0];
                     d.0 + (if "user:" <= cs[|cs| - 1] then "-user_" else "-libc_") + Decimal(|cs|),
                d.1, "control")
    ensures exit ==
            if exitNode !in bbToLibcMap then exitNode
            else var cs := bbToLibcMap[exitNode];
                 exitNode + (if "user:" <= cs[|cs| - 1] then "-user_" else "-libc_") + Decimal(|cs|)
    ensures |bbExpandedGraph.value.vertices| == |bbGraph.value.vertices| + Total(bbToLibcMap)
    ensures |bbExpandedGraph.value.edges| == |bbGraph.value.edges| + Total(bbToLibcMap)
  {
    ChainNamerNames(bbToLibcMap);
    bbExpandedGraph := new LibcCallgraph.Copy(bbGraph);
    exit := ExpandBlocks(bbExpandedGraph, bbToLibcMap, exitNode, bbGraph.value, ChainNamer(bbToLibcMap));
    HalfwayDone(bbGraph.value, bbToLibcMap, ChainNamer(bbToLibcMap), exitNode, bbExpandedGraph.value, exit);
    ChainsByName(bbGraph.value, bbToLibcMap, bbExpandedGraph.value);
    ExitByName(bbToLibcMap, exitNode);
  }

  /** The chains and the control edges behind them, with the names of their vertices spelled out. */
  lemma ChainsByName(g: CallGraph, calls: CallLists, x: CallGraph)
    requires BlockGraph(g, calls, ChainNamer(calls)) && Expanded(g, calls, ChainNamer(calls), x)
    ensures forall b, k {:trigger calls[b][k]} | b in calls && 0 <= k < |calls[b]| ::
              x.Has(
                if k == 0 then b else b + (if "user:" <= calls[b][k - 1] then "-user_" else "-libc_") + Decimal(k),
                b + (if "user:" <= calls[b][k] then "-user_" else "-libc_") + Decimal(k + 1),
                calls[b][k])
    ensures forall d | d in g.edges ::
              x.Has(
                if d.0 !in calls then d.0
                else var cs := calls[d.0];
                     d.0 + (if "user:" <= cs[|cs| - 1] then "-user_" else "-libc_") + Decimal(|cs|),
                d.1, "control")
  {
    forall b, k {:trigger calls[b][k]} | b in calls && 0 <= k < |calls[b]|
      ensures x.Has(
                if k == 0 then b else b + (if "user:" <= calls[b][k - 1] then "-user_" else "-libc_") + Decimal(k),
                b + (if "user:" <= calls[b][k] then "-user_" else "-libc_") + Decimal(k + 1),
                calls[b][k])
    {
      LinkByName(g, calls, x, b, k);
    }
    forall d | d in g.edges
      ensures x.Has(
                if d.0 !in calls then d.0
                else var cs := calls[d.0];
                     d.0 + (if "user:" <= cs[|cs| - 1] then "-user_" else "-libc_") + Decimal(|cs|),
                d.1, "control")
    {
      assert ControlEdge(g, calls, ChainNamer(calls), g.edges.Keys, d, (End(calls, ChainNamer(calls), d.0), d.1));
    }
  }

  lemma LinkByName(g: CallGraph, calls: CallLists, x: CallGraph, b: Name, k: nat)
    requires BlockGraph(g, calls, ChainNamer(calls)) && Expanded(g, calls, ChainNamer(calls), x)
    requires b in calls && k < |calls[b]|
    ensures x.Has(
              if k == 0 then b else b + (if "user:" <= calls[b][k - 1] then "-user_" else "-libc_") + Decimal(k),
              b + (if "user:" <= calls[b][k] then "-user_" else "-libc_") + Decimal(k + 1),
              calls[b][k])
  {
    var nm := ChainNamer(calls);
    assert ChainEdge(g, nm, AllCalls(calls), b, k, (nm(b, k), nm(b, k + 1)));
  }

  lemma ExitByName(calls: CallLists, exitNode: Name)
    requires exitNode in calls ==> calls[exitNode] != []
    ensures End(calls, ChainNamer(calls), exitNode) ==
            if exitNode !in calls then exitNode
            else var cs := calls[exitNode];
                 exitNode + (if "user:" <= cs[|cs| - 1] then "-user_" else "-libc_") + Decimal(|cs|)
  {
  }

  lemma ChainNamerNames(calls: CallLists)
    ensures NamesChains(calls, ChainNamer(calls))
  {
  }

  lemma HalfwayStart(g: CallGraph, calls: CallLists, nm: Namer)
    requires BlockGraph(g, calls, nm)
    ensures Halfway(g, calls, nm, calls.Keys, g)
  {
    ShapeStart(g, calls, nm, ProgressOf(calls, calls.Keys));
    assert MovedOf(g, calls, calls.Keys) == {};
  }

  lemma HalfwayDone(g: CallGraph, calls: CallLists, nm: Namer, exitNode: Name, x: CallGraph, exit: Name)
    requires BlockGraph(g, calls, nm) && Halfway(g, calls, nm, {}, x)
    requires Accounts(g, calls, nm, exitNode, {}, x, exit)
    ensures Expanded(g, calls, nm, x) && exit == End(calls, nm, exitNode)
    ensures |x.vertices| == |g.vertices| + Total(calls) && |x.edges| == |g.edges| + Total(calls)
  {
    assert ProgressOf(calls, {}) == AllCalls(calls);
    assert Remaining(calls, {}) == map[];
    ShapeDone(g, calls, nm, MovedOf(g, calls, {}), x);
  }

  lemma BlockStep(g: CallGraph, calls: CallLists, rest: set<Name>, b: Name)
    requires b in rest && b in calls
    ensures ProgressOf(calls, rest)[b := |calls[b]|] == ProgressOf(calls, rest - {b})
    ensures MovedOf(g, calls, rest) + (set d | d in g.edges && d.0 == b) == MovedOf(g, calls, rest - {b})
  {
  }

  /** The exit node while the blocks of `rest` are still to be expanded. */
  function ExitWith(calls: CallLists, nm: Namer, exitNode: Name, rest: set<Name>): Name {
    if exitNode in rest then exitNode else End(calls, nm, exitNode)
  }

  /** The exit node, once it has become a chain vertex, is not mistaken for a block. */
  lemma ExitStep(g: CallGraph, calls: CallLists, nm: Namer, exitNode: Name, rest: set<Name>, b: Name)
    requires BlockGraph(g, calls, nm) && nm(exitNode, 0) == exitNode && b in rest && rest <= calls.Keys
    ensures var exit := ExitWith(calls, nm, exitNode, rest);
            ExitWith(calls, nm, exitNode, rest - {b}) == if exit == b then End(calls, nm, b) else exit
  {
    if exitNode !in rest && End(calls, nm, exitNode) == b && exitNode in calls {
      NamesDiffer(g, calls, nm, exitNode, |CallsOf(calls, exitNode)|, b, 0);
    }
  }
}
