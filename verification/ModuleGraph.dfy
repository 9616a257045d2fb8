/** CombineLibcgGraph: the graphs of the functions that main calls are spliced into
    main's graph, and the result is contracted until no control and no "user:" edge
    is left. */
module ModuleGraph {
  import opened CallGraphs
  import opened LibcCallgraph
  import opened Connectivity
  import opened Contraction
  import opened PassOrders
  import opened MergeLoops

  /** What is known of a function when its graph has been contracted. */
  datatype FuncMeta = FuncMeta(entryNode: Name, exitNode: Name, libcCallGraph: LibcCallgraph)

  /** A function by values: its graph and the names of its entry and exit. */
  datatype Function = Function(entry: Name, exit: Name, graph: CallGraph)

  type Module = map<string, Function>

  /** What the map's `[]` makes of a name that is not there. */
  const NO_FUNCTION: Function := Function("", "", EMPTY)

  function Lookup(m: Module, f: string): Function {
    if f in m then m[f] else NO_FUNCTION
  }

  ghost predicate Describes(m: Module, funcs: map<string, FuncMeta>)
    reads set f | f in funcs :: funcs[f].libcCallGraph
  {
    m.Keys == funcs.Keys &&
    forall f | f in funcs ::
      && funcs[f].libcCallGraph.Valid()
      && m[f] == Function(funcs[f].entryNode, funcs[f].exitNode, funcs[f].libcCallGraph.value)
  }

  ghost predicate ValidModule(m: Module) {
    forall f | f in m :: m[f].graph.Valid()
  }

  ghost predicate Extends(x: CallGraph, x': CallGraph) {
    && x.vertices.Keys <= x'.vertices.Keys
    && forall e | e in x.edges :: e in x'.edges && x'.edges[e] == x.edges[e]
  }

  lemma ExtendsTrans(x: CallGraph, y: CallGraph, z: CallGraph)
    requires Extends(x, y) && Extends(y, z)
    ensures Extends(x, z)
  {
  }

  // ----- one call -----

  /** A call that is spliced in: the vertex that makes it, the name of the function that is
      called, and the neighbour of the vertex that the function's exit goes on to. */
  datatype Call = Call(at: Name, name: string, front: Name)

  /** The callee's graph inserted and entered. */
  function Entered(x: CallGraph, f: Function, at: Name): CallGraph {
    AddEdge(Insert(x, f.graph), at, f.entry, CONTROL)
  }

  function AfterCall(x: CallGraph, f: Function, c: Call): CallGraph {
    AddEdge(Entered(x, f, c.at), f.exit, c.front, CONTROL)
  }

  /** An edge of the calling vertex says so, and the neighbour is one that it then has. */
  ghost predicate IsCall(x: CallGraph, f: Function, c: Call) {
    (exists y :: x.Has(c.at, y, USER_PREFIX + c.name)) && (c.at, c.front) in Entered(x, f, c.at).edges
  }

  /** The pair of one of the two control edges that come with a call. */
  predicate IsLink(f: Function, c: Call, e: Pair) {
    e == (c.at, f.entry) || e == (f.exit, c.front)
  }

  /** What a call does: everything stays; the callee is there, entered from the calling vertex
      and left for a neighbour of it; its edges have their labels unless the pair was there;
      and nothing else is new. */
  lemma CallMeans(x: CallGraph, f: Function, c: Call)
    requires x.Valid() && f.graph.Valid() && IsCall(x, f, c)
    ensures var x' := AfterCall(x, f, c);
            && x'.Valid() && Extends(x, x')
            && x'.vertices.Keys == x.vertices.Keys + f.graph.vertices.Keys
            && (c.at, c.front) in x'.edges
            && (f.entry in f.graph.vertices ==> (c.at, f.entry) in x'.edges)
            && (f.exit in f.graph.vertices ==> (f.exit, c.front) in x'.edges)
            && (forall e | e in f.graph.edges :: e in x'.edges && (e in x.edges || x'.edges[e] == f.graph.edges[e]))
            && (forall e | e in x'.edges && e !in x.edges ::
                  || (e in f.graph.edges && x'.edges[e] == f.graph.edges[e])
                  || (x'.edges[e] == CONTROL && IsLink(f, c, e)))
  {
    var u, v, x' := Insert(x, f.graph), Entered(x, f, c.at), AfterCall(x, f, c);
    InsertIsUnion(x, f.graph);
    LinkMeans(u, c.at, f.entry);
    LinkMeans(v, f.exit, c.front);
    ExtendsTrans(x, u, v);
    ExtendsTrans(x, v, x');
    var y :| x.Has(c.at, y, USER_PREFIX + c.name);
    assert (c.at, y) in x.edges;
  }

  /** One control edge between vertices that are there, or nothing. */
  lemma LinkMeans(x: CallGraph, a: Name, b: Name)
    requires x.Valid()
    ensures var x' := AddEdge(x, a, b, CONTROL);
            && x'.Valid() && Extends(x, x') && x'.vertices == x.vertices
            && (a in x.vertices && b in x.vertices ==> (a, b) in x'.edges)
            && (forall e | e in x'.edges && e !in x.edges :: e == (a, b) && x'.edges[e] == CONTROL)
  {
  }

  /** One call of main: the callee's graph, an edge to its entry, and an edge from its
      exit to the first vertex listed behind the call. */
  method Splice(finalGraph: LibcCallgraph, entry: Name, callee: LibcCallgraph, funcEntry: Name, funcExit: Name)
    returns (front: Name)
    requires finalGraph.Valid() && callee.Valid() && callee != finalGraph
    requires Neighbors(finalGraph.value, entry) != {}
    modifies finalGraph
    ensures finalGraph.Valid()
    ensures var x, f := old(finalGraph.value), Function(funcEntry, funcExit, old(callee.value));
            && (entry, front) in Entered(x, f, entry).edges
            && forall name :: finalGraph.value == AfterCall(x, f, Call(entry, name, front))
  {
    finalGraph.InsertGraph(callee);
    finalGraph.AddEdge(entry, funcEntry, CONTROL);
    NeighborsGrow(old(finalGraph.value), finalGraph.value, entry);
    front := FirstNeighbor(finalGraph, entry);
    finalGraph.AddEdge(funcExit, front, CONTROL);
  }

  /** The vertex at the front of the neighbour list. */
  method FirstNeighbor(g: LibcCallgraph, v: Name) returns (front: Name)
    requires g.Valid() && Neighbors(g.value, v) != {}
    ensures front in Neighbors(g.value, v)
  {
    var neighbors := g.GetNeighbors(v);
    NonEmptyList(neighbors, Neighbors(g.value, v));
    front := neighbors[0];
  }

  lemma NonEmptyList(s: seq<Name>, xs: set<Name>)
    requires Lists(s, xs) && xs != {}
    ensures s != []
  {
    var x :| x in xs;
    assert x in s;
  }

  lemma NeighborsGrow(x: CallGraph, x': CallGraph, v: Name)
    requires forall e | e in x.edges :: e in x'.edges
    ensures Neighbors(x, v) <= Neighbors(x', v)
  {
  }

  // ----- many calls -----

  /** Main's graph `g`, and what it is after each of the calls; each is made by one of main's
      vertices at its time. */
  ghost predicate CallHistory(g: CallGraph, m: Module, calls: seq<Call>, xs: seq<CallGraph>) {
    && g.Valid() && ValidModule(m) && |xs| == |calls| + 1 && xs[0] == g
    && forall i {:trigger calls[i]} | 0 <= i < |calls| ::
         && calls[i].at in g.vertices && IsCall(xs[i], Lookup(m, calls[i].name), calls[i])
         && xs[i + 1] == AfterCall(xs[i], Lookup(m, calls[i].name), calls[i])
  }

  /** `x` is main's graph `g` with the calls spliced in, one after the other. */
  ghost predicate Spliced(g: CallGraph, m: Module, calls: seq<Call>, x: CallGraph) {
    exists xs :: CallHistory(g, m, calls, xs) && xs[|calls|] == x
  }

  /** Later calls leave what earlier ones have made. */
  lemma {:induction false} Grows(g: CallGraph, m: Module, calls: seq<Call>, xs: seq<CallGraph>, i: nat, j: nat)
    requires CallHistory(g, m, calls, xs) && i <= j <= |calls|
    ensures xs[j].Valid() && Extends(xs[i], xs[j])
    decreases j
  {
    if j > 0 {
      Grows(g, m, calls, xs, if i < j then i else j - 1, j - 1);
      CallMeans(xs[j - 1], Lookup(m, calls[j - 1].name), calls[j - 1]);
      if i < j {
        ExtendsTrans(xs[i], xs[j - 1], xs[j]);
      }
    }
  }

  /** Of main's graph nothing is lost. */
  lemma MainStays(g: CallGraph, m: Module, calls: seq<Call>, x: CallGraph)
    requires Spliced(g, m, calls, x)
    ensures x.Valid()
    ensures forall v | v in g.vertices :: v in x.vertices
    ensures forall e | e in g.edges :: e in x.edges && x.edges[e] == g.edges[e]
  {
    var xs: seq<CallGraph> :| CallHistory(g, m, calls, xs) && xs[|calls|] == x;
    Grows(g, m, calls, xs, 0, |calls|);
  }

  /** Every call has brought the whole callee, entered from the calling vertex, and left for
      a neighbour of it; an edge of the callee has its own label unless main or an earlier
      call had brought the pair. */
  lemma CalleeIsThere(g: CallGraph, m: Module, calls: seq<Call>, x: CallGraph, j: nat)
    requires Spliced(g, m, calls, x) && j < |calls|
    ensures var c := calls[j];
            && c.at in g.vertices && (exists y :: x.Has(c.at, y, "user:" + c.name)) && (c.at, c.front) in x.edges
            && (c.name in m ==>
                  var f := m[c.name];
                  && (forall v | v in f.graph.vertices :: v in x.vertices)
                  && (forall e | e in f.graph.edges ::
                        e in x.edges && (x.edges[e] == f.graph.edges[e] || HadPair(g, m, calls, j, e)))
                  && (f.entry in f.graph.vertices ==> (c.at, f.entry) in x.edges)
                  && (f.exit in f.graph.vertices ==> (f.exit, c.front) in x.edges))
  {
    var xs: seq<CallGraph> :| CallHistory(g, m, calls, xs) && xs[|calls|] == x;
    Grows(g, m, calls, xs, 0, j);
    Grows(g, m, calls, xs, j + 1, |calls|);
    CalleeAt(g, m, calls, xs[j], xs[j + 1], x, j);
    PairsOrigin(g, m, calls, xs, j);
  }

  lemma CalleeAt(g: CallGraph, m: Module, calls: seq<Call>, before: CallGraph, after: CallGraph, x: CallGraph, j: nat)
    requires j < |calls| && before.Valid() && ValidModule(m) && Extends(after, x)
    requires IsCall(before, Lookup(m, calls[j].name), calls[j])
    requires after == AfterCall(before, Lookup(m, calls[j].name), calls[j])
    ensures var c := calls[j];
            && (exists y :: x.Has(c.at, y, "user:" + c.name)) && (c.at, c.front) in x.edges
            && (c.name in m ==>
                  var f := m[c.name];
                  && (forall v | v in f.graph.vertices :: v in x.vertices)
                  && (forall e | e in f.graph.edges ::
                        e in x.edges && (x.edges[e] == f.graph.edges[e] || e in before.edges))
                  && (f.entry in f.graph.vertices ==> (c.at, f.entry) in x.edges)
                  && (f.exit in f.graph.vertices ==> (f.exit, c.front) in x.edges))
  {
    LookupValid(m, calls[j].name);
    CalleeStays(before, Lookup(m, calls[j].name), calls[j], x);
  }

  lemma LookupValid(m: Module, f: string)
    requires ValidModule(m)
    ensures Lookup(m, f).graph.Valid()
  {
  }

  lemma PairsOrigin(g: CallGraph, m: Module, calls: seq<Call>, xs: seq<CallGraph>, j: nat)
    requires CallHistory(g, m, calls, xs) && j <= |calls|
    ensures forall e | e in xs[j].edges :: HadPair(g, m, calls, j, e)
  {
    forall e | e in xs[j].edges ensures HadPair(g, m, calls, j, e) {
      PairOrigin(g, m, calls, xs, j, e);
    }
  }

  /** What a call has brought is in every later graph. */
  lemma CalleeStays(x: CallGraph, f: Function, c: Call, later: CallGraph)
    requires x.Valid() && f.graph.Valid() && IsCall(x, f, c) && Extends(AfterCall(x, f, c), later)
    ensures (exists y :: later.Has(c.at, y, "user:" + c.name)) && (c.at, c.front) in later.edges
    ensures forall v | v in f.graph.vertices :: v in later.vertices
    ensures forall e | e in f.graph.edges ::
              e in later.edges && (later.edges[e] == f.graph.edges[e] || e in x.edges)
    ensures f.entry in f.graph.vertices ==> (c.at, f.entry) in later.edges
    ensures f.exit in f.graph.vertices ==> (f.exit, c.front) in later.edges
  {
    CallMeans(x, f, c);
    var y :| x.Has(c.at, y, USER_PREFIX + c.name);
    assert later.Has(c.at, y, "user:" + c.name);
  }

  /** Main's graph has the pair, or one of the first `j` calls has brought it. */
  ghost predicate HadPair(g: CallGraph, m: Module, calls: seq<Call>, j: nat, e: Pair)
    requires j <= |calls|
  {
    e in g.edges ||
    exists i :: 0 <= i < j &&
      (e in Lookup(m, calls[i].name).graph.edges || IsLink(Lookup(m, calls[i].name), calls[i], e))
  }

  lemma {:induction false} PairOrigin(g: CallGraph, m: Module, calls: seq<Call>, xs: seq<CallGraph>, j: nat, e: Pair)
    requires CallHistory(g, m, calls, xs) && j <= |calls| && e in xs[j].edges
    ensures HadPair(g, m, calls, j, e)
  {
    if j > 0 {
      Grows(g, m, calls, xs, 0, j - 1);
      CallMeans(xs[j - 1], Lookup(m, calls[j - 1].name), calls[j - 1]);
      if e in xs[j - 1].edges {
        PairOrigin(g, m, calls, xs, j - 1, e);
      }
    }
  }

  /** Every vertex is main's or a callee's. */
  lemma VertexOrigin(g: CallGraph, m: Module, calls: seq<Call>, x: CallGraph, v: Name)
    requires Spliced(g, m, calls, x) && v in x.vertices
    ensures v in g.vertices || exists c :: c in calls && c.name in m && v in m[c.name].graph.vertices
  {
    var xs: seq<CallGraph> :| CallHistory(g, m, calls, xs) && xs[|calls|] == x;
    VertexOriginAt(g, m, calls, xs, |calls|, v);
  }

  lemma {:induction false} VertexOriginAt(g: CallGraph, m: Module, calls: seq<Call>, xs: seq<CallGraph>, j: nat,
                                          v: Name)
    requires CallHistory(g, m, calls, xs) && j <= |calls| && v in xs[j].vertices
    ensures v in g.vertices || exists c :: c in calls && c.name in m && v in m[c.name].graph.vertices
  {
    if j > 0 {
      Grows(g, m, calls, xs, 0, j - 1);
      CallMeans(xs[j - 1], Lookup(m, calls[j - 1].name), calls[j - 1]);
      if v in xs[j - 1].vertices {
        VertexOriginAt(g, m, calls, xs, j - 1, v);
      }
    }
  }

  /** A callee's edge, with its label. */
  predicate IsOfCallee(m: Module, c: Call, e: Pair, lbl: string) {
    c.name in m && e in m[c.name].graph.edges && m[c.name].graph.edges[e] == lbl
  }

  /** Every edge is main's, with its label, or a callee's, with its label, or one of the two
      control edges of a call: from the calling vertex to the callee's entry, and from the
      callee's exit to a neighbour of the calling vertex. */
  lemma EdgeOrigin(g: CallGraph, m: Module, calls: seq<Call>, x: CallGraph, e: Pair)
    requires Spliced(g, m, calls, x) && e in x.edges
    ensures || (e in g.edges && x.edges[e] == g.edges[e])
            || (exists c :: c in calls && c.name in m && e in m[c.name].graph.edges &&
                            x.edges[e] == m[c.name].graph.edges[e])
            || (x.edges[e] == "control" &&
                exists c :: c in calls && (e == (c.at, Lookup(m, c.name).entry) ||
                  e == (Lookup(m, c.name).exit, c.front)))
  {
    var xs: seq<CallGraph> :| CallHistory(g, m, calls, xs) && xs[|calls|] == x;
    var i := EdgeOriginAt(g, m, calls, xs, |calls|, e);
    assert i < |calls| ==> calls[i] in calls;
  }

  /** The call that has brought the edge, or the number of calls if main's graph has it. */
  lemma {:induction false} EdgeOriginAt(g: CallGraph, m: Module, calls: seq<Call>, xs: seq<CallGraph>, j: nat, e: Pair)
    returns (i: nat)
    requires CallHistory(g, m, calls, xs) && j <= |calls| && e in xs[j].edges
    ensures if i < j then IsBrought(m, calls[i], e, xs[j].edges[e])
            else i == |calls| && e in g.edges && xs[j].edges[e] == g.edges[e]
  {
    if j == 0 {
      i := |calls|;
    } else {
      var x := xs[j - 1];
      Grows(g, m, calls, xs, 0, j - 1);
      CallBrings(m, x, calls[j - 1], e);
      if e in x.edges {
        i := EdgeOriginAt(g, m, calls, xs, j - 1, e);
      } else {
        i := j - 1;
      }
    }
  }

  /** The edge comes from the callee, or is one of its links. */
  predicate IsBrought(m: Module, c: Call, e: Pair, lbl: string) {
    IsOfCallee(m, c, e, lbl) || (lbl == CONTROL && IsLink(Lookup(m, c.name), c, e))
  }

  lemma CallBrings(m: Module, x: CallGraph, c: Call, e: Pair)
    requires x.Valid() && ValidModule(m) && IsCall(x, Lookup(m, c.name), c)
    requires e in AfterCall(x, Lookup(m, c.name), c).edges
    ensures var x' := AfterCall(x, Lookup(m, c.name), c);
            if e in x.edges then x'.edges[e] == x.edges[e] else IsBrought(m, c, e, x'.edges[e])
  {
    CallMeans(x, Lookup(m, c.name), c);
  }

  /** `lbl` is a label of main's graph, or of a function that one of the first `k` calls has inserted. */
  ghost predicate KnownLabel(g: CallGraph, m: Module, calls: seq<Call>, k: nat, lbl: string)
    requires k <= |calls|
  {
    lbl in g.edges.Values ||
    exists i :: 0 <= i < k && calls[i].name in m && lbl in m[calls[i].name].graph.edges.Values
  }

  lemma LabelIsKnown(g: CallGraph, m: Module, calls: seq<Call>, xs: seq<CallGraph>, k: nat, e: Pair)
    requires CallHistory(g, m, calls, xs) && k <= |calls| && e in xs[k].edges
    ensures xs[k].edges[e] == CONTROL || KnownLabel(g, m, calls, k, xs[k].edges[e])
  {
    var i := EdgeOriginAt(g, m, calls, xs, k, e);
    if i < k && IsOfCallee(m, calls[i], e, xs[k].edges[e]) {
      assert xs[k].edges[e] in m[calls[i].name].graph.edges.Values;
    }
    if i >= k {
      assert xs[k].edges[e] in g.edges.Values;
    }
  }

  /** Each call is made by an edge of main, or of a function inserted before. */
  lemma CallIsKnown(g: CallGraph, m: Module, calls: seq<Call>, x: CallGraph, k: nat)
    requires Spliced(g, m, calls, x) && k < |calls|
    ensures KnownLabel(g, m, calls, k, "user:" + calls[k].name)
  {
    var xs: seq<CallGraph> :| CallHistory(g, m, calls, xs) && xs[|calls|] == x;
    var y :| xs[k].Has(calls[k].at, y, USER_PREFIX + calls[k].name);
    LabelIsKnown(g, m, calls, xs, k, (calls[k].at, y));
    assert (USER_PREFIX + calls[k].name)[0] != CONTROL[0];
  }

  // ----- the insertion loops -----

  /** What is recorded for a function, or the default that the map's `[]` makes. */
  method FindMeta(funcs: map<string, FuncMeta>, f: string, ghost m: Module, ghost other: LibcCallgraph)
    returns (meta: FuncMeta)
    requires Describes(m, funcs) && forall f | f in funcs :: funcs[f].libcCallGraph != other
    ensures meta.libcCallGraph.Valid() && (fresh(meta.libcCallGraph) || meta.libcCallGraph != other)
    ensures Lookup(m, f) == Function(meta.entryNode, meta.exitNode, meta.libcCallGraph.value)
  {
    if f in funcs {
      meta := funcs[f];
    } else {
      var nothing := new LibcCallgraph();
      meta := FuncMeta("", "", nothing);
    }
  }

  /** One outgoing edge of main's vertex `entry`: the callee of a "user:" edge is spliced in. */
  method SpliceEdge(finalGraph: LibcCallgraph, entry: Name, edge: string, funcs: map<string, FuncMeta>,
                    ghost g: CallGraph, ghost m: Module, ghost calls0: seq<Call>)
    returns (ghost calls: seq<Call>)
    requires finalGraph.Valid() && Describes(m, funcs) && forall f | f in funcs :: funcs[f].libcCallGraph != finalGraph
    requires entry in g.vertices && exists y :: finalGraph.value.Has(entry, y, edge)
    requires Spliced(g, m, calls0, finalGraph.value)
    modifies finalGraph
    ensures finalGraph.Valid() && Spliced(g, m, calls, finalGraph.value)
    ensures Extends(old(finalGraph.value), finalGraph.value)
    ensures if USER_PREFIX <= edge then exists front :: calls == calls0 + [Call(entry, edge[5..], front)]
            else calls == calls0
  {
    calls := calls0;
    if USER_PREFIX <= edge {
      var functionCall := edge[5..];
      assert edge == USER_PREFIX + functionCall;
      ghost var before := finalGraph.value;
      HasNeighbor(before, entry, edge);
      var meta := FindMeta(funcs, functionCall, m, finalGraph);
      var front := Splice(finalGraph, entry, meta.libcCallGraph, meta.entryNode, meta.exitNode);
      ghost var c := Call(entry, functionCall, front);
      OneMoreCall(g, m, calls0, before, c, finalGraph.value);
      calls := calls + [c];
    }
  }

  lemma OneMoreCall(g: CallGraph, m: Module, calls: seq<Call>, x: CallGraph, c: Call, x': CallGraph)
    requires Spliced(g, m, calls, x) && c.at in g.vertices && IsCall(x, Lookup(m, c.name), c)
    requires x' == AfterCall(x, Lookup(m, c.name), c)
    ensures Spliced(g, m, calls + [c], x') && Extends(x, x')
  {
    OneCallExtends(g, m, calls, x, c);
    var xs: seq<CallGraph> :| CallHistory(g, m, calls, xs) && xs[|calls|] == x;
    var longer, ys := calls + [c], xs + [x'];
    forall i {:trigger longer[i]} | 0 <= i < |longer|
      ensures longer[i].at in g.vertices && IsCall(ys[i], Lookup(m, longer[i].name), longer[i])
      ensures ys[i + 1] == AfterCall(ys[i], Lookup(m, longer[i].name), longer[i])
    {
      if i < |calls| {
        assert longer[i] == calls[i] && ys[i] == xs[i] && ys[i + 1] == xs[i + 1];
      }
    }
    assert CallHistory(g, m, longer, ys);
  }

  lemma OneCallExtends(g: CallGraph, m: Module, calls: seq<Call>, x: CallGraph, c: Call)
    requires Spliced(g, m, calls, x) && IsCall(x, Lookup(m, c.name), c)
    ensures Extends(x, AfterCall(x, Lookup(m, c.name), c))
  {
    MainStays(g, m, calls, x);
    CallMeans(x, Lookup(m, c.name), c);
  }

  lemma NoCallYet(g: CallGraph, m: Module)
    requires g.Valid() && ValidModule(m)
    ensures Spliced(g, m, [], g)
  {
    assert CallHistory(g, m, [], [g]);
  }

  lemma HasNeighbor(x: CallGraph, v: Name, lbl: string)
    requires exists y :: x.Has(v, y, lbl)
    ensures Neighbors(x, v) != {}
  {
    var y :| x.Has(v, y, lbl);
    assert (v, y).1 in Neighbors(x, v);
  }

  /** The calls that a list of labels makes at `at`, in its order. */
  ghost predicate Makes(labels: seq<string>, k: nat, at: Name, calls: seq<Call>)
    requires k <= |labels|
  {
    if k == 0 then calls == []
    else if !(USER_PREFIX <= labels[k - 1]) then Makes(labels, k - 1, at, calls)
    else
      && calls != [] && Makes(labels, k - 1, at, calls[..|calls| - 1])
      && calls[|calls| - 1].at == at && calls[|calls| - 1].name == labels[k - 1][5..]
  }

  /** Every "user:" label makes a call. */
  lemma {:induction false} MakesEvery(labels: seq<string>, k: nat, at: Name, calls: seq<Call>, i: nat)
    requires i < k <= |labels| && Makes(labels, k, at, calls) && "user:" <= labels[i]
    ensures exists c :: c in calls && c.at == at && c.name == labels[i][5..]
    decreases k
  {
    if i == k - 1 {
      assert calls[|calls| - 1] in calls;
    } else if USER_PREFIX <= labels[k - 1] {
      MakesEvery(labels, k - 1, at, calls[..|calls| - 1], i);
    } else {
      MakesEvery(labels, k - 1, at, calls, i);
    }
  }

  /** The labels of the edges from `v`, each as often as there are edges that carry it. */
  ghost predicate IsOutgoing(x: CallGraph, v: Name, labels: seq<string>) {
    && (forall lbl :: lbl in labels <==> exists y :: x.Has(v, y, lbl))
    && (forall lbl :: multiset(labels)[lbl] == |set e | e in x.edges && e.0 == v && x.edges[e] == lbl|)
  }

  method ListOutgoing(x: LibcCallgraph, v: Name) returns (labels: seq<string>)
    requires x.Valid()
    ensures IsOutgoing(x.value, v, labels)
  {
    labels := x.GetOutgoingEdges(v);
  }

  /** The outgoing edges of one vertex: for every "user:" edge its callee is spliced in, twice if two edges call it. */
  method SpliceVertex(finalGraph: LibcCallgraph, entry: Name, funcs: map<string, FuncMeta>,
                      ghost g: CallGraph, ghost m: Module, ghost calls0: seq<Call>)
    returns (edges: seq<string>, ghost made: seq<Call>)
    requires finalGraph.Valid() && Describes(m, funcs) && forall f | f in funcs :: funcs[f].libcCallGraph != finalGraph
    requires entry in g.vertices && Spliced(g, m, calls0, finalGraph.value)
    modifies finalGraph
    ensures finalGraph.Valid() && Spliced(g, m, calls0 + made, finalGraph.value)
    ensures IsOutgoing(old(finalGraph.value), entry, edges)
    ensures Makes(edges, |edges|, entry, made)
  {
    made := [];
    ghost var x := finalGraph.value;
    edges := ListOutgoing(finalGraph, entry);
    assert calls0 + [] == calls0;
    for k := 0 to |edges|
      invariant finalGraph.Valid() && Describes(m, funcs) && Extends(x, finalGraph.value)
      invariant Spliced(g, m, calls0 + made, finalGraph.value) && Makes(edges, k, entry, made)
    {
      made := SpliceNext(finalGraph, entry, edges, k, funcs, g, m, x, calls0, made);
    }
  }

  /** The next of the outgoing edges that the vertex had in `x`. */
  method SpliceNext(finalGraph: LibcCallgraph, entry: Name, edges: seq<string>, k: nat, funcs: map<string, FuncMeta>,
                    ghost g: CallGraph, ghost m: Module, ghost x: CallGraph, ghost calls0: seq<Call>,
                    ghost made0: seq<Call>)
    returns (ghost made: seq<Call>)
    requires finalGraph.Valid() && Describes(m, funcs) && forall f | f in funcs :: funcs[f].libcCallGraph != finalGraph
    requires entry in g.vertices && k < |edges| && IsOutgoing(x, entry, edges) && Extends(x, finalGraph.value)
    requires Spliced(g, m, calls0 + made0, finalGraph.value) && Makes(edges, k, entry, made0)
    modifies finalGraph
    ensures finalGraph.Valid() && Extends(x, finalGraph.value)
    ensures Spliced(g, m, calls0 + made, finalGraph.value) && Makes(edges, k + 1, entry, made)
  {
    StillThere(x, finalGraph.value, entry, edges, k);
    ghost var before := finalGraph.value;
    ghost var calls := SpliceEdge(finalGraph, entry, edges[k], funcs, g, m, calls0 + made0);
    ExtendsTrans(x, before, finalGraph.value);
    made := MadeMore(calls0, made0, calls, entry, edges, k);
  }

  lemma MadeMore(calls0: seq<Call>, made: seq<Call>, calls: seq<Call>, entry: Name, edges: seq<string>, k: nat)
    returns (longer: seq<Call>)
    requires k < |edges| && Makes(edges, k, entry, made)
    requires if USER_PREFIX <= edges[k] then exists front ::
             calls == calls0 + made + [Call(entry, edges[k][5..], front)]
             else calls == calls0 + made
    ensures calls == calls0 + longer && Makes(edges, k + 1, entry, longer)
  {
    longer := made;
    if USER_PREFIX <= edges[k] {
      var front :| calls == calls0 + made + [Call(entry, edges[k][5..], front)];
      longer := made + [Call(entry, edges[k][5..], front)];
      assert longer[..|longer| - 1] == made;
    }
  }

  lemma StillThere(x: CallGraph, x': CallGraph, v: Name, labels: seq<string>, k: nat)
    requires Extends(x, x') && k < |labels| && IsOutgoing(x, v, labels)
    ensures exists y :: x'.Has(v, y, labels[k])
  {
    assert labels[k] in labels;
    var y :| x.Has(v, y, labels[k]);
    assert x'.Has(v, y, labels[k]);
  }

  /** All calls that main's graph makes at `v` are spliced in. */
  ghost predicate AllMade(g: CallGraph, calls: seq<Call>, v: Name) {
    forall e | e in g.edges && e.0 == v && "user:" <= g.edges[e] ::
      exists c :: c in calls && c.at == v && c.name == g.edges[e][5..]
  }

  lemma VertexMade(g: CallGraph, m: Module, calls: seq<Call>, x: CallGraph, made: seq<Call>, v: Name,
                   labels: seq<string>)
    requires Spliced(g, m, calls, x) && Makes(labels, |labels|, v, made) && IsOutgoing(x, v, labels)
    ensures AllMade(g, calls + made, v)
  {
    MainStays(g, m, calls, x);
    forall e | e in g.edges && e.0 == v && "user:" <= g.edges[e]
      ensures exists c :: c in calls + made && c.at == v && c.name == g.edges[e][5..]
    {
      assert x.Has(v, e.1, g.edges[e]);
      assert g.edges[e] in labels;
      var i :| 0 <= i < |labels| && labels[i] == g.edges[e];
      MakesEvery(labels, |labels|, v, made, i);
      var c :| c in made && c.at == v && c.name == labels[i][5..];
      assert c in calls + made;
    }
  }

  lemma StayAllMade(g: CallGraph, calls: seq<Call>, made: seq<Call>, v: Name)
    requires AllMade(g, calls, v)
    ensures AllMade(g, calls + made, v)
  {
    forall e | e in g.edges && e.0 == v && "user:" <= g.edges[e]
      ensures exists c :: c in calls + made && c.at == v && c.name == g.edges[e][5..]
    {
      var c :| c in calls && c.at == v && c.name == g.edges[e][5..];
      assert c in calls + made;
    }
  }

  ghost predicate MadeUpTo(g: CallGraph, calls: seq<Call>, vertices: seq<Name>, k: nat)
    requires k <= |vertices|
  {
    forall i | 0 <= i < k :: AllMade(g, calls, vertices[i])
  }

  lemma MadeNext(g: CallGraph, calls: seq<Call>, made: seq<Call>, vertices: seq<Name>, k: nat)
    requires k < |vertices| && MadeUpTo(g, calls, vertices, k) && AllMade(g, calls + made, vertices[k])
    ensures MadeUpTo(g, calls + made, vertices, k + 1)
  {
    forall i | 0 <= i < k ensures AllMade(g, calls + made, vertices[i]) {
      StayAllMade(g, calls, made, vertices[i]);
    }
  }

  lemma DescribesValid(m: Module, funcs: map<string, FuncMeta>)
    requires Describes(m, funcs)
    ensures ValidModule(m)
  {
    forall f | f in m ensures m[f].graph.Valid() {
      assert f in funcs && funcs[f].libcCallGraph.Valid();
    }
  }

  /** The insertion loop over main's vertices. */
  method SpliceCallees(finalGraph: LibcCallgraph, funcs: map<string, FuncMeta>, ghost m: Module)
    returns (ghost calls: seq<Call>)
    requires finalGraph.Valid() && Describes(m, funcs) && forall f | f in funcs :: funcs[f].libcCallGraph != finalGraph
    modifies finalGraph
    ensures finalGraph.Valid() && Spliced(old(finalGraph.value), m, calls, finalGraph.value)
    ensures forall e | e in old(finalGraph.value).edges && "user:" <= old(finalGraph.value).edges[e] ::
              exists c :: c in calls && c.at == e.0 && c.name == old(finalGraph.value).edges[e][5..]
  {
    calls := [];
    ghost var g := finalGraph.value;
    DescribesValid(m, funcs);
    NoCallYet(g, m);
    var vertices := finalGraph.GetVertices();
    for k := 0 to |vertices|
      invariant finalGraph.Valid() && Describes(m, funcs)
      invariant Spliced(g, m, calls, finalGraph.value)
      invariant MadeUpTo(g, calls, vertices, k)
    {
      assert vertices[k] in vertices;
      ghost var x := finalGraph.value;
      var edges, made := SpliceVertex(finalGraph, vertices[k], funcs, g, m, calls);
      VertexMade(g, m, calls, x, made, vertices[k], edges);
      MadeNext(g, calls, made, vertices, k);
      calls := calls + made;
    }
    EveryCallMade(g, vertices, calls);
  }

  lemma EveryCallMade(g: CallGraph, vertices: seq<Name>, calls: seq<Call>)
    requires g.Valid() && Lists(vertices, g.vertices.Keys)
    requires MadeUpTo(g, calls, vertices, |vertices|)
    ensures forall e | e in g.edges && "user:" <= g.edges[e] ::
              exists c :: c in calls && c.at == e.0 && c.name == g.edges[e][5..]
  {
    forall e | e in g.edges && "user:" <= g.edges[e]
      ensures exists c :: c in calls && c.at == e.0 && c.name == g.edges[e][5..]
    {
      assert e.0 in vertices;
      var i :| 0 <= i < |vertices| && vertices[i] == e.0;
      assert AllMade(g, calls, vertices[i]);
    }
  }

  // ----- the whole of it -----

  /** Merging makes no labels. */
  lemma {:induction false} ReplayLabels(g: CallGraph, log: Log, f: Pair) returns (e: Pair)
    requires g.Valid() && f in Replay(g, log).edges
    ensures e in g.edges && g.edges[e] == Replay(g, log).edges[f]
  {
    if log == [] {
      e := f;
    } else {
      var k := |log| - 1;
      var h := Replay(g, log[..k]);
      ReplayValid(g, log[..k]);
      var (l, r) := log[k];
      if l in h.vertices && r in h.vertices {
        CombineEdges(h, l, r, f);
        var f' := if f in h.edges then f else if f.0 == l && (r, f.1) in h.edges then (r, f.1) else (f.0, r);
        e := ReplayLabels(g, log[..k], f');
      } else {
        e := ReplayLabels(g, log[..k], f);
      }
    }
  }

  /** The labels that are left when the merge loop has ended. */
  lemma FinalLabels(g: CallGraph, m: Module, calls: seq<Call>, x: CallGraph, log: Log)
    requires Spliced(g, m, calls, x) && Done(true, Replay(x, log))
    ensures forall e | e in Replay(x, log).edges :: KnownLabel(g, m, calls, |calls|, Replay(x, log).edges[e])
  {
    MainStays(g, m, calls, x);
    var xs: seq<CallGraph> :| CallHistory(g, m, calls, xs) && xs[|calls|] == x;
    forall e | e in Replay(x, log).edges ensures KnownLabel(g, m, calls, |calls|, Replay(x, log).edges[e]) {
      var e' := ReplayLabels(x, log, e);
      LabelIsKnown(g, m, calls, xs, |calls|, e');
    }
  }

  /** CombineLibcgGraph.  Before the merge loop the graph is main's with every call of main,
      and the calls of callees found on the way, spliced in.  After it there is neither a
      control nor a "user:" edge, and every label is one of main's or of an inserted callee's.
      The entry stays main's entry by name; the exit is the vertex that main's exit has been
      merged into. */
  method CombineLibcgGraph(funcs: map<string, FuncMeta>, ghost m: Module)
    returns (finalGraph: LibcCallgraph, entry: Name, exit: Name,
             ghost spliced: CallGraph, ghost log: Log, ghost calls: seq<Call>, ghost passes: nat)
    requires Describes(m, funcs) && "main" in funcs
    ensures fresh(finalGraph) && finalGraph.Valid()
    ensures Spliced(m["main"].graph, m, calls, spliced)
    ensures forall e | e in m["main"].graph.edges && "user:" <= m["main"].graph.edges[e] ::
              exists c :: c in calls && c.at == e.0 && c.name == m["main"].graph.edges[e][5..]
    ensures Recorded(true, spliced, m["main"].exit, finalGraph.value, exit, log)
    ensures ReachedBy(true, spliced, log, Stage(finalGraph.value, {}))
    ensures forall e | e in finalGraph.value.edges ::
              finalGraph.value.edges[e] != "control" && !("user:" <= finalGraph.value.edges[e])
    ensures forall e | e in finalGraph.value.edges ::
              KnownLabel(m["main"].graph, m, calls, |calls|, finalGraph.value.edges[e])
    ensures entry == funcs["main"].entryNode && passes <= |spliced.vertices| + 1
    ensures m["main"].exit in m["main"].graph.vertices && (Proper(log) || Forest(SilentPairs(true, spliced))) ==>
              exit in finalGraph.value.vertices
  {
    var meta := funcs["main"];
    finalGraph := new LibcCallgraph.Copy(meta.libcCallGraph);
    entry, exit := meta.entryNode, meta.exitNode;
    calls := SpliceCallees(finalGraph, funcs, m);
    spliced := finalGraph.value;
    DescribesValid(m, funcs);
    MainStays(m["main"].graph, m, calls, spliced);
    exit, log, passes := ContractModuleGraph(finalGraph, exit);
    FinalLabels(m["main"].graph, m, calls, spliced, log);
    if meta.exitNode in m["main"].graph.vertices && (Proper(log) || Forest(SilentPairs(true, spliced))) {
      ExitSurvives(true, spliced, meta.exitNode, finalGraph.value, exit, log);
    }
  }
}
