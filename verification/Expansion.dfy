/** ExpandBBGraph: every basic block becomes a chain of call edges, and the control
    edges that left the block leave the end of its chain. */
module Expansion {
  import opened CallGraphs

  type CallLists = map<Name, seq<string>>

  function CallsOf(calls: CallLists, b: Name): seq<string> {
    if b in calls then calls[b] else []
  }

  /** A way to name the vertex behind the first `k` calls of a block. */
  type Namer = (Name, nat) -> Name

  ghost predicate Distinct(nm: Namer, b: Name, k: nat, c: Name, j: nat) {
    nm(b, k) == nm(c, j) ==> b == c && k == j
  }

  /** Blocks and chain vertices have different names. */
  ghost predicate FreshNames(vs: set<Name>, calls: CallLists, nm: Namer) {
    && (forall b | b in vs :: nm(b, 0) == b)
    && (forall b, k: nat, c, j: nat {:trigger Distinct(nm, b, k, c, j)}
          | b in vs && c in vs && k <= |CallsOf(calls, b)| && j <= |CallsOf(calls, c)| :: Distinct(nm, b, k, c, j))
  }

  /** The last vertex of the chain of `b`. */
  function End(calls: CallLists, nm: Namer, b: Name): Name {
    nm(b, |CallsOf(calls, b)|)
  }

  /** What an expansion starts from: a graph of control edges, and for some blocks a
      non-empty list of calls, none of them labelled like a control edge. */
  ghost predicate BlockGraph(g: CallGraph, calls: CallLists, nm: Namer) {
    && g.Valid()
    && (forall e | e in g.edges :: g.edges[e] == CONTROL)
    && calls.Keys <= g.vertices.Keys
    && (forall b | b in calls :: calls[b] != [] && CONTROL !in calls[b])
    && FreshNames(g.vertices.Keys, calls, nm)
  }

  // ----- the graph while blocks are being expanded -----

  /** How many calls of each block have their chain edge. */
  type Progress = map<Name, nat>

  function Built(len: Progress, b: Name): nat {
    if b in len then len[b] else 0
  }

  ghost predicate Bounded(g: CallGraph, calls: CallLists, len: Progress) {
    forall b | b in g.vertices :: Built(len, b) <= |CallsOf(calls, b)|
  }

  ghost predicate ChainVertex(g: CallGraph, nm: Namer, len: Progress, b: Name, k: nat, v: Name) {
    b in g.vertices && k <= Built(len, b) && v == nm(b, k)
  }

  ghost predicate ChainEdge(g: CallGraph, nm: Namer, len: Progress, b: Name, k: nat, e: Pair) {
    b in g.vertices && k < Built(len, b) && e == (nm(b, k), nm(b, k + 1))
  }

  /** The control edge that block edge `d` has become; moved ones start at the end of the chain. */
  ghost predicate ControlEdge(g: CallGraph, calls: CallLists, nm: Namer, moved: set<Pair>, d: Pair, e: Pair) {
    d in g.edges && e == (if d in moved then End(calls, nm, d.0) else d.0, d.1)
  }

  ghost predicate Placed(g: CallGraph, nm: Namer, len: Progress, v: Name) {
    exists b, k: nat :: ChainVertex(g, nm, len, b, k, v)
  }

  /** Exactly the vertices that should be there. */
  ghost predicate VerticesAre(g: CallGraph, nm: Namer, len: Progress, vs: set<Name>) {
    && (forall b, k: nat, v {:trigger ChainVertex(g, nm, len, b, k, v)} | ChainVertex(g, nm, len, b, k, v) :: v in vs)
    && (forall v {:trigger Placed(g, nm, len, v)} | v in vs :: Placed(g, nm, len, v))
  }

  /** The chain edges are there, with the calls as labels. */
  ghost predicate ChainsIn(g: CallGraph, calls: CallLists, nm: Namer, len: Progress, es: map<Pair, string>) {
    Bounded(g, calls, len) &&
    forall b, k: nat, e {:trigger ChainEdge(g, nm, len, b, k, e)} | ChainEdge(g, nm, len, b, k, e) ::
      e in es && es[e] == CallsOf(calls, b)[k]
  }

  /** The control edges are there. */
  ghost predicate ControlsIn(g: CallGraph, calls: CallLists, nm: Namer, moved: set<Pair>, es: map<Pair, string>) {
    forall d, e {:trigger ControlEdge(g, calls, nm, moved, d, e)} | ControlEdge(g, calls, nm, moved, d, e) ::
      e in es && es[e] == CONTROL
  }

  /** `e` is a chain edge or a control edge. */
  ghost predicate Accounted(g: CallGraph, calls: CallLists, nm: Namer, len: Progress, moved: set<Pair>, e: Pair) {
    (exists b, k: nat :: ChainEdge(g, nm, len, b, k, e)) || (exists d :: ControlEdge(g, calls, nm, moved, d, e))
  }

  /** There are no other edges. */
  ghost predicate NothingElse(g: CallGraph, calls: CallLists, nm: Namer, len: Progress, moved: set<Pair>,
                              es: map<Pair, string>) {
    forall e {:trigger Accounted(g, calls, nm, len, moved, e)} | e in es :: Accounted(g, calls, nm, len, moved, e)
  }

  /** `x` is `g` with the chains built so far and the block edges moved so far. */
  ghost predicate Shape(g: CallGraph, calls: CallLists, nm: Namer, len: Progress, moved: set<Pair>, x: CallGraph) {
    && x.Valid() && Bounded(g, calls, len)
    && VerticesAre(g, nm, len, x.vertices.Keys)
    && ChainsIn(g, calls, nm, len, x.edges)
    && ControlsIn(g, calls, nm, moved, x.edges)
    && NothingElse(g, calls, nm, len, moved, x.edges)
  }

  lemma VerticesStart(g: CallGraph, nm: Namer, len: Progress)
    requires forall b | b in g.vertices :: nm(b, 0) == b
    requires forall b :: Built(len, b) == 0
    ensures VerticesAre(g, nm, len, g.vertices.Keys)
  {
    forall v | v in g.vertices.Keys ensures Placed(g, nm, len, v) {
      assert ChainVertex(g, nm, len, v, 0, v);
    }
  }

  lemma NothingElseStart(g: CallGraph, calls: CallLists, nm: Namer, len: Progress)
    ensures NothingElse(g, calls, nm, len, {}, g.edges)
  {
    forall e | e in g.edges ensures Accounted(g, calls, nm, len, {}, e) {
      assert ControlEdge(g, calls, nm, {}, e, e);
    }
  }

  lemma ShapeStart(g: CallGraph, calls: CallLists, nm: Namer, len: Progress)
    requires BlockGraph(g, calls, nm) && forall b :: Built(len, b) == 0
    ensures Shape(g, calls, nm, len, {}, g)
  {
    VerticesStart(g, nm, len);
    NothingElseStart(g, calls, nm, len);
    assert ChainsIn(g, calls, nm, len, g.edges);
    assert ControlsIn(g, calls, nm, {}, g.edges);
  }

  lemma NamesDiffer(g: CallGraph, calls: CallLists, nm: Namer, b: Name, k: nat, c: Name, j: nat)
    requires FreshNames(g.vertices.Keys, calls, nm) && b in g.vertices && c in g.vertices
    requires k <= |CallsOf(calls, b)| && j <= |CallsOf(calls, c)|
    requires nm(b, k) == nm(c, j)
    ensures b == c && k == j
  {
    assert Distinct(nm, b, k, c, j);
  }

  // ----- one more call of a block -----

  /** The next chain vertex is new. */
  lemma NextVertexIsNew(g: CallGraph, calls: CallLists, nm: Namer, len: Progress, vs: set<Name>, b: Name)
    requires BlockGraph(g, calls, nm) && Bounded(g, calls, len) && VerticesAre(g, nm, len, vs)
    requires b in g.vertices && Built(len, b) < |CallsOf(calls, b)|
    ensures nm(b, Built(len, b)) in vs && nm(b, Built(len, b) + 1) !in vs
  {
    var n := Built(len, b);
    assert ChainVertex(g, nm, len, b, n, nm(b, n));
    if nm(b, n + 1) in vs {
      assert Placed(g, nm, len, nm(b, n + 1));
      var c, j: nat :| ChainVertex(g, nm, len, c, j, nm(b, n + 1));
      NamesDiffer(g, calls, nm, b, n + 1, c, j);
    }
  }

  lemma VerticesGrow(g: CallGraph, nm: Namer, len: Progress, vs: set<Name>, b: Name)
    requires VerticesAre(g, nm, len, vs) && b in g.vertices
    ensures VerticesAre(g, nm, len[b := Built(len, b) + 1], vs + {nm(b, Built(len, b) + 1)})
  {
    var n := Built(len, b);
    var len', w := len[b := n + 1], nm(b, n + 1);
    forall c, k: nat, u | ChainVertex(g, nm, len', c, k, u) ensures u in vs + {w} {
      assert ChainVertex(g, nm, len, c, k, u) || (c == b && k == n + 1);
    }
    forall u | u in vs + {w} ensures Placed(g, nm, len', u) {
      if u == w {
        assert ChainVertex(g, nm, len', b, n + 1, u);
      } else {
        assert Placed(g, nm, len, u);
        var c, k: nat :| ChainVertex(g, nm, len, c, k, u);
        assert ChainVertex(g, nm, len', c, k, u);
      }
    }
  }

  lemma ChainsGrow(g: CallGraph, calls: CallLists, nm: Namer, len: Progress, es: map<Pair, string>, b: Name, f: Pair)
    requires ChainsIn(g, calls, nm, len, es) && b in g.vertices && Built(len, b) < |CallsOf(calls, b)|
    requires f == (nm(b, Built(len, b)), nm(b, Built(len, b) + 1)) && f !in es
    ensures ChainsIn(g, calls, nm, len[b := Built(len, b) + 1], es[f := CallsOf(calls, b)[Built(len, b)]])
  {
    var n := Built(len, b);
    var len' := len[b := n + 1];
    forall c, k: nat, e | ChainEdge(g, nm, len', c, k, e)
      ensures e in es[f := CallsOf(calls, b)[n]] && es[f := CallsOf(calls, b)[n]][e] == CallsOf(calls, c)[k]
    {
      assert ChainEdge(g, nm, len, c, k, e) || (c == b && k == n);
    }
  }

  lemma NothingElseGrows(g: CallGraph, calls: CallLists, nm: Namer, len: Progress, moved: set<Pair>,
                         es: map<Pair, string>, b: Name, f: Pair, lbl: string)
    requires NothingElse(g, calls, nm, len, moved, es) && b in g.vertices
    requires f == (nm(b, Built(len, b)), nm(b, Built(len, b) + 1))
    ensures NothingElse(g, calls, nm, len[b := Built(len, b) + 1], moved, es[f := lbl])
  {
    var len', es' := len[b := Built(len, b) + 1], es[f := lbl];
    forall e | e in es'
      ensures Accounted(g, calls, nm, len', moved, e)
    {
      assert e != f ==> Accounted(g, calls, nm, len, moved, e);
      if e == f {
        assert ChainEdge(g, nm, len', b, Built(len, b), e);
      } else if c, k: nat :| ChainEdge(g, nm, len, c, k, e) {
        assert ChainEdge(g, nm, len', c, k, e);
      }
    }
  }

  lemma AddNextVertex(x: CallGraph, v: Name, w: Name, lbl: string)
    requires x.Valid() && v in x.vertices && w !in x.vertices
    ensures var x' := AddEdge(AddVertex(x, w, false), v, w, lbl);
            && x'.Valid() && (v, w) !in x.edges
            && x'.edges == x.edges[(v, w) := lbl] && x'.vertices.Keys == x.vertices.Keys + {w}
            && |x'.vertices| == |x.vertices| + 1 && |x'.edges| == |x.edges| + 1
  {
    assert (v, w) !in x.edges;
  }

  /** One more call of block `b`: a new vertex at the end of its chain. */
  lemma ShapeChain(g: CallGraph, calls: CallLists, nm: Namer, len: Progress, moved: set<Pair>, x: CallGraph, b: Name)
    requires BlockGraph(g, calls, nm) && Shape(g, calls, nm, len, moved, x)
    requires b in g.vertices && Built(len, b) < |CallsOf(calls, b)|
    ensures var n := Built(len, b);
            var v, w := nm(b, n), nm(b, n + 1);
            var x' := AddEdge(AddVertex(x, w, false), v, w, CallsOf(calls, b)[n]);
            && Shape(g, calls, nm, len[b := n + 1], moved, x')
            && |x'.vertices| == |x.vertices| + 1 && |x'.edges| == |x.edges| + 1
  {
    var n := Built(len, b);
    var v, w := nm(b, n), nm(b, n + 1);
    NextVertexIsNew(g, calls, nm, len, x.vertices.Keys, b);
    AddNextVertex(x, v, w, CallsOf(calls, b)[n]);
    VerticesGrow(g, nm, len, x.vertices.Keys, b);
    ChainsGrow(g, calls, nm, len, x.edges, b, (v, w));
    NothingElseGrows(g, calls, nm, len, moved, x.edges, b, (v, w), CallsOf(calls, b)[n]);
  }

  // ----- one block edge moved to the end of the chain -----

  /** Chain edges lead to chain vertices, never to blocks. */
  lemma ChainEdgeLeavesBlocks(g: CallGraph, calls: CallLists, nm: Namer, len: Progress, c: Name, k: nat, e: Pair)
    requires BlockGraph(g, calls, nm) && Bounded(g, calls, len) && ChainEdge(g, nm, len, c, k, e)
    ensures e.1 !in g.vertices
  {
    if e.1 in g.vertices {
      NamesDiffer(g, calls, nm, c, k + 1, e.1, 0);
    }
  }

  /** The only control edge from the chain of `b` to `s` is that of (b, s); unmoved, it starts at `b`. */
  lemma OnlyOwnEdge(g: CallGraph, calls: CallLists, nm: Namer, moved: set<Pair>, b: Name, k: nat, s: Name, d: Pair)
    requires BlockGraph(g, calls, nm) && b in g.vertices && k <= |CallsOf(calls, b)|
    requires ControlEdge(g, calls, nm, moved, d, (nm(b, k), s)) && (b, s) !in moved
    ensures d == (b, s) && k == 0
  {
    NamesDiffer(g, calls, nm, b, k, d.0, if d in moved then |CallsOf(calls, d.0)| else 0);
  }

  /** The place of the moved edge is free. */
  lemma MovedEdgeIsNew(g: CallGraph, calls: CallLists, nm: Namer, len: Progress, moved: set<Pair>,
                       es: map<Pair, string>, b: Name, s: Name)
    requires BlockGraph(g, calls, nm) && Bounded(g, calls, len) && NothingElse(g, calls, nm, len, moved, es)
    requires (b, s) in g.edges && (b, s) !in moved
    ensures (End(calls, nm, b), s) !in es - {(b, s)}
  {
    var t := End(calls, nm, b);
    if (t, s) in es && (t, s) != (b, s) {
      assert Accounted(g, calls, nm, len, moved, (t, s));
      if c, k: nat :| ChainEdge(g, nm, len, c, k, (t, s)) {
        ChainEdgeLeavesBlocks(g, calls, nm, len, c, k, (t, s));
      } else {
        var d :| ControlEdge(g, calls, nm, moved, d, (t, s));
        OnlyOwnEdge(g, calls, nm, moved, b, |CallsOf(calls, b)|, s, d);
      }
    }
  }

  lemma ChainsStay(g: CallGraph, calls: CallLists, nm: Namer, len: Progress, es: map<Pair, string>, b: Name, t: Name,
                   s: Name)
    requires BlockGraph(g, calls, nm) && ChainsIn(g, calls, nm, len, es) && s in g.vertices
    ensures ChainsIn(g, calls, nm, len, (es - {(b, s)})[(t, s) := CONTROL])
  {
    forall c, k: nat, e | ChainEdge(g, nm, len, c, k, e) ensures e.1 != s {
      ChainEdgeLeavesBlocks(g, calls, nm, len, c, k, e);
    }
  }

  lemma ControlsMove(g: CallGraph, calls: CallLists, nm: Namer, moved: set<Pair>, es: map<Pair, string>, b: Name,
                     s: Name)
    requires BlockGraph(g, calls, nm) && ControlsIn(g, calls, nm, moved, es)
    requires (b, s) in g.edges && (b, s) !in moved
    ensures ControlsIn(g, calls, nm, moved + {(b, s)}, (es - {(b, s)})[(End(calls, nm, b), s) := CONTROL])
  {
    var moved' := moved + {(b, s)};
    var es' := (es - {(b, s)})[(End(calls, nm, b), s) := CONTROL];
    forall d, e | ControlEdge(g, calls, nm, moved', d, e) ensures e in es' && es'[e] == CONTROL {
      if d != (b, s) {
        assert ControlEdge(g, calls, nm, moved, d, e);
        if e == (b, s) {
          OnlyOwnEdge(g, calls, nm, moved, b, 0, s, d);
        }
      }
    }
  }

  lemma NothingElseMoves(g: CallGraph, calls: CallLists, nm: Namer, len: Progress, moved: set<Pair>,
                         es: map<Pair, string>, b: Name, s: Name)
    requires NothingElse(g, calls, nm, len, moved, es) && (b, s) in g.edges && (b, s) !in moved
    ensures NothingElse(g, calls, nm, len, moved + {(b, s)}, (es - {(b, s)})[(End(calls, nm, b), s) := CONTROL])
  {
    var moved' := moved + {(b, s)};
    var es' := (es - {(b, s)})[(End(calls, nm, b), s) := CONTROL];
    forall e | e in es'
      ensures Accounted(g, calls, nm, len, moved', e)
    {
      assert e in es ==> Accounted(g, calls, nm, len, moved, e);
      if e == (End(calls, nm, b), s) {
        assert ControlEdge(g, calls, nm, moved', (b, s), e);
      } else if d :| ControlEdge(g, calls, nm, moved, d, e) {
        assert ControlEdge(g, calls, nm, moved', d, e);
      }
    }
  }

  /** The block edge from `b` to `s` moved to the end of the chain of `b`. */
  lemma ShapeMove(g: CallGraph, calls: CallLists, nm: Namer, len: Progress, moved: set<Pair>, x: CallGraph, b: Name,
                  s: Name)
    requires BlockGraph(g, calls, nm) && Shape(g, calls, nm, len, moved, x)
    requires (b, s) in g.edges && (b, s) !in moved && Built(len, b) == |CallsOf(calls, b)|
    ensures var x' := AddEdge(RemoveEdge(x, b, s), End(calls, nm, b), s, CONTROL);
            && Shape(g, calls, nm, len, moved + {(b, s)}, x')
            && x'.vertices == x.vertices && |x'.edges| == |x.edges|
  {
    var t := End(calls, nm, b);
    assert ChainVertex(g, nm, len, b, Built(len, b), t);
    assert ChainVertex(g, nm, len, s, 0, s);
    assert ControlEdge(g, calls, nm, moved, (b, s), (b, s));
    MovedEdgeIsNew(g, calls, nm, len, moved, x.edges, b, s);
    var x' := AddEdge(RemoveEdge(x, b, s), t, s, CONTROL);
    assert x'.edges == (x.edges - {(b, s)})[(t, s) := CONTROL];
    SwapCounts(x.edges, (b, s), (t, s));
    ChainsStay(g, calls, nm, len, x.edges, b, t, s);
    ControlsMove(g, calls, nm, moved, x.edges, b, s);
    NothingElseMoves(g, calls, nm, len, moved, x.edges, b, s);
  }

  lemma SwapCounts(es: map<Pair, string>, e: Pair, f: Pair)
    requires e in es && f !in es - {e}
    ensures |(es - {e})[f := CONTROL]| == |es|
  {
    assert (es - {e})[f := CONTROL].Keys == es.Keys - {e} + {f};
  }

  // ----- the finished expansion -----

  ghost function AllCalls(calls: CallLists): Progress {
    map b | b in calls :: |calls[b]|
  }

  /** `x` is the expansion of `g`: for every block its chain of call edges, and for
      every block edge (b, s) one control edge from the end of the chain of b to s. */
  ghost predicate Expanded(g: CallGraph, calls: CallLists, nm: Namer, x: CallGraph) {
    Shape(g, calls, nm, AllCalls(calls), g.edges.Keys, x)
  }

  /** All blocks with calls done: the other blocks have nothing to build or move. */
  lemma ShapeDone(g: CallGraph, calls: CallLists, nm: Namer, moved: set<Pair>, x: CallGraph)
    requires BlockGraph(g, calls, nm) && Shape(g, calls, nm, AllCalls(calls), moved, x)
    requires forall d | d in g.edges && d.0 in calls :: d in moved
    ensures Expanded(g, calls, nm, x)
  {
    var len, all := AllCalls(calls), g.edges.Keys;
    forall d, e ensures ControlEdge(g, calls, nm, moved, d, e) <==> ControlEdge(g, calls, nm, all, d, e) {
      if d in g.edges && d !in moved {
        assert End(calls, nm, d.0) == nm(d.0, 0) == d.0;
      }
    }
    forall e | e in x.edges ensures Accounted(g, calls, nm, len, all, e) {
      assert Accounted(g, calls, nm, len, moved, e);
    }
  }

  /** The closed form determines the edges: chain edges and moved control edges, with their labels, and no others. */
  lemma ExpandedEdges(g: CallGraph, calls: CallLists, nm: Namer, x: CallGraph, x': CallGraph)
    requires BlockGraph(g, calls, nm) && Expanded(g, calls, nm, x) && Expanded(g, calls, nm, x')
    ensures x.edges == x'.edges && x.vertices.Keys == x'.vertices.Keys
  {
    SameEdges(g, calls, nm, x, x');
    SameEdges(g, calls, nm, x', x);
    forall v ensures v in x.vertices <==> v in x'.vertices {
      assert v in x.vertices ==> Placed(g, nm, AllCalls(calls), v);
      assert v in x'.vertices ==> Placed(g, nm, AllCalls(calls), v);
    }
  }

  lemma SameEdges(g: CallGraph, calls: CallLists, nm: Namer, x: CallGraph, x': CallGraph)
    requires Expanded(g, calls, nm, x) && Expanded(g, calls, nm, x')
    ensures forall e | e in x.edges :: e in x'.edges && x.edges[e] == x'.edges[e]
  {
    var len, all := AllCalls(calls), g.edges.Keys;
    forall e | e in x.edges ensures e in x'.edges && x.edges[e] == x'.edges[e] {
      assert Accounted(g, calls, nm, len, all, e);
      if b, k: nat :| ChainEdge(g, nm, len, b, k, e) {
        assert e in x'.edges && x'.edges[e] == CallsOf(calls, b)[k];
      }
    }
  }

  lemma {:induction false} ImageSize(ds: set<Pair>, es: set<Pair>, f: Pair -> Pair)
    requires forall d | d in ds :: f(d) in es
    requires forall e | e in es :: exists d :: d in ds && f(d) == e
    requires forall d, d' | d in ds && d' in ds :: f(d) == f(d') ==> d == d'
    ensures |ds| == |es|
    decreases |ds|
  {
    if ds == {} {
      assert forall e | e in es :: exists d :: d in ds && f(d) == e;
      assert es == {};
    } else {
      var d :| d in ds;
      ImageSize(ds - {d}, es - {f(d)}, f);
    }
  }

  /** No edge of a chain is a control edge. */
  lemma ChainEdgeIsCall(g: CallGraph, calls: CallLists, nm: Namer, x: CallGraph, b: Name, k: nat, e: Pair)
    requires BlockGraph(g, calls, nm) && Expanded(g, calls, nm, x)
    requires ChainEdge(g, nm, AllCalls(calls), b, k, e)
    ensures e in x.edges && x.edges[e] != CONTROL
  {
    assert x.edges[e] == CallsOf(calls, b)[k];
    assert CallsOf(calls, b)[k] in calls[b];
  }

  /** The number of control edges is that of the block edges. */
  lemma ControlEdgesConserved(g: CallGraph, calls: CallLists, nm: Namer, x: CallGraph)
    requires BlockGraph(g, calls, nm) && Expanded(g, calls, nm, x)
    ensures |set e | e in x.edges && x.edges[e] == CONTROL| == |g.edges|
  {
    var es := set e | e in x.edges && x.edges[e] == CONTROL;
    var ds, len := g.edges.Keys, AllCalls(calls);
    var f := (d: Pair) => (End(calls, nm, d.0), d.1);
    forall d | d in ds ensures f(d) in es {
      assert ControlEdge(g, calls, nm, ds, d, f(d));
    }
    forall e | e in es ensures exists d :: d in ds && f(d) == e {
      assert Accounted(g, calls, nm, len, ds, e);
      forall b, k: nat | ChainEdge(g, nm, len, b, k, e) ensures false {
        ChainEdgeIsCall(g, calls, nm, x, b, k, e);
      }
      var d :| ControlEdge(g, calls, nm, ds, d, e);
      assert d in ds && f(d) == e;
    }
    forall d, d' | d in ds && d' in ds && f(d) == f(d') ensures d == d' {
      NamesDiffer(g, calls, nm, d.0, |CallsOf(calls, d.0)|, d'.0, |CallsOf(calls, d'.0)|);
    }
    ImageSize(ds, es, f);
  }
}
