/** Labelled graphs by vertex name: what a `LibcCallgraph` stands for, and what its
    operations do to it.  At most one edge joins an ordered pair of vertices. */
module CallGraphs {
  import opened Options

  type Name = string
  type Pair = (Name, Name)

  const CONTROL: string := "control"
  const USER_PREFIX: string := "user:"

  /** `vertices` says of each vertex whether it was added as one with a function call. */
  datatype CallGraph = CallGraph(vertices: map<Name, bool>, edges: map<Pair, string>) {
    /** Every edge joins two vertices of the graph. */
    ghost predicate Valid() {
      forall e | e in edges :: e.0 in vertices && e.1 in vertices
    }

    /** There is an edge from `x` to `y` labelled `lbl`. */
    predicate Has(x: Name, y: Name, lbl: string) {
      (x, y) in edges && edges[(x, y)] == lbl
    }
  }

  const EMPTY: CallGraph := CallGraph(map[], map[])

  function AddVertex(g: CallGraph, v: Name, call: bool): CallGraph {
    if v in g.vertices then g else g.(vertices := g.vertices[v := call])
  }

  /** An edge that is already there keeps its label. */
  function AddEdge(g: CallGraph, x: Name, y: Name, lbl: string): CallGraph {
    if x !in g.vertices || y !in g.vertices || (x, y) in g.edges then g
    else g.(edges := g.edges[(x, y) := lbl])
  }

  function RemoveEdge(g: CallGraph, x: Name, y: Name): CallGraph {
    g.(edges := g.edges - {(x, y)})
  }

  /** The incident edges go with the vertex. */
  function RemoveVertex(g: CallGraph, v: Name): CallGraph {
    if v !in g.vertices then g
    else CallGraph(g.vertices - {v}, map e | e in g.edges && e.0 != v && e.1 != v :: g.edges[e])
  }

  function AllPairs(vs: set<Name>): (r: set<Pair>)
    ensures forall e: Pair :: e in r <==> e.0 in vs && e.1 in vs
  {
    set x, y | x in vs && y in vs :: (x, y)
  }

  /** The label between two vertices other than `r` once `r` is merged into `l`: an
      edge that was there, else an edge of `r` moved to `l`. */
  function MergedLabel(g: CallGraph, l: Name, r: Name, e: Pair): Option<string> {
    if e.0 == r || e.1 == r then None
    else if e in g.edges then Some(g.edges[e])
    else if e.0 == l && (r, e.1) in g.edges then Some(g.edges[(r, e.1)])
    else if e.1 == l && e.0 != l && (e.0, r) in g.edges then Some(g.edges[(e.0, r)])
    else None
  }

  /** combine_vertex(l, r) */
  function Combine(g: CallGraph, l: Name, r: Name): CallGraph {
    if l !in g.vertices || r !in g.vertices then g
    else
      CallGraph(
        g.vertices - {r},
        map e | e in AllPairs(g.vertices.Keys) && MergedLabel(g, l, r, e).Some? :: MergedLabel(g, l, r, e).value)
  }

  /** insert_graph(h) */
  function Insert(g: CallGraph, h: CallGraph): CallGraph {
    CallGraph(h.vertices + g.vertices, h.edges + g.edges)
  }

  lemma CombineEdges(g: CallGraph, l: Name, r: Name, e: Pair)
    requires g.Valid() && l in g.vertices && r in g.vertices
    ensures e in Combine(g, l, r).edges <==> MergedLabel(g, l, r, e).Some?
    ensures e in Combine(g, l, r).edges ==> Combine(g, l, r).edges[e] == MergedLabel(g, l, r, e).value
  {
  }

  /** What a merge does: the vertex `r` goes, an edge between other vertices keeps its label,
      the edges of `r` are moved to `l` where there is none yet, and nothing else appears. */
  lemma CombineWhole(g: CallGraph, l: Name, r: Name)
    requires g.Valid()
    ensures var h := Combine(g, l, r);
            if l !in g.vertices || r !in g.vertices then h.vertices == g.vertices && h.edges == g.edges
            else
              && h.vertices == g.vertices - {r}
              && (forall e | e in g.edges && e.0 != r && e.1 != r :: e in h.edges && h.edges[e] == g.edges[e])
              && (forall y | (r, y) in g.edges && (l, y) !in g.edges && y != r && l != r ::
                    h.Has(l, y, g.edges[(r, y)]))
              && (forall x | (x, r) in g.edges && (x, l) !in g.edges && x != r && x != l && l != r ::
                    h.Has(x, l, g.edges[(x, r)]))
              && (forall e | e in h.edges && e !in g.edges ::
                    l != r && ((e.0 == l && (r, e.1) in g.edges) || (e.1 == l && e.0 != l && (e.0, r) in g.edges)))
              && (forall e | e in h.edges :: e.0 != r && e.1 != r)
  {
    var h := Combine(g, l, r);
    if l in g.vertices && r in g.vertices {
      forall e: Pair ensures e in h.edges <==> MergedLabel(g, l, r, e).Some? {
        CombineEdges(g, l, r, e);
      }
    }
  }

  lemma CombineValid(g: CallGraph, l: Name, r: Name)
    requires g.Valid()
    ensures Combine(g, l, r).Valid()
  {
  }

  /** Merging a vertex with itself removes it. */
  lemma CombineWithItself(g: CallGraph, v: Name)
    requires g.Valid()
    ensures Combine(g, v, v) == RemoveVertex(g, v)
  {
    if v in g.vertices {
      assert Combine(g, v, v).edges == RemoveVertex(g, v).edges;
    }
  }

  /** The union by name: everything of both graphs is there, and what `g` had stays as it was. */
  lemma InsertIsUnion(g: CallGraph, h: CallGraph)
    requires g.Valid() && h.Valid()
    ensures var u := Insert(g, h);
            && u.Valid()
            && u.vertices.Keys == g.vertices.Keys + h.vertices.Keys
            && (forall v | v in g.vertices :: u.vertices[v] == g.vertices[v])
            && (forall v | v in h.vertices && v !in g.vertices :: u.vertices[v] == h.vertices[v])
            && u.edges.Keys == g.edges.Keys + h.edges.Keys
            && (forall e | e in g.edges :: u.edges[e] == g.edges[e])
            && (forall e | e in h.edges && e !in g.edges :: u.edges[e] == h.edges[e])
            && Insert(u, h) == u
            && Insert(g, g) == g
  {
    var u := Insert(g, h);
    assert Insert(u, h).vertices == u.vertices;
    assert Insert(u, h).edges == u.edges;
    assert Insert(g, g).vertices == g.vertices && Insert(g, g).edges == g.edges;
  }
}
