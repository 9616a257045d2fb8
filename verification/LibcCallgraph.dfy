/** GraphLib.cpp: the graph class of the compiler, a hidden graph library keyed by
    vertex ids plus two tables keyed by vertex names.  The library (graaf) is not
    part of this model; what is used of it is written out here: it holds one edge
    per ordered pair of ids, adding an edge that exists changes nothing, and
    removing a vertex removes its incident edges.  Its hash tables are visited in
    an arbitrary order. */
module LibcCallgraph {
  import opened CallGraphs

  type Id = nat

  /** `s` lists the elements of `xs`, each once. */
  ghost predicate Lists(s: seq<Name>, xs: set<Name>) {
    && (forall x :: x in s <==> x in xs)
    && forall i, j | 0 <= i < j < |s| :: s[i] != s[j]
  }

  /** The vertices with an edge from `v`. */
  function Neighbors(g: CallGraph, v: Name): set<Name> {
    set e | e in g.edges && e.0 == v :: e.1
  }

  function ControlNeighbors(g: CallGraph, v: Name): set<Name> {
    set e | e in g.edges && e.0 == v && g.edges[e] == CONTROL :: e.1
  }

  function UserNeighbors(g: CallGraph, v: Name): set<Name> {
    set e | e in g.edges && e.0 == v && USER_PREFIX <= g.edges[e] :: e.1
  }

  /** The edges from `v` to vertices of `ys` that carry the label. */
  ghost function LabelledEdges(g: CallGraph, v: Name, ys: set<Name>, lbl: string): set<Pair> {
    set e | e in g.edges && e.0 == v && e.1 in ys && g.edges[e] == lbl
  }

  function Elements(s: seq<Name>): set<Name> {
    set x | x in s
  }

  lemma OneMoreEdge(g: CallGraph, v: Name, ys: set<Name>, y: Name, lbl: string)
    requires y !in ys && (v, y) in g.edges
    ensures |LabelledEdges(g, v, ys + {y}, lbl)|
         == |LabelledEdges(g, v, ys, lbl)| + if g.edges[(v, y)] == lbl then 1 else 0
  {
    var es, es' := LabelledEdges(g, v, ys, lbl), LabelledEdges(g, v, ys + {y}, lbl);
    assert es' == if g.edges[(v, y)] == lbl then es + {(v, y)} else es;
  }

  lemma LabelledAll(g: CallGraph, v: Name)
    ensures forall lbl :: |LabelledEdges(g, v, Neighbors(g, v), lbl)|
                       == |set e | e in g.edges && e.0 == v && g.edges[e] == lbl|
  {
    forall lbl ensures |LabelledEdges(g, v, Neighbors(g, v), lbl)|
                    == |set e | e in g.edges && e.0 == v && g.edges[e] == lbl|
    {
      assert LabelledEdges(g, v, Neighbors(g, v), lbl) == set e | e in g.edges && e.0 == v && g.edges[e] == lbl;
    }
  }

  lemma OneMoreElement(ys: seq<Name>, k: nat)
    requires k < |ys| && forall i | 0 <= i < k :: ys[i] != ys[k]
    ensures Elements(ys[..k + 1]) == Elements(ys[..k]) + {ys[k]} && ys[k] !in Elements(ys[..k])
  {
    assert ys[..k + 1] == ys[..k] + [ys[k]];
  }

  lemma OneMoreLabel(g: CallGraph, v: Name, ys: seq<Name>, k: nat)
    requires Lists(ys, Neighbors(g, v)) && k < |ys| && (v, ys[k]) in g.edges
    ensures forall lbl :: |LabelledEdges(g, v, Elements(ys[..k + 1]), lbl)|
                       == |LabelledEdges(g, v, Elements(ys[..k]), lbl)| + if g.edges[(v, ys[k])] == lbl then 1 else 0
  {
    OneMoreElement(ys, k);
    forall lbl ensures |LabelledEdges(g, v, Elements(ys[..k + 1]), lbl)|
                    == |LabelledEdges(g, v, Elements(ys[..k]), lbl)| + if g.edges[(v, ys[k])] == lbl then 1 else 0
    {
      OneMoreEdge(g, v, Elements(ys[..k]), ys[k], lbl);
    }
  }

  // ----- the tables as values -----

  type IdEdges = map<(Id, Id), string>

  /** The name index is a bijection between live names and live ids, the call table
      has the same names, and every edge joins two live vertices. */
  ghost predicate Consistent(vertices: map<Id, Name>, edges: IdEdges, nextId: Id, ids: map<Name, Id>,
                             calls: map<Name, bool>) {
    && (forall v | v in ids :: ids[v] in vertices && vertices[ids[v]] == v)
    && (forall i | i in vertices :: i < nextId && vertices[i] in ids && ids[vertices[i]] == i)
    && calls.Keys == ids.Keys
    && (forall e | e in edges :: e.0 in vertices && e.1 in vertices)
  }

  /** `named` are the edges by names. */
  ghost predicate Mirrors(edges: IdEdges, ids: map<Name, Id>, named: map<Pair, string>) {
    forall e: Pair ::
      && (e in named <==> e.0 in ids && e.1 in ids && (ids[e.0], ids[e.1]) in edges)
      && (e in named ==> named[e] == edges[(ids[e.0], ids[e.1])])
  }

  ghost predicate Injective(ids: map<Name, Id>) {
    forall v, w | v in ids && w in ids :: ids[v] == ids[w] ==> v == w
  }

  lemma MirrorAddVertex(edges: IdEdges, ids: map<Name, Id>, named: map<Pair, string>, v: Name, id: Id)
    requires Mirrors(edges, ids, named)
    requires v !in ids && forall e | e in edges :: e.0 != id && e.1 != id
    ensures Mirrors(edges, ids[v := id], named)
  {
  }

  lemma MirrorAddEdge(edges: IdEdges, ids: map<Name, Id>, named: map<Pair, string>, x: Name, y: Name, lbl: string)
    requires Mirrors(edges, ids, named) && Injective(ids) && x in ids && y in ids
    ensures Mirrors(edges[(ids[x], ids[y]) := lbl], ids, named[(x, y) := lbl])
  {
  }

  lemma MirrorRemoveEdge(edges: IdEdges, ids: map<Name, Id>, named: map<Pair, string>, x: Name, y: Name)
    requires Mirrors(edges, ids, named) && Injective(ids) && x in ids && y in ids
    ensures Mirrors(edges - {(ids[x], ids[y])}, ids, named - {(x, y)})
  {
  }

  function WithoutVertex(edges: IdEdges, id: Id): (r: IdEdges)
    ensures forall e: (Id, Id) :: e in r <==> e in edges && e.0 != id && e.1 != id
    ensures forall e | e in r :: r[e] == edges[e]
  {
    map e | e in edges && e.0 != id && e.1 != id :: edges[e]
  }

  lemma MirrorRemoveVertex(edges: IdEdges, ids: map<Name, Id>, g: CallGraph, v: Name)
    requires Mirrors(edges, ids, g.edges) && Injective(ids) && v in ids && v in g.vertices
    ensures Mirrors(WithoutVertex(edges, ids[v]), ids - {v}, RemoveVertex(g, v).edges)
  {
  }

  /** `e` is an outgoing edge of `r`, already visited, moved to `l`. */
  predicate FromLeft(all: IdEdges, rest: set<(Id, Id)>, l: Id, r: Id, e: (Id, Id)) {
    e.0 == l && (r, e.1) in all && (r, e.1) !in rest
  }

  /** `e` is an incoming edge of `r`, already visited and not from `l`, moved to `l`. */
  predicate FromRight(all: IdEdges, rest: set<(Id, Id)>, l: Id, r: Id, e: (Id, Id)) {
    e.1 == l && e.0 != l && (e.0, r) in all && (e.0, r) !in rest
  }

  /** `edges` is `all` with the visited edges of `r` added at `l` where there was no edge. */
  ghost predicate PartlyMoved(all: IdEdges, rest: set<(Id, Id)>, l: Id, r: Id, edges: IdEdges) {
    forall e: (Id, Id) ::
      && (e in edges <==> e in all || FromLeft(all, rest, l, r, e) || FromRight(all, rest, l, r, e))
      && (e in all ==> edges[e] == all[e])
      && (e !in all && FromLeft(all, rest, l, r, e) ==> edges[e] == all[(r, e.1)])
      && (e !in all && FromRight(all, rest, l, r, e) ==> edges[e] == all[(e.0, r)])
  }

  /** One pair of names, once all edges are visited and `r` is removed. */
  lemma MirrorCombineEdge(all: IdEdges, edges: IdEdges, ids: map<Name, Id>, g: CallGraph, lhs: Name, rhs: Name, e: Pair)
    requires Mirrors(all, ids, g.edges) && Injective(ids) && lhs in ids && rhs in ids
    requires PartlyMoved(all, {}, ids[lhs], ids[rhs], edges)
    requires e.0 in ids && e.1 in ids && e.0 != rhs && e.1 != rhs
    ensures var i := (ids[e.0], ids[e.1]);
            && (i in edges <==> MergedLabel(g, lhs, rhs, e).Some?)
            && (i in edges ==> edges[i] == MergedLabel(g, lhs, rhs, e).value)
  {
    var i := (ids[e.0], ids[e.1]);
    assert i in edges
      <==> i in all || FromLeft(all, {}, ids[lhs], ids[rhs], i) || FromRight(all, {}, ids[lhs], ids[rhs], i);
    assert e in g.edges <==> i in all;
    assert (rhs, e.1) in g.edges <==> (ids[rhs], i.1) in all;
    assert (e.0, rhs) in g.edges <==> (i.0, ids[rhs]) in all;
  }

  /** The result is the merged graph, whatever the order of visiting was. */
  lemma MirrorCombine(all: IdEdges, edges: IdEdges, ids: map<Name, Id>, g: CallGraph, lhs: Name, rhs: Name)
    requires Mirrors(all, ids, g.edges) && Injective(ids) && g.Valid() && g.vertices.Keys == ids.Keys
    requires lhs in ids && rhs in ids && PartlyMoved(all, {}, ids[lhs], ids[rhs], edges)
    ensures Mirrors(WithoutVertex(edges, ids[rhs]), ids - {rhs}, Combine(g, lhs, rhs).edges)
  {
    var h := Combine(g, lhs, rhs);
    var edges', ids' := WithoutVertex(edges, ids[rhs]), ids - {rhs};
    forall e: Pair
      ensures e in h.edges <==> e.0 in ids' && e.1 in ids' && (ids'[e.0], ids'[e.1]) in edges'
      ensures e in h.edges ==> h.edges[e] == edges'[(ids'[e.0], ids'[e.1])]
    {
      CombineEdges(g, lhs, rhs, e);
      if e.0 in ids' && e.1 in ids' {
        MirrorCombineEdge(all, edges, ids, g, lhs, rhs, e);
      }
    }
  }

  /** The tables without a vertex and its edges. */
  lemma ConsistentRemove(vertices: map<Id, Name>, edges: IdEdges, nextId: Id, ids: map<Name, Id>,
                         calls: map<Name, bool>, v: Name)
    requires Consistent(vertices, edges, nextId, ids, calls) && v in ids
    ensures Consistent(vertices - {ids[v]}, WithoutVertex(edges, ids[v]), nextId, ids - {v}, calls - {v})
  {
  }

  lemma ConsistentAdd(vertices: map<Id, Name>, edges: IdEdges, nextId: Id, ids: map<Name, Id>, calls: map<Name, bool>,
                      v: Name, call: bool)
    requires Consistent(vertices, edges, nextId, ids, calls) && v !in ids
    ensures Consistent(vertices[nextId := v], edges, nextId + 1, ids[v := nextId], calls[v := call])
  {
  }

  /** The library's add_edge keeps an edge that is there. */
  function WithEdge(edges: IdEdges, e: (Id, Id), lbl: string): IdEdges {
    if e in edges then edges else edges[e := lbl]
  }

  /** One turn of the edge loop of combine_vertex. */
  function MoveEdge(edges: IdEdges, l: Id, r: Id, e: (Id, Id), lbl: string): IdEdges {
    var edges1 := if e.0 == r then WithEdge(edges, (l, e.1), lbl) else edges;
    if e.1 == r && e.0 != l then WithEdge(edges1, (e.0, l), lbl) else edges1
  }

  lemma PartlyMovedStep(all: IdEdges, rest: set<(Id, Id)>, l: Id, r: Id, edges: IdEdges, e: (Id, Id))
    requires rest <= all.Keys && e in rest && PartlyMoved(all, rest, l, r, edges)
    ensures PartlyMoved(all, rest - {e}, l, r, MoveEdge(edges, l, r, e, all[e]))
  {
    var edges', rest' := MoveEdge(edges, l, r, e, all[e]), rest - {e};
    forall f: (Id, Id)
      ensures f in edges' <==> f in all || FromLeft(all, rest', l, r, f) || FromRight(all, rest', l, r, f)
      ensures f in all ==> f in edges' && edges'[f] == all[f]
      ensures f !in all && FromLeft(all, rest', l, r, f) ==> f in edges' && edges'[f] == all[(r, f.1)]
      ensures f !in all && FromRight(all, rest', l, r, f) ==> f in edges' && edges'[f] == all[(f.0, r)]
    {
      assert f in edges <==> f in all || FromLeft(all, rest, l, r, f) || FromRight(all, rest, l, r, f);
      assert FromLeft(all, rest', l, r, f) <==> FromLeft(all, rest, l, r, f) || (f.0 == l && e == (r, f.1));
      assert FromRight(all, rest', l, r, f) <==>
             FromRight(all, rest, l, r, f) || (f.1 == l && f.0 != l && e == (f.0, r));
    }
  }

  /** If `r` has no edge to itself, no edge at `r` is ever added, so an iteration that
      also visits the added edges would do nothing more. */
  lemma NoNewEdgeAtRemoved(all: IdEdges, rest: set<(Id, Id)>, l: Id, r: Id, edges: IdEdges, e: (Id, Id))
    requires PartlyMoved(all, rest, l, r, edges) && l != r && (r, r) !in all
    requires e in edges && (e.0 == r || e.1 == r)
    ensures e in all && edges[e] == all[e]
  {
    assert e in all || FromLeft(all, rest, l, r, e) || FromRight(all, rest, l, r, e);
  }

  // ----- the class -----

  class LibcCallgraph {
    // the library's graph
    var vertices: map<Id, Name>
    var edges: IdEdges
    var nextId: Id
    // the tables by name
    var vertexIdMap: map<Name, Id>
    var funcCallMap: map<Name, bool>

    /** The graph by names. */
    ghost var value: CallGraph

    ghost predicate Valid()
      reads this
      ensures Valid() ==> value.Valid()
    {
      && Consistent(vertices, edges, nextId, vertexIdMap, funcCallMap)
      && value.vertices == funcCallMap
      && Mirrors(edges, vertexIdMap, value.edges)
    }

    constructor ()
      ensures Valid() && value == EMPTY
    {
      vertices, edges, nextId, vertexIdMap, funcCallMap := map[], map[], 0, map[], map[];
      value := EMPTY;
    }

    /** The copy that `=` makes. */
    constructor Copy(other: LibcCallgraph)
      requires other.Valid()
      ensures Valid() && value == other.value
    {
      vertices, edges, nextId := other.vertices, other.edges, other.nextId;
      vertexIdMap, funcCallMap := other.vertexIdMap, other.funcCallMap;
      value := other.value;
    }

    method AddVertex(vertex: Name, hasFuncCall: bool) returns (id: Id)
      requires Valid()
      modifies this
      ensures Valid() && value == CallGraphs.AddVertex(old(value), vertex, hasFuncCall)
      ensures value.edges == old(value.edges)
      ensures value.vertices == if vertex in old(value.vertices) then old(value.vertices)
                                else old(value.vertices)[vertex := hasFuncCall]
      ensures id in vertices && vertices[id] == vertex
    {
      if vertex in vertexIdMap {
        return vertexIdMap[vertex];
      }
      MirrorAddVertex(edges, vertexIdMap, value.edges, vertex, nextId);
      ConsistentAdd(vertices, edges, nextId, vertexIdMap, funcCallMap, vertex, hasFuncCall);
      id := nextId;
      nextId := nextId + 1;
      vertices := vertices[id := vertex];
      vertexIdMap := vertexIdMap[vertex := id];
      funcCallMap := funcCallMap[vertex := hasFuncCall];
      value := value.(vertices := value.vertices[vertex := hasFuncCall]);
      assert Consistent(vertices, edges, nextId, vertexIdMap, funcCallMap);
      assert Mirrors(edges, vertexIdMap, value.edges);
    }

    method AddEdge(lhs: Name, rhs: Name, edge: string)
      requires Valid()
      modifies this
      ensures Valid() && value == CallGraphs.AddEdge(old(value), lhs, rhs, edge)
      ensures value.vertices == old(value.vertices)
      ensures value.edges ==
              if lhs in old(value.vertices) && rhs in old(value.vertices) && (lhs, rhs) !in old(value.edges)
              then old(value.edges)[(lhs, rhs) := edge] else old(value.edges)
    {
      if lhs !in vertexIdMap || rhs !in vertexIdMap {
        return;
      }
      MirrorAddEdge(edges, vertexIdMap, value.edges, lhs, rhs, edge);
      LibAddEdge(vertexIdMap[lhs], vertexIdMap[rhs], edge);
      value := CallGraphs.AddEdge(value, lhs, rhs, edge);
    }

    /** The library's add_edge. */
    method LibAddEdge(i: Id, j: Id, edge: string)
      requires i in vertices && j in vertices
      modifies this`edges
      ensures edges == WithEdge(old(edges), (i, j), edge)
    {
      if (i, j) !in edges {
        edges := edges[(i, j) := edge];
      }
    }

    method RemoveEdge(lhs: Name, rhs: Name)
      requires Valid()
      modifies this
      ensures Valid() && value == CallGraphs.RemoveEdge(old(value), lhs, rhs)
      ensures value.vertices == old(value.vertices) && value.edges == old(value.edges) - {(lhs, rhs)}
    {
      if lhs !in vertexIdMap || rhs !in vertexIdMap {
        assert value.edges - {(lhs, rhs)} == value.edges;
        return;
      }
      MirrorRemoveEdge(edges, vertexIdMap, value.edges, lhs, rhs);
      edges := edges - {(vertexIdMap[lhs], vertexIdMap[rhs])};
      value := CallGraphs.RemoveEdge(value, lhs, rhs);
    }

    method RemoveVertex(vertex: Name)
      requires Valid()
      modifies this
      ensures Valid() && value == CallGraphs.RemoveVertex(old(value), vertex)
      ensures value.vertices == old(value.vertices) - {vertex}
      ensures forall e: Pair :: e in value.edges <==> e in old(value.edges) && e.0 != vertex && e.1 != vertex
      ensures forall e | e in value.edges :: value.edges[e] == old(value.edges)[e]
    {
      if vertex !in vertexIdMap {
        return;
      }
      MirrorRemoveVertex(edges, vertexIdMap, value, vertex);
      ConsistentRemove(vertices, edges, nextId, vertexIdMap, funcCallMap, vertex);
      var id := vertexIdMap[vertex];
      vertices := vertices - {id};
      edges := WithoutVertex(edges, id);
      vertexIdMap := vertexIdMap - {vertex};
      funcCallMap := funcCallMap - {vertex};
      value := CallGraphs.RemoveVertex(value, vertex);
      assert Consistent(vertices, edges, nextId, vertexIdMap, funcCallMap);
      assert Mirrors(edges, vertexIdMap, value.edges);
    }

    /** combine_vertex: the edges of `rhs` are added at `lhs` one by one, in an
        arbitrary order, where there is no edge yet; then `rhs` is removed. */
    method CombineVertex(lhs: Name, rhs: Name)
      requires Valid()
      modifies this
      ensures Valid() && value == Combine(old(value), lhs, rhs)
      ensures lhs !in old(value.vertices) || rhs !in old(value.vertices) ==>
                value.vertices == old(value.vertices) && value.edges == old(value.edges)
      ensures lhs in old(value.vertices) && rhs in old(value.vertices) ==>
                var g := old(value);
                && value.vertices == g.vertices - {rhs}
                && (forall e | e in value.edges :: e.0 != rhs && e.1 != rhs)
                && (forall e | e in g.edges && e.0 != rhs && e.1 != rhs ::
                      e in value.edges && value.edges[e] == g.edges[e])
                && (forall y | (rhs, y) in g.edges && (lhs, y) !in g.edges && y != rhs && lhs != rhs ::
                      value.Has(lhs, y, g.edges[(rhs, y)]))
                && (forall x | (x, rhs) in g.edges && (x, lhs) !in g.edges && x != rhs && x != lhs && lhs != rhs ::
                      value.Has(x, lhs, g.edges[(x, rhs)]))
                && (forall e | e in value.edges && e !in g.edges ::
                      && lhs != rhs
                      && ((e.0 == lhs && (rhs, e.1) in g.edges)
                          || (e.1 == lhs && e.0 != lhs && (e.0, rhs) in g.edges)))
    {
      CombineWhole(value, lhs, rhs);
      if lhs !in vertexIdMap || rhs !in vertexIdMap {
        return;
      }
      var r := vertexIdMap[rhs];
      ghost var all := edges;
      MoveEdges(vertexIdMap[lhs], r);
      MirrorCombine(all, edges, vertexIdMap, value, lhs, rhs);
      ConsistentRemove(vertices, edges, nextId, vertexIdMap, funcCallMap, rhs);
      vertices := vertices - {r};
      edges := WithoutVertex(edges, r);
      vertexIdMap := vertexIdMap - {rhs};
      funcCallMap := funcCallMap - {rhs};
      value := Combine(value, lhs, rhs);
      assert Consistent(vertices, edges, nextId, vertexIdMap, funcCallMap);
      assert Mirrors(edges, vertexIdMap, value.edges);
    }

    /** The edge loop of combine_vertex, over the edges as they are when it starts. */
    method MoveEdges(l: Id, r: Id)
      requires l in vertices && r in vertices
      requires forall e | e in edges :: e.0 in vertices && e.1 in vertices
      modifies this`edges
      ensures PartlyMoved(old(edges), {}, l, r, edges)
      ensures forall e | e in edges :: e.0 in vertices && e.1 in vertices
    {
      var all := edges;
      var rest := all.Keys;
      while rest != {}
        invariant rest <= all.Keys
        invariant PartlyMoved(all, rest, l, r, edges)
        decreases rest
      {
        var edge :| edge in rest;
        PartlyMovedStep(all, rest, l, r, edges, edge);
        rest := rest - {edge};
        if edge.0 == r {
          LibAddEdge(l, edge.1, all[edge]);
        }
        if edge.1 == r && edge.0 != l {
          LibAddEdge(edge.0, l, all[edge]);
        }
      }
    }

    // ----- queries -----

    /** The ids with an edge from `id`, in the library's order. */
    function LibNeighbors(id: Id): set<Id>
      reads this
    {
      set e | e in edges && e.0 == id :: e.1
    }

    /** Names listed from ids that the loops of the queries have visited. */
    ghost predicate Visited(neighbors: seq<Name>, ids: set<Id>)
      reads this
    {
      && (forall x :: x in neighbors <==> x in vertexIdMap && vertexIdMap[x] in ids)
      && forall i, j | 0 <= i < j < |neighbors| :: neighbors[i] != neighbors[j]
    }

    lemma NeighborIds(vertex: Name, x: Name)
      requires Valid() && vertex in vertexIdMap
      ensures x in Neighbors(value, vertex) <==> x in vertexIdMap && (vertexIdMap[vertex], vertexIdMap[x]) in edges
      ensures (vertex, x) in value.edges <==> x in Neighbors(value, vertex)
      ensures x in Neighbors(value, vertex) ==> value.edges[(vertex, x)] == edges[(vertexIdMap[vertex], vertexIdMap[x])]
    {
      assert (vertex, x) in value.edges <==> x in vertexIdMap && (vertexIdMap[vertex], vertexIdMap[x]) in edges;
      assert x in Neighbors(value, vertex) <==> (vertex, x) in value.edges by {
        if (vertex, x) in value.edges {
          assert (vertex, x).1 in Neighbors(value, vertex);
        }
      }
    }

    method GetNeighbors(vertex: Name) returns (neighbors: seq<Name>)
      requires Valid()
      ensures Lists(neighbors, Neighbors(value, vertex))
      ensures forall y :: y in neighbors <==> (vertex, y) in value.edges
    {
      neighbors := [];
      if vertex !in vertexIdMap {
        return;
      }
      var id := vertexIdMap[vertex];
      var rest := LibNeighbors(id);
      while rest != {}
        invariant rest <= LibNeighbors(id)
        invariant Visited(neighbors, LibNeighbors(id) - rest)
        decreases rest
      {
        var neighbor :| neighbor in rest;
        rest := rest - {neighbor};
        neighbors := neighbors + [vertices[neighbor]];
      }
      forall x ensures x in neighbors <==> x in Neighbors(value, vertex) {
        NeighborIds(vertex, x);
      }
    }

    method GetControlEdgeNeighbors(vertex: Name) returns (neighbors: seq<Name>)
      requires Valid()
      ensures Lists(neighbors, ControlNeighbors(value, vertex))
      ensures forall y :: y in neighbors <==> value.Has(vertex, y, "control")
    {
      neighbors := [];
      if vertex !in vertexIdMap {
        return;
      }
      var id := vertexIdMap[vertex];
      var rest := LibNeighbors(id);
      ghost var taken: set<Id> := {};
      while rest != {}
        invariant rest <= LibNeighbors(id)
        invariant taken == set i | i in LibNeighbors(id) - rest && edges[(id, i)] == CONTROL
        invariant Visited(neighbors, taken)
        decreases rest
      {
        var neighbor :| neighbor in rest;
        rest := rest - {neighbor};
        if edges[(id, neighbor)] == CONTROL {
          neighbors := neighbors + [vertices[neighbor]];
          taken := taken + {neighbor};
        }
      }
      forall x ensures x in neighbors <==> x in ControlNeighbors(value, vertex) {
        NeighborIds(vertex, x);
      }
    }

    method GetUserEdgeNeighbors(vertex: Name) returns (neighbors: seq<Name>)
      requires Valid()
      ensures Lists(neighbors, UserNeighbors(value, vertex))
      ensures forall y :: y in neighbors <==> (vertex, y) in value.edges && "user:" <= value.edges[(vertex, y)]
    {
      neighbors := [];
      if vertex !in vertexIdMap {
        return;
      }
      var id := vertexIdMap[vertex];
      var rest := LibNeighbors(id);
      ghost var taken: set<Id> := {};
      while rest != {}
        invariant rest <= LibNeighbors(id)
        invariant taken == set i | i in LibNeighbors(id) - rest && USER_PREFIX <= edges[(id, i)]
        invariant Visited(neighbors, taken)
        decreases rest
      {
        var neighbor :| neighbor in rest;
        rest := rest - {neighbor};
        if USER_PREFIX <= edges[(id, neighbor)] {
          neighbors := neighbors + [vertices[neighbor]];
          taken := taken + {neighbor};
        }
      }
      forall x ensures x in neighbors <==> x in UserNeighbors(value, vertex) {
        NeighborIds(vertex, x);
      }
    }

    /** The labels of the edges from `vertex`, each as often as there are edges that carry it. */
    method GetOutgoingEdges(vertex: Name) returns (labels: seq<string>)
      requires Valid()
      ensures forall lbl :: lbl in labels <==> exists y :: value.Has(vertex, y, lbl)
      ensures forall lbl :: multiset(labels)[lbl] == |LabelledEdges(value, vertex, Neighbors(value, vertex), lbl)|
      ensures forall lbl :: multiset(labels)[lbl] ==
                            |set e | e in value.edges && e.0 == vertex && value.edges[e] == lbl|
    {
      labels := [];
      LabelledAll(value, vertex);
      if vertex !in vertexIdMap {
        return;
      }
      var neighbors := GetNeighbors(vertex);
      for k := 0 to |neighbors|
        invariant forall lbl :: lbl in labels <==> exists i | 0 <= i < k :: value.Has(vertex, neighbors[i], lbl)
        invariant forall lbl :: multiset(labels)[lbl] == |LabelledEdges(value, vertex, Elements(neighbors[..k]), lbl)|
      {
        NeighborIds(vertex, neighbors[k]);
        OneMoreLabel(value, vertex, neighbors, k);
        labels := labels + [edges[(vertexIdMap[vertex], vertexIdMap[neighbors[k]])]];
      }
      forall lbl, y | value.Has(vertex, y, lbl) ensures lbl in labels {
        NeighborIds(vertex, y);
        assert y in neighbors;
      }
      assert neighbors[..|neighbors|] == neighbors;
      assert Elements(neighbors) == Neighbors(value, vertex);
    }

    /** All vertex names; the source reverses the library's order. */
    method GetVertices() returns (names: seq<Name>)
      requires Valid()
      ensures Lists(names, value.vertices.Keys)
    {
      names := [];
      var rest := vertices.Keys;
      while rest != {}
        invariant rest <= vertices.Keys
        invariant Visited(names, vertices.Keys - rest)
        decreases rest
      {
        var id :| id in rest;
        rest := rest - {id};
        names := [vertices[id]] + names;
      }
    }

    /** insert_graph: first the vertices, then the edges of the other graph, each
        in the library's order. */
    method InsertGraph(other: LibcCallgraph)
      requires Valid() && other.Valid()
      modifies this
      ensures Valid() && value == Insert(old(value), old(other.value))
      ensures value.vertices == old(other.value.vertices) + old(value.vertices)
      ensures value.edges == old(other.value.edges) + old(value.edges)
    {
      var otherVertices, otherEdges, otherCalls := other.vertices, other.edges, other.funcCallMap;
      ghost var g, h, ids := value, other.value, other.vertexIdMap;
      EdgesCorrespond(otherVertices, otherEdges, other.nextId, ids, otherCalls, h);
      InsertVertices(otherVertices, otherCalls, ids);
      assert CallGraph(h.vertices + g.vertices, g.edges) == value;
      InsertEdges(otherVertices, otherEdges, h, ids);
    }

    method InsertVertices(otherVertices: map<Id, Name>, otherCalls: map<Name, bool>, ghost ids: map<Name, Id>)
      requires Valid()
      requires otherCalls.Keys == ids.Keys
      requires forall v | v in ids :: ids[v] in otherVertices && otherVertices[ids[v]] == v
      requires forall i | i in otherVertices :: otherVertices[i] in ids
      modifies this
      ensures Valid() && value == CallGraph(otherCalls + old(value.vertices), old(value.edges))
    {
      var rest := otherVertices.Keys;
      ghost var done: set<Name> := {};
      while rest != {}
        invariant Valid() && rest <= otherVertices.Keys && done <= otherCalls.Keys
        invariant forall v | v in ids :: ids[v] in rest || v in done
        invariant value.edges == old(value.edges)
        invariant value.vertices == Restrict(otherCalls, done) + old(value.vertices)
        decreases rest
      {
        var id :| id in rest;
        rest := rest - {id};
        var name := otherVertices[id];
        RestrictStep(otherCalls, done, old(value.vertices), name);
        var _ := AddVertex(name, otherCalls[name]);
        done := done + {name};
      }
      assert done == otherCalls.Keys;
      RestrictAll(otherCalls);
    }

    method InsertEdge(otherVertices: map<Id, Name>, otherEdges: IdEdges, edge: (Id, Id),
                      ghost h: CallGraph, ghost ids: map<Name, Id>, ghost rest: set<(Id, Id)>,
                      ghost base: map<Pair, string>)
      requires Valid() && h.Valid() && h.vertices.Keys <= value.vertices.Keys
      requires Corresponds(otherVertices, otherEdges, ids, h) && edge in rest && rest <= otherEdges.Keys
      requires value.edges == Restrict(h.edges, Copied(h, ids, rest)) + base
      modifies this
      ensures Valid()
      ensures value == CallGraph(old(value.vertices), Restrict(h.edges, Copied(h, ids, rest - {edge})) + base)
    {
      var pair := NamePair(otherVertices, edge);
      RestrictStep(h.edges, Copied(h, ids, rest), base, pair);
      CopiedStep(otherVertices, otherEdges, ids, h, rest, edge);
      AddEdge(pair.0, pair.1, otherEdges[edge]);
    }

    method InsertEdges(otherVertices: map<Id, Name>, otherEdges: IdEdges, ghost h: CallGraph, ghost ids: map<Name, Id>)
      requires Valid() && h.Valid() && h.vertices.Keys <= value.vertices.Keys
      requires Corresponds(otherVertices, otherEdges, ids, h)
      modifies this
      ensures Valid() && value == CallGraph(old(value.vertices), h.edges + old(value.edges))
    {
      var rest := otherEdges.Keys;
      CopiedEnds(otherVertices, otherEdges, ids, h);
      RestrictAll(h.edges);
      while rest != {}
        invariant Valid() && rest <= otherEdges.Keys
        invariant value == CallGraph(old(value.vertices), Restrict(h.edges, Copied(h, ids, rest)) + old(value.edges))
        decreases rest
      {
        var edge :| edge in rest;
        InsertEdge(otherVertices, otherEdges, edge, h, ids, rest, old(value.edges));
        rest := rest - {edge};
      }
    }
  }

  /** The edges that are no longer waiting. */
  ghost function Copied(h: CallGraph, ids: map<Name, Id>, rest: set<(Id, Id)>): (r: set<Pair>)
    ensures r <= h.edges.Keys
  {
    set e | e in h.edges && IdPair(ids, e) !in rest
  }

  lemma CopiedEnds(vertices: map<Id, Name>, edges: IdEdges, ids: map<Name, Id>, h: CallGraph)
    requires Corresponds(vertices, edges, ids, h)
    ensures Copied(h, ids, edges.Keys) == {} && Copied(h, ids, {}) == h.edges.Keys
  {
  }

  lemma CopiedStep(vertices: map<Id, Name>, edges: IdEdges, ids: map<Name, Id>, h: CallGraph, rest: set<(Id, Id)>,
                   edge: (Id, Id))
    requires Corresponds(vertices, edges, ids, h) && edge in rest && rest <= edges.Keys
    requires IdPair(ids, NamePair(vertices, edge)) == edge
    ensures Copied(h, ids, rest - {edge}) == Copied(h, ids, rest) + {NamePair(vertices, edge)}
  {
  }

  function NamePair(vertices: map<Id, Name>, e: (Id, Id)): Pair {
    (if e.0 in vertices then vertices[e.0] else "", if e.1 in vertices then vertices[e.1] else "")
  }

  ghost function IdPair(ids: map<Name, Id>, e: Pair): (Id, Id) {
    (if e.0 in ids then ids[e.0] else 0, if e.1 in ids then ids[e.1] else 0)
  }

  /** The edges by ids and the edges by names of one graph, in both directions. */
  ghost predicate Corresponds(vertices: map<Id, Name>, edges: IdEdges, ids: map<Name, Id>, g: CallGraph) {
    && (forall e | e in edges ::
          && NamePair(vertices, e) in g.edges && g.edges[NamePair(vertices, e)] == edges[e]
          && IdPair(ids, NamePair(vertices, e)) == e)
    && (forall e | e in g.edges :: IdPair(ids, e) in edges && NamePair(vertices, IdPair(ids, e)) == e)
  }

  lemma EdgesCorrespond(vertices: map<Id, Name>, edges: IdEdges, nextId: Id, ids: map<Name, Id>,
                        calls: map<Name, bool>, g: CallGraph)
    requires Consistent(vertices, edges, nextId, ids, calls) && Mirrors(edges, ids, g.edges)
    ensures Corresponds(vertices, edges, ids, g)
  {
    forall e | e in edges
      ensures NamePair(vertices, e) in g.edges && g.edges[NamePair(vertices, e)] == edges[e]
      ensures IdPair(ids, NamePair(vertices, e)) == e
    {
      var n := NamePair(vertices, e);
      assert (ids[n.0], ids[n.1]) == e;
    }
    forall e | e in g.edges ensures IdPair(ids, e) in edges && NamePair(vertices, IdPair(ids, e)) == e {
    }
  }

  /** Adding one more entry of `m` under `base`, unless it is there. */
  lemma RestrictStep<K, V>(m: map<K, V>, done: set<K>, base: map<K, V>, k: K)
    requires done <= m.Keys && k in m
    ensures var before := Restrict(m, done) + base;
            Restrict(m, done + {k}) + base == if k in before then before else before[k := m[k]]
  {
  }

  lemma RestrictAll<K, V>(m: map<K, V>)
    ensures Restrict(m, m.Keys) == m
  {
  }

  function Restrict<K, V>(m: map<K, V>, ks: set<K>): (r: map<K, V>)
    requires ks <= m.Keys
    ensures r.Keys == ks
    ensures forall k | k in ks :: r[k] == m[k]
  {
    map k | k in ks :: m[k]
  }
}
