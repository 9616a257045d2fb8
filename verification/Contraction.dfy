/** What merging the ends of silent edges does to a call graph, whatever the order.

    A run of merges is recorded as a log.  Its entry (l, r) stands for the call
    `combine_vertex(l, r)`: r is merged into l.  Silent edges are the control
    edges, in the merge loop of the module graph also the "user:" edges. */
module Contraction {
  import opened CallGraphs
  import opened Connectivity

  type Log = seq<Pair>

  predicate Silent(user: bool, lbl: string) {
    lbl == CONTROL || (user && USER_PREFIX <= lbl)
  }

  predicate SilentEdge(user: bool, g: CallGraph, e: Pair) {
    e in g.edges && Silent(user, g.edges[e])
  }

  function SilentPairs(user: bool, g: CallGraph): set<Pair> {
    set e | e in g.edges && Silent(user, g.edges[e])
  }

  /** No silent edge is left. */
  ghost predicate Done(user: bool, g: CallGraph) {
    forall e | e in g.edges :: !Silent(user, g.edges[e])
  }

  /** The graph after the merges of the log. */
  function Replay(g: CallGraph, log: Log): CallGraph {
    if log == [] then g
    else Combine(Replay(g, log[..|log| - 1]), log[|log| - 1].0, log[|log| - 1].1)
  }

  /** The vertex that stands for `x` after the merges of the log. */
  function Rep(log: Log, x: Name): Name {
    if log == [] then x
    else Moved(log[|log| - 1].0, log[|log| - 1].1, Rep(log[..|log| - 1], x))
  }

  /** No vertex was merged with itself. */
  predicate Proper(log: Log) {
    forall i | 0 <= i < |log| :: log[i].0 != log[i].1
  }

  /** Each merge joined the ends of an edge that was silent at that time. */
  predicate AlongSilent(user: bool, g: CallGraph, log: Log) {
    log == [] ||
    (var k := |log| - 1;
     AlongSilent(user, g, log[..k]) && SilentEdge(user, Replay(g, log[..k]), log[k]))
  }

  // ----- one merge -----

  lemma {:induction false} ReplayValid(g: CallGraph, log: Log)
    requires g.Valid()
    ensures Replay(g, log).Valid()
  {
    if log != [] {
      ReplayValid(g, log[..|log| - 1]);
      CombineValid(Replay(g, log[..|log| - 1]), log[|log| - 1].0, log[|log| - 1].1);
    }
  }

  /** In every log, improper ones included: a vertex is lost only as the right end of an
      entry whose two ends were both there. */
  lemma {:induction false} VertexLostWhere(g: CallGraph, log: Log, v: Name) returns (k: nat)
    requires v in g.vertices && v !in Replay(g, log).vertices
    ensures k < |log| && log[k].1 == v
    ensures log[k].0 in Replay(g, log[..k]).vertices && v in Replay(g, log[..k]).vertices
  {
    k := |log| - 1;
    if v !in Replay(g, log[..k]).vertices {
      var first := log[..k];
      k := VertexLostWhere(g, first, v);
      assert first[..k] == log[..k];
    }
  }

  /** Nothing else is lost or made: vertices only go, and one goes with every entry whose ends are there. */
  lemma {:induction false} VerticesOnlyGo(g: CallGraph, log: Log)
    ensures Replay(g, log).vertices.Keys <= g.vertices.Keys
    ensures forall v | v in Replay(g, log).vertices :: Replay(g, log).vertices[v] == g.vertices[v]
    ensures forall k | 0 <= k < |log| && log[k].0 in Replay(g, log[..k]).vertices ::
            log[k].1 !in Replay(g, log).vertices
  {
    if log != [] {
      var m := |log| - 1;
      var first := log[..m];
      VerticesOnlyGo(g, first);
      forall k | 0 <= k < |log| && log[k].0 in Replay(g, log[..k]).vertices
        ensures log[k].1 !in Replay(g, log).vertices
      {
        assert k < m ==> first[..k] == log[..k] && first[k] == log[k];
      }
    }
  }

  /** An edge whose ends are in no entry of the log keeps its label, in every log. */
  lemma {:induction false} EdgeUntouched(g: CallGraph, log: Log, e: Pair)
    requires g.Valid() && e in g.edges
    requires forall k | 0 <= k < |log| :: e.0 != log[k].0 && e.0 != log[k].1 && e.1 != log[k].0 && e.1 != log[k].1
    ensures e in Replay(g, log).edges && Replay(g, log).edges[e] == g.edges[e]
  {
    if log != [] {
      var k := |log| - 1;
      EdgeUntouched(g, log[..k], e);
      ReplayValid(g, log[..k]);
      CombineWhole(Replay(g, log[..k]), log[k].0, log[k].1);
    }
  }

  /** An edge after a merge comes from an edge before it, other than the merged one. */
  lemma MergePreimage(g: CallGraph, l: Name, r: Name, f: Pair) returns (e: Pair)
    requires g.Valid() && (l, r) in g.edges && l != r
    requires f in Combine(g, l, r).edges
    ensures e in g.edges && e != (l, r) && MovedPair(l, r, e) == f
    ensures g.edges[e] == Combine(g, l, r).edges[f]
  {
    CombineEdges(g, l, r, f);
    e := if f in g.edges then f
         else if f.0 == l && (r, f.1) in g.edges then (r, f.1)
         else (f.0, r);
  }

  /** Every edge is kept, or its ends have become one vertex. */
  lemma MergeImage(g: CallGraph, l: Name, r: Name, e: Pair)
    requires g.Valid() && l in g.vertices && r in g.vertices && l != r && e in g.edges
    ensures var f := MovedPair(l, r, e); f.0 == f.1 || f in Combine(g, l, r).edges
  {
    CombineEdges(g, l, r, MovedPair(l, r, e));
  }

  lemma CombineCounts(g: CallGraph, l: Name, r: Name)
    ensures |Combine(g, l, r).vertices| <= |g.vertices|
    ensures l in g.vertices && r in g.vertices ==> |Combine(g, l, r).vertices| < |g.vertices|
  {
    if l in g.vertices && r in g.vertices {
      assert (g.vertices - {r}).Keys == g.vertices.Keys - {r};
    }
  }

  /** A silent edge from `l` to a third vertex is still there after a merge into `l`. */
  lemma SilentEdgeStays(user: bool, g: CallGraph, l: Name, r: Name, y: Name)
    requires g.Valid() && SilentEdge(user, g, (l, y)) && y != r && l != r
    ensures SilentEdge(user, Combine(g, l, r), (l, y))
  {
    if r in g.vertices {
      CombineEdges(g, l, r, (l, y));
    }
  }

  /** Two edges that fall on the same pair carry the same label. */
  ghost predicate NoConflict(g: CallGraph, l: Name, r: Name) {
    forall e, f | e in g.edges && f in g.edges && e != (l, r) && f != (l, r) ::
      MovedPair(l, r, e) == MovedPair(l, r, f) ==> g.edges[e] == g.edges[f]
  }

  /** A self-loop of `r` is lost unless another edge falls on the same pair. */
  predicate LoopKept(g: CallGraph, l: Name, r: Name) {
    (r, r) in g.edges ==> (l, l) in g.edges || (r, l) in g.edges
  }

  /** `h` has exactly the labelled edges of `g`, other than (l, r), with r renamed to l. */
  ghost predicate IsQuotient(g: CallGraph, l: Name, r: Name, h: CallGraph) {
    && (forall e | e in g.edges && e != (l, r) ::
          MovedPair(l, r, e) in h.edges && h.edges[MovedPair(l, r, e)] == g.edges[e])
    && (forall f | f in h.edges ::
          exists e :: e in g.edges && e != (l, r) && MovedPair(l, r, e) == f && g.edges[e] == h.edges[f])
  }

  /** A merge that loses nothing. */
  ghost predicate Clean(g: CallGraph, l: Name, r: Name) {
    l != r && NoConflict(g, l, r) && LoopKept(g, l, r)
  }

  /** A merge along an edge gives the exact quotient if and only if it is clean. */
  lemma MergeIsQuotient(g: CallGraph, l: Name, r: Name)
    requires g.Valid() && (l, r) in g.edges && l != r
    ensures IsQuotient(g, l, r, Combine(g, l, r)) <==> Clean(g, l, r)
  {
    var h := Combine(g, l, r);
    if Clean(g, l, r) {
      forall e | e in g.edges && e != (l, r)
        ensures MovedPair(l, r, e) in h.edges && h.edges[MovedPair(l, r, e)] == g.edges[e]
      {
        CombineEdges(g, l, r, MovedPair(l, r, e));
        if MovedPair(l, r, e) in h.edges {
          var e' := MergePreimage(g, l, r, MovedPair(l, r, e));
        }
      }
      forall f | f in h.edges
        ensures exists e :: e in g.edges && e != (l, r) && MovedPair(l, r, e) == f && g.edges[e] == h.edges[f]
      {
        var e := MergePreimage(g, l, r, f);
      }
    }
    if IsQuotient(g, l, r, h) && (r, r) in g.edges {
      assert MovedPair(l, r, (r, r)) in h.edges;
      CombineEdges(g, l, r, (l, l));
    }
  }

  // ----- runs in which no vertex is merged with itself -----

  /** Survivors are original vertices that stand for themselves, and every original
      vertex has a survivor that stands for it. */
  lemma {:induction false} RepSurvives(user: bool, g: CallGraph, log: Log)
    requires g.Valid() && AlongSilent(user, g, log) && Proper(log)
    ensures forall x | x in g.vertices :: Rep(log, x) in Replay(g, log).vertices
    ensures forall v | v in Replay(g, log).vertices :: v in g.vertices && Rep(log, v) == v
  {
    if log != [] {
      var k := |log| - 1;
      ReplayValid(g, log[..k]);
      RepSurvives(user, g, log[..k]);
    }
  }

  /** Every surviving edge has an original edge with the same label. */
  lemma {:induction false} EdgePreimage(user: bool, g: CallGraph, log: Log, f: Pair) returns (e: Pair)
    requires g.Valid() && AlongSilent(user, g, log) && Proper(log)
    requires f in Replay(g, log).edges
    ensures e in g.edges && g.edges[e] == Replay(g, log).edges[f]
    ensures (Rep(log, e.0), Rep(log, e.1)) == f
  {
    if log == [] {
      e := f;
    } else {
      var k := |log| - 1;
      ReplayValid(g, log[..k]);
      var f' := MergePreimage(Replay(g, log[..k]), log[k].0, log[k].1, f);
      e := EdgePreimage(user, g, log[..k], f');
    }
  }

  /** Every original edge survives in some form, or its ends have become one vertex. */
  lemma {:induction false} EdgeImage(user: bool, g: CallGraph, log: Log, e: Pair)
    requires g.Valid() && AlongSilent(user, g, log) && Proper(log)
    requires e in g.edges
    ensures Rep(log, e.0) == Rep(log, e.1) || (Rep(log, e.0), Rep(log, e.1)) in Replay(g, log).edges
  {
    if log != [] {
      var k := |log| - 1;
      ReplayValid(g, log[..k]);
      EdgeImage(user, g, log[..k], e);
      var f := (Rep(log[..k], e.0), Rep(log[..k], e.1));
      if f.0 != f.1 {
        MergeImage(Replay(g, log[..k]), log[k].0, log[k].1, f);
      }
    }
  }

  /** Only vertices joined by silent edges become one. */
  lemma {:induction false} MergedOnlyIfConnected(user: bool, g: CallGraph, log: Log, x: Name, y: Name)
    requires g.Valid() && AlongSilent(user, g, log) && Proper(log)
    requires Rep(log, x) == Rep(log, y)
    ensures Connected(SilentPairs(user, g), x, y)
  {
    var s := SilentPairs(user, g);
    if log == [] {
      ConnectedSelf(s, x);
    } else {
      var k := |log| - 1;
      var (x', y') := (Rep(log[..k], x), Rep(log[..k], y));
      if x' == y' {
        MergedOnlyIfConnected(user, g, log[..k], x, y);
      } else {
        ReplayValid(g, log[..k]);
        var e := EdgePreimage(user, g, log[..k], log[k]);
        var (a, b) := if x' == log[k].0 then (e.0, e.1) else (e.1, e.0);
        MergedOnlyIfConnected(user, g, log[..k], x, a);
        MergedOnlyIfConnected(user, g, log[..k], b, y);
        ConnectedEdge(s, a, b);
        ConnectedTrans(s, x, a, b);
        ConnectedTrans(s, x, b, y);
      }
    }
  }

  /** Reachability through merging, label collisions and lost loops included. */
  lemma ProperRunKeepsReachability(user: bool, g: CallGraph, log: Log)
    requires g.Valid() && AlongSilent(user, g, log) && Proper(log)
    ensures forall x | x in g.vertices :: Rep(log, x) in Replay(g, log).vertices
    ensures forall e | e in g.edges ::
              Rep(log, e.0) == Rep(log, e.1) || (Rep(log, e.0), Rep(log, e.1)) in Replay(g, log).edges
    ensures forall f | f in Replay(g, log).edges ::
              exists e :: e in g.edges && (Rep(log, e.0), Rep(log, e.1)) == f && g.edges[e] == Replay(g, log).edges[f]
    ensures forall x, y | Rep(log, x) == Rep(log, y) :: Connected(SilentPairs(user, g), x, y)
  {
    RepSurvives(user, g, log);
    forall e | e in g.edges
      ensures Rep(log, e.0) == Rep(log, e.1) || (Rep(log, e.0), Rep(log, e.1)) in Replay(g, log).edges
    {
      EdgeImage(user, g, log, e);
    }
    forall f | f in Replay(g, log).edges
      ensures exists e :: e in g.edges && (Rep(log, e.0), Rep(log, e.1)) == f && g.edges[e] == Replay(g, log).edges[f]
    {
      var e := EdgePreimage(user, g, log, f);
    }
    forall x, y | Rep(log, x) == Rep(log, y) ensures Connected(SilentPairs(user, g), x, y) {
      MergedOnlyIfConnected(user, g, log, x, y);
    }
  }

  // ----- runs in which every merge is clean -----

  /** Every merge joined the ends of a silent edge and lost nothing. */
  ghost predicate CleanRun(user: bool, g: CallGraph, log: Log) {
    log == [] ||
    (var k := |log| - 1;
     && CleanRun(user, g, log[..k])
     && SilentEdge(user, Replay(g, log[..k]), log[k])
     && Clean(Replay(g, log[..k]), log[k].0, log[k].1))
  }

  lemma {:induction false} CleanRunIsProper(user: bool, g: CallGraph, log: Log)
    requires CleanRun(user, g, log)
    ensures AlongSilent(user, g, log) && Proper(log)
  {
    if log != [] {
      CleanRunIsProper(user, g, log[..|log| - 1]);
      assert log == log[..|log| - 1] + [log[|log| - 1]];
    }
  }

  /** Every original edge survives with its label; a silent one may also have vanished between merged vertices. */
  lemma {:induction false} CleanEdgeImage(user: bool, g: CallGraph, log: Log, e: Pair)
    requires g.Valid() && CleanRun(user, g, log) && e in g.edges
    ensures Replay(g, log).Has(Rep(log, e.0), Rep(log, e.1), g.edges[e])
         || (Silent(user, g.edges[e]) && Rep(log, e.0) == Rep(log, e.1))
  {
    if log != [] {
      var k := |log| - 1;
      CleanEdgeImage(user, g, log[..k], e);
      ReplayValid(g, log[..k]);
      MergeIsQuotient(Replay(g, log[..k]), log[k].0, log[k].1);
    }
  }

  /** Vertices joined by silent edges have become one when no silent edge is left. */
  lemma {:induction false} ConnectedAreMerged(user: bool, g: CallGraph, log: Log, p: seq<Name>)
    requires g.Valid() && CleanRun(user, g, log) && Done(user, Replay(g, log))
    requires LinkPath(SilentPairs(user, g), p)
    ensures Rep(log, p[0]) == Rep(log, p[|p| - 1])
    decreases |p|
  {
    var s := SilentPairs(user, g);
    if |p| > 1 {
      assert Joined(s, p[0], p[1]);
      CleanEdgeImage(user, g, log, if (p[0], p[1]) in s then (p[0], p[1]) else (p[1], p[0]));
      forall i | 0 <= i < |p[1..]| - 1 ensures Joined(s, p[1..][i], p[1..][i + 1]) {
        assert Joined(s, p[i + 1], p[i + 2]);
      }
      ConnectedAreMerged(user, g, log, p[1..]);
    }
  }

  /** In a complete clean run two vertices become one exactly when silent edges connect them. */
  lemma ComponentsAreMerged(user: bool, g: CallGraph, log: Log, x: Name, y: Name)
    requires g.Valid() && CleanRun(user, g, log) && Done(user, Replay(g, log))
    ensures Rep(log, x) == Rep(log, y) <==> Connected(SilentPairs(user, g), x, y)
  {
    CleanRunIsProper(user, g, log);
    if Rep(log, x) == Rep(log, y) {
      MergedOnlyIfConnected(user, g, log, x, y);
    }
    if Connected(SilentPairs(user, g), x, y) {
      var p :| LinkPathFrom(SilentPairs(user, g), p, x, y);
      ConnectedAreMerged(user, g, log, p);
    }
  }

  /** The labelled edges of the quotient: some call edge joins the two components. */
  ghost predicate QuotientEdge(user: bool, g: CallGraph, x: Name, y: Name, lbl: string) {
    exists e :: e in g.edges && g.edges[e] == lbl && !Silent(user, lbl) &&
                Connected(SilentPairs(user, g), e.0, x) && Connected(SilentPairs(user, g), e.1, y)
  }

  /** A complete clean run ends in the quotient of the graph by its silent components:
      one vertex for each component, and exactly the call edges between components. */
  lemma CleanRunIsQuotient(user: bool, g: CallGraph, log: Log)
    requires g.Valid() && CleanRun(user, g, log) && Done(user, Replay(g, log))
    ensures forall x | x in g.vertices :: Rep(log, x) in Replay(g, log).vertices
    ensures forall v | v in Replay(g, log).vertices :: v in g.vertices && Rep(log, v) == v
    ensures forall x, y :: Rep(log, x) == Rep(log, y) <==> Connected(SilentPairs(user, g), x, y)
    ensures forall x, y, lbl :: Replay(g, log).Has(Rep(log, x), Rep(log, y), lbl) <==> QuotientEdge(user, g, x, y, lbl)
  {
    CleanRunIsProper(user, g, log);
    RepSurvives(user, g, log);
    forall x, y ensures Rep(log, x) == Rep(log, y) <==> Connected(SilentPairs(user, g), x, y) {
      ComponentsAreMerged(user, g, log, x, y);
    }
    forall x, y, lbl
      ensures Replay(g, log).Has(Rep(log, x), Rep(log, y), lbl) <==> QuotientEdge(user, g, x, y, lbl)
    {
      if Replay(g, log).Has(Rep(log, x), Rep(log, y), lbl) {
        var e := EdgePreimage(user, g, log, (Rep(log, x), Rep(log, y)));
        ComponentsAreMerged(user, g, log, e.0, x);
        ComponentsAreMerged(user, g, log, e.1, y);
        assert Connected(SilentPairs(user, g), e.0, x) && Connected(SilentPairs(user, g), e.1, y);
      }
      if QuotientEdge(user, g, x, y, lbl) {
        var e :| e in g.edges && g.edges[e] == lbl && !Silent(user, lbl) &&
                 Connected(SilentPairs(user, g), e.0, x) && Connected(SilentPairs(user, g), e.1, y);
        CleanEdgeImage(user, g, log, e);
        ComponentsAreMerged(user, g, log, e.0, x);
        ComponentsAreMerged(user, g, log, e.1, y);
      }
    }
  }

  /** Two complete clean runs, in whatever orders, end in the same graph up to the choice of representatives. */
  lemma OrderDoesNotMatter(user: bool, g: CallGraph, log1: Log, log2: Log)
    requires g.Valid()
    requires CleanRun(user, g, log1) && Done(user, Replay(g, log1))
    requires CleanRun(user, g, log2) && Done(user, Replay(g, log2))
    ensures forall x, y :: Rep(log1, x) == Rep(log1, y) <==> Rep(log2, x) == Rep(log2, y)
    ensures forall x, y, lbl ::
              Replay(g, log1).Has(Rep(log1, x), Rep(log1, y), lbl) <==>
                Replay(g, log2).Has(Rep(log2, x), Rep(log2, y), lbl)
  {
    forall x, y ensures Rep(log1, x) == Rep(log1, y) <==> Rep(log2, x) == Rep(log2, y) {
      ComponentsAreMerged(user, g, log1, x, y);
      ComponentsAreMerged(user, g, log2, x, y);
    }
    CleanRunIsQuotient(user, g, log1);
    CleanRunIsQuotient(user, g, log2);
    forall x, y, lbl
      ensures Replay(g, log1).Has(Rep(log1, x), Rep(log1, y), lbl) <==>
              Replay(g, log2).Has(Rep(log2, x), Rep(log2, y), lbl)
    {
      assert Replay(g, log1).Has(Rep(log1, x), Rep(log1, y), lbl) <==> QuotientEdge(user, g, x, y, lbl);
    }
  }

  // ----- which graphs are contracted faithfully -----

  /** What the merge loops record: as long as no vertex has been merged with itself,
      every merge joins the ends of an edge that is silent at that time. */
  predicate Logged(user: bool, g: CallGraph, log: Log) {
    log == [] ||
    (var k := |log| - 1;
     Logged(user, g, log[..k]) && (SilentEdge(user, Replay(g, log[..k]), log[k]) || !Proper(log[..k])))
  }

  lemma {:induction false} ProperLog(user: bool, g: CallGraph, log: Log)
    requires Logged(user, g, log) && Proper(log)
    ensures AlongSilent(user, g, log)
  {
    if log != [] {
      ProperLog(user, g, log[..|log| - 1]);
    }
  }

  /** The silent pairs after a merge are images of silent pairs before it. */
  lemma SilentPreimage(user: bool, g: CallGraph, l: Name, r: Name)
    requires g.Valid() && SilentEdge(user, g, (l, r)) && l != r
    ensures forall f | f in SilentPairs(user, Combine(g, l, r)) ::
              exists e | e in SilentPairs(user, g) - {(l, r)} :: MovedPair(l, r, e) == f
  {
    forall f | f in SilentPairs(user, Combine(g, l, r))
      ensures exists e | e in SilentPairs(user, g) - {(l, r)} :: MovedPair(l, r, e) == f
    {
      var e := MergePreimage(g, l, r, f);
      assert e in SilentPairs(user, g) - {(l, r)};
    }
  }

  /** If the silent edges form a forest, then no order of merges ever merges a vertex
      with itself, and the silent edges stay a forest. */
  lemma {:induction false} ForestRunIsProper(user: bool, g: CallGraph, log: Log)
    requires g.Valid() && Forest(SilentPairs(user, g)) && Logged(user, g, log)
    ensures Proper(log) && AlongSilent(user, g, log)
    ensures Forest(SilentPairs(user, Replay(g, log)))
  {
    if log != [] {
      var k := |log| - 1;
      var h := Replay(g, log[..k]);
      ForestRunIsProper(user, g, log[..k]);
      ReplayValid(g, log[..k]);
      ForestMergeStep(user, h, log[k].0, log[k].1);
      assert forall i | 0 <= i < k :: log[i] == log[..k][i];
    }
  }

  lemma ForestMergeStep(user: bool, g: CallGraph, l: Name, r: Name)
    requires g.Valid() && Forest(SilentPairs(user, g)) && SilentEdge(user, g, (l, r))
    ensures l != r && Forest(SilentPairs(user, Combine(g, l, r)))
  {
    ForestNoLoop(SilentPairs(user, g), l);
    SilentPreimage(user, g, l, r);
    ForestMerge(SilentPairs(user, g), SilentPairs(user, Combine(g, l, r)), l, r);
  }

  /** No call edge joins two vertices of one silent component. */
  ghost predicate Separated(user: bool, g: CallGraph) {
    forall e | e in g.edges && !Silent(user, g.edges[e]) :: !Connected(SilentPairs(user, g), e.0, e.1)
  }

  /** Between two silent components all call edges of one direction carry the same label. */
  ghost predicate OneLabel(user: bool, g: CallGraph) {
    forall e, f | e in g.edges && f in g.edges && !Silent(user, g.edges[e]) && !Silent(user, g.edges[f]) ::
      Connected(SilentPairs(user, g), e.0, f.0) && Connected(SilentPairs(user, g), e.1, f.1) ==>
        g.edges[e] == g.edges[f]
  }

  predicate CallEdge(user: bool, g: CallGraph, e: Pair) {
    e in g.edges && !Silent(user, g.edges[e])
  }

  /** The silent path that joins the ends of `e` leads from its target back to its source:
      every pair on it has the target on the side it starts from. */
  ghost predicate LeadsBack(s: set<Pair>, e: Pair) {
    forall d | d in s && !Connected(s - {d}, e.0, e.1) :: Connected(s - {d}, e.1, d.0)
  }

  /** In a forest: `a` is in the smallest connected set with `x`, `y` and `v`. */
  ghost predicate Between(s: set<Pair>, a: Name, x: Name, y: Name, v: Name) {
    forall d | d in s :: Connected(s - {d}, a, x) || Connected(s - {d}, a, y) || Connected(s - {d}, a, v)
  }

  /** Without the pair `d`, both ends of `e` are on the side of its target. */
  ghost predicate Beyond(s: set<Pair>, d: Pair, e: Pair) {
    Connected(s - {d}, e.0, d.1) && Connected(s - {d}, e.1, d.1)
  }

  /** A call edge `f` that will share a pair with `e` when the two are moved over `d`. */
  ghost predicate Carries(user: bool, g: CallGraph, e: Pair, d: Pair, f: Pair) {
    && CallEdge(user, g, f) && f.1 == d.0
    && (f.0 == d.0 || Between(SilentPairs(user, g), f.0, e.0, e.1, d.1))
  }

  /** Every call edge inside a silent component has its silent path leading back, and
      wherever its loop is moved over a silent edge another call edge carries it. */
  ghost predicate LoopsKept(user: bool, g: CallGraph) {
    forall e | CallEdge(user, g, e) && Connected(SilentPairs(user, g), e.0, e.1) ::
      && LeadsBack(SilentPairs(user, g), e)
      && forall d | SilentEdge(user, g, d) && Beyond(SilentPairs(user, g), d, e) ::
           exists f :: Carries(user, g, e, d, f)
  }

  /** Graphs whose contraction loses nothing, in whatever order it is done. */
  ghost predicate Contractible(user: bool, g: CallGraph) {
    Forest(SilentPairs(user, g)) && OneLabel(user, g) && LoopsKept(user, g)
  }

  lemma SilentEndsConnected(user: bool, g: CallGraph, l: Name, r: Name, x: Name, y: Name)
    requires SilentEdge(user, g, (l, r)) && Moved(l, r, x) == Moved(l, r, y)
    ensures Connected(SilentPairs(user, g), x, y)
  {
    ConnectedEdge(SilentPairs(user, g), l, r);
    SameImage(SilentPairs(user, g), l, r, x, y);
  }

  lemma SilentConnects(user: bool, g: CallGraph, e: Pair)
    requires SilentEdge(user, g, e)
    ensures Connected(SilentPairs(user, g), e.0, e.1)
  {
    ConnectedEdge(SilentPairs(user, g), e.0, e.1);
  }

  /** A silent edge that falls together with a call edge is on the path between the ends of
      the call edge, in the wrong direction. */
  lemma MixedCollision(user: bool, g: CallGraph, l: Name, r: Name, a: Pair, b: Pair)
    requires g.Valid() && Forest(SilentPairs(user, g)) && SilentEdge(user, g, (l, r)) && a != (l, r)
    requires SilentEdge(user, g, a) && CallEdge(user, g, b) && MovedPair(l, r, a) == MovedPair(l, r, b)
    ensures Connected(SilentPairs(user, g), b.0, b.1) && !LeadsBack(SilentPairs(user, g), b)
  {
    var s := SilentPairs(user, g);
    var t := s - {a};
    ConnectedEdge(t, l, r);
    SameImage(t, l, r, a.0, b.0);
    SameImage(t, l, r, b.0, a.0);
    SameImage(t, l, r, b.1, a.1);
    SilentConnects(user, g, a);
    ConnectedWithout(s, a, b.0, a.0);
    SameImage(t, l, r, a.1, b.1);
    ConnectedWithout(s, a, a.1, b.1);
    ConnectedTrans(s, b.0, a.0, a.1);
    ConnectedTrans(s, b.0, a.1, b.1);
    if Connected(t, b.0, b.1) {
      ConnectedTrans(t, a.0, b.0, b.1);
      ConnectedTrans(t, a.0, b.1, a.1);
    }
    if Connected(t, b.1, a.0) {
      ConnectedSym(t, b.1, a.0);
      ConnectedTrans(t, a.0, b.1, a.1);
    }
  }

  /** A silent edge and a call edge do not fall together. */
  lemma NoMixedCollision(user: bool, g: CallGraph, l: Name, r: Name, a: Pair, b: Pair)
    requires g.Valid() && Contractible(user, g) && SilentEdge(user, g, (l, r)) && a != (l, r)
    requires SilentEdge(user, g, a) && CallEdge(user, g, b)
    ensures MovedPair(l, r, a) != MovedPair(l, r, b)
  {
    if MovedPair(l, r, a) == MovedPair(l, r, b) {
      MixedCollision(user, g, l, r, a, b);
    }
  }

  /** A self-loop of the merged vertex is carried by another edge. */
  lemma LoopIsCarried(user: bool, g: CallGraph, l: Name, r: Name)
    requires g.Valid() && Contractible(user, g) && SilentEdge(user, g, (l, r))
    ensures LoopKept(g, l, r)
  {
    var s := SilentPairs(user, g);
    if (r, r) in g.edges {
      ForestNoLoop(s, r);
      ConnectedSelf(s, r);
      ConnectedSelf(s - {(l, r)}, r);
      var f :| Carries(user, g, (r, r), (l, r), f);
      if f.0 != l && f.0 != r {
        assert Connected(s - {(l, r)}, f.0, r);
        ConnectedWithout(s, (l, r), f.0, r);
        var d := Separator(s, f.0, r);
      }
    }
  }

  lemma ContractibleMergeIsClean(user: bool, g: CallGraph, l: Name, r: Name)
    requires g.Valid() && Contractible(user, g) && SilentEdge(user, g, (l, r))
    ensures Clean(g, l, r)
  {
    var s := SilentPairs(user, g);
    ForestNoLoop(s, l);
    LoopIsCarried(user, g, l, r);
    forall e, f | e in g.edges && f in g.edges && e != (l, r) && f != (l, r) && MovedPair(l, r, e) == MovedPair(l, r, f)
      ensures g.edges[e] == g.edges[f]
    {
      SilentEndsConnected(user, g, l, r, e.0, f.0);
      SilentEndsConnected(user, g, l, r, e.1, f.1);
      if e in s && f in s {
        ForestNoCollision(s, l, r, e, f);
      } else if e in s {
        NoMixedCollision(user, g, l, r, e, f);
      } else if f in s {
        NoMixedCollision(user, g, l, r, f, e);
      }
    }
  }

  /** A clean merge moves the silent pairs and loses none. */
  lemma CleanMergesSilent(user: bool, g: CallGraph, l: Name, r: Name)
    requires g.Valid() && SilentEdge(user, g, (l, r)) && Clean(g, l, r)
    ensures IsMerge(SilentPairs(user, g), l, r, SilentPairs(user, Combine(g, l, r)))
  {
    SilentPreimage(user, g, l, r);
    MergeIsQuotient(g, l, r);
  }

  /** A call edge after a merge was one before it. */
  lemma CallPreimage(user: bool, g: CallGraph, l: Name, r: Name, f: Pair) returns (e: Pair)
    requires g.Valid() && SilentEdge(user, g, (l, r)) && l != r && CallEdge(user, Combine(g, l, r), f)
    ensures CallEdge(user, g, e) && MovedPair(l, r, e) == f && g.edges[e] == Combine(g, l, r).edges[f]
  {
    e := MergePreimage(g, l, r, f);
  }

  lemma OneLabelMerge(user: bool, g: CallGraph, l: Name, r: Name)
    requires g.Valid() && OneLabel(user, g) && SilentEdge(user, g, (l, r)) && l != r
    ensures OneLabel(user, Combine(g, l, r))
  {
    var h := Combine(g, l, r);
    var s, s' := SilentPairs(user, g), SilentPairs(user, h);
    SilentPreimage(user, g, l, r);
    ConnectedEdge(s, l, r);
    forall f, f' | f in h.edges && f' in h.edges && !Silent(user, h.edges[f]) && !Silent(user, h.edges[f'])
                   && Connected(s', f.0, f'.0) && Connected(s', f.1, f'.1)
      ensures h.edges[f] == h.edges[f']
    {
      var e := CallPreimage(user, g, l, r, f);
      var e' := CallPreimage(user, g, l, r, f');
      LiftConnected(s, s', l, r, e.0, e'.0);
      LiftConnected(s, s', l, r, e.1, e'.1);
    }
  }

  /** What holds of a call edge and its silent path holds of them when a pair elsewhere
      in the forest has been merged. */
  lemma LeadsBackMerge(s: set<Pair>, l: Name, r: Name, s': set<Pair>, e: Pair)
    requires Forest(s) && IsMerge(s, l, r, s') && LeadsBack(s, e)
    ensures LeadsBack(s', MovedPair(l, r, e))
  {
    var e' := MovedPair(l, r, e);
    forall d' | d' in s' && !Connected(s' - {d'}, e'.0, e'.1) ensures Connected(s' - {d'}, e'.1, d'.0) {
      var d :| d in s - {(l, r)} && MovedPair(l, r, d) == d';
      MergeConnectsWithout(s, l, r, s', d, e.0, e.1);
      MergeConnectsWithout(s, l, r, s', d, e.1, d.0);
    }
  }

  lemma BetweenMerge(s: set<Pair>, l: Name, r: Name, s': set<Pair>, a: Name, x: Name, y: Name, v: Name)
    requires Forest(s) && IsMerge(s, l, r, s') && Between(s, a, x, y, v)
    ensures Between(s', Moved(l, r, a), Moved(l, r, x), Moved(l, r, y), Moved(l, r, v))
  {
    forall d' | d' in s'
      ensures Connected(s' - {d'}, Moved(l, r, a), Moved(l, r, x)) ||
              Connected(s' - {d'}, Moved(l, r, a), Moved(l, r, y))
           || Connected(s' - {d'}, Moved(l, r, a), Moved(l, r, v))
    {
      var d :| d in s - {(l, r)} && MovedPair(l, r, d) == d';
      MergeConnectsWithout(s, l, r, s', d, a, x);
      MergeConnectsWithout(s, l, r, s', d, a, y);
      MergeConnectsWithout(s, l, r, s', d, a, v);
    }
  }

  lemma BeyondMerge(s: set<Pair>, l: Name, r: Name, s': set<Pair>, d: Pair, e: Pair)
    requires Forest(s) && IsMerge(s, l, r, s') && d in s && d != (l, r)
    ensures Beyond(s', MovedPair(l, r, d), MovedPair(l, r, e)) <==> Beyond(s, d, e)
  {
    MergeConnectsWithout(s, l, r, s', d, e.0, d.1);
    MergeConnectsWithout(s, l, r, s', d, e.1, d.1);
  }

  lemma CarriesMerge(user: bool, g: CallGraph, l: Name, r: Name, e: Pair, d: Pair, f: Pair)
    requires g.Valid() && Forest(SilentPairs(user, g)) && SilentEdge(user, g, (l, r)) && Clean(g, l, r)
    requires Carries(user, g, e, d, f)
    ensures Carries(user, Combine(g, l, r), MovedPair(l, r, e), MovedPair(l, r, d), MovedPair(l, r, f))
  {
    var h := Combine(g, l, r);
    var s, s' := SilentPairs(user, g), SilentPairs(user, h);
    CleanMergesSilent(user, g, l, r);
    MergeIsQuotient(g, l, r);
    if f.0 != d.0 {
      BetweenMerge(s, l, r, s', f.0, e.0, e.1, d.1);
    }
  }

  lemma LoopsKeptMerge(user: bool, g: CallGraph, l: Name, r: Name)
    requires g.Valid() && Forest(SilentPairs(user, g)) && LoopsKept(user, g)
    requires SilentEdge(user, g, (l, r)) && Clean(g, l, r)
    ensures LoopsKept(user, Combine(g, l, r))
  {
    var h := Combine(g, l, r);
    var s, s' := SilentPairs(user, g), SilentPairs(user, h);
    CleanMergesSilent(user, g, l, r);
    forall e' | CallEdge(user, h, e') && Connected(s', e'.0, e'.1)
      ensures LeadsBack(s', e')
      ensures forall d' | SilentEdge(user, h, d') && Beyond(s', d', e') :: exists f' :: Carries(user, h, e', d', f')
    {
      var e := CallPreimage(user, g, l, r, e');
      MergeConnects(s, l, r, s', e.0, e.1);
      LeadsBackMerge(s, l, r, s', e);
      forall d' | SilentEdge(user, h, d') && Beyond(s', d', e') ensures exists f' :: Carries(user, h, e', d', f') {
        assert d' in s';
        var d :| d in s - {(l, r)} && MovedPair(l, r, d) == d';
        BeyondMerge(s, l, r, s', d, e);
        var f :| Carries(user, g, e, d, f);
        CarriesMerge(user, g, l, r, e, d, f);
      }
    }
  }

  lemma ContractibleMerge(user: bool, g: CallGraph, l: Name, r: Name)
    requires g.Valid() && Contractible(user, g) && SilentEdge(user, g, (l, r))
    ensures Contractible(user, Combine(g, l, r))
  {
    ContractibleMergeIsClean(user, g, l, r);
    ForestMergeStep(user, g, l, r);
    OneLabelMerge(user, g, l, r);
    LoopsKeptMerge(user, g, l, r);
  }

  /** On a contractible graph every run the loops can make is clean, whatever the order. */
  lemma {:induction false} ContractibleRunIsClean(user: bool, g: CallGraph, log: Log)
    requires g.Valid() && Contractible(user, g) && Logged(user, g, log)
    ensures CleanRun(user, g, log) && Contractible(user, Replay(g, log))
  {
    if log != [] {
      var k := |log| - 1;
      ContractibleRunIsClean(user, g, log[..k]);
      CleanRunIsProper(user, g, log[..k]);
      ReplayValid(g, log[..k]);
      ContractibleMergeIsClean(user, Replay(g, log[..k]), log[k].0, log[k].1);
      ContractibleMerge(user, Replay(g, log[..k]), log[k].0, log[k].1);
    }
  }
}
