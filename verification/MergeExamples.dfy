/** What merging does to some small graphs. */
module MergeExamples {
  import opened CallGraphs
  import opened Connectivity
  import opened Contraction
  import opened MergeOrders
  import opened VisitOrders
  import opened PassOrders
  import opened CleanVisits
  import opened CleanPasses

  /** Two blocks that jump to each other without a call. */
  function EmptyLoop(a: Name, b: Name): CallGraph {
    CallGraph(map[a := false, b := false], map[(a, b) := CONTROL, (b, a) := CONTROL])
  }

  function SelfLoop(v: Name): CallGraph {
    CallGraph(map[v := false], map[(v, v) := CONTROL])
  }

  lemma EmptyLoopMerge(a: Name, b: Name)
    requires a != b
    ensures Combine(EmptyLoop(a, b), a, b) == SelfLoop(a)
  {
    var g, h := EmptyLoop(a, b), Combine(EmptyLoop(a, b), a, b);
    assert h.vertices == SelfLoop(a).vertices;
    forall f: Pair ensures f in h.edges <==> f == (a, a) {
      CombineEdges(g, a, b, f);
    }
    CombineEdges(g, a, b, (a, a));
    assert h.edges == SelfLoop(a).edges;
  }

  lemma SelfLoopMerge(v: Name)
    ensures Combine(SelfLoop(v), v, v) == EMPTY
  {
    CombineWithItself(SelfLoop(v), v);
    assert RemoveVertex(SelfLoop(v), v).vertices == EMPTY.vertices;
    assert RemoveVertex(SelfLoop(v), v).edges == EMPTY.edges;
  }

  /** The graphs that merging can make of a loop without calls. */
  predicate LoopState(a: Name, b: Name, h: CallGraph) {
    h == EmptyLoop(a, b) || h == SelfLoop(a) || h == SelfLoop(b)
  }

  lemma LoopStateStep(user: bool, a: Name, b: Name, h: CallGraph, m: Pair)
    requires a != b && LoopState(a, b, h) && SilentEdge(user, h, m)
    ensures var h' := Combine(h, m.0, m.1);
            h' == EMPTY || (m.0 != m.1 && LoopState(a, b, h'))
  {
    if h == EmptyLoop(a, b) {
      assert EmptyLoop(a, b) == EmptyLoop(b, a);
      EmptyLoopMerge(m.0, m.1);
    } else {
      SelfLoopMerge(m.0);
    }
  }

  lemma {:induction false} EmptyLoopStates(user: bool, a: Name, b: Name, log: Log)
    requires a != b && Logged(user, EmptyLoop(a, b), log)
    ensures var h := Replay(EmptyLoop(a, b), log);
            h == EMPTY || (Proper(log) && LoopState(a, b, h))
  {
    if log != [] {
      var k := |log| - 1;
      EmptyLoopStates(user, a, b, log[..k]);
      var h := Replay(EmptyLoop(a, b), log[..k]);
      assert log == log[..k] + [log[k]];
      if h != EMPTY {
        LoopStateStep(user, a, b, h, log[k]);
      }
    }
  }

  /** A loop of blocks without calls disappears: in whatever order it is contracted, no vertex is left. */
  lemma EmptyLoopVanishes(user: bool, a: Name, b: Name, log: Log)
    requires a != b && Logged(user, EmptyLoop(a, b), log) && Done(user, Replay(EmptyLoop(a, b), log))
    ensures Replay(EmptyLoop(a, b), log) == EMPTY
  {
    EmptyLoopStates(user, a, b, log);
    assert (a, b) in EmptyLoop(a, b).edges && (a, a) in SelfLoop(a).edges && (b, b) in SelfLoop(b).edges;
  }

  /** A block `a` before a loop `b` that makes a call at every turn; `c` is the end of its chain. */
  function CallLoop(a: Name, b: Name, c: Name, call: string): CallGraph {
    CallGraph(map[a := false, b := false, c := false],
              map[(a, b) := CONTROL, (b, c) := call, (c, b) := CONTROL])
  }

  /** The only control edge of a vertex makes a visit. */
  lemma OneEdgeVisit(g: CallGraph, m: Pair)
    requires SilentEdge(false, g, m) && forall e | SilentEdge(false, g, e) && e.0 == m.0 :: e == m
    ensures IsVisit(g, [m]) && Replay(g, [m]) == Combine(g, m.0, m.1)
  {
    ReplayOne(g, m);
  }

  /** One pass: `m1` is merged at the turn of its source, then `m2`, and at the turn of `x` nothing. */
  lemma PassOfTwoVisits(g: CallGraph, m1: Pair, m2: Pair, x: Name)
    requires g.vertices.Keys == {m1.0, m2.0, x} && m1.0 != m2.0 && m1.0 != x && m2.0 != x
    requires IsVisit(g, [m1]) && IsVisit(Combine(g, m1.0, m1.1), [m2])
    requires var h := Combine(Combine(g, m1.0, m1.1), m2.0, m2.1); forall e | SilentEdge(false, h, e) :: e.0 != x
    ensures Replay(g, [m1, m2]) == Combine(Combine(g, m1.0, m1.1), m2.0, m2.1)
    ensures Reached(g, [m1, m2], Stage(Replay(g, [m1, m2]), {}))
  {
    var g1, g2 := Combine(g, m1.0, m1.1), Combine(Combine(g, m1.0, m1.1), m2.0, m2.1);
    ReachedStart(g);
    ReachedNext(g, [], Stage(g, {}), [], Stage(g, {m1.0, m2.0, x}));
    assert {m1.0, m2.0, x} == {m2.0, x} + {m1.0} && {m2.0, x} == {x} + {m2.0};
    OneTurn(g, [] + [], g, m1, {m2.0, x});
    OneTurn(g, [] + [] + [m1], g1, m2, {x});
    ReplayTwo(g, m1, m2);
    LastTurn(g, [] + [] + [m1] + [m2], g2, x);
    assert [] + [] + [m1] + [m2] == [m1, m2];
  }

  lemma OneTurn(g0: CallGraph, log: Log, g: CallGraph, m: Pair, rest: set<Name>)
    requires Reached(g0, log, Stage(g, rest + {m.0})) && m.0 !in rest && IsVisit(g, [m])
    ensures Reached(g0, log + [m], Stage(Combine(g, m.0, m.1), rest))
  {
    var p, q := Stage(g, rest + {m.0}), Stage(Combine(g, m.0, m.1), rest);
    ReplayOne(g, m);
    assert Turn(p, m.0, [m], q);
    ReachedNext(g0, log, p, [m], q);
  }

  lemma LastTurn(g0: CallGraph, log: Log, g: CallGraph, x: Name)
    requires Reached(g0, log, Stage(g, {x})) && forall e | SilentEdge(false, g, e) :: e.0 != x
    ensures Reached(g0, log, Stage(g, {}))
  {
    var p, q := Stage(g, {x}), Stage(g, {});
    assert Replay(g, []) == g && Turn(p, x, [], q);
    ReachedNext(g0, log, p, [], q);
    assert log + [] == log;
  }

  lemma VerticesLeft(g: CallGraph, a: Name, b: Name, c: Name, l: Name)
    requires a != b && b != c && a != c && (l == a || l == c)
    requires g.vertices == map[a := false, b := false, c := false]
    ensures Combine(g, l, b).vertices == map[a := false, c := false]
  {
  }

  /** The edges of `CallLoop`, one by one. */
  ghost predicate IsCallLoop(g: CallGraph, a: Name, b: Name, c: Name, call: string) {
    && g.Valid() && a in g.vertices && b in g.vertices && c in g.vertices
    && (forall f: Pair :: f in g.edges <==> f == (a, b) || f == (b, c) || f == (c, b))
    && g.edges[(a, b)] == CONTROL && g.edges[(b, c)] == call && g.edges[(c, b)] == CONTROL
  }

  lemma MergeEndEdges(g: CallGraph, a: Name, b: Name, c: Name, call: string)
    requires a != b && b != c && a != c && IsCallLoop(g, a, b, c, call)
    ensures Combine(g, c, b).edges == map[(a, c) := CONTROL, (c, c) := call]
  {
    var h := Combine(g, c, b);
    CombineEdges(g, c, b, (a, c));
    CombineEdges(g, c, b, (c, c));
    forall f: Pair | f in h.edges ensures f == (a, c) || f == (c, c) {
      CombineEdges(g, c, b, f);
    }
  }

  lemma MergeStartEdges(g: CallGraph, a: Name, b: Name, c: Name, call: string)
    requires a != b && b != c && a != c && IsCallLoop(g, a, b, c, call)
    ensures Combine(g, a, b).edges == map[(a, c) := call, (c, a) := CONTROL]
  {
    var h := Combine(g, a, b);
    CombineEdges(g, a, b, (a, c));
    CombineEdges(g, a, b, (c, a));
    forall f: Pair | f in h.edges ensures f == (a, c) || f == (c, a) {
      CombineEdges(g, a, b, f);
    }
  }

  /** Visiting `c` first: the call becomes a loop of `c`, and is lost when `a` is visited. */
  lemma LoopCallLost(a: Name, b: Name, c: Name, call: string)
    requires a != b && b != c && a != c && call != CONTROL
    ensures var g := CallLoop(a, b, c, call); Reached(g, [(c, b), (a, c)], Stage(Replay(g, [(c, b), (a, c)]), {}))
    ensures Replay(CallLoop(a, b, c, call), [(c, b), (a, c)]).edges == map[]
  {
    var g := CallLoop(a, b, c, call);
    assert IsCallLoop(g, a, b, c, call);
    VerticesLeft(g, a, b, c, c);
    MergeEndEdges(g, a, b, c, call);
    OneEdgeVisit(g, (c, b));
    LoopLost(a, c, call);
    PassOfTwoVisits(g, (c, b), (a, c), b);
  }

  lemma LoopLost(a: Name, c: Name, call: string)
    requires a != c && call != CONTROL
    ensures var g := CallGraph(map[a := false, c := false], map[(a, c) := CONTROL, (c, c) := call]);
            IsVisit(g, [(a, c)]) && Combine(g, a, c).edges == map[]
  {
    var g := CallGraph(map[a := false, c := false], map[(a, c) := CONTROL, (c, c) := call]);
    forall f: Pair ensures f !in Combine(g, a, c).edges {
      CombineEdges(g, a, c, f);
    }
    OneEdgeVisit(g, (a, c));
  }

  /** Visiting `a` first: the call becomes an edge beside the control edge, and stays as a loop of `c`. */
  lemma LoopCallKept(a: Name, b: Name, c: Name, call: string)
    requires a != b && b != c && a != c && call != CONTROL
    ensures var g := CallLoop(a, b, c, call); Reached(g, [(a, b), (c, a)], Stage(Replay(g, [(a, b), (c, a)]), {}))
    ensures Replay(CallLoop(a, b, c, call), [(a, b), (c, a)]).edges == map[(c, c) := call]
  {
    var g := CallLoop(a, b, c, call);
    assert IsCallLoop(g, a, b, c, call);
    VerticesLeft(g, a, b, c, a);
    MergeStartEdges(g, a, b, c, call);
    OneEdgeVisit(g, (a, b));
    LoopKeptAlone(a, c, call);
    PassOfTwoVisits(g, (a, b), (c, a), b);
  }

  lemma LoopKeptAlone(a: Name, c: Name, call: string)
    requires a != c && call != CONTROL
    ensures var g := CallGraph(map[a := false, c := false], map[(a, c) := call, (c, a) := CONTROL]);
            IsVisit(g, [(c, a)]) && Combine(g, c, a).edges == map[(c, c) := call]
  {
    var g := CallGraph(map[a := false, c := false], map[(a, c) := call, (c, a) := CONTROL]);
    forall f: Pair | f in Combine(g, c, a).edges ensures f == (c, c) {
      CombineEdges(g, c, a, f);
    }
    CombineEdges(g, c, a, (c, c));
    OneEdgeVisit(g, (c, a));
  }

  /** The order of the vertices in one pass decides whether the call of the loop is kept. */
  lemma LoopCallDependsOnOrder(a: Name, b: Name, c: Name, call: string)
    requires a != b && b != c && a != c && call != CONTROL
    ensures var g := CallLoop(a, b, c, call);
            exists log1, log2 ::
              && Reached(g, log1, Stage(Replay(g, log1), {})) && Replay(g, log1).edges == map[]
              && Reached(g, log2, Stage(Replay(g, log2), {})) && Replay(g, log2).edges == map[(c, c) := call]
  {
    LoopCallLost(a, b, c, call);
    LoopCallKept(a, b, c, call);
  }

  /** Such a loop is not contractible: without (a, b), `c` is beyond it, and no call edge enters `a`. */
  lemma CallLoopNotContractible(a: Name, b: Name, c: Name, call: string)
    requires a != b && b != c && a != c && call != CONTROL
    ensures !Contractible(false, CallLoop(a, b, c, call)) && Forest(SilentPairs(false, CallLoop(a, b, c, call)))
    ensures !Separated(false, CallLoop(a, b, c, call))
  {
    var g := CallLoop(a, b, c, call);
    var s, e, d := SilentPairs(false, g), (b, c), (a, b);
    assert s == {(a, b), (c, b)} && s - {d} == {(c, b)} && s - {(c, b)} == {d};
    ConnectedEdge(s, b, c);
    ConnectedEdge(s - {d}, c, b);
    ConnectedSelf(s - {d}, b);
    OnePair(d, c, b);
    OnePair((c, b), a, b);
    assert Beyond(s, d, e);
    assert !exists f :: Carries(false, g, e, d, f);
  }

  /** One pair connects nothing but its ends. */
  lemma OnePair(d: Pair, x: Name, y: Name)
    requires x != d.0 && x != d.1 && x != y
    ensures !Connected({d}, x, y)
  {
    forall p ensures !LinkPathFrom({d}, p, x, y) {
      assert |p| > 1 && p[0] == x ==> !Joined({d}, p[0], p[1]);
    }
  }

  // ----- two blocks that branch to the same two blocks -----

  function Diamond(a: Name, b: Name, c: Name, d: Name): CallGraph {
    CallGraph(map[a := false, b := false, c := false, d := false],
              map[(a, b) := CONTROL, (a, d) := CONTROL, (c, b) := CONTROL, (c, d) := CONTROL])
  }

  /** Its control edges are no forest, and yet no order of visits merges a vertex with itself. */
  lemma DiamondIsSafe(a: Name, b: Name, c: Name, d: Name)
    requires a != b && a != c && a != d && b != c && b != d && c != d
    ensures var g := Diamond(a, b, c, d);
            && g.Valid() && Separated(false, g)
            && !Forest(SilentPairs(false, g)) && EveryVisitOrderProper(g)
  {
    var g := Diamond(a, b, c, d);
    var s := SilentPairs(false, g);
    assert s == {(a, b), (a, d), (c, b), (c, d)};
    var t := s - {(a, b)};
    assert LinkPathFrom(t, [a, d, c, b], a, b);
    assert NoStraightCycle(s);
    EveryVisitOrderProperIff(g);
  }

  /** And every order of the passes is clean, although merges one by one need not be. */
  lemma DiamondIsCollapsible(a: Name, b: Name, c: Name, d: Name)
    requires a != b && a != c && a != d && b != c && b != d && c != d
    ensures var g := Diamond(a, b, c, d);
            Collapsible(g) && EveryPassOrderClean(g) && !Contractible(false, g) && !EveryOrderClean(false, g)
  {
    var g := Diamond(a, b, c, d);
    DiamondIsSafe(a, b, c, d);
    NoCallsCollapsible(g);
    EveryOrderCleanIffContractible(false, g);
  }

  lemma NoCallsCollapsible(g: CallGraph)
    requires g.Valid() && EveryVisitOrderProper(g) && forall e | e in g.edges :: g.edges[e] == CONTROL
    ensures Collapsible(g) && EveryPassOrderClean(g)
  {
    EveryVisitOrderProperIff(g);
    SeparatedIsCollapsible(g);
    EveryOrderCleanIffCollapsible(g);
  }

  /** A loop with a call behind another block is not collapsible: one order loses the call. */
  lemma CallLoopNotCollapsible(a: Name, b: Name, c: Name, call: string)
    requires a != b && b != c && a != c && call != CONTROL
    ensures !Collapsible(CallLoop(a, b, c, call)) && !EveryPassOrderClean(CallLoop(a, b, c, call))
  {
    var g, log := CallLoop(a, b, c, call), [(c, b), (a, c)];
    LoopCallLost(a, b, c, call);
    if CleanRun(false, g, log) {
      assert g.Valid() && (b, c) in g.edges && !Silent(false, g.edges[(b, c)]);
      CleanEdgeImage(false, g, log, (b, c));
    }
    EveryOrderCleanIffCollapsible(g);
  }
}
