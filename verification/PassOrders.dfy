/** The passes of the loop that contracts a function's graph: a pass visits every vertex
    that was there when it began once, in some order.  The orders of visits that this
    leaves are fewer than all, and a straight cycle is then not always dangerous. */
module PassOrders {
  import opened CallGraphs
  import opened Connectivity
  import opened Trails
  import opened Contraction
  import opened MergeOrders
  import opened VisitOrders

  /** The graph, and the vertices whose turn is still to come in the current pass. */
  datatype Stage = Stage(g: CallGraph, todo: set<Name>)

  /** The turn of `v`: a visit, or nothing if `v` has no control edges, or is gone. */
  ghost predicate Turn(p: Stage, v: Name, visit: Log, q: Stage) {
    && v in p.todo && q == Stage(Replay(p.g, visit), p.todo - {v})
    && if visit == [] then forall e | SilentEdge(false, p.g, e) :: e.0 != v else IsVisit(p.g, visit) && visit[0].0 == v
  }

  /** All vertices have had their turn, and the next pass begins. */
  ghost predicate NewPass(p: Stage, visit: Log, q: Stage) {
    p.todo == {} && visit == [] && q == Stage(p.g, p.g.vertices.Keys)
  }

  /** All edges from `v` that carry one kind of label, each once, in some order. */
  ghost predicate Sweep(g: CallGraph, v: Name, user: bool, sweep: Log) {
    && (forall i | 0 <= i < |sweep| ::
          && sweep[i].0 == v && sweep[i] in g.edges
          && if user then "user:" <= g.edges[sweep[i]] else g.edges[sweep[i]] == "control")
    && (forall e | e in g.edges && e.0 == v && (if user then "user:" <= g.edges[e] else g.edges[e] == "control") ::
          e in sweep)
    && (forall i, j | 0 <= i < j < |sweep| :: sweep[i] != sweep[j])
  }

  /** The turn of `v` in the module's graph: first its control edges, and then the "user:"
      edges that it has when these are merged. */
  ghost predicate ModuleTurn(p: Stage, v: Name, visit: Log, q: Stage) {
    && v in p.todo && q == Stage(Replay(p.g, visit), p.todo - {v})
    && exists controls, users ::
         visit == controls + users && Sweep(p.g, v, false, controls) && Sweep(Replay(p.g, controls), v, true, users)
  }

  ghost predicate NextStage(user: bool, p: Stage, visit: Log, q: Stage) {
    NewPass(p, visit, q) || if user then exists v :: ModuleTurn(p, v, visit, q) else exists v :: Turn(p, v, visit, q)
  }

  function Flat(visits: seq<Log>): Log {
    if visits == [] then [] else Flat(visits[..|visits| - 1]) + visits[|visits| - 1]
  }

  /** The stages that the loop goes through from `g`, and the merges between them. */
  ghost predicate History(user: bool, g: CallGraph, stages: seq<Stage>, visits: seq<Log>) {
    && |stages| == |visits| + 1 && stages[0] == Stage(g, {})
    && forall i {:trigger visits[i]} | 0 <= i < |visits| :: NextStage(user, stages[i], visits[i], stages[i + 1])
  }

  /** With the merges of `log` the loop can get from `g` to the stage: the loop that contracts
      a function's graph, or, for `user`, the module's. */
  ghost predicate ReachedBy(user: bool, g: CallGraph, log: Log, p: Stage) {
    exists stages, visits :: History(user, g, stages, visits) && stages[|visits|] == p && Flat(visits) == log
  }

  ghost predicate Reached(g: CallGraph, log: Log, p: Stage) {
    ReachedBy(false, g, log, p)
  }

  lemma ReachedByStart(user: bool, g: CallGraph)
    ensures ReachedBy(user, g, [], Stage(g, {}))
  {
    var stages, visits: seq<Log> := [Stage(g, {})], [];
    assert History(user, g, stages, visits) && Flat(visits) == [];
  }

  lemma ReachedStart(g: CallGraph)
    ensures Reached(g, [], Stage(g, {}))
  {
    ReachedByStart(false, g);
  }

  lemma ReachedByNext(user: bool, g: CallGraph, log: Log, p: Stage, visit: Log, q: Stage)
    requires ReachedBy(user, g, log, p) && NextStage(user, p, visit, q)
    ensures ReachedBy(user, g, log + visit, q)
  {
    var stages, visits :| History(user, g, stages, visits) && stages[|visits|] == p && Flat(visits) == log;
    var stages', visits' := stages + [q], visits + [visit];
    assert visits'[..|visits|] == visits && Flat(visits') == log + visit;
    forall i {:trigger visits'[i]} | 0 <= i < |visits'|
      ensures NextStage(user, stages'[i], visits'[i], stages'[i + 1])
    {
      if i < |visits| {
        assert visits'[i] == visits[i] && stages'[i] == stages[i] && stages'[i + 1] == stages[i + 1];
      }
    }
    assert History(user, g, stages', visits');
  }

  lemma ReachedNext(g: CallGraph, log: Log, p: Stage, visit: Log, q: Stage)
    requires Reached(g, log, p) && NextStage(false, p, visit, q)
    ensures Reached(g, log + visit, q)
  {
    ReachedByNext(false, g, log, p, visit, q);
  }

  lemma ModuleTurnNext(g0: CallGraph, log: Log, g: CallGraph, v: Name, rest: set<Name>, controls: Log, users: Log)
    requires ReachedBy(true, g0, log, Stage(g, rest + {v})) && v !in rest
    requires Sweep(g, v, false, controls) && Sweep(Replay(g, controls), v, true, users)
    ensures ReachedBy(true, g0, log + controls + users, Stage(Replay(Replay(g, controls), users), rest))
  {
    var p, q := Stage(g, rest + {v}), Stage(Replay(g, controls + users), rest);
    TurnOfModule(p, v, controls, users, q);
    ReachedByNext(true, g0, log, p, controls + users, q);
    ReplayConcat(g, controls, users);
    Regroup(log, controls, users);
  }

  lemma Regroup(a: Log, b: Log, c: Log)
    ensures a + (b + c) == a + b + c
  {
  }

  lemma TurnOfModule(p: Stage, v: Name, controls: Log, users: Log, q: Stage)
    requires v in p.todo && q.g == Replay(p.g, controls + users) && q.todo == p.todo - {v}
    requires Sweep(p.g, v, false, controls) && Sweep(Replay(p.g, controls), v, true, users)
    ensures NextStage(true, p, controls + users, q)
  {
    assert ModuleTurn(p, v, controls + users, q);
  }

  lemma HistoryBefore(g: CallGraph, stages: seq<Stage>, visits: seq<Log>)
    requires History(false, g, stages, visits) && visits != []
    ensures var k := |visits| - 1;
            History(false, g, stages[..k + 1], visits[..k]) && NextStage(false, stages[k], visits[k], stages[k + 1])
  {
    var k := |visits| - 1;
    forall i {:trigger visits[..k][i]} | 0 <= i < k
      ensures NextStage(false, stages[..k + 1][i], visits[..k][i], stages[..k + 1][i + 1])
    {
      assert visits[..k][i] == visits[i];
    }
  }

  /** Passes make runs of visits. */
  lemma ReachedIsVisitRun(g: CallGraph, log: Log, p: Stage)
    requires Reached(g, log, p)
    ensures VisitRun(g, log) && p.g == Replay(g, log)
  {
    var stages, visits :| History(false, g, stages, visits) && stages[|visits|] == p && Flat(visits) == log;
    HistoryIsVisitRun(g, stages, visits);
  }

  lemma {:induction false} HistoryIsVisitRun(g: CallGraph, stages: seq<Stage>, visits: seq<Log>)
    requires History(false, g, stages, visits)
    ensures VisitRun(g, Flat(visits)) && stages[|visits|].g == Replay(g, Flat(visits))
    decreases |visits|
  {
    if visits != [] {
      var k := |visits| - 1;
      HistoryBefore(g, stages, visits);
      HistoryIsVisitRun(g, stages[..k + 1], visits[..k]);
      AddTurn(g, Flat(visits[..k]), stages[k], visits[k], stages[k + 1]);
    }
  }

  lemma AddTurn(g: CallGraph, log: Log, p: Stage, visit: Log, q: Stage)
    requires VisitRun(g, log) && p.g == Replay(g, log) && NextStage(false, p, visit, q)
    ensures VisitRun(g, log + visit) && q.g == Replay(g, log + visit)
  {
    if visit == [] {
      assert log + visit == log;
      assert Replay(p.g, []) == p.g;
    } else {
      var _ := VisitSnoc(g, log, visit);
    }
  }

  // ----- a straight cycle that no pass can make a loop of for good -----

  /** c leads to a, a to b and d, and b to d. */
  function Tail(a: Name, b: Name, c: Name, d: Name): CallGraph {
    CallGraph(map[a := false, b := false, c := false, d := false],
              map[(c, a) := CONTROL, (a, b) := CONTROL, (a, d) := CONTROL, (b, d) := CONTROL])
  }

  /** A graph with these control edges and no others. */
  ghost predicate Edges(g: CallGraph, es: set<Pair>) {
    g.Valid() && g.edges.Keys == es && forall e | e in g.edges :: g.edges[e] == CONTROL
  }

  /** The stages that the passes can reach: if a loop is made of the cycle, it is made at `a`
      while `c` is still to come, which takes it away. */
  ghost predicate TailStage(a: Name, b: Name, c: Name, d: Name, p: Stage) {
    && p.g.Valid()
    && (|| (Edges(p.g, TailEdges(a, b, c, d)) && {a, b, c} <= p.todo)
        || (Edges(p.g, {(c, a), (a, a)}) && c in p.todo && a !in p.todo)
        || (Edges(p.g, {(c, b), (c, d), (b, d)}) && b in p.todo && c !in p.todo)
        || NoStraightCycle(SilentPairs(false, p.g)))
  }

  // ----- what merging makes of control edges -----

  function MergedEdges(es: set<Pair>, l: Name, r: Name): set<Pair> {
    set e | e in es && e != (l, r) && e != (r, r) :: MovedPair(l, r, e)
  }

  lemma EdgesMerge(g: CallGraph, es: set<Pair>, l: Name, r: Name)
    requires Edges(g, es) && (l, r) in es && l != r
    ensures Edges(Combine(g, l, r), MergedEdges(es, l, r))
  {
    var h := Combine(g, l, r);
    CombineValid(g, l, r);
    forall f: Pair ensures f in h.edges <==> f in MergedEdges(es, l, r) {
      CombineEdges(g, l, r, f);
      if f in h.edges {
        var e := MergePreimage(g, l, r, f);
      }
    }
    forall f | f in h.edges ensures h.edges[f] == CONTROL {
      var e := MergePreimage(g, l, r, f);
    }
  }

  lemma Distinct(visit: Log)
    requires forall i, j | 0 <= i < j < |visit| :: visit[i] != visit[j]
    ensures |visit| > 1 ==> visit[0] != visit[1]
    ensures |visit| > 2 ==> visit[2] != visit[0] && visit[2] != visit[1]
  {
  }

  /** A vertex with one control edge has one visit. */
  lemma OneEdge(g: CallGraph, es: set<Pair>, visit: Log, m: Pair)
    requires Edges(g, es) && IsVisit(g, visit) && visit[0].0 == m.0 && m.0 != m.1
    requires m in es && forall e | e in es && e.0 == m.0 :: e == m
    ensures visit == [m] && Edges(Replay(g, visit), MergedEdges(es, m.0, m.1))
  {
    assert forall i | 0 <= i < |visit| :: SilentEdge(false, g, visit[i]) && visit[i] == m;
    Distinct(visit);
    assert visit == [m];
    EdgesMerge(g, es, m.0, m.1);
    ReplayOne(g, m);
  }

  /** A vertex with two control edges has two. */
  lemma TwoEdges(g: CallGraph, visit: Log, m1: Pair, m2: Pair)
    requires IsVisit(g, visit) && visit[0].0 == m1.0 == m2.0 && m1 != m2
    requires SilentEdge(false, g, m1) && SilentEdge(false, g, m2)
    requires forall e | SilentEdge(false, g, e) && e.0 == m1.0 :: e == m1 || e == m2
    ensures visit == [m1, m2] || visit == [m2, m1]
  {
    assert m1 in visit && m2 in visit;
    assert forall i | 0 <= i < |visit| :: visit[i] == m1 || visit[i] == m2;
    Distinct(visit);
  }

  lemma TwoMerges(g: CallGraph, es: set<Pair>, m1: Pair, m2: Pair)
    requires Edges(g, es) && m1 in es && m1.0 != m1.1 && m2 in MergedEdges(es, m1.0, m1.1) && m2.0 != m2.1
    ensures Edges(Replay(g, [m1, m2]), MergedEdges(MergedEdges(es, m1.0, m1.1), m2.0, m2.1))
  {
    EdgesMerge(g, es, m1.0, m1.1);
    EdgesMerge(Combine(g, m1.0, m1.1), MergedEdges(es, m1.0, m1.1), m2.0, m2.1);
    ReplayTwo(g, m1, m2);
  }

  // ----- the turns -----

  predicate Different(a: Name, b: Name, c: Name, d: Name) {
    a != b && a != c && a != d && b != c && b != d && c != d
  }

  function TailEdges(a: Name, b: Name, c: Name, d: Name): set<Pair> {
    {(c, a), (a, b), (a, d), (b, d)}
  }

  lemma TailMerges(a: Name, b: Name, c: Name, d: Name)
    requires Different(a, b, c, d)
    ensures MergedEdges(TailEdges(a, b, c, d), a, b) == {(c, a), (a, d)}
    ensures MergedEdges(TailEdges(a, b, c, d), a, d) == {(c, a), (a, b), (b, a)}
  {
  }

  lemma OtherTailMerges(a: Name, b: Name, c: Name, d: Name)
    requires Different(a, b, c, d)
    ensures MergedEdges(TailEdges(a, b, c, d), b, d) == {(c, a), (a, b)}
    ensures MergedEdges(TailEdges(a, b, c, d), c, a) == {(c, b), (c, d), (b, d)}
  {
  }

  lemma MoreMerges(a: Name, b: Name, c: Name, d: Name)
    requires Different(a, b, c, d)
    ensures MergedEdges({(c, a), (a, d)}, a, d) == {(c, a)}
    ensures MergedEdges({(c, a), (a, b), (b, a)}, a, b) == {(c, a), (a, a)}
  {
  }

  /** A visit of `a` leaves c -> a, in one order with a loop of `a`. */
  lemma TailVisitA(g: CallGraph, a: Name, b: Name, c: Name, d: Name, visit: Log)
    requires Different(a, b, c, d)
    requires Edges(g, TailEdges(a, b, c, d)) && IsVisit(g, visit) && visit[0].0 == a
    ensures Proper(visit)
    ensures Edges(Replay(g, visit), {(c, a)}) || Edges(Replay(g, visit), {(c, a), (a, a)})
  {
    var es := TailEdges(a, b, c, d);
    TwoEdges(g, visit, (a, b), (a, d));
    TailMerges(a, b, c, d);
    MoreMerges(a, b, c, d);
    if visit == [(a, b), (a, d)] {
      TwoMerges(g, es, (a, b), (a, d));
    } else {
      TwoMerges(g, es, (a, d), (a, b));
    }
  }

  lemma TailVisitB(g: CallGraph, a: Name, b: Name, c: Name, d: Name, visit: Log)
    requires Different(a, b, c, d)
    requires Edges(g, TailEdges(a, b, c, d)) && IsVisit(g, visit) && visit[0].0 == b
    ensures Proper(visit) && Edges(Replay(g, visit), {(c, a), (a, b)})
  {
    OtherTailMerges(a, b, c, d);
    OneEdge(g, TailEdges(a, b, c, d), visit, (b, d));
  }

  lemma TailVisitC(g: CallGraph, a: Name, b: Name, c: Name, d: Name, visit: Log)
    requires Different(a, b, c, d)
    requires Edges(g, TailEdges(a, b, c, d)) && IsVisit(g, visit) && visit[0].0 == c
    ensures Proper(visit) && Edges(Replay(g, visit), {(c, b), (c, d), (b, d)})
  {
    OtherTailMerges(a, b, c, d);
    OneEdge(g, TailEdges(a, b, c, d), visit, (c, a));
  }

  /** While `a` has a loop and its turn is over, only `c` can be visited, and the loop is gone. */
  lemma LoopVisitC(g: CallGraph, a: Name, c: Name, visit: Log)
    requires a != c && Edges(g, {(c, a), (a, a)}) && IsVisit(g, visit) && visit[0].0 != a
    ensures Proper(visit) && Edges(Replay(g, visit), {})
  {
    assert SilentEdge(false, g, visit[0]);
    assert MergedEdges({(c, a), (a, a)}, c, a) == {};
    OneEdge(g, {(c, a), (a, a)}, visit, (c, a));
  }

  lemma TriangleVisitB(g: CallGraph, b: Name, c: Name, d: Name, visit: Log)
    requires b != c && b != d && c != d && Edges(g, {(c, b), (c, d), (b, d)}) && IsVisit(g, visit) && visit[0].0 != c
    ensures Proper(visit) && visit[0].0 == b && Edges(Replay(g, visit), {(c, b)})
  {
    var es := {(c, b), (c, d), (b, d)};
    assert SilentEdge(false, g, visit[0]);
    assert MergedEdges(es, b, d) == {(c, b)};
    OneEdge(g, es, visit, (b, d));
  }

  lemma FewEdges(g: CallGraph, x: Name, y: Name, z: Name)
    requires x != y && y != z && x != z
    requires Edges(g, {}) || Edges(g, {(x, y)}) || Edges(g, {(x, y), (y, z)})
    ensures NoStraightCycle(SilentPairs(false, g))
  {
    var s := SilentPairs(false, g);
    assert s == g.edges.Keys;
    forall e, f | e in s && f in s && e.1 == f.0 ensures !Connected(Avoiding(s, e.1), e.0, f.1) {
      assert Avoiding(s, e.1) == {};
      NothingConnected(e.0);
    }
  }

  lemma TailTurn(a: Name, b: Name, c: Name, d: Name, p: Stage, v: Name, visit: Log, q: Stage)
    requires Different(a, b, c, d)
    requires TailStage(a, b, c, d, p) && Turn(p, v, visit, q)
    ensures Proper(visit) && TailStage(a, b, c, d, q)
  {
    if visit == [] {
      assert q.g == p.g;
    } else if Edges(p.g, TailEdges(a, b, c, d)) && {a, b, c} <= p.todo {
      if v == a {
        TailVisitA(p.g, a, b, c, d, visit);
        if Edges(q.g, {(c, a)}) {
          FewEdges(q.g, c, a, b);
        }
      } else if v == b {
        TailVisitB(p.g, a, b, c, d, visit);
        FewEdges(q.g, c, a, b);
      } else {
        assert SilentEdge(false, p.g, visit[0]);
        TailVisitC(p.g, a, b, c, d, visit);
      }
    } else if Edges(p.g, {(c, a), (a, a)}) && c in p.todo && a !in p.todo {
      LoopVisitC(p.g, a, c, visit);
      FewEdges(q.g, c, a, b);
    } else if Edges(p.g, {(c, b), (c, d), (b, d)}) && b in p.todo && c !in p.todo {
      TriangleVisitB(p.g, b, c, d, visit);
      FewEdges(q.g, c, b, a);
    } else {
      ReplayValid(p.g, visit);
      VisitKeepsNoStraightCycle(p.g, visit);
    }
  }

  lemma TailNewPass(a: Name, b: Name, c: Name, d: Name, p: Stage, q: Stage)
    requires Different(a, b, c, d)
    requires p == Stage(Tail(a, b, c, d), {}) || TailStage(a, b, c, d, p)
    requires NewPass(p, [], q)
    ensures TailStage(a, b, c, d, q)
  {
    if p == Stage(Tail(a, b, c, d), {}) {
      assert Edges(q.g, TailEdges(a, b, c, d));
    } else {
      assert a !in p.todo && b !in p.todo && c !in p.todo;
      assert NoStraightCycle(SilentPairs(false, q.g));
    }
  }

  lemma {:induction false} TailStages(a: Name, b: Name, c: Name, d: Name, stages: seq<Stage>, visits: seq<Log>)
    requires Different(a, b, c, d)
    requires History(false, Tail(a, b, c, d), stages, visits)
    ensures Proper(Flat(visits))
    ensures stages[|visits|] == Stage(Tail(a, b, c, d), {}) || TailStage(a, b, c, d, stages[|visits|])
    decreases |visits|
  {
    var g := Tail(a, b, c, d);
    if visits != [] {
      var k := |visits| - 1;
      HistoryBefore(g, stages, visits);
      TailStages(a, b, c, d, stages[..k + 1], visits[..k]);
      TailNext(a, b, c, d, stages[k], visits[k], stages[k + 1]);
      ProperConcat(Flat(visits[..k]), visits[k]);
    }
  }

  lemma TailNext(a: Name, b: Name, c: Name, d: Name, p: Stage, visit: Log, q: Stage)
    requires Different(a, b, c, d)
    requires p == Stage(Tail(a, b, c, d), {}) || TailStage(a, b, c, d, p)
    requires NextStage(false, p, visit, q)
    ensures Proper(visit) && TailStage(a, b, c, d, q)
  {
    if NewPass(p, visit, q) {
      TailNewPass(a, b, c, d, p, q);
    } else {
      var v :| Turn(p, v, visit, q);
      TailTurn(a, b, c, d, p, v, visit, q);
    }
  }

  /** A cycle runs straight through `b`, and some order of visits merges a vertex with
      itself; but no sequence of passes does. */
  lemma PassesAreFewer(a: Name, b: Name, c: Name, d: Name)
    requires Different(a, b, c, d)
    ensures var g := Tail(a, b, c, d);
            && g.Valid() && Separated(false, g)
            && !EveryVisitOrderProper(g)
            && forall log, p | Reached(g, log, p) :: Proper(log)
  {
    var g := Tail(a, b, c, d);
    var s := SilentPairs(false, g);
    assert s == TailEdges(a, b, c, d);
    var e, f := (a, b), (b, d);
    assert e in s && f in s && e.1 == f.0;
    ConnectedEdge(Avoiding(s, b), a, d);
    EveryVisitOrderProperIff(g);
    forall log, p | Reached(g, log, p) ensures Proper(log) {
      var stages, visits :| History(false, g, stages, visits) && stages[|visits|] == p && Flat(visits) == log;
      TailStages(a, b, c, d, stages, visits);
    }
  }
}
