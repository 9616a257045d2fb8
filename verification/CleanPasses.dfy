/** If the passes of the loop lose nothing in any order, the graph is collapsible. */
module CleanPasses {
  import opened CallGraphs
  import opened Connectivity
  import opened Trails
  import opened Contraction
  import opened MergeOrders
  import opened VisitOrders
  import opened PassOrders
  import opened CleanVisits

  ghost predicate EveryPassOrderClean(g: CallGraph) {
    forall log, p :: Reached(g, log, p) ==> CleanRun(false, g, log)
  }

  // ----- directed paths in clean runs -----

  /** No clean run gets rid of a directed cycle. */
  lemma {:induction false} CyclePersists(g: CallGraph, log: Log, x: Name)
    requires g.Valid() && CleanRun(false, g, log) && LeadsTo(SilentPairs(false, g), x, x)
    ensures LeadsTo(SilentPairs(false, Replay(g, log)), Rep(log, x), Rep(log, x))
  {
    if log != [] {
      var k := |log| - 1;
      var (l, r) := log[k];
      var h := Replay(g, log[..k]);
      CyclePersists(g, log[..k], x);
      ReplayValid(g, log[..k]);
      CleanMergesSilent(false, h, l, r);
      LeadsMerge(SilentPairs(false, h), l, r, SilentPairs(false, Combine(h, l, r)), Rep(log[..k], x), Rep(log[..k], x));
    }
  }

  /** A clean visit keeps the directed paths from a vertex that it leaves alone. */
  lemma {:induction false} LeadsVisit(g: CallGraph, v: Name, fan: Log, a: Name, b: Name)
    requires g.Valid() && CleanRun(false, g, fan) && Fan(v, fan)
    requires a != v && (v, a) !in fan && LeadsTo(SilentPairs(false, g), a, b)
    ensures LeadsTo(SilentPairs(false, Replay(g, fan)), a, Rep(fan, b))
  {
    if fan != [] {
      var k := |fan| - 1;
      var h, r := Replay(g, fan[..k]), fan[k].1;
      LastOfFan(v, fan);
      LeadsVisit(g, v, fan[..k], a, b);
      ReplayValid(g, fan[..k]);
      CleanMergesSilent(false, h, v, r);
      LeadsMerge(SilentPairs(false, h), v, r, SilentPairs(false, Combine(h, v, r)), a, Rep(fan[..k], b));
    }
  }

  // ----- if every order is clean -----

  /** A stage of the passes over a graph on which every order is clean. */
  ghost predicate AtStage(g: CallGraph, log: Log, p: Stage) {
    g.Valid() && EveryPassOrderClean(g) && Reached(g, log, p)
  }

  lemma StageIsClean(g: CallGraph, log: Log, p: Stage)
    requires AtStage(g, log, p)
    ensures CleanRun(false, g, log) && p.g == Replay(g, log) && p.g.Valid()
  {
    ReachedIsVisitRun(g, log, p);
    ReplayValid(g, log);
  }

  lemma VisitTurn(g: CallGraph, log: Log, p: Stage, v: Name, visit: Log) returns (longer: Log, q: Stage)
    requires AtStage(g, log, p) && v in p.todo && IsVisit(p.g, visit) && visit[0].0 == v
    ensures longer == log + visit && q == Stage(Replay(p.g, visit), p.todo - {v}) && AtStage(g, longer, q)
    ensures p.g.Valid() && CleanRun(false, p.g, visit) && Fan(v, visit) && |q.g.vertices| < |p.g.vertices|
  {
    StageIsClean(g, log, p);
    longer, q := log + visit, Stage(Replay(p.g, visit), p.todo - {v});
    assert Turn(p, v, visit, q);
    ReachedNext(g, log, p, visit, q);
    StageIsClean(g, longer, q);
    CleanSuffix(g, log, visit);
    CleanRunIsProper(false, p.g, visit);
    CombineShrinks(p.g, visit);
  }

  lemma EmptyTurn(g: CallGraph, log: Log, p: Stage, v: Name) returns (q: Stage)
    requires AtStage(g, log, p) && v in p.todo && forall e | SilentEdge(false, p.g, e) :: e.0 != v
    ensures q == Stage(p.g, p.todo - {v}) && AtStage(g, log, q)
  {
    q := Stage(p.g, p.todo - {v});
    assert Replay(p.g, []) == p.g && Turn(p, v, [], q);
    ReachedNext(g, log, p, [], q);
    assert log + [] == log;
  }

  lemma PassTurn(g: CallGraph, log: Log, p: Stage) returns (q: Stage)
    requires AtStage(g, log, p) && p.todo == {}
    ensures q == Stage(p.g, p.g.vertices.Keys) && AtStage(g, log, q)
  {
    q := Stage(p.g, p.g.vertices.Keys);
    ReachedNext(g, log, p, [], q);
    assert log + [] == log;
  }

  /** The turn of `v`: a visit, or nothing. */
  lemma AnyTurn(g: CallGraph, log: Log, p: Stage, v: Name) returns (longer: Log, q: Stage)
    requires AtStage(g, log, p) && v in p.todo
    ensures AtStage(g, longer, q) && log <= longer
    ensures |q.g.vertices| < |p.g.vertices| ||
            (q == Stage(p.g, p.todo - {v}) && forall e | SilentEdge(false, p.g, e) :: e.0 != v)
  {
    if d :| SilentEdge(false, p.g, d) && d.0 == v {
      var visit := VisitStarting(p.g, v, []);
      longer, q := VisitTurn(g, log, p, v, visit);
    } else {
      longer := log;
      q := EmptyTurn(g, log, p, v);
    }
  }

  lemma NextTurn(g: CallGraph, log: Log, p: Stage) returns (longer: Log, q: Stage)
    requires AtStage(g, log, p) && !Done(false, p.g)
    ensures AtStage(g, longer, q) && log <= longer
    ensures |q.g.vertices| < |p.g.vertices| || (q.g == p.g && |q.todo| < |p.todo|)
  {
    if p.todo == {} {
      var e :| e in p.g.edges && Silent(false, p.g.edges[e]);
      StageIsClean(g, log, p);
      var p' := PassTurn(g, log, p);
      longer, q := AnyTurn(g, log, p', e.0);
    } else {
      var v :| v in p.todo;
      longer, q := AnyTurn(g, log, p, v);
    }
  }

  /** From every stage the passes come to an end. */
  lemma {:induction false} GoOn(g: CallGraph, log: Log, p: Stage) returns (end: Log, q: Stage)
    requires AtStage(g, log, p)
    ensures AtStage(g, end, q) && log <= end && Done(false, q.g)
    decreases |p.g.vertices|, |p.todo|
  {
    if Done(false, p.g) {
      end, q := log, p;
    } else {
      var longer, next := NextTurn(g, log, p);
      end, q := GoOn(g, longer, next);
    }
  }

  lemma NoCycle(g: CallGraph, log: Log, p: Stage, x: Name)
    requires AtStage(g, log, p)
    ensures !LeadsTo(SilentPairs(false, p.g), x, x)
  {
    if LeadsTo(SilentPairs(false, p.g), x, x) {
      var end, q := GoOn(g, log, p);
      var more := end[|log|..];
      assert end == log + more;
      StageIsClean(g, log, p);
      StageIsClean(g, end, q);
      CleanSuffix(g, log, more);
      CyclePersists(p.g, more, x);
      ReplayConcat(g, log, more);
      LeadsByEdge(SilentPairs(false, q.g), Rep(more, x), Rep(more, x));
    }
  }

  lemma NoLoops(g: CallGraph, log: Log, p: Stage)
    requires AtStage(g, log, p)
    ensures forall e | e in SilentPairs(false, p.g) :: e.0 != e.1
  {
    forall e | e in SilentPairs(false, p.g) ensures e.0 != e.1 {
      if e.0 == e.1 {
        LeadsEdge(SilentPairs(false, p.g), e.0, e.1);
        NoCycle(g, log, p, e.0);
      }
    }
  }

  /** A vertex whose turn is to come has no edge beside a longer directed path: merging
      along the edge first would make a cycle of the path. */
  lemma NoShortcut(g: CallGraph, log: Log, p: Stage, v: Name, n: Name, y: Name)
    requires AtStage(g, log, p) && v in p.todo
    requires (v, n) in SilentPairs(false, p.g) && (v, y) in SilentPairs(false, p.g)
    ensures !LeadsTo(SilentPairs(false, p.g), n, y)
  {
    if LeadsTo(SilentPairs(false, p.g), n, y) {
      NoCycle(g, log, p, n);
      assert (v, y).0 == v;
      var visit := VisitStarting(p.g, v, [(v, y)]);
      var longer, q := VisitTurn(g, log, p, v, visit);
      assert (v, n) in visit && (v, n).1 == n;
      var x := CycleMade(p.g, v, n, y, visit);
      NoCycle(g, longer, q, x);
    }
  }

  lemma CycleMade(g: CallGraph, v: Name, n: Name, y: Name, visit: Log) returns (x: Name)
    requires g.Valid() && CleanRun(false, g, visit) && [(v, y)] <= visit && v != n && n != y
    requires (v, n) in SilentPairs(false, g) && (v, y) in SilentPairs(false, g) && LeadsTo(SilentPairs(false, g), n, y)
    ensures LeadsTo(SilentPairs(false, Replay(g, visit)), x, x)
  {
    var rest := visit[1..];
    assert visit == [(v, y)] + rest;
    CleanSuffix(g, [(v, y)], rest);
    ReplayOne(g, (v, y));
    ShortcutCycle(g, v, n, y);
    CyclePersists(Combine(g, v, y), rest, v);
    ReplayConcat(g, [(v, y)], rest);
    x := Rep(rest, v);
  }

  lemma ShortcutCycle(g: CallGraph, v: Name, n: Name, y: Name)
    requires g.Valid() && CleanRun(false, g, [(v, y)]) && n != y && LeadsTo(SilentPairs(false, g), n, y)
    requires (v, n) in SilentPairs(false, g) && (v, y) in SilentPairs(false, g) && v != n
    ensures Combine(g, v, y).Valid() && LeadsTo(SilentPairs(false, Combine(g, v, y)), v, v)
  {
    var s, s' := SilentPairs(false, g), SilentPairs(false, Combine(g, v, y));
    assert [(v, y)][..0] == [] && Replay(g, []) == g;
    CombineValid(g, v, y);
    CleanMergesSilent(false, g, v, y);
    LeadsMerge(s, v, y, s', n, y);
    assert MovedPair(v, y, (v, n)) == (v, n);
    LeadsEdge(s', v, n);
    LeadsTrans(s', v, n, v);
  }

  // ----- a straight cycle leads to a shortcut or to a directed cycle -----

  /** A path from `y` to `x` that avoids `z`, where x leads to z and z leads to y.  The turns
      of its vertices other than y are to come. */
  ghost predicate Arch(p: Stage, x: Name, z: Name, path: seq<Name>) {
    && (x, z) in SilentPairs(false, p.g) && LinkPath(Avoiding(SilentPairs(false, p.g), z), path)
    && LeadsTo(SilentPairs(false, p.g), z, path[0]) && path[|path| - 1] == x
    && forall i | 0 < i < |path| :: path[i] in p.todo
  }

  /** If the path begins in the direction of x, it can be shortened. */
  lemma ArchAdvance(p: Stage, x: Name, z: Name, path: seq<Name>)
    requires Arch(p, x, z, path) && |path| > 1 && (path[0], path[1]) in SilentPairs(false, p.g)
    ensures Arch(p, x, z, path[1..])
  {
    var s := SilentPairs(false, p.g);
    LeadsEdge(s, path[0], path[1]);
    LeadsTrans(s, z, path[0], path[1]);
    PathTail(Avoiding(s, z), path);
  }

  /** Otherwise it begins with an edge u -> y.  Without a shortcut, u leads neither to z nor
      to x, and is not x. */
  lemma ArchFoot(g: CallGraph, log: Log, p: Stage, x: Name, z: Name, path: seq<Name>)
    requires AtStage(g, log, p) && Arch(p, x, z, path)
    requires |path| > 1 && (path[0], path[1]) !in SilentPairs(false, p.g)
    ensures var s, u := SilentPairs(false, p.g), path[1];
            (u, path[0]) in s && u != x && u != z && x != z && (u, z) !in s && (u, x) !in s
  {
    var s, y, u := SilentPairs(false, p.g), path[0], path[1];
    assert Joined(Avoiding(s, z), path[0], path[1]);
    if (u, z) in s {
      NoShortcut(g, log, p, u, z, y);
    }
    if (u, x) in s {
      LeadsEdge(s, x, z);
      LeadsTrans(s, x, z, y);
      NoShortcut(g, log, p, u, x, y);
    }
    NoLoops(g, log, p);
    assert (x, z).0 != (x, z).1;
  }

  lemma LastInside(path: seq<Name>, ks: set<Name>) returns (j: nat)
    requires path != [] && path[0] in ks
    ensures j < |path| && path[j] in ks && forall i | j < i < |path| :: path[i] !in ks
  {
    j := |path| - 1;
    while path[j] !in ks
      invariant j < |path| && forall i | j < i < |path| :: path[i] !in ks
      decreases j
    {
      j := j - 1;
    }
  }

  /** What is left of the path when `u` and the vertices of `ns` have become `u`. */
  lemma GatherPath(t: set<Pair>, t': set<Pair>, u: Name, ns: set<Name>, path: seq<Name>) returns (rest: seq<Name>)
    requires LinkPath(t, path) && |path| > 1 && path[0] in ns && path[1] == u && path[|path| - 1] !in ns + {u}
    requires forall e | e in t && Gather(u, ns)(e.0) != Gather(u, ns)(e.1) :: Image(Gather(u, ns), e) in t'
    requires forall e | e in t :: e.0 != e.1
    ensures LinkPath(t', rest) && rest[0] == u && rest[|rest| - 1] == path[|path| - 1] && |rest| < |path|
    ensures forall i | 0 < i < |rest| :: rest[i] in path[1..] && rest[i] != u
  {
    var rep := Gather(u, ns);
    var j := LastInside(path, ns + {u});
    rest := [u] + path[j + 1..];
    forall i | 0 <= i < |rest| - 1 ensures Joined(t', rest[i], rest[i + 1]) {
      assert Joined(t, path[j + i], path[j + i + 1]);
      var (a, b) := (path[j + i], path[j + i + 1]);
      var e := if (a, b) in t then (a, b) else (b, a);
      assert rest[i + 1] == path[j + i + 1] && rep(path[j + i]) == rest[i] && rep(rest[i + 1]) == rest[i + 1];
      assert Image(rep, e) in t';
    }
    forall i | 0 < i < |rest| ensures rest[i] in path[1..] && rest[i] != u {
      assert rest[i] == path[j + i] == path[1..][j + i - 1];
    }
  }

  /** A visit of u leaves a shorter path of the same kind. */
  lemma ArchAfter(p: Stage, x: Name, z: Name, path: seq<Name>, visit: Log, q: Stage) returns (path': seq<Name>)
    requires p.g.Valid() && Arch(p, x, z, path) && |path| > 1
    requires IsVisit(p.g, visit) && visit[0].0 == path[1] && CleanRun(false, p.g, visit)
    requires q == Stage(Replay(p.g, visit), p.todo - {path[1]})
    requires var s, u := SilentPairs(false, p.g), path[1];
             && (u, path[0]) in s && u != x && u != z && x != z && (u, z) !in s && (u, x) !in s
             && forall e | e in s :: e.0 != e.1
    ensures Arch(q, x, z, path') && |path'| < |path|
  {
    var s, s', u := SilentPairs(false, p.g), SilentPairs(false, q.g), path[1];
    CleanVisitGathers(p.g, visit);
    var rep := Gather(u, Targets(s, u));
    assert Image(rep, (x, z)) == (x, z);
    assert (u, z) !in visit by {
      assert SilentEdge(false, p.g, (u, z)) ==> (u, z) in s;
    }
    LeadsVisit(p.g, u, visit, z, path[0]);
    path' := GatherPath(Avoiding(s, z), Avoiding(s', z), u, Targets(s, u), path);
  }

  lemma ArchVisit(g: CallGraph, log: Log, p: Stage, x: Name, z: Name, path: seq<Name>)
    returns (longer: Log, q: Stage, path': seq<Name>)
    requires AtStage(g, log, p) && Arch(p, x, z, path)
    requires |path| > 1 && (path[0], path[1]) !in SilentPairs(false, p.g)
    ensures AtStage(g, longer, q) && Arch(q, x, z, path') && |path'| < |path|
  {
    var u := path[1];
    ArchFoot(g, log, p, x, z, path);
    NoLoops(g, log, p);
    assert (u, path[0]).0 == u;
    var visit := VisitStarting(p.g, u, []);
    longer, q := VisitTurn(g, log, p, u, visit);
    path' := ArchAfter(p, x, z, path, visit, q);
  }

  lemma {:induction false} NoArch(g: CallGraph, log: Log, p: Stage, x: Name, z: Name, path: seq<Name>)
    requires AtStage(g, log, p)
    ensures !Arch(p, x, z, path)
    decreases |path|
  {
    if Arch(p, x, z, path) {
      var s := SilentPairs(false, p.g);
      if |path| == 1 {
        LeadsEdge(s, x, z);
        LeadsTrans(s, x, z, x);
        NoCycle(g, log, p, x);
      } else if (path[0], path[1]) in s {
        ArchAdvance(p, x, z, path);
        NoArch(g, log, p, x, z, path[1..]);
      } else {
        var longer, q, path' := ArchVisit(g, log, p, x, z, path);
        NoArch(g, longer, q, x, z, path');
      }
    }
  }

  lemma CleanPassesNeedNoStraightCycle(g: CallGraph)
    requires g.Valid() && EveryPassOrderClean(g)
    ensures NoStraightCycle(SilentPairs(false, g))
  {
    var s := SilentPairs(false, g);
    ReachedStart(g);
    var start := Stage(g, {});
    var p := PassTurn(g, [], start);
    NoLoops(g, [], start);
    forall e, f | e in s && f in s && e.1 == f.0 ensures !Connected(Avoiding(s, e.1), e.0, f.1) {
      if Connected(Avoiding(s, e.1), e.0, f.1) {
        ConnectedSym(Avoiding(s, e.1), e.0, f.1);
        var path :| LinkPathFrom(Avoiding(s, e.1), path, f.1, e.0);
        LeadsEdge(s, f.0, f.1);
        PathInGraph(g, e.1, path);
        NoArch(g, [], p, e.0, e.1, path);
      }
    }
  }

  lemma CleanPassesNeedOneLabel(g: CallGraph)
    requires g.Valid() && EveryPassOrderClean(g)
    ensures OneLabel(false, g)
  {
    ReachedStart(g);
    var end, q := GoOn(g, [], Stage(g, {}));
    StageIsClean(g, end, q);
    CleanRunNeedsOneLabel(false, g, end);
  }

  lemma PathInGraph(g: CallGraph, z: Name, path: seq<Name>)
    requires g.Valid() && LinkPath(Avoiding(SilentPairs(false, g), z), path)
    ensures forall i | 0 < i < |path| :: path[i] in g.vertices
  {
    forall i | 0 < i < |path| ensures path[i] in g.vertices {
      assert Joined(Avoiding(SilentPairs(false, g), z), path[i - 1], path[i]);
    }
  }

  // ----- loops that nothing carries -----

  function Sources(s: set<Pair>): (vs: set<Name>)
    ensures forall x :: x in vs <==> exists y :: (x, y) in s
  {
    var vs := set e | e in s :: e.0;
    assert forall x, y | (x, y) in s :: (x, y).0 in vs;
    assert forall e | e in s :: (e.0, e.1) in s;
    vs
  }

  /** The vertices of `us` that have pairs and are connected to `v` by those of all of them. */
  ghost function Active(s: set<Pair>, us: set<Name>, v: Name): set<Name> {
    set u | u in us && u in Sources(s) && Connected(TailsIn(s, us), u, v)
  }

  /** Before a visit of `u`, which leads to no active vertex, the others connect with it what they connect after it. */
  lemma WithoutLowest(s: set<Pair>, us: set<Name>, u: Name)
    requires u in us && forall a | a in us && a in Sources(s) :: (u, a) !in s
    ensures TailsIn(s, Before(s, u, Targets(s, u), us - {u})) == TailsIn(s, us)
  {
    forall e | e in s ensures e.0 in Before(s, u, Targets(s, u), us - {u}) <==> e.0 in us {
      assert (e.0, e.1) in s;
    }
  }

  lemma StageAcyclic(g: CallGraph, log: Log, p: Stage)
    requires AtStage(g, log, p)
    ensures Acyclic(SilentPairs(false, p.g))
  {
    forall x ensures !LeadsTo(SilentPairs(false, p.g), x, x) {
      NoCycle(g, log, p, x);
    }
  }

  /** A visit of `u`, a vertex of `us` that leads to no other, comes next. */
  lemma LowestVisit(g: CallGraph, log: Log, p: Stage, us: set<Name>, u: Name)
    returns (longer: Log, q: Stage, visit: Log)
    requires AtStage(g, log, p) && u in us && u in p.todo && u in Sources(SilentPairs(false, p.g))
    requires forall a | a in us && a in Sources(SilentPairs(false, p.g)) :: (u, a) !in SilentPairs(false, p.g)
    ensures AtStage(g, longer, q) && q == Stage(Replay(p.g, visit), p.todo - {u}) && |q.g.vertices| < |p.g.vertices|
    ensures p.g.Valid() && IsVisit(p.g, visit) && visit[0].0 == u && CleanRun(false, p.g, visit)
    ensures forall x :: Rep(visit, x) == Gather(u, Targets(SilentPairs(false, p.g), u))(x)
  {
    var y :| (u, y) in SilentPairs(false, p.g);
    assert SilentEdge(false, p.g, (u, y)) && (u, y).0 == u;
    visit := VisitStarting(p.g, u, []);
    longer, q := VisitTurn(g, log, p, u, visit);
    CleanVisitGathers(p.g, visit);
  }

  /** What the other visits connect is the same as before. */
  lemma LowestConnects(g: CallGraph, us: set<Name>, visit: Log, x: Name, y: Name)
    requires g.Valid() && IsVisit(g, visit) && CleanRun(false, g, visit) && visit[0].0 in us
    requires forall a | a in us && a in Sources(SilentPairs(false, g)) :: (visit[0].0, a) !in SilentPairs(false, g)
    ensures Connected(TailsIn(SilentPairs(false, Replay(g, visit)), us - {visit[0].0}), Rep(visit, x), Rep(visit, y))
       <==> Connected(TailsIn(SilentPairs(false, g), us), x, y)
  {
    var u, s, s' := visit[0].0, SilentPairs(false, g), SilentPairs(false, Replay(g, visit));
    CleanVisitGathers(g, visit);
    WithoutLowest(s, us, u);
    TailsAfter(s, u, Targets(s, u), s', us - {u}, x, y);
  }

  /** What has been connected to another vertex was connected by an active one. */
  lemma SomeActive(s: set<Pair>, us: set<Name>, v: Name, x: Name) returns (u: Name)
    requires x != v && Connected(TailsIn(s, us), x, v)
    ensures u in Active(s, us, v)
  {
    var t := TailsIn(s, us);
    var p :| LinkPathFrom(t, p, x, v);
    var n := |p| - 1;
    assert Joined(t, p[n - 1], p[n]);
    u := if (p[n - 1], p[n]) in t then p[n - 1] else p[n];
    ConnectedSelf(t, v);
    if u != v {
      ConnectedEdge(t, u, v);
    }
  }

  /** The first merge of a clean visit. */
  lemma FirstIsClean(g: CallGraph, m: Pair, visit: Log)
    requires CleanRun(false, g, visit) && [m] <= visit
    ensures Clean(g, m.0, m.1)
  {
    var rest := visit[1..];
    assert visit == [m] + rest;
    CleanSuffix(g, [m], rest);
    assert [m][..0] == [] && Replay(g, []) == g;
  }

  /** The loop of `v` is kept when w merges it first. */
  lemma LastCarrier(g: CallGraph, log: Log, p: Stage, us: set<Name>, d: Pair)
    requires AtStage(g, log, p) && CallEdge(false, p.g, (d.1, d.1)) && SilentEdge(false, p.g, d) && d.0 in p.todo
    ensures exists f :: Carrier(p.g, us, d, f)
  {
    var (w, v) := d;
    var visit := VisitStarting(p.g, w, [d]);
    var longer, q := VisitTurn(g, log, p, w, visit);
    FirstIsClean(p.g, d, visit);
    var f := if (w, w) in p.g.edges then (w, w) else (v, w);
    NoCycle(g, log, p, w);
    var s := SilentPairs(false, p.g);
    if f in s {
      LeadsEdge(s, w, v);
      LeadsEdge(s, f.0, f.1);
      if f.0 == v {
        LeadsTrans(s, w, v, w);
      }
    }
    ConnectedSelf(TailsIn(s, us), v);
    assert Carrier(p.g, us, d, f);
  }

  lemma {:induction false} CarrierNeeded(g: CallGraph, log: Log, p: Stage, us: set<Name>, e: Pair, d: Pair)
    requires AtStage(g, log, p) && CallEdge(false, p.g, e) && SilentEdge(false, p.g, d)
    requires LoopBehind(SilentPairs(false, p.g), us, e, d)
    requires d.0 in p.todo && Active(SilentPairs(false, p.g), us, d.1) <= p.todo
    ensures exists f :: Carrier(p.g, us, d, f)
    decreases |p.g.vertices|
  {
    var s := SilentPairs(false, p.g);
    if Active(s, us, d.1) == {} {
      LoopHere(s, us, e, d);
      LastCarrier(g, log, p, us, d);
    } else {
      StageAcyclic(g, log, p);
      var u := Lowest(s, Active(s, us, d.1));
      LowestOfAll(s, us, d.1, u);
      var longer, q, visit := LowestVisit(g, log, p, us, u);
      var e', d' := CarrierStep(p.g, us, e, d, visit);
      ActiveStep(p.g, us, d.1, visit);
      CarrierNeeded(g, longer, q, us - {u}, e', d');
      CarrierBack(p.g, us, d, visit);
    }
  }

  lemma LoopHere(s: set<Pair>, us: set<Name>, e: Pair, d: Pair)
    requires Active(s, us, d.1) == {} && LoopBehind(s, us, e, d)
    ensures e == (d.1, d.1)
  {
    if e.0 != d.1 {
      var u := SomeActive(s, us, d.1, e.0);
    }
    if e.1 != d.1 {
      var u := SomeActive(s, us, d.1, e.1);
    }
  }

  lemma ActiveOnward(s: set<Pair>, us: set<Name>, v: Name, u: Name, a: Name)
    requires u in Active(s, us, v) && a in us && a in Sources(s) && (u, a) in s
    ensures a in Active(s, us, v)
  {
    var t := TailsIn(s, us);
    assert (u, a) in t;
    ConnectedEdge(t, a, u);
    ConnectedTrans(t, a, u, v);
  }

  lemma LowestOfAll(s: set<Pair>, us: set<Name>, v: Name, u: Name)
    requires u in Active(s, us, v) && forall a | a in Active(s, us, v) :: (u, a) !in s
    ensures forall a | a in us && a in Sources(s) :: (u, a) !in s
  {
    forall a | a in us && a in Sources(s) ensures (u, a) !in s {
      if (u, a) in s {
        ActiveOnward(s, us, v, u, a);
      }
    }
  }

  /** The source of `d` is left alone, and the loop stays behind it. */
  lemma CarrierStep(g: CallGraph, us: set<Name>, e: Pair, d: Pair, visit: Log) returns (e': Pair, d': Pair)
    requires g.Valid() && IsVisit(g, visit) && CleanRun(false, g, visit) && CallEdge(false, g, e) &&
             SilentEdge(false, g, d)
    requires visit[0].0 in Active(SilentPairs(false, g), us, d.1) && LoopBehind(SilentPairs(false, g), us, e, d)
    requires forall a | a in us && a in Sources(SilentPairs(false, g)) :: (visit[0].0, a) !in SilentPairs(false, g)
    ensures e' == (Rep(visit, e.0), Rep(visit, e.1)) && d' == (Rep(visit, d.0), Rep(visit, d.1)) &&
            d'.0 == d.0 != visit[0].0
    ensures CallEdge(false, Replay(g, visit), e') && SilentEdge(false, Replay(g, visit), d')
    ensures LoopBehind(SilentPairs(false, Replay(g, visit)), us - {visit[0].0}, e', d')
  {
    var u, s := visit[0].0, SilentPairs(false, g);
    var t := TailsIn(s, us);
    e', d' := (Rep(visit, e.0), Rep(visit, e.1)), (Rep(visit, d.0), Rep(visit, d.1));
    CleanVisitGathers(g, visit);
    if (u, d.0) in s {
      assert (u, d.0) in t;
      ConnectedEdge(t, d.0, u);
      ConnectedTrans(t, d.0, u, d.1);
    }
    LowestConnects(g, us, visit, e.0, d.1);
    LowestConnects(g, us, visit, e.1, d.1);
    LowestConnects(g, us, visit, d.0, d.1);
    CallAfter(g, visit, e);
    ConnectedSelf(TailsIn(SilentPairs(false, Replay(g, visit)), us - {u}), d'.0);
    CleanEdgeImage(false, g, visit, d);
  }

  /** What is active after the visit was so before. */
  lemma ActiveStep(g: CallGraph, us: set<Name>, v: Name, visit: Log)
    requires g.Valid() && IsVisit(g, visit) && CleanRun(false, g, visit) && visit[0].0 in us
    requires forall a | a in us && a in Sources(SilentPairs(false, g)) :: (visit[0].0, a) !in SilentPairs(false, g)
    ensures Active(SilentPairs(false, Replay(g, visit)), us - {visit[0].0}, Rep(visit, v))
         <= Active(SilentPairs(false, g), us, v) - {visit[0].0}
  {
    var u, s, s' := visit[0].0, SilentPairs(false, g), SilentPairs(false, Replay(g, visit));
    CleanVisitGathers(g, visit);
    forall a | a in Active(s', us - {u}, Rep(visit, v)) ensures a in Active(s, us, v) - {u} {
      var y :| (a, y) in s';
      assert SilentEdge(false, Replay(g, visit), (a, y));
      var e := SilentBefore(g, visit, (a, y));
      assert e.0 == a && (e.0, e.1) in s;
      LowestConnects(g, us, visit, a, v);
    }
  }

  lemma CarrierBack(g: CallGraph, us: set<Name>, d: Pair, visit: Log)
    requires g.Valid() && IsVisit(g, visit) && CleanRun(false, g, visit) && visit[0].0 in us
    requires forall a | a in us && a in Sources(SilentPairs(false, g)) :: (visit[0].0, a) !in SilentPairs(false, g)
    requires d.0 != visit[0].0 && Rep(visit, d.0) == d.0
    requires exists f' :: Carrier(Replay(g, visit), us - {visit[0].0}, (Rep(visit, d.0), Rep(visit, d.1)), f')
    ensures exists f :: Carrier(g, us, d, f)
  {
    var f' :| Carrier(Replay(g, visit), us - {visit[0].0}, (Rep(visit, d.0), Rep(visit, d.1)), f');
    CleanVisitGathers(g, visit);
    var f := CallBefore(g, visit, f');
    LowestConnects(g, us, visit, f.0, d.1);
    assert Carrier(g, us, d, f);
  }

  // ----- calls whose target does not lead back to their source -----

  /** Visits to `us` leave the ends of `e` apart, with a control edge beside the call, or with
      a vertex not yet gathered that leads to both. */
  ghost predicate Beside(s: set<Pair>, us: set<Name>, e: Pair, d: Pair) {
    var t := TailsIn(s, us);
    d in s && Connected(t, e.0, d.0) && Connected(t, e.1, d.1)
  }

  ghost predicate Fork(s: set<Pair>, us: set<Name>, e: Pair, v: Name, a: Name, b: Name) {
    var t := TailsIn(s, us);
    && v !in us && (forall u | u in us :: (u, v) !in s)
    && (v, a) in s && (v, b) in s && Connected(t, e.0, a) && Connected(t, e.1, b)
  }

  ghost predicate Clash(p: Stage, us: set<Name>, e: Pair) {
    var s := SilentPairs(false, p.g);
    && !Connected(TailsIn(s, us), e.0, e.1)
    && ((exists d :: Beside(s, us, e, d)) || (exists v, a, b :: v in p.todo && Fork(s, us, e, v, a, b)))
  }

  /** A vertex whose turn is to come does not lead to both ends of a call. */
  lemma NoFork(g: CallGraph, log: Log, p: Stage, e: Pair, v: Name)
    requires AtStage(g, log, p) && CallEdge(false, p.g, e) && v in p.todo && e.0 != e.1
    requires (v, e.0) in SilentPairs(false, p.g)
    ensures (v, e.1) !in SilentPairs(false, p.g)
  {
    if (v, e.1) in SilentPairs(false, p.g) {
      assert (v, e.0).0 == v;
      var visit := VisitStarting(p.g, v, [(v, e.0)]);
      var longer, q := VisitTurn(g, log, p, v, visit);
      FirstIsClean(p.g, (v, e.0), visit);
      NoCycle(g, log, p, v);
      ForkConflict(p.g, v, e);
    }
  }

  /** Merging the source of a call first lets it fall on the control edge to its target. */
  lemma ForkConflict(g: CallGraph, v: Name, e: Pair)
    requires CallEdge(false, g, e) && SilentEdge(false, g, (v, e.0)) && SilentEdge(false, g, (v, e.1)) && e.0 != e.1
    ensures e == (v, e.1) || !NoConflict(g, v, e.0)
  {
    if e != (v, e.1) {
      assert MovedPair(v, e.0, e) == MovedPair(v, e.0, (v, e.1));
    }
  }

  lemma {:induction false} NoClash(g: CallGraph, log: Log, p: Stage, us: set<Name>, e: Pair)
    requires AtStage(g, log, p) && CallEdge(false, p.g, e)
    requires forall u | u in us && u in Sources(SilentPairs(false, p.g)) :: u in p.todo
    ensures !Clash(p, us, e)
    decreases |p.g.vertices|
  {
    if Clash(p, us, e) {
      var s := SilentPairs(false, p.g);
      var active := us * Sources(s);
      if active == {} {
        ClashNow(g, log, p, us, e);
      } else {
        StageAcyclic(g, log, p);
        var u := Lowest(s, active);
        var longer, q, visit := LowestVisit(g, log, p, us, u);
        NoLoops(g, log, p);
        ClashStep(p, us, e, visit, q);
        SourcesStep(p.g, us, visit);
        CallAfter(p.g, visit, e);
        NoClash(g, longer, q, us - {u}, (Rep(visit, e.0), Rep(visit, e.1)));
      }
    }
  }

  lemma NothingConnects(s: set<Pair>, us: set<Name>, x: Name, y: Name)
    requires us * Sources(s) == {}
    ensures Connected(TailsIn(s, us), x, y) <==> x == y
  {
    forall e | e in s ensures e.0 !in us {
      assert (e.0, e.1) in s && e.0 !in us * Sources(s);
    }
    assert TailsIn(s, us) == {};
    NothingConnected(x);
  }

  lemma ClashNow(g: CallGraph, log: Log, p: Stage, us: set<Name>, e: Pair)
    requires AtStage(g, log, p) && CallEdge(false, p.g, e) && us * Sources(SilentPairs(false, p.g)) == {}
    ensures !Clash(p, us, e)
  {
    var s := SilentPairs(false, p.g);
    forall x, y ensures Connected(TailsIn(s, us), x, y) <==> x == y {
      NothingConnects(s, us, x, y);
    }
    forall v | v in p.todo && e.0 != e.1 ensures (v, e.0) !in s || (v, e.1) !in s {
      if (v, e.0) in s {
        NoFork(g, log, p, e, v);
      }
    }
  }

  lemma SourcesStep(g: CallGraph, us: set<Name>, visit: Log)
    requires g.Valid() && IsVisit(g, visit) && CleanRun(false, g, visit)
    ensures forall a | a in us - {visit[0].0} && a in Sources(SilentPairs(false, Replay(g, visit))) ::
            a in Sources(SilentPairs(false, g))
  {
    CleanVisitGathers(g, visit);
    forall a | a in us - {visit[0].0} && a in Sources(SilentPairs(false, Replay(g, visit)))
      ensures a in Sources(SilentPairs(false, g))
    {
      var y :| (a, y) in SilentPairs(false, Replay(g, visit));
      assert SilentEdge(false, Replay(g, visit), (a, y));
      var e := SilentBefore(g, visit, (a, y));
      assert e.0 == a && (e.0, e.1) in SilentPairs(false, g);
    }
  }

  /** A visit to one of `us` leaves the clash to those to the others. */
  lemma ClashStep(p: Stage, us: set<Name>, e: Pair, visit: Log, q: Stage)
    requires p.g.Valid() && IsVisit(p.g, visit) && CleanRun(false, p.g, visit) && visit[0].0 in us
    requires forall a | a in us && a in Sources(SilentPairs(false, p.g)) :: (visit[0].0, a) !in SilentPairs(false, p.g)
    requires q == Stage(Replay(p.g, visit), p.todo - {visit[0].0}) && Clash(p, us, e)
    requires forall d | d in SilentPairs(false, p.g) :: d.0 != d.1
    ensures Clash(q, us - {visit[0].0}, (Rep(visit, e.0), Rep(visit, e.1)))
  {
    var s, s', u := SilentPairs(false, p.g), SilentPairs(false, q.g), visit[0].0;
    var e' := (Rep(visit, e.0), Rep(visit, e.1));
    LowestConnects(p.g, us, visit, e.0, e.1);
    if d :| Beside(s, us, e, d) {
      BesideStep(p.g, us, e, visit, d);
    } else {
      var v, a, b :| v in p.todo && Fork(s, us, e, v, a, b);
      assert (v, a).0 != (v, a).1 && (v, b).0 != (v, b).1;
      ForkStep(p.g, us, e, visit, v, a, b);
    }
  }

  lemma BesideStep(g: CallGraph, us: set<Name>, e: Pair, visit: Log, d: Pair)
    requires g.Valid() && IsVisit(g, visit) && CleanRun(false, g, visit) && visit[0].0 in us
    requires forall a | a in us && a in Sources(SilentPairs(false, g)) :: (visit[0].0, a) !in SilentPairs(false, g)
    requires Beside(SilentPairs(false, g), us, e, d) && !Connected(TailsIn(SilentPairs(false, g), us), e.0, e.1)
    ensures Beside(SilentPairs(false, Replay(g, visit)), us - {visit[0].0}, (Rep(visit, e.0), Rep(visit, e.1)),
            (Rep(visit, d.0), Rep(visit, d.1)))
  {
    var t, t' := TailsIn(SilentPairs(false, g), us), TailsIn(SilentPairs(false, Replay(g, visit)), us - {visit[0].0});
    LowestConnects(g, us, visit, e.0, d.0);
    LowestConnects(g, us, visit, e.1, d.1);
    LowestConnects(g, us, visit, e.0, e.1);
    if Rep(visit, d.0) == Rep(visit, d.1) {
      ConnectedSym(t', Rep(visit, e.1), Rep(visit, d.1));
      ConnectedTrans(t', Rep(visit, e.0), Rep(visit, d.0), Rep(visit, e.1));
    }
    CleanEdgeImage(false, g, visit, d);
  }

  lemma ForkStep(g: CallGraph, us: set<Name>, e: Pair, visit: Log, v: Name, a: Name, b: Name)
    requires g.Valid() && IsVisit(g, visit) && CleanRun(false, g, visit) && visit[0].0 in us
    requires forall a | a in us && a in Sources(SilentPairs(false, g)) :: (visit[0].0, a) !in SilentPairs(false, g)
    requires Fork(SilentPairs(false, g), us, e, v, a, b) && v != a && v != b
    ensures Fork(SilentPairs(false, Replay(g, visit)), us - {visit[0].0}, (Rep(visit, e.0), Rep(visit, e.1)), v,
            Rep(visit, a), Rep(visit, b))
  {
    LowestConnects(g, us, visit, e.0, a);
    LowestConnects(g, us, visit, e.1, b);
    StayingEdge(g, visit, v, a);
    StayingEdge(g, visit, v, b);
    forall w | w in us - {visit[0].0} ensures (w, v) !in SilentPairs(false, Replay(g, visit)) {
      NoNewEdge(g, visit, w, v);
    }
  }

  /** An edge of a vertex that the visit leaves alone. */
  lemma StayingEdge(g: CallGraph, visit: Log, v: Name, a: Name)
    requires g.Valid() && IsVisit(g, visit) && CleanRun(false, g, visit)
    requires v != visit[0].0 && (visit[0].0, v) !in SilentPairs(false, g) && v != a && (v, a) in SilentPairs(false, g)
    ensures (v, Rep(visit, a)) in SilentPairs(false, Replay(g, visit))
  {
    CleanVisitGathers(g, visit);
    CleanEdgeImage(false, g, visit, (v, a));
  }

  lemma NoNewEdge(g: CallGraph, visit: Log, w: Name, v: Name)
    requires g.Valid() && IsVisit(g, visit) && CleanRun(false, g, visit)
    requires v != visit[0].0 && (visit[0].0, v) !in SilentPairs(false, g) && w != visit[0].0 &&
             (w, v) !in SilentPairs(false, g)
    ensures (w, v) !in SilentPairs(false, Replay(g, visit))
  {
    if SilentEdge(false, Replay(g, visit), (w, v)) {
      CleanVisitGathers(g, visit);
      var c := SilentBefore(g, visit, (w, v));
    }
  }

  /** A path that may use the pairs of `u` besides those of `t` does without them, or meets `u`
      or something that u leads to. */
  lemma {:induction false} MeetsStar(s: set<Pair>, us: set<Name>, u: Name, p: seq<Name>) returns (a: Name)
    requires LinkPath(TailsIn(s, us + {u}), p)
    ensures var t := TailsIn(s, us);
            || Connected(t, p[0], p[|p| - 1]) || Connected(t, p[0], u)
            || ((u, a) in s && Connected(t, p[0], a))
    decreases |p|
  {
    var t, t' := TailsIn(s, us), TailsIn(s, us + {u});
    ConnectedSelf(t, p[0]);
    a := p[0];
    if |p| > 1 {
      assert Joined(t', p[0], p[1]);
      if Joined(t, p[0], p[1]) {
        ConnectedEdge(t, p[0], p[1]);
        PathTail(t', p);
        a := MeetsStar(s, us, u, p[1..]);
        StepFront(t, p[0], p[1], p[|p| - 1]);
        StepFront(t, p[0], p[1], u);
        StepFront(t, p[0], p[1], a);
      }
    }
  }

  /** All that `us` lead to is in it, or is `x`. */
  ghost predicate Closed(s: set<Pair>, us: set<Name>, x: Name) {
    forall u, a | u in us && a in Sources(s) :: (u, a) in s ==> a in us || a == x
  }

  /** A closed set leaves a vertex outside, other than `x`, alone. */
  lemma ClosedLeaves(s: set<Pair>, us: set<Name>, x: Name, u: Name, y: Name)
    requires Closed(s, us, x) && u in Sources(s) && u !in us && u != x
    requires Connected(TailsIn(s, us), y, u)
    ensures y == u
  {
    var p :| LinkPathFrom(TailsIn(s, us), p, y, u);
    assert |p| > 1 ==> Joined(TailsIn(s, us), p[|p| - 2], p[|p| - 1]);
  }

  /** Growing a closed set, from the target of a call on, to all vertices but its source: the
      step that would connect the two ends would make a clash. */
  lemma {:induction false} Grow(g: CallGraph, log: Log, p: Stage, us: set<Name>, e: Pair)
    requires AtStage(g, log, p) && CallEdge(false, p.g, e) && Sources(SilentPairs(false, p.g)) <= p.todo
    requires Connected(SilentPairs(false, p.g), e.0, e.1)
    requires e.0 !in us && (e.1 in us || e.1 !in Sources(SilentPairs(false, p.g)))
    requires Closed(SilentPairs(false, p.g), us, e.0)
    ensures Connected(TailsIn(SilentPairs(false, p.g), us), e.0, e.1)
    decreases |Sources(SilentPairs(false, p.g)) - us|
  {
    var s := SilentPairs(false, p.g);
    var rest := Sources(s) - us - {e.0};
    NoClash(g, log, p, us, e);
    if rest == {} {
      AllButSource(s, us, e);
    } else {
      StageAcyclic(g, log, p);
      var u := Lowest(s, rest);
      ClosedMore(s, us, e.0, u);
      SmallerSet(Sources(s) - (us + {u}), Sources(s) - us);
      Grow(g, log, p, us + {u}, e);
      OneMoreSource(p, us, e, u);
    }
  }

  lemma AllButSource(s: set<Pair>, us: set<Name>, e: Pair)
    requires Sources(s) - us - {e.0} == {} && Connected(s, e.0, e.1)
    ensures Connected(TailsIn(s, us), e.0, e.1) || exists d :: Beside(s, us, e, d)
  {
    var t := TailsIn(s, us);
    forall d | d in s ensures d in TailsIn(s, us + {e.0}) {
      assert (d.0, d.1) in s && d.0 !in Sources(s) - us - {e.0};
    }
    assert TailsIn(s, us + {e.0}) == s;
    ConnectedSym(s, e.0, e.1);
    var path :| LinkPathFrom(s, path, e.1, e.0);
    var a := MeetsStar(s, us, e.0, path);
    if Connected(t, e.1, e.0) {
      ConnectedSym(t, e.1, e.0);
    } else {
      ConnectedSelf(t, e.0);
      assert Beside(s, us, e, (e.0, a));
    }
  }

  lemma ClosedMore(s: set<Pair>, us: set<Name>, x: Name, u: Name)
    requires Closed(s, us, x) && forall a | a in Sources(s) - us - {x} :: (u, a) !in s
    ensures Closed(s, us + {u}, x)
  {
  }

  lemma OneMoreSource(p: Stage, us: set<Name>, e: Pair, u: Name)
    requires var s := SilentPairs(false, p.g);
             && Closed(s, us, e.0) && u in Sources(s) - us - {e.0} && u in p.todo
             && (e.1 in us || e.1 !in Sources(s)) && Connected(TailsIn(s, us + {u}), e.0, e.1)
    ensures Connected(TailsIn(SilentPairs(false, p.g), us), e.0, e.1) || Clash(p, us, e)
  {
    var s := SilentPairs(false, p.g);
    var t, t' := TailsIn(s, us), TailsIn(s, us + {u});
    if !Connected(t, e.0, e.1) {
      var path :| LinkPathFrom(t', path, e.0, e.1);
      var a := MeetsStar(s, us, u, path);
      ConnectedSym(t', e.0, e.1);
      var back :| LinkPathFrom(t', back, e.1, e.0);
      var b := MeetsStar(s, us, u, back);
      if Connected(t, e.1, e.0) {
        ConnectedSym(t, e.1, e.0);
      }
      if Connected(t, e.0, u) {
        ClosedLeaves(s, us, e.0, u, e.0);
      }
      if Connected(t, e.1, u) {
        ClosedLeaves(s, us, e.0, u, e.1);
      }
      assert Fork(s, us, e, u, a, b);
    }
  }

  lemma CleanPassesNeedCallsLeadBack(g: CallGraph)
    requires g.Valid() && EveryPassOrderClean(g)
    ensures CallsLeadBack(g)
  {
    var s := SilentPairs(false, g);
    ReachedStart(g);
    var p := PassTurn(g, [], Stage(g, {}));
    forall e | CallEdge(false, g, e) && Connected(s, e.0, e.1) ensures e.0 == e.1 || LeadsTo(s, e.1, e.0) {
      if e.0 != e.1 && !LeadsTo(s, e.1, e.0) {
        var us := set u | u in Sources(s) && (u == e.1 || LeadsTo(s, e.1, u));
        ReachClosed(s, e.1, us, e.0);
        SourcesInGraph(g);
        Grow(g, [], p, us, e);
        ReachOnly(s, e.1, us, e.0);
      }
    }
  }

  lemma SourcesInGraph(g: CallGraph)
    requires g.Valid()
    ensures Sources(SilentPairs(false, g)) <= g.vertices.Keys
  {
    forall x | x in Sources(SilentPairs(false, g)) ensures x in g.vertices {
      var y :| (x, y) in SilentPairs(false, g);
    }
  }

  lemma ReachClosed(s: set<Pair>, y: Name, us: set<Name>, x: Name)
    requires us == set u | u in Sources(s) && (u == y || LeadsTo(s, y, u))
    ensures Closed(s, us, x)
  {
    forall u, a | u in us && a in Sources(s) && (u, a) in s ensures a in us {
      LeadsEdge(s, u, a);
      if u != y {
        LeadsTrans(s, y, u, a);
      }
    }
  }

  /** Visits to what `y` leads to connect nothing else with it. */
  lemma ReachOnly(s: set<Pair>, y: Name, us: set<Name>, x: Name)
    requires us == set u | u in Sources(s) && (u == y || LeadsTo(s, y, u))
    requires x != y && Connected(TailsIn(s, us), x, y)
    ensures LeadsTo(s, y, x)
  {
    var path :| LinkPathFrom(TailsIn(s, us), path, x, y);
    assert Joined(TailsIn(s, us), path[0], path[1]);
    if (path[1], x) in TailsIn(s, us) {
      LeadsEdge(s, path[1], x);
      if path[1] != y {
        LeadsTrans(s, y, path[1], x);
      }
    }
  }

  lemma CleanPassesNeedLoopsCarried(g: CallGraph)
    requires g.Valid() && EveryPassOrderClean(g)
    ensures LoopsCarried(g)
  {
    ReachedStart(g);
    var p := PassTurn(g, [], Stage(g, {}));
    SourcesInGraph(g);
    forall us, e, d | CallEdge(false, g, e) && SilentEdge(false, g, d) && LoopBehind(SilentPairs(false, g), us, e, d)
      ensures exists f :: Carrier(g, us, d, f)
    {
      CarrierNeeded(g, [], p, us, e, d);
    }
  }

  // ----- exactly the collapsible graphs -----

  lemma VisitsCleanPassesClean(g: CallGraph)
    requires EveryVisitOrderClean(g)
    ensures EveryPassOrderClean(g)
  {
    forall log, p | Reached(g, log, p) ensures CleanRun(false, g, log) {
      ReachedIsVisitRun(g, log, p);
    }
  }

  /** For every graph: all orders of the vertices in the passes, and of the neighbours in the
      visits, are clean if and only if the graph is collapsible; and so they are if the visits
      need not come in passes. */
  lemma EveryOrderCleanIffCollapsible(g: CallGraph)
    requires g.Valid()
    ensures EveryPassOrderClean(g) <==> Collapsible(g)
    ensures EveryVisitOrderClean(g) <==> Collapsible(g)
  {
    if Collapsible(g) {
      forall log | VisitRun(g, log) ensures CleanRun(false, g, log) {
        CollapsibleRunIsClean(g, log);
      }
    }
    if EveryVisitOrderClean(g) {
      VisitsCleanPassesClean(g);
    }
    if EveryPassOrderClean(g) {
      CleanPassesNeedNoStraightCycle(g);
      CleanPassesNeedOneLabel(g);
      CleanPassesNeedCallsLeadBack(g);
      CleanPassesNeedLoopsCarried(g);
    }
  }

  /** If call edges join different components, collapsible means no straight cycle and one label. */
  lemma SeparatedIsCollapsible(g: CallGraph)
    requires g.Valid() && Separated(false, g)
    ensures Collapsible(g) <==> NoStraightCycle(SilentPairs(false, g)) && OneLabel(false, g)
  {
    var s := SilentPairs(false, g);
    forall us, e, d | CallEdge(false, g, e) && SilentEdge(false, g, d) ensures !LoopBehind(s, us, e, d) {
      if LoopBehind(s, us, e, d) {
        ConnectedMono(TailsIn(s, us), s, e.0, d.1);
        ConnectedMono(TailsIn(s, us), s, e.1, d.1);
        ConnectedSym(s, e.1, d.1);
        ConnectedTrans(s, e.0, d.1, e.1);
      }
    }
  }

  lemma {:induction false} AlongConcat(g: CallGraph, log: Log, more: Log)
    requires AlongSilent(false, g, log) && AlongSilent(false, Replay(g, log), more)
    ensures AlongSilent(false, g, log + more)
  {
    var whole := log + more;
    if more == [] {
      assert whole == log;
    } else {
      var k := |more| - 1;
      AlongConcat(g, log, more[..k]);
      ReplayConcat(g, log, more[..k]);
      assert whole[..|whole| - 1] == log + more[..k] && whole[|whole| - 1] == more[k];
    }
  }

  lemma {:induction false} VisitRunAlong(g: CallGraph, log: Log)
    requires g.Valid() && NoStraightCycle(SilentPairs(false, g)) && VisitRun(g, log)
    ensures AlongSilent(false, g, log)
    decreases |log|
  {
    if log != [] {
      var before, visit := LastVisit(g, log);
      VisitRunAlong(g, before);
      VisitRunIsProper(g, before);
      ReplayValid(g, before);
      var h, v := Replay(g, before), visit[0].0;
      assert (v, v) in SilentPairs(false, h) ==> (v, v).0 != (v, v).1;
      VisitGathers(h, visit);
      AlongConcat(g, before, visit);
    }
  }

  /** What merges one by one lose nothing of, visits lose nothing of. */
  lemma ContractibleIsCollapsible(g: CallGraph)
    requires g.Valid() && Contractible(false, g)
    ensures Collapsible(g)
  {
    EveryOrderCleanIffContractible(false, g);
    ForestHasNoStraightCycle(SilentPairs(false, g));
    forall log | VisitRun(g, log) ensures CleanRun(false, g, log) {
      VisitRunAlong(g, log);
    }
    EveryOrderCleanIffCollapsible(g);
  }
}
