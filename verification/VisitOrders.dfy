/** The orders of merging that the contraction of a function's graph can follow: visit
    after visit, and in one visit every control edge that leaves the vertex.  Exactly
    when no such order merges a vertex with itself. */
module VisitOrders {
  import opened CallGraphs
  import opened Connectivity
  import opened Trails
  import opened Contraction
  import opened MergeOrders

  /** All control edges that leave one vertex, each once, in some order. */
  ghost predicate IsVisit(g: CallGraph, visit: Log) {
    && visit != []
    && (forall i | 0 <= i < |visit| :: visit[i].0 == visit[0].0 && SilentEdge(false, g, visit[i]))
    && (forall e | SilentEdge(false, g, e) && e.0 == visit[0].0 :: e in visit)
    && (forall i, j | 0 <= i < j < |visit| :: visit[i] != visit[j])
  }

  /** Visit after visit. */
  ghost predicate VisitRun(g: CallGraph, log: Log)
    decreases |log|
  {
    log == [] ||
    exists before, visit :: |before| < |log| && VisitRun(g, before) && IsVisit(Replay(g, before), visit) &&
      log == before + visit
  }

  lemma {:induction false} ReplayConcat(g: CallGraph, log: Log, more: Log)
    ensures Replay(g, log + more) == Replay(Replay(g, log), more)
  {
    var whole := log + more;
    if more == [] {
      assert whole == log;
    } else {
      var k := |more| - 1;
      ReplayConcat(g, log, more[..k]);
      assert whole[..|whole| - 1] == log + more[..k] && whole[|whole| - 1] == more[k];
    }
  }

  lemma VisitSnoc(g: CallGraph, log: Log, visit: Log) returns (longer: Log)
    requires VisitRun(g, log) && IsVisit(Replay(g, log), visit)
    ensures longer == log + visit && VisitRun(g, longer)
    ensures Replay(g, longer) == Replay(Replay(g, log), visit)
  {
    longer := log + visit;
    ReplayConcat(g, log, visit);
  }

  // ----- one visit -----

  /** Merges of different vertices into `v`. */
  predicate Fan(v: Name, fan: Log) {
    && (forall i | 0 <= i < |fan| :: fan[i].0 == v && fan[i].1 != v)
    && (forall i, j | 0 <= i < j < |fan| :: fan[i] != fan[j])
  }

  lemma {:induction false} FanRep(v: Name, fan: Log, x: Name)
    requires Fan(v, fan)
    ensures Rep(fan, x) == if (v, x) in fan then v else x
  {
    if fan != [] {
      var k := |fan| - 1;
      FanRep(v, fan[..k], x);
      assert fan == fan[..k] + [fan[k]];
    }
  }

  /** As long as `v` is not merged with itself, all the edges of its visit are silent when their turn comes. */
  lemma {:induction false} FanAlong(g: CallGraph, v: Name, fan: Log)
    requires g.Valid() && Fan(v, fan) && forall i | 0 <= i < |fan| :: SilentEdge(false, g, fan[i])
    ensures AlongSilent(false, g, fan) && Replay(g, fan).Valid()
    ensures forall y | SilentEdge(false, g, (v, y)) && (v, y) !in fan :: SilentEdge(false, Replay(g, fan), (v, y))
  {
    ReplayValid(g, fan);
    if fan != [] {
      var k := |fan| - 1;
      FanAlong(g, v, fan[..k]);
      assert fan == fan[..k] + [fan[k]];
      var h := Replay(g, fan[..k]);
      forall y | SilentEdge(false, g, (v, y)) && (v, y) !in fan ensures SilentEdge(false, Replay(g, fan), (v, y)) {
        SilentEdgeStays(false, h, v, fan[k].1, y);
      }
    }
  }

  /** A silent pair after the visit was one before it, and is none of the merged ones. */
  lemma {:induction false} FanPreimage(g: CallGraph, v: Name, fan: Log, f: Pair) returns (e: Pair)
    requires g.Valid() && Fan(v, fan) && AlongSilent(false, g, fan)
    requires SilentEdge(false, Replay(g, fan), f)
    ensures SilentEdge(false, g, e) && e !in fan && (Rep(fan, e.0), Rep(fan, e.1)) == f
  {
    if fan == [] {
      e := f;
    } else {
      var k := |fan| - 1;
      ReplayValid(g, fan[..k]);
      var f' := MergePreimage(Replay(g, fan[..k]), v, fan[k].1, f);
      e := FanPreimage(g, v, fan[..k], f');
      LastOfFan(v, fan);
    }
  }

  /** The last pair of a fan is where it was until its turn comes. */
  lemma LastOfFan(v: Name, fan: Log)
    requires Fan(v, fan) && fan != []
    ensures var k := |fan| - 1; (Rep(fan[..k], v), Rep(fan[..k], fan[k].1)) == fan[k]
    ensures forall e :: e in fan <==> e in fan[..|fan| - 1] || e == fan[|fan| - 1]
  {
    var k := |fan| - 1;
    FanRep(v, fan[..k], v);
    FanRep(v, fan[..k], fan[k].1);
    assert fan == fan[..k] + [fan[k]];
  }

  // ----- graphs in which no vertex is ever merged with itself -----

  /** No cycle, directions ignored, runs straight through one of its vertices. */
  ghost predicate NoStraightCycle(s: set<Pair>) {
    && (forall e | e in s :: e.0 != e.1)
    && forall e, f | e in s && f in s && e.1 == f.0 :: !Connected(Avoiding(s, e.1), e.0, f.1)
  }

  lemma NotStraight(s: set<Pair>, x: Name, z: Name, y: Name)
    requires NoStraightCycle(s) && (x, z) in s && (z, y) in s
    ensures x != z && !Connected(Avoiding(s, z), x, y)
  {
    var e, f := (x, z), (z, y);
    assert e.0 != e.1 && !Connected(Avoiding(s, e.1), e.0, f.1);
  }

  /** Forests are such graphs. */
  lemma ForestHasNoStraightCycle(s: set<Pair>)
    requires Forest(s)
    ensures NoStraightCycle(s)
  {
    forall e | e in s ensures e.0 != e.1 {
      ForestNoLoop(s, e.0);
    }
    forall e, f | e in s && f in s && e.1 == f.0 ensures !Connected(Avoiding(s, e.1), e.0, f.1) {
      if Connected(Avoiding(s, e.1), e.0, f.1) {
        ConnectedMono(Avoiding(s, e.1), s - {e}, e.0, f.1);
        ConnectedEdge(s - {e}, f.1, f.0);
        ConnectedTrans(s - {e}, e.0, f.1, f.0);
      }
    }
  }

  /** `s'` comes from `s` by moving all vertices of `ns` to `v`; `ns` are all that `v` leads to. */
  ghost predicate Gathers(s: set<Pair>, v: Name, ns: set<Name>, s': set<Pair>) {
    && (forall y :: y in ns <==> (v, y) in s)
    && (forall f | f in s' :: exists e | e in s && e.0 != v :: Image(Gather(v, ns), e) == f)
  }

  function Targets(s: set<Pair>, v: Name): (ns: set<Name>)
    ensures forall y :: y in ns <==> (v, y) in s
  {
    var ns := set e | e in s && e.0 == v :: e.1;
    assert forall y | (v, y) in s :: (v, y).1 in ns;
    ns
  }

  function Gather(v: Name, ns: set<Name>): (rep: Name -> Name)
    ensures forall x :: rep(x) == if x in ns then v else x
  {
    x => if x in ns then v else x
  }

  /** Silent pairs in the middle of a visit of `v` whose gathered neighbours are `ns`. */
  ghost predicate PartGathered(s: set<Pair>, v: Name, ns: set<Name>, s': set<Pair>) {
    && (forall n | n in ns :: (v, n) in s)
    && forall f | f in s' :: exists e | e in s && (e.0 == v ==> e.1 !in ns) :: Image(Gather(v, ns), e) == f
  }

  lemma PartConnects(s: set<Pair>, v: Name, ns: set<Name>, s': set<Pair>, z: Name, x: Name, y: Name)
    requires forall n | n in ns :: (v, n) in s
    requires forall f | f in s' :: exists e | e in s :: Image(Gather(v, ns), e) == f
    requires z != v && z !in ns && Connected(Avoiding(s', z), Gather(v, ns)(x), Gather(v, ns)(y))
    ensures Connected(Avoiding(s, z), x, y)
  {
    var rep, t, t' := Gather(v, ns), Avoiding(s, z), Avoiding(s', z);
    forall a, b {:trigger rep(a), rep(b)} | rep(a) == rep(b) ensures Connected(t, a, b) {
      GatheredConnect(s, v, ns, z, a, b);
    }
    forall f | f in t' ensures exists e | e in t :: Image(rep, e) == f {
      var e :| e in s && Image(rep, e) == f;
      assert e in t;
    }
    LiftConnectedBy(t, t', rep, x, y);
  }

  lemma PartNoLoop(s: set<Pair>, v: Name, ns: set<Name>, s': set<Pair>, f: Pair)
    requires NoStraightCycle(s) && PartGathered(s, v, ns, s') && f in s'
    ensures f.0 != f.1
  {
    var e :| e in s && (e.0 == v ==> e.1 !in ns) && Image(Gather(v, ns), e) == f;
    if f.0 == f.1 {
      assert e.0 != e.1;
      NotStraight(s, v, e.0, e.1);
      var t := Avoiding(s, e.0);
      if e.1 == v {
        ConnectedSelf(t, v);
      } else {
        ConnectedEdge(t, v, e.1);
      }
    }
  }

  /** The pairs x -> y -> m were there before the gathering, but for x being gathered, too. */
  lemma PartStraight(s: set<Pair>, v: Name, ns: set<Name>, s': set<Pair>, x: Name, y: Name, m: Name)
    requires NoStraightCycle(s) && PartGathered(s, v, ns, s') && (x, y) in s' && (y, m) in s' && y != v
    ensures !Connected(Avoiding(s', y), x, m)
  {
    var rep := Gather(v, ns);
    var e :| e in s && (e.0 == v ==> e.1 !in ns) && Image(rep, e) == (x, y);
    var f :| f in s && (f.0 == v ==> f.1 !in ns) && Image(rep, f) == (y, m);
    NotStraight(s, e.0, y, f.1);
    if Connected(Avoiding(s', y), x, m) {
      PartConnects(s, v, ns, s', y, e.0, f.1);
    }
  }

  lemma GatheredConnect(s: set<Pair>, v: Name, ns: set<Name>, z: Name, x: Name, y: Name)
    requires forall n | n in ns :: (v, n) in s
    requires z != v && z !in ns && Gather(v, ns)(x) == Gather(v, ns)(y)
    ensures Connected(Avoiding(s, z), x, y)
  {
    var t := Avoiding(s, z);
    ConnectedSelf(t, x);
    if x in ns {
      ConnectedEdge(t, x, v);
    }
    if y in ns {
      ConnectedEdge(t, v, y);
    }
    if x in ns && y in ns {
      ConnectedTrans(t, x, v, y);
    }
  }

  /** Nor does one run straight through `v`: here it counts that a visit takes every edge of `v`. */
  lemma GatherHere(s: set<Pair>, v: Name, ns: set<Name>, s': set<Pair>, e: Pair, f: Pair)
    requires NoStraightCycle(s) && Gathers(s, v, ns, s') && e in s' && f in s' && e.1 == f.0 == v
    ensures !Connected(Avoiding(s', v), e.0, f.1)
  {
    var a := GatheredFrom(s, v, ns, s', e);
    var b := GatheredFrom(s, v, ns, s', f);
    var c := NotThrough(s, v, ns, a, b);
    GatherAvoids(s, v, ns, s', c);
    if Connected(Avoiding(s', v), e.0, f.1) {
      ConnectedMono(Avoiding(s', v), Avoiding(s, c), e.0, f.1);
    }
  }

  lemma GatheredFrom(s: set<Pair>, v: Name, ns: set<Name>, s': set<Pair>, f: Pair) returns (e: Pair)
    requires NoStraightCycle(s) && Gathers(s, v, ns, s') && f in s'
    ensures e in s && e.0 != v && f.0 != f.1
    ensures if e.0 in ns then f.0 == v else f.0 == e.0
    ensures if e.1 in ns + {v} then f.1 == v else f.1 == e.1
  {
    e :| e in s && e.0 != v && Image(Gather(v, ns), e) == f;
    PartNoLoop(s, v, ns, s', f);
  }

  /** Pairs into and out of what is gathered: one of the gathered vertices keeps their other ends apart. */
  lemma NotThrough(s: set<Pair>, v: Name, ns: set<Name>, a: Pair, b: Pair) returns (c: Name)
    requires NoStraightCycle(s) && (forall n | n in ns :: (v, n) in s)
    requires a in s && b in s && (a.1 == v || a.1 in ns) && b.0 in ns && a.0 !in ns + {v} && b.1 !in ns + {v}
    ensures (c == v || c in ns) && !Connected(Avoiding(s, c), a.0, b.1)
  {
    NotStraight(s, v, b.0, b.1);
    if a.1 == b.0 {
      c := a.1;
      NotStraight(s, a.0, a.1, b.1);
    } else if a.1 == v {
      c := v;
      NotStraight(s, a.0, v, b.0);
      ConnectedEdge(Avoiding(s, v), b.1, b.0);
      StepFront(Avoiding(s, v), a.0, b.1, b.0);
    } else {
      c := b.0;
      var t := Avoiding(s, b.0);
      ConnectedEdge(t, v, a.1);
      ConnectedEdge(t, a.1, a.0);
      ConnectedTrans(t, v, a.1, a.0);
      StepFront(t, v, a.0, b.1);
    }
  }

  lemma GatherAvoids(s: set<Pair>, v: Name, ns: set<Name>, s': set<Pair>, c: Name)
    requires Gathers(s, v, ns, s') && (c == v || c in ns)
    ensures Avoiding(s', v) <= Avoiding(s, c)
  {
    forall f | f in Avoiding(s', v) ensures f in Avoiding(s, c) {
      var e :| e in s && e.0 != v && Image(Gather(v, ns), e) == f;
      assert e == f;
    }
  }

  lemma GatherKeeps(s: set<Pair>, v: Name, ns: set<Name>, s': set<Pair>)
    requires NoStraightCycle(s) && Gathers(s, v, ns, s')
    ensures NoStraightCycle(s')
  {
    forall f | f in s' ensures f.0 != f.1 {
      PartNoLoop(s, v, ns, s', f);
    }
    forall e, f | e in s' && f in s' && e.1 == f.0 ensures !Connected(Avoiding(s', e.1), e.0, f.1) {
      if e.1 == v {
        GatherHere(s, v, ns, s', e, f);
      } else {
        PartStraight(s, v, ns, s', e.0, e.1, f.1);
      }
    }
  }

  /** A visit merges along silent edges, no vertex with itself, and gathers what its vertex leads to. */
  lemma VisitGathers(g: CallGraph, visit: Log)
    requires g.Valid() && IsVisit(g, visit) && (visit[0].0, visit[0].0) !in SilentPairs(false, g)
    ensures Fan(visit[0].0, visit) && Proper(visit) && AlongSilent(false, g, visit) && Replay(g, visit).Valid()
    ensures var v, s := visit[0].0, SilentPairs(false, g);
            Gathers(s, v, Targets(s, v), SilentPairs(false, Replay(g, visit)))
  {
    var v, s, s' := visit[0].0, SilentPairs(false, g), SilentPairs(false, Replay(g, visit));
    var ns := Targets(s, v);
    forall i | 0 <= i < |visit| ensures visit[i].0 == v && visit[i].1 != v && visit[i] in s {
      assert SilentEdge(false, g, visit[i]);
    }
    FanAlong(g, v, visit);
    forall f | f in s' ensures exists e | e in s && e.0 != v :: Image(Gather(v, ns), e) == f {
      var e := FanPreimage(g, v, visit, f);
      FanRep(v, visit, e.0);
      FanRep(v, visit, e.1);
      assert Image(Gather(v, ns), e) == f;
    }
  }

  lemma LastVisit(g: CallGraph, log: Log) returns (before: Log, visit: Log)
    requires VisitRun(g, log) && log != []
    ensures |before| < |log| && VisitRun(g, before) && IsVisit(Replay(g, before), visit) && log == before + visit
  {
    before, visit :| |before| < |log| && VisitRun(g, before) && IsVisit(Replay(g, before), visit) &&
      log == before + visit;
  }

  lemma ProperConcat(log: Log, more: Log)
    requires Proper(log) && Proper(more)
    ensures Proper(log + more)
  {
  }

  /** If no cycle of control edges runs straight through a vertex, then no order of visits
      ever merges a vertex with itself. */
  lemma {:induction false} VisitRunIsProper(g: CallGraph, log: Log)
    requires g.Valid() && NoStraightCycle(SilentPairs(false, g)) && VisitRun(g, log)
    ensures Proper(log) && NoStraightCycle(SilentPairs(false, Replay(g, log)))
    decreases |log|
  {
    if log != [] {
      var before, visit := LastVisit(g, log);
      VisitRunIsProper(g, before);
      ReplayValid(g, before);
      VisitKeepsNoStraightCycle(Replay(g, before), visit);
      ReplayConcat(g, before, visit);
      ProperConcat(before, visit);
    }
  }

  lemma VisitKeepsNoStraightCycle(g: CallGraph, visit: Log)
    requires g.Valid() && NoStraightCycle(SilentPairs(false, g)) && IsVisit(g, visit)
    ensures Proper(visit) && NoStraightCycle(SilentPairs(false, Replay(g, visit)))
  {
    var v, s := visit[0].0, SilentPairs(false, g);
    assert (v, v) in s ==> (v, v).0 != (v, v).1;
    VisitGathers(g, visit);
    GatherKeeps(s, v, Targets(s, v), SilentPairs(false, Replay(g, visit)));
  }

  // ----- and a straight cycle lets some order of visits go wrong -----

  /** All the control edges that leave `v`, those of `first` before the others. */
  lemma VisitStarting(g: CallGraph, v: Name, first: Log) returns (visit: Log)
    requires forall i | 0 <= i < |first| :: first[i].0 == v && SilentEdge(false, g, first[i])
    requires forall i, j | 0 <= i < j < |first| :: first[i] != first[j]
    requires exists e :: SilentEdge(false, g, e) && e.0 == v
    ensures IsVisit(g, visit) && visit[0].0 == v && first <= visit
  {
    var rest := set e | e in g.edges && Silent(false, g.edges[e]) && e.0 == v && e !in first;
    visit := first;
    ghost var all := rest;
    while rest != {}
      invariant first <= visit && rest <= all
      invariant forall i | 0 <= i < |visit| :: visit[i].0 == v && SilentEdge(false, g, visit[i]) && visit[i] !in rest
      invariant forall e | SilentEdge(false, g, e) && e.0 == v :: e in visit || e in rest
      invariant forall i, j | 0 <= i < j < |visit| :: visit[i] != visit[j]
      decreases rest
    {
      var e :| e in rest;
      visit, rest := visit + [e], rest - {e};
    }
  }

  lemma {:induction false} SilentKeptRun(user: bool, g: CallGraph, log: Log)
    requires SilentKept(user, g) && AlongSilent(user, g, log) && Proper(log)
    ensures SilentKept(user, Replay(g, log))
  {
    if log != [] {
      var k := |log| - 1;
      SilentKeptRun(user, g, log[..k]);
      SilentKeptMerge(user, Replay(g, log[..k]), log[k]);
    }
  }

  /** A silent edge whose ends do not become one is kept. */
  lemma {:induction false} SilentImage(user: bool, g: CallGraph, log: Log, e: Pair)
    requires SilentKept(user, g) && AlongSilent(user, g, log) && Proper(log)
    requires SilentEdge(user, g, e) && Rep(log, e.0) != Rep(log, e.1)
    ensures SilentEdge(user, Replay(g, log), (Rep(log, e.0), Rep(log, e.1)))
  {
    if log != [] {
      var k := |log| - 1;
      SilentImage(user, g, log[..k], e);
      SilentKeptRun(user, g, log[..k]);
      SilentKeptNow(user, Replay(g, log[..k]), log[k]);
    }
  }

  /** A loop stays at its vertex when others are merged into it. */
  lemma {:induction false} LoopStays(g: CallGraph, v: Name, fan: Log, k: nat)
    requires g.Valid() && Fan(v, fan) && k <= |fan| && SilentEdge(false, Replay(g, fan[..k]), (v, v))
    ensures SilentEdge(false, Replay(g, fan), (v, v))
    decreases |fan| - k
  {
    if k == |fan| {
      assert fan[..k] == fan;
    } else {
      ReplayValid(g, fan[..k]);
      CombineKeepsLoop(Replay(g, fan[..k]), v, fan[k].1);
      assert fan[..k + 1][..k] == fan[..k];
      LoopStays(g, v, fan, k + 1);
    }
  }

  lemma CombineKeepsLoop(g: CallGraph, l: Name, r: Name)
    requires g.Valid() && SilentEdge(false, g, (l, l)) && l != r
    ensures SilentEdge(false, Combine(g, l, r), (l, l))
  {
    if r in g.vertices {
      CombineEdges(g, l, r, (l, l));
    }
  }

  lemma ReplayOne(g: CallGraph, m: Pair)
    ensures Replay(g, [m]) == Combine(g, m.0, m.1)
  {
    assert [m][..0] == [] && Replay(g, []) == g;
  }

  lemma ReplayTwo(g: CallGraph, m1: Pair, m2: Pair)
    ensures Replay(g, [m1, m2]) == Combine(Combine(g, m1.0, m1.1), m2.0, m2.1)
  {
    ReplayOne(g, m1);
    ReplayOne(Combine(g, m1.0, m1.1), m2);
    ReplayConcat(g, [m1], [m2]);
    assert [m1] + [m2] == [m1, m2];
  }

  /** u -> z -> u: merging z into u makes a loop. */
  lemma LoopFromPair(g: CallGraph, u: Name, z: Name)
    requires SilentKept(false, g) && u != z && SilentEdge(false, g, (u, z)) && SilentEdge(false, g, (z, u))
    ensures SilentEdge(false, Combine(g, u, z), (u, u))
  {
    SilentKeptNow(false, g, (u, z));
    assert MovedPair(u, z, (z, u)) == (u, u);
  }

  /** u -> z -> y and u -> y: merging first y into u and then z makes a loop. */
  lemma LoopFromTriangle(g: CallGraph, u: Name, z: Name, y: Name)
    requires SilentKept(false, g) && u != z && u != y && z != y
    requires SilentEdge(false, g, (u, z)) && SilentEdge(false, g, (z, y)) && SilentEdge(false, g, (u, y))
    ensures SilentEdge(false, Replay(g, [(u, y), (u, z)]), (u, u))
  {
    var h := Combine(g, u, y);
    SilentKeptNow(false, g, (u, y));
    SilentKeptMerge(false, g, (u, y));
    assert MovedPair(u, y, (z, y)) == (z, u) && MovedPair(u, y, (u, z)) == (u, z);
    LoopFromPair(h, u, z);
    ReplayTwo(g, (u, y), (u, z));
  }

  /** A visit of `u` that makes a loop of the edges u -> z and z -> y: y is u, or is merged into u before z. */
  lemma LoopMade(g: CallGraph, u: Name, z: Name, y: Name) returns (visit: Log)
    requires g.Valid() && SilentKept(false, g) && forall e | SilentEdge(false, g, e) :: e.0 != e.1
    requires SilentEdge(false, g, (u, z)) && SilentEdge(false, g, (z, y)) && (u == y || SilentEdge(false, g, (u, y)))
    ensures IsVisit(g, visit) && visit[0].0 == u && SilentEdge(false, Replay(g, visit), (u, u))
  {
    var first := if u == y then [(u, z)] else [(u, y), (u, z)];
    assert (u, z).0 != (u, z).1 && (z, y).0 != (z, y).1;
    if u == y {
      LoopFromPair(g, u, z);
      ReplayOne(g, (u, z));
    } else {
      assert (u, y).0 != (u, y).1;
      LoopFromTriangle(g, u, z, y);
    }
    visit := VisitStarting(g, u, first);
    assert visit[..|first|] == first;
    LoopInVisit(g, visit, |first|);
  }

  lemma LoopInVisit(g: CallGraph, visit: Log, k: nat)
    requires g.Valid() && IsVisit(g, visit) && (visit[0].0, visit[0].0) !in SilentPairs(false, g)
    requires k <= |visit| && SilentEdge(false, Replay(g, visit[..k]), (visit[0].0, visit[0].0))
    ensures SilentEdge(false, Replay(g, visit), (visit[0].0, visit[0].0))
  {
    VisitGathers(g, visit);
    LoopStays(g, visit[0].0, visit, k);
  }

  /** A cycle straight through `z` is still there after a visit of a vertex that does not lead to `z`. */
  lemma CycleStays(g: CallGraph, x: Name, z: Name, y: Name, visit: Log)
    requires g.Valid() && SilentKept(false, g) && forall e | SilentEdge(false, g, e) :: e.0 != e.1
    requires SilentEdge(false, g, (x, z)) && SilentEdge(false, g, (z, y)) &&
             Connected(Avoiding(SilentPairs(false, g), z), x, y)
    requires IsVisit(g, visit) && visit[0].0 != z && (visit[0].0, z) !in SilentPairs(false, g)
    ensures !NoStraightCycle(SilentPairs(false, Replay(g, visit)))
  {
    var v, s, s' := visit[0].0, SilentPairs(false, g), SilentPairs(false, Replay(g, visit));
    assert (v, v) in s ==> (v, v).0 != (v, v).1;
    assert (x, z).0 != (x, z).1 && (z, y).0 != (z, y).1;
    var rep := Gather(v, Targets(s, v));
    forall e | e in s && rep(e.0) != rep(e.1) ensures Image(rep, e) in s' {
      VisitImage(g, visit, e);
    }
    CycleMoves(s, s', rep, x, z, y);
  }

  lemma CycleMoves(s: set<Pair>, s': set<Pair>, rep: Name -> Name, x: Name, z: Name, y: Name)
    requires (x, z) in s && (z, y) in s && x != z && y != z && Connected(Avoiding(s, z), x, y)
    requires forall a {:trigger rep(a)} :: rep(a) == z <==> a == z
    requires forall e | e in s && rep(e.0) != rep(e.1) :: Image(rep, e) in s'
    ensures !NoStraightCycle(s')
  {
    MapConnectedBy(Avoiding(s, z), Avoiding(s', z), rep, x, y);
    var a, b := Image(rep, (x, z)), Image(rep, (z, y));
    assert a in s' && b in s' && a.1 == b.0;
  }

  lemma VisitImage(g: CallGraph, visit: Log, e: Pair)
    requires g.Valid() && SilentKept(false, g) && IsVisit(g, visit) &&
             (visit[0].0, visit[0].0) !in SilentPairs(false, g)
    requires var rep := Gather(visit[0].0, Targets(SilentPairs(false, g), visit[0].0));
             SilentEdge(false, g, e) && rep(e.0) != rep(e.1)
    ensures SilentEdge(false, Replay(g, visit),
            Image(Gather(visit[0].0, Targets(SilentPairs(false, g), visit[0].0)), e))
  {
    VisitGathers(g, visit);
    VisitRep(g, visit, e.0);
    VisitRep(g, visit, e.1);
    SilentImage(false, g, visit, e);
  }

  lemma VisitRep(g: CallGraph, visit: Log, x: Name)
    requires g.Valid() && IsVisit(g, visit) && Fan(visit[0].0, visit)
    ensures Rep(visit, x) == Gather(visit[0].0, Targets(SilentPairs(false, g), visit[0].0))(x)
  {
    FanRep(visit[0].0, visit, x);
    assert (visit[0].0, x).0 == visit[0].0;
  }

  lemma StraightCycle(s: set<Pair>) returns (x: Name, z: Name, y: Name)
    requires !NoStraightCycle(s) && forall e | e in s :: e.0 != e.1
    ensures (x, z) in s && (z, y) in s && Connected(Avoiding(s, z), x, y)
  {
    var e, f :| e in s && f in s && e.1 == f.0 && Connected(Avoiding(s, e.1), e.0, f.1);
    x, z, y := e.0, e.1, f.1;
  }

  /** Only `z` and what leads to `z` has control edges: then y leads back to z, or some
      vertex leads to both z and y. */
  lemma ShortCycle(s: set<Pair>, x: Name, z: Name, y: Name) returns (u: Name, w: Name)
    requires (x, z) in s && (z, y) in s && (forall e | e in s :: e.0 != e.1) && Connected(Avoiding(s, z), x, y)
    requires forall e | e in s :: e.0 == z || (e.0, z) in s
    ensures (u, z) in s && (z, w) in s && (u == w || (u, w) in s)
  {
    var t := Avoiding(s, z);
    w := y;
    if (y, z) in s {
      u := y;
    } else {
      ConnectedSym(t, x, y);
      var p :| LinkPathFrom(t, p, y, x);
      assert Joined(t, p[0], p[1]);
      u := p[1];
      assert (z, y).0 != (z, y).1;
      assert (y, u) in s ==> (y, u).0 == z || ((y, u).0, z) in s;
      assert (u, y) in s ==> (u, y).0 == z || ((u, y).0, z) in s;
    }
  }

  lemma CombineShrinks(g: CallGraph, log: Log)
    requires g.Valid() && log != [] && AlongSilent(false, g, log)
    ensures |Replay(g, log).vertices| < |g.vertices|
  {
    var k := |log| - 1;
    ReplayValid(g, log[..k]);
    CombineCounts(Replay(g, log[..k]), log[k].0, log[k].1);
    if k > 0 {
      CombineShrinks(g, log[..k]);
    }
  }

  lemma HarmlessVisit(g: CallGraph, x: Name, z: Name, y: Name, v: Name) returns (visit: Log)
    requires g.Valid() && SilentKept(false, g) && forall e | SilentEdge(false, g, e) :: e.0 != e.1
    requires SilentEdge(false, g, (x, z)) && SilentEdge(false, g, (z, y)) &&
             Connected(Avoiding(SilentPairs(false, g), z), x, y)
    requires v != z && (v, z) !in SilentPairs(false, g) && exists e :: SilentEdge(false, g, e) && e.0 == v
    ensures IsVisit(g, visit)
    ensures var h := Replay(g, visit);
            h.Valid() && SilentKept(false, h) && |h.vertices| < |g.vertices| && !NoStraightCycle(SilentPairs(false, h))
  {
    visit := VisitStarting(g, v, []);
    CycleStays(g, x, z, y, visit);
    assert (v, v) in SilentPairs(false, g) ==> (v, v).0 != (v, v).1;
    VisitGathers(g, visit);
    SilentKeptRun(false, g, visit);
    CombineShrinks(g, visit);
  }

  /** A visit that makes a loop, or leaves a smaller graph with a straight cycle. */
  lemma CloserVisit(g: CallGraph) returns (visit: Log)
    requires g.Valid() && SilentKept(false, g) && !NoStraightCycle(SilentPairs(false, g))
    requires forall e | SilentEdge(false, g, e) :: e.0 != e.1
    ensures IsVisit(g, visit)
    ensures var h := Replay(g, visit);
            || SilentEdge(false, h, (visit[0].0, visit[0].0))
            || (h.Valid() && SilentKept(false, h) && |h.vertices| < |g.vertices| &&
              !NoStraightCycle(SilentPairs(false, h)))
  {
    var s := SilentPairs(false, g);
    var x, z, y := StraightCycle(s);
    if e :| e in s && e.0 != z && (e.0, z) !in s {
      visit := HarmlessVisit(g, x, z, y, e.0);
    } else {
      var u, w := ShortCycle(s, x, z, y);
      visit := LoopMade(g, u, z, w);
    }
  }

  /** A run that leads to a graph with a straight cycle can be continued until a vertex is merged with itself. */
  lemma {:induction false} BadVisits(g: CallGraph, log: Log) returns (longer: Log)
    requires g.Valid() && VisitRun(g, log) && Replay(g, log).Valid()
    requires SilentKept(false, Replay(g, log)) && !NoStraightCycle(SilentPairs(false, Replay(g, log)))
    ensures VisitRun(g, longer) && !Proper(longer)
    decreases |Replay(g, log).vertices|
  {
    var h, s := Replay(g, log), SilentPairs(false, Replay(g, log));
    if e :| e in s && e.0 == e.1 {
      longer := LoopVisit(g, log, e.0);
      return;
    }
    var visit := CloserVisit(h);
    longer := VisitSnoc(g, log, visit);
    if SilentEdge(false, Replay(g, longer), (visit[0].0, visit[0].0)) {
      longer := LoopVisit(g, longer, visit[0].0);
    } else {
      longer := BadVisits(g, longer);
    }
  }

  lemma LoopVisit(g: CallGraph, log: Log, v: Name) returns (longer: Log)
    requires VisitRun(g, log) && SilentEdge(false, Replay(g, log), (v, v))
    ensures VisitRun(g, longer) && !Proper(longer)
  {
    assert (v, v).0 == v;
    var visit := VisitStarting(Replay(g, log), v, [(v, v)]);
    longer := VisitSnoc(g, log, visit);
    assert longer[|log|] == visit[0] == (v, v);
  }

  ghost predicate EveryVisitOrderProper(g: CallGraph) {
    forall log :: VisitRun(g, log) ==> Proper(log)
  }

  /** On a graph whose call edges join different components, every order of visits is
      proper if and only if no cycle of control edges runs straight through a vertex. */
  lemma EveryVisitOrderProperIff(g: CallGraph)
    requires g.Valid() && Separated(false, g)
    ensures EveryVisitOrderProper(g) <==> NoStraightCycle(SilentPairs(false, g))
  {
    if NoStraightCycle(SilentPairs(false, g)) {
      forall log | VisitRun(g, log) ensures Proper(log) {
        VisitRunIsProper(g, log);
      }
    } else {
      SeparatedIsKept(false, g);
      assert Replay(g, []) == g;
      var log := BadVisits(g, []);
    }
  }
}
