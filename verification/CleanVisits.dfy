/** Which graphs the contraction loses nothing of, whatever the order of the vertices and
    of their neighbours: the condition, and that it suffices. */
module CleanVisits {
  import opened CallGraphs
  import opened Connectivity
  import opened Trails
  import opened Contraction
  import opened MergeOrders
  import opened VisitOrders

  // ----- the condition -----

  /** The pairs that start at one of the vertices: what visits to them merge. */
  ghost function TailsIn(s: set<Pair>, us: set<Name>): set<Pair> {
    set e | e in s && e.0 in us
  }

  /** From the target of a call inside a component control edges lead back to its source. */
  ghost predicate CallsLeadBack(g: CallGraph) {
    forall e | CallEdge(false, g, e) && Connected(SilentPairs(false, g), e.0, e.1) ::
      e.0 == e.1 || LeadsTo(SilentPairs(false, g), e.1, e.0)
  }

  /** Visits to `us` make a loop of `e` at the target of `d`, and leave the source of `d` alone. */
  ghost predicate LoopBehind(s: set<Pair>, us: set<Name>, e: Pair, d: Pair) {
    var t := TailsIn(s, us);
    Connected(t, e.0, d.1) && Connected(t, e.1, d.1) && !Connected(t, d.0, d.1)
  }

  /** A call edge into the source of `d`, from there or from what has become the target of `d`. */
  ghost predicate Carrier(g: CallGraph, us: set<Name>, d: Pair, f: Pair) {
    CallEdge(false, g, f) && f.1 == d.0 && (f.0 == d.0 || Connected(TailsIn(SilentPairs(false, g), us), f.0, d.1))
  }

  /** Whatever vertices are visited first, a call that has become a loop behind a control
      edge is carried over it. */
  ghost predicate LoopsCarried(g: CallGraph) {
    forall us, e, d | CallEdge(false, g, e) && SilentEdge(false, g, d) && LoopBehind(SilentPairs(false, g), us, e, d) ::
      exists f :: Carrier(g, us, d, f)
  }

  /** Graphs that visits contract without loss, in whatever order. */
  ghost predicate Collapsible(g: CallGraph) {
    && NoStraightCycle(SilentPairs(false, g)) && OneLabel(false, g)
    && CallsLeadBack(g) && LoopsCarried(g)
  }

  ghost predicate EveryVisitOrderClean(g: CallGraph) {
    forall log :: VisitRun(g, log) ==> CleanRun(false, g, log)
  }

  // ----- clean runs -----

  lemma {:induction false} CleanConcat(g: CallGraph, log: Log, more: Log)
    requires CleanRun(false, g, log) && CleanRun(false, Replay(g, log), more)
    ensures CleanRun(false, g, log + more)
  {
    if more == [] {
      assert log + more == log;
    } else {
      var first, m := CleanLast(Replay(g, log), more);
      CleanConcat(g, log, first);
      ReplayConcat(g, log, first);
      CleanSnoc(g, log + first, m, log + more);
    }
  }

  lemma CleanLast(g: CallGraph, log: Log) returns (first: Log, m: Pair)
    requires CleanRun(false, g, log) && log != []
    ensures log == first + [m] && CleanRun(false, g, first)
    ensures SilentEdge(false, Replay(g, first), m) && Clean(Replay(g, first), m.0, m.1)
  {
    first, m := log[..|log| - 1], log[|log| - 1];
  }

  lemma CleanSnoc(g: CallGraph, log: Log, m: Pair, whole: Log)
    requires CleanRun(false, g, log) && SilentEdge(false, Replay(g, log), m) && Clean(Replay(g, log), m.0, m.1)
    requires whole == log + [m]
    ensures CleanRun(false, g, whole)
  {
    assert whole[..|log|] == log;
  }

  lemma {:induction false} CleanSuffix(g: CallGraph, log: Log, more: Log)
    requires CleanRun(false, g, log + more)
    ensures CleanRun(false, g, log) && CleanRun(false, Replay(g, log), more)
  {
    var whole := log + more;
    if more == [] {
      assert whole == log;
    } else {
      var k := |more| - 1;
      assert whole[..|whole| - 1] == log + more[..k] && whole[|whole| - 1] == more[k];
      CleanSuffix(g, log, more[..k]);
      ReplayConcat(g, log, more[..k]);
    }
  }

  // ----- in the middle of a visit -----

  /** No path from `y` back to y, nor one that avoids y and joins what y leads to with `v`. */
  ghost predicate Away(s: set<Pair>, v: Name, y: Name) {
    !LeadsTo(s, y, y) && forall m | (y, m) in s :: !Connected(Avoiding(s, y), v, m)
  }

  lemma AwayLeads(s: set<Pair>, v: Name, y: Name, b: Name)
    requires Away(s, v, y) && (v, y) in s && (b == v || (v, b) in s)
    ensures !LeadsTo(s, y, b)
  {
    if LeadsTo(s, y, b) && b != y {
      var m := LeadsLeaves(s, y, b);
      var t := Avoiding(s, y);
      ConnectedSym(t, m, b);
      if v == y {
        LeadsEdge(s, y, y);
      } else if b != v {
        ConnectedEdge(t, v, b);
        ConnectedTrans(t, v, b, m);
      }
    }
  }

  /** What is known while `v` is being visited. */
  ghost predicate MidVisit(g: CallGraph, v: Name) {
    && g.Valid() && OneLabel(false, g) && CallsLeadBack(g)
    && (forall e | SilentEdge(false, g, e) :: e.0 != e.1)
    && forall y | (v, y) in SilentPairs(false, g) :: Away(SilentPairs(false, g), v, y)
  }

  /** A call edge and a control edge do not fall together, as the target of the call leads to its source. */
  lemma NoMixedMerge(g: CallGraph, v: Name, n: Name, a: Pair, b: Pair)
    requires MidVisit(g, v) && SilentEdge(false, g, (v, n)) && SilentEdge(false, g, a) && a != (v, n) &&
             CallEdge(false, g, b)
    ensures MovedPair(v, n, a) != MovedPair(v, n, b)
  {
    if MovedPair(v, n, a) == MovedPair(v, n, b) {
      var s := SilentPairs(false, g);
      SilentConnects(false, g, a);
      SilentEndsConnected(false, g, v, n, b.0, a.0);
      SilentEndsConnected(false, g, v, n, a.1, b.1);
      ConnectedTrans(s, b.0, a.0, a.1);
      ConnectedTrans(s, b.0, a.1, b.1);
      assert (v, n) in s && a in s;
      AwayLeads(s, v, n, v);
      LeadsEdge(s, a.0, a.1);
      LeadsEdge(s, v, n);
      assert Away(s, v, n);
      if b.0 != b.1 && a.0 != b.0 && b.0 == v {
        if a.1 == b.1 && a.1 != v {
          LeadsTrans(s, n, a.1, v);
        }
      } else if b.0 != b.1 && a.0 != b.0 {
        assert a.0 == v && b == (n, a.1);
        AwayLeads(s, v, a.1, n);
      } else if b.0 != b.1 && a.1 == v {
        LeadsTrans(s, n, a.0, v);
      } else if b.0 != b.1 {
        assert a == (a.0, n) && b == (a.0, v);
        var y := LeadsFirst(s, v, a.0);
        if y != a.0 {
          LeadsTrans(s, y, a.0, n);
        }
        AwayLeads(s, v, y, n);
      }
    }
  }

  lemma CallsLeadBackMerge(g: CallGraph, l: Name, r: Name)
    requires g.Valid() && CallsLeadBack(g) && SilentEdge(false, g, (l, r)) && Clean(g, l, r)
    ensures CallsLeadBack(Combine(g, l, r))
  {
    var h := Combine(g, l, r);
    var s, s' := SilentPairs(false, g), SilentPairs(false, h);
    CleanMergesSilent(false, g, l, r);
    forall f | CallEdge(false, h, f) && Connected(s', f.0, f.1) ensures f.0 == f.1 || LeadsTo(s', f.1, f.0) {
      var e := CallPreimage(false, g, l, r, f);
      MergeConnects(s, l, r, s', e.0, e.1);
      if e.0 != e.1 && (e.1, e.0) != (l, r) {
        LeadsMerge(s, l, r, s', e.1, e.0);
      }
    }
  }

  /** After some merges of a visit of `v`: where the silent pairs come from. */
  lemma PartPreimage(g: CallGraph, v: Name, fan: Log, ns: set<Name>, f: Pair) returns (e: Pair)
    requires g.Valid() && Fan(v, fan) && AlongSilent(false, g, fan) && forall y :: y in ns <==> (v, y) in fan
    requires SilentEdge(false, Replay(g, fan), f)
    ensures SilentEdge(false, g, e) && e !in fan && Image(Gather(v, ns), e) == f
  {
    e := FanPreimage(g, v, fan, f);
    FanRep(v, fan, e.0);
    FanRep(v, fan, e.1);
  }

  lemma PartAway(s: set<Pair>, v: Name, ns: set<Name>, s': set<Pair>, y: Name)
    requires NoStraightCycle(s) && PartGathered(s, v, ns, s') && (v, y) in s'
    ensures Away(s', v, y)
  {
    PartNoLoop(s, v, ns, s', (v, y));
    forall m | (y, m) in s' ensures !Connected(Avoiding(s', y), v, m) {
      PartStraight(s, v, ns, s', v, y, m);
    }
    if LeadsTo(s', y, y) {
      var k := LeadsLast(s', y, y);
      PartNoLoop(s, v, ns, s', (k, y));
      var m := LeadsLeaves(s', y, k);
      ConnectedSym(Avoiding(s', y), m, k);
      PartStraight(s, v, ns, s', k, y, m);
    }
  }

  /** Up to any of its merges, a visit is clean. */
  lemma {:induction false} FanIsClean(g: CallGraph, v: Name, fan: Log)
    requires g.Valid() && Collapsible(g) && Fan(v, fan) && forall i | 0 <= i < |fan| :: SilentEdge(false, g, fan[i])
    ensures CleanRun(false, g, fan) && MidVisit(Replay(g, fan), v)
  {
    FanAlong(g, v, fan);
    if fan == [] {
      VisitBegins(g, v);
    } else {
      var k := |fan| - 1;
      var first, n := fan[..k], fan[k].1;
      var h := Replay(g, first);
      FanIsClean(g, v, first);
      LastOfFan(v, fan);
      FanLoopKept(g, v, first, n);
      MidMergeIsClean(h, v, n);
      OneLabelMerge(false, h, v, n);
      CallsLeadBackMerge(h, v, n);
      FanMid(g, v, fan);
    }
  }

  lemma VisitBegins(g: CallGraph, v: Name)
    requires g.Valid() && Collapsible(g)
    ensures MidVisit(g, v)
  {
    assert Replay(g, []) == g;
    FanMid(g, v, []);
  }

  function Merged(v: Name, fan: Log): (ns: set<Name>)
    requires Fan(v, fan)
    ensures forall y :: y in ns <==> (v, y) in fan
  {
    var ns := set m | m in fan :: m.1;
    assert forall y | (v, y) in fan :: (v, y).1 in ns;
    ns
  }

  lemma FanGathers(g: CallGraph, v: Name, fan: Log)
    requires g.Valid() && Fan(v, fan) && AlongSilent(false, g, fan)
    requires forall i | 0 <= i < |fan| :: SilentEdge(false, g, fan[i])
    ensures PartGathered(SilentPairs(false, g), v, Merged(v, fan), SilentPairs(false, Replay(g, fan)))
  {
    var s, s', ns := SilentPairs(false, g), SilentPairs(false, Replay(g, fan)), Merged(v, fan);
    forall f | f in s' ensures exists e | e in s && (e.0 == v ==> e.1 !in ns) :: Image(Gather(v, ns), e) == f {
      var e := PartPreimage(g, v, fan, ns, f);
      assert e in s;
    }
  }

  /** What the gathering makes of the silent pairs. */
  lemma FanMid(g: CallGraph, v: Name, fan: Log)
    requires g.Valid() && Collapsible(g) && Fan(v, fan) && AlongSilent(false, g, fan)
    requires forall i | 0 <= i < |fan| :: SilentEdge(false, g, fan[i])
    ensures var s' := SilentPairs(false, Replay(g, fan));
            (forall e | e in s' :: e.0 != e.1) && (forall y | (v, y) in s' :: Away(s', v, y))
  {
    var s, s', ns := SilentPairs(false, g), SilentPairs(false, Replay(g, fan)), Merged(v, fan);
    FanGathers(g, v, fan);
    forall e | e in s' ensures e.0 != e.1 {
      PartNoLoop(s, v, ns, s', e);
    }
    forall y | (v, y) in s' ensures Away(s', v, y) {
      PartAway(s, v, ns, s', y);
    }
  }

  lemma MidMergeIsClean(g: CallGraph, v: Name, n: Name)
    requires MidVisit(g, v) && SilentEdge(false, g, (v, n)) && v != n && LoopKept(g, v, n)
    ensures Clean(g, v, n)
  {
    forall e, f | e in g.edges && f in g.edges && e != (v, n) && f != (v, n) && MovedPair(v, n, e) == MovedPair(v, n, f)
      ensures g.edges[e] == g.edges[f]
    {
      SilentEndsConnected(false, g, v, n, e.0, f.0);
      SilentEndsConnected(false, g, v, n, e.1, f.1);
      if SilentEdge(false, g, e) && CallEdge(false, g, f) {
        NoMixedMerge(g, v, n, e, f);
      }
      if SilentEdge(false, g, f) && CallEdge(false, g, e) {
        NoMixedMerge(g, v, n, f, e);
      }
    }
  }

  /** The loop of a neighbour was there before the visit, and something carries it. */
  lemma FanLoopKept(g: CallGraph, v: Name, fan: Log, n: Name)
    requires g.Valid() && Collapsible(g) && Fan(v, fan) && CleanRun(false, g, fan) && MidVisit(Replay(g, fan), v)
    requires SilentEdge(false, g, (v, n)) && v != n && (v, n) !in fan
    ensures LoopKept(Replay(g, fan), v, n)
  {
    var h := Replay(g, fan);
    if (n, n) in h.edges {
      CleanRunIsProper(false, g, fan);
      var e := EdgePreimage(false, g, fan, (n, n));
      FanRep(v, fan, e.0);
      FanRep(v, fan, e.1);
      assert CallEdge(false, g, e);
      LoopAlone(SilentPairs(false, g), v, n);
      var f :| Carrier(g, {}, (v, n), f);
      NothingIn(SilentPairs(false, g), f.0, n);
      FanRep(v, fan, v);
      FanRep(v, fan, n);
      CleanEdgeImage(false, g, fan, f);
    }
  }

  lemma NothingIn(s: set<Pair>, x: Name, y: Name)
    ensures Connected(TailsIn(s, {}), x, y) <==> x == y
  {
    assert TailsIn(s, {}) == {};
    NothingConnected(x);
  }

  lemma LoopAlone(s: set<Pair>, v: Name, n: Name)
    requires v != n
    ensures LoopBehind(s, {}, (n, n), (v, n))
  {
    NothingIn(s, n, n);
    NothingIn(s, v, n);
  }

  // ----- after a visit -----

  /** A visit of `v` makes `s'` of `s`: every pair with two different ends left is kept. */
  ghost predicate GathersAll(s: set<Pair>, v: Name, ns: set<Name>, s': set<Pair>) {
    Gathers(s, v, ns, s') && forall e | e in s && Gather(v, ns)(e.0) != Gather(v, ns)(e.1) ::
      Image(Gather(v, ns), e) in s'
  }

  /** The vertices whose visits connect before a visit of `v` what those to `us'` connect after it. */
  ghost function Before(s: set<Pair>, v: Name, ns: set<Name>, us': set<Name>): set<Name> {
    set e | e in s && (e.0 == v || Gather(v, ns)(e.0) in us') :: e.0
  }

  lemma TailsAfter(s: set<Pair>, v: Name, ns: set<Name>, s': set<Pair>, us': set<Name>, x: Name, y: Name)
    requires GathersAll(s, v, ns, s')
    ensures var rep := Gather(v, ns);
            Connected(TailsIn(s', us'), rep(x), rep(y)) <==> Connected(TailsIn(s, Before(s, v, ns, us')), x, y)
  {
    var rep, us := Gather(v, ns), Before(s, v, ns, us');
    var t, t' := TailsIn(s, us), TailsIn(s', us');
    if Connected(t, x, y) {
      forall e | e in t ensures rep(e.0) == rep(e.1) || Image(rep, e) in t' {
        if e.0 == v {
          assert e.1 in ns;
        }
      }
      MapConnectedBy(t, t', rep, x, y);
    }
    if Connected(t', rep(x), rep(y)) {
      forall a, b {:trigger rep(a), rep(b)} | rep(a) == rep(b) ensures Connected(t, a, b) {
        StarConnects(s, v, ns, us, a, b);
      }
      forall f | f in t' ensures exists e | e in t :: Image(rep, e) == f {
        var e :| e in s && e.0 != v && Image(rep, e) == f;
        assert e in t;
      }
      LiftConnectedBy(t, t', rep, x, y);
    }
  }

  lemma StarConnects(s: set<Pair>, v: Name, ns: set<Name>, us: set<Name>, a: Name, b: Name)
    requires forall n | n in ns :: (v, n) in s && (v, n).0 in us
    requires Gather(v, ns)(a) == Gather(v, ns)(b)
    ensures Connected(TailsIn(s, us), a, b)
  {
    var t := TailsIn(s, us);
    ConnectedSelf(t, a);
    if a in ns {
      ConnectedEdge(t, a, v);
    }
    if b in ns {
      ConnectedEdge(t, v, b);
    }
    if a in ns && b in ns {
      ConnectedTrans(t, a, v, b);
    }
  }

  /** A clean visit in terms of `Gather`. */
  lemma CleanVisitGathers(g: CallGraph, visit: Log)
    requires g.Valid() && IsVisit(g, visit) && CleanRun(false, g, visit)
    ensures var v, s := visit[0].0, SilentPairs(false, g);
            Fan(v, visit) && GathersAll(s, v, Targets(s, v), SilentPairs(false, Replay(g, visit)))
    ensures forall x :: Rep(visit, x) == Gather(visit[0].0, Targets(SilentPairs(false, g), visit[0].0))(x)
  {
    var v, s := visit[0].0, SilentPairs(false, g);
    CleanRunIsProper(false, g, visit);
    assert (v, v) !in visit;
    assert SilentEdge(false, g, (v, v)) ==> (v, v).0 == v;
    VisitGathers(g, visit);
    forall x ensures Rep(visit, x) == Gather(v, Targets(s, v))(x) {
      VisitRep(g, visit, x);
    }
    forall e | e in s && Gather(v, Targets(s, v))(e.0) != Gather(v, Targets(s, v))(e.1)
      ensures Image(Gather(v, Targets(s, v)), e) in SilentPairs(false, Replay(g, visit))
    {
      CleanEdgeImage(false, g, visit, e);
    }
  }

  lemma CallAfter(g: CallGraph, visit: Log, f: Pair)
    requires g.Valid() && CleanRun(false, g, visit) && CallEdge(false, g, f)
    ensures CallEdge(false, Replay(g, visit), (Rep(visit, f.0), Rep(visit, f.1)))
  {
    CleanEdgeImage(false, g, visit, f);
  }

  lemma CallBefore(g: CallGraph, visit: Log, f: Pair) returns (e: Pair)
    requires g.Valid() && CleanRun(false, g, visit) && CallEdge(false, Replay(g, visit), f)
    ensures CallEdge(false, g, e) && (Rep(visit, e.0), Rep(visit, e.1)) == f
  {
    CleanRunIsProper(false, g, visit);
    e := EdgePreimage(false, g, visit, f);
  }

  lemma SilentBefore(g: CallGraph, visit: Log, d': Pair) returns (d: Pair)
    requires g.Valid() && CleanRun(false, g, visit) && SilentEdge(false, Replay(g, visit), d')
    ensures SilentEdge(false, g, d) && (Rep(visit, d.0), Rep(visit, d.1)) == d'
  {
    CleanRunIsProper(false, g, visit);
    d := EdgePreimage(false, g, visit, d');
  }

  lemma LoopsCarriedVisit(g: CallGraph, visit: Log)
    requires g.Valid() && LoopsCarried(g) && IsVisit(g, visit) && CleanRun(false, g, visit)
    ensures LoopsCarried(Replay(g, visit))
  {
    var h := Replay(g, visit);
    forall us', e', d' | CallEdge(false, h, e') && SilentEdge(false, h, d') &&
           LoopBehind(SilentPairs(false, h), us', e', d')
      ensures exists f' :: Carrier(h, us', d', f')
    {
      var e := CallBefore(g, visit, e');
      var d := SilentBefore(g, visit, d');
      var f' := CarrierAfter(g, visit, us', e, d);
    }
  }

  lemma CarrierAfter(g: CallGraph, visit: Log, us': set<Name>, e: Pair, d: Pair) returns (f': Pair)
    requires g.Valid() && LoopsCarried(g) && IsVisit(g, visit) && CleanRun(false, g, visit)
    requires CallEdge(false, g, e) && SilentEdge(false, g, d)
    requires LoopBehind(SilentPairs(false, Replay(g, visit)), us', (Rep(visit, e.0), Rep(visit, e.1)),
             (Rep(visit, d.0), Rep(visit, d.1)))
    ensures Carrier(Replay(g, visit), us', (Rep(visit, d.0), Rep(visit, d.1)), f')
  {
    var v, s, s' := visit[0].0, SilentPairs(false, g), SilentPairs(false, Replay(g, visit));
    var ns := Targets(s, v);
    var us := Before(s, v, ns, us');
    CleanVisitGathers(g, visit);
    TailsAfter(s, v, ns, s', us', e.0, d.1);
    TailsAfter(s, v, ns, s', us', e.1, d.1);
    TailsAfter(s, v, ns, s', us', d.0, d.1);
    assert LoopBehind(s, us, e, d);
    var f :| Carrier(g, us, d, f);
    TailsAfter(s, v, ns, s', us', f.0, d.1);
    CallAfter(g, visit, f);
    f' := (Rep(visit, f.0), Rep(visit, f.1));
  }

  lemma CollapsibleVisitIsClean(g: CallGraph, visit: Log)
    requires g.Valid() && Collapsible(g) && IsVisit(g, visit)
    ensures CleanRun(false, g, visit) && Collapsible(Replay(g, visit))
  {
    var v, s := visit[0].0, SilentPairs(false, g);
    assert (v, v) in s ==> (v, v).0 != (v, v).1;
    VisitGathers(g, visit);
    VisitKeepsNoStraightCycle(g, visit);
    FanIsClean(g, v, visit);
    LoopsCarriedVisit(g, visit);
  }

  /** On a collapsible graph every run of visits is clean. */
  lemma {:induction false} CollapsibleRunIsClean(g: CallGraph, log: Log)
    requires g.Valid() && Collapsible(g) && VisitRun(g, log)
    ensures CleanRun(false, g, log) && Collapsible(Replay(g, log))
    decreases |log|
  {
    if log != [] {
      var before, visit := LastVisit(g, log);
      CollapsibleRunIsClean(g, before);
      ReplayValid(g, before);
      CollapsibleVisitIsClean(Replay(g, before), visit);
      CleanConcat(g, before, visit);
      ReplayConcat(g, before, visit);
    }
  }
}
