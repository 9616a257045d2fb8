/** Which orders of merging silent edges one by one are harmless: exactly when every one is. */
module MergeOrders {
  import opened CallGraphs
  import opened Connectivity
  import opened Contraction

  // ----- runs from the front -----

  /** A merge followed by a run is a run. */
  lemma {:induction false} RunCons(user: bool, g: CallGraph, m: Pair, log: Log)
    requires SilentEdge(user, g, m) && AlongSilent(user, Combine(g, m.0, m.1), log)
    ensures AlongSilent(user, g, [m] + log)
    ensures Replay(g, [m] + log) == Replay(Combine(g, m.0, m.1), log)
  {
    var whole := [m] + log;
    assert [m][..0] == [];
    if log == [] {
      assert whole == [m];
      assert Replay(g, [m]) == Combine(Replay(g, []), m.0, m.1);
    } else {
      RunCons(user, g, m, log[..|log| - 1]);
      assert whole[..|whole| - 1] == [m] + log[..|log| - 1];
    }
  }

  lemma {:induction false} CleanRunTail(user: bool, g: CallGraph, m: Pair, log: Log)
    requires SilentEdge(user, g, m) && AlongSilent(user, Combine(g, m.0, m.1), log) && CleanRun(user, g, [m] + log)
    ensures Clean(g, m.0, m.1) && CleanRun(user, Combine(g, m.0, m.1), log)
  {
    var whole := [m] + log;
    if log == [] {
      assert whole == [m] && [m][..0] == [];
    } else {
      var rest := log[..|log| - 1];
      assert whole[..|whole| - 1] == [m] + rest;
      RunCons(user, g, m, rest);
      CleanRunTail(user, g, m, rest);
    }
  }

  // ----- graphs in which no silent edge is lost to a call edge -----

  /** The merge of `m` keeps every silent edge, but for a loop of the merged vertex. */
  ghost predicate KeepsSilent(user: bool, g: CallGraph, m: Pair) {
    forall e | SilentEdge(user, g, e) && e != m && e != (m.1, m.1) ::
      SilentEdge(user, Combine(g, m.0, m.1), MovedPair(m.0, m.1, e))
  }

  /** No order of merges loses a silent edge to a call edge. */
  ghost predicate SilentKept(user: bool, g: CallGraph) {
    forall log, m | AlongSilent(user, g, log) && Proper(log) && SilentEdge(user, Replay(g, log), m) && m.0 != m.1 ::
      KeepsSilent(user, Replay(g, log), m)
  }

  lemma SilentKeptNow(user: bool, g: CallGraph, m: Pair)
    requires SilentKept(user, g) && SilentEdge(user, g, m) && m.0 != m.1
    ensures KeepsSilent(user, g, m)
  {
    assert AlongSilent(user, g, []) && Proper([]) && Replay(g, []) == g;
  }

  lemma SilentKeptMerge(user: bool, g: CallGraph, m: Pair)
    requires SilentKept(user, g) && SilentEdge(user, g, m) && m.0 != m.1
    ensures SilentKept(user, Combine(g, m.0, m.1))
  {
    var h := Combine(g, m.0, m.1);
    forall log, m' | AlongSilent(user, h, log) && Proper(log) && SilentEdge(user, Replay(h, log), m') && m'.0 != m'.1
      ensures KeepsSilent(user, Replay(h, log), m')
    {
      RunCons(user, g, m, log);
      assert Proper([m] + log);
    }
  }

  lemma SeparatedMerge(user: bool, g: CallGraph, l: Name, r: Name)
    requires g.Valid() && Separated(user, g) && SilentEdge(user, g, (l, r)) && l != r
    ensures Separated(user, Combine(g, l, r))
  {
    var h := Combine(g, l, r);
    SilentPreimage(user, g, l, r);
    ConnectedEdge(SilentPairs(user, g), l, r);
    forall f | f in h.edges && !Silent(user, h.edges[f]) ensures !Connected(SilentPairs(user, h), f.0, f.1) {
      var e := MergePreimage(g, l, r, f);
      if Connected(SilentPairs(user, h), f.0, f.1) {
        LiftConnected(SilentPairs(user, g), SilentPairs(user, h), l, r, e.0, e.1);
      }
    }
  }

  lemma {:induction false} SeparatedRun(user: bool, g: CallGraph, log: Log)
    requires g.Valid() && Separated(user, g) && AlongSilent(user, g, log) && Proper(log)
    ensures Replay(g, log).Valid() && Separated(user, Replay(g, log))
  {
    if log != [] {
      var k := |log| - 1;
      SeparatedRun(user, g, log[..k]);
      ReplayValid(g, log);
      SeparatedMerge(user, Replay(g, log[..k]), log[k].0, log[k].1);
    }
  }

  lemma SeparatedKeeps(user: bool, g: CallGraph, m: Pair)
    requires g.Valid() && Separated(user, g) && SilentEdge(user, g, m) && m.0 != m.1
    ensures KeepsSilent(user, g, m)
  {
    var (l, r) := m;
    forall e | SilentEdge(user, g, e) && e != m && e != (r, r)
      ensures SilentEdge(user, Combine(g, l, r), MovedPair(l, r, e))
    {
      var h, f := Combine(g, l, r), MovedPair(l, r, e);
      CombineEdges(g, l, r, f);
      var e' := MergePreimage(g, l, r, f);
      if !Silent(user, g.edges[e']) {
        SilentConnects(user, g, e);
        SilentEndsConnected(user, g, l, r, e'.0, e.0);
        SilentEndsConnected(user, g, l, r, e.1, e'.1);
        ConnectedTrans(SilentPairs(user, g), e'.0, e.0, e.1);
        ConnectedTrans(SilentPairs(user, g), e'.0, e.1, e'.1);
      }
    }
  }

  /** With calls only between components, no silent edge is lost to a call edge. */
  lemma SeparatedIsKept(user: bool, g: CallGraph)
    requires g.Valid() && Separated(user, g)
    ensures SilentKept(user, g)
  {
    forall log, m | AlongSilent(user, g, log) && Proper(log) && SilentEdge(user, Replay(g, log), m) && m.0 != m.1
      ensures KeepsSilent(user, Replay(g, log), m)
    {
      SeparatedRun(user, g, log);
      SeparatedKeeps(user, Replay(g, log), m);
    }
  }

  // ----- forests are the graphs that are safe in every order of single merges -----

  /** Two silent edges between the same two vertices in opposite directions: after one
      merge the other is a loop, and the vertex is merged with itself. */
  lemma OppositeEdges(user: bool, g: CallGraph, l: Name, r: Name) returns (log: Log)
    requires g.Valid() && SilentKept(user, g) && l != r
    requires SilentEdge(user, g, (l, r)) && SilentEdge(user, g, (r, l))
    ensures AlongSilent(user, g, log) && !Proper(log)
  {
    SilentKeptNow(user, g, (l, r));
    assert SilentEdge(user, Combine(g, l, r), MovedPair(l, r, (r, l)));
    log := LoopLog(user, Combine(g, l, r), l);
    log := Prepend(user, g, (l, r), log);
  }

  lemma LoopLog(user: bool, g: CallGraph, v: Name) returns (log: Log)
    requires SilentEdge(user, g, (v, v))
    ensures AlongSilent(user, g, log) && !Proper(log)
  {
    log := [(v, v)];
    assert log[..0] == [];
    assert log[0].0 == log[0].1;
  }

  lemma Prepend(user: bool, g: CallGraph, m: Pair, log: Log) returns (whole: Log)
    requires SilentEdge(user, g, m) && AlongSilent(user, Combine(g, m.0, m.1), log) && !Proper(log)
    ensures AlongSilent(user, g, whole) && !Proper(whole)
  {
    RunCons(user, g, m, log);
    whole := [m] + log;
    var i :| 0 <= i < |log| && log[i].0 == log[i].1;
    assert whole[i + 1].0 == whole[i + 1].1;
  }

  /** A triangle of silent edges, two of them leaving or entering `c`. */
  lemma Triangle(user: bool, g: CallGraph, l: Name, r: Name, c: Name, into: bool) returns (log: Log)
    requires g.Valid() && SilentKept(user, g) && l != r && c != l && c != r
    requires SilentEdge(user, g, (l, r))
    requires if into then SilentEdge(user, g, (l, c)) && SilentEdge(user, g, (r, c))
             else SilentEdge(user, g, (c, l)) && SilentEdge(user, g, (c, r))
    ensures AlongSilent(user, g, log) && !Proper(log)
  {
    if into {
      SilentKeptNow(user, g, (l, c));
      assert MovedPair(l, c, (r, c)) == (r, l) && MovedPair(l, c, (l, r)) == (l, r);
      SilentKeptMerge(user, g, (l, c));
      CombineValid(g, l, c);
      log := OppositeEdges(user, Combine(g, l, c), l, r);
      log := Prepend(user, g, (l, c), log);
    } else {
      SilentKeptNow(user, g, (c, r));
      assert MovedPair(c, r, (l, r)) == (l, c) && MovedPair(c, r, (c, l)) == (c, l);
      SilentKeptMerge(user, g, (c, r));
      CombineValid(g, c, r);
      log := OppositeEdges(user, Combine(g, c, r), c, l);
      log := Prepend(user, g, (c, r), log);
    }
  }

  /** Two silent edges that fall together when (l, r) is merged, but not on a loop, make a triangle with it. */
  lemma Collision(user: bool, g: CallGraph, l: Name, r: Name, e: Pair, d: Pair) returns (log: Log)
    requires g.Valid() && SilentKept(user, g) && l != r
    requires SilentEdge(user, g, (l, r)) && SilentEdge(user, g, e) && SilentEdge(user, g, d)
    requires e != d && MovedPair(l, r, e) == MovedPair(l, r, d)
    requires MovedPair(l, r, e).0 != MovedPair(l, r, e).1
    ensures AlongSilent(user, g, log) && !Proper(log)
  {
    log := Triangle(user, g, l, r, if e.1 == d.1 then e.1 else e.0, e.1 == d.1);
  }

  /** A silent edge that closes a cycle lets some order of merges go wrong. */
  lemma {:induction false} BadOrder(user: bool, g: CallGraph, e: Pair) returns (log: Log)
    requires g.Valid() && SilentKept(user, g) && SilentEdge(user, g, e)
    requires Connected(SilentPairs(user, g) - {e}, e.0, e.1)
    ensures AlongSilent(user, g, log) && !Proper(log)
    decreases |g.vertices|
  {
    var t := SilentPairs(user, g) - {e};
    var p :| LinkPathFrom(t, p, e.0, e.1);
    if e.0 == e.1 {
      log := LoopLog(user, g, e.0);
      return;
    }
    assert Joined(t, p[0], p[1]);
    var m := if (p[0], p[1]) in t then (p[0], p[1]) else (p[1], p[0]);
    var (l, r) := m;
    if l == r {
      log := LoopLog(user, g, l);
      return;
    }
    if SilentEdge(user, g, (r, r)) {
      log := LoopLog(user, g, r);
      return;
    }
    var h, e' := Combine(g, l, r), MovedPair(l, r, e);
    CombineValid(g, l, r);
    SilentKeptNow(user, g, m);
    SilentKeptMerge(user, g, m);
    if e'.0 == e'.1 {
      log := LoopLog(user, h, e'.0);
    } else if d :| d in t && MovedPair(l, r, d) == e' {
      log := Collision(user, g, l, r, e, d);
      return;
    } else {
      forall d | d in t ensures var f := MovedPair(l, r, d); f.0 == f.1 || f in SilentPairs(user, h) - {e'} {
        assert d == m || SilentEdge(user, h, MovedPair(l, r, d));
      }
      MapConnected(t, SilentPairs(user, h) - {e'}, l, r, e.0, e.1);
      log := BadOrder(user, h, e');
    }
    log := Prepend(user, g, m, log);
  }

  /** On a graph whose call edges join different components, every order of merging
      silent edges is proper if and only if the silent edges form a forest. */
  lemma EveryOrderProperIffForest(user: bool, g: CallGraph)
    requires g.Valid() && Separated(user, g)
    ensures (forall log :: AlongSilent(user, g, log) ==> Proper(log)) <==> Forest(SilentPairs(user, g))
  {
    if Forest(SilentPairs(user, g)) {
      forall log | AlongSilent(user, g, log) ensures Proper(log) {
        AlongIsLogged(user, g, log);
        ForestRunIsProper(user, g, log);
      }
    } else {
      var e :| e in SilentPairs(user, g) && Connected(SilentPairs(user, g) - {e}, e.0, e.1);
      SeparatedIsKept(user, g);
      var log := BadOrder(user, g, e);
    }
  }

  lemma {:induction false} AlongIsLogged(user: bool, g: CallGraph, log: Log)
    requires AlongSilent(user, g, log)
    ensures Logged(user, g, log)
  {
    if log != [] {
      AlongIsLogged(user, g, log[..|log| - 1]);
    }
  }

  // ----- and contractible graphs the ones that lose nothing -----

  /** In a forest some order of merges goes on until no silent edge is left. */
  lemma {:induction false} CompleteRun(user: bool, g: CallGraph) returns (log: Log)
    requires g.Valid() && Forest(SilentPairs(user, g))
    ensures AlongSilent(user, g, log) && Done(user, Replay(g, log))
    decreases |g.vertices|
  {
    if Done(user, g) {
      log := [];
    } else {
      var e :| e in g.edges && Silent(user, g.edges[e]);
      ForestMergeStep(user, g, e.0, e.1);
      CombineValid(g, e.0, e.1);
      log := CompleteRun(user, Combine(g, e.0, e.1));
      RunCons(user, g, e, log);
      log := [e] + log;
    }
  }

  /** A complete clean run is possible only if call edges between the same components carry the same label. */
  lemma CleanRunNeedsOneLabel(user: bool, g: CallGraph, log: Log)
    requires g.Valid() && CleanRun(user, g, log) && Done(user, Replay(g, log))
    ensures OneLabel(user, g)
  {
    forall e, f | e in g.edges && f in g.edges && !Silent(user, g.edges[e]) && !Silent(user, g.edges[f])
                  && Connected(SilentPairs(user, g), e.0, f.0) && Connected(SilentPairs(user, g), e.1, f.1)
      ensures g.edges[e] == g.edges[f]
    {
      CleanEdgeImage(user, g, log, e);
      CleanEdgeImage(user, g, log, f);
      ComponentsAreMerged(user, g, log, e.0, f.0);
      ComponentsAreMerged(user, g, log, e.1, f.1);
    }
  }

  ghost predicate EveryOrderClean(user: bool, g: CallGraph) {
    forall log :: AlongSilent(user, g, log) ==> CleanRun(user, g, log)
  }

  lemma CleanOrderStep(user: bool, g: CallGraph, m: Pair)
    requires EveryOrderClean(user, g) && SilentEdge(user, g, m)
    ensures Clean(g, m.0, m.1) && EveryOrderClean(user, Combine(g, m.0, m.1))
  {
    var h := Combine(g, m.0, m.1);
    forall log | AlongSilent(user, h, log) ensures Clean(g, m.0, m.1) && CleanRun(user, h, log) {
      RunCons(user, g, m, log);
      CleanRunTail(user, g, m, log);
    }
    assert AlongSilent(user, h, []);
  }

  lemma CleanOrdersKeepSilent(user: bool, g: CallGraph)
    requires g.Valid() && EveryOrderClean(user, g)
    ensures SilentKept(user, g)
  {
    forall log, m | AlongSilent(user, g, log) && Proper(log) && SilentEdge(user, Replay(g, log), m) && m.0 != m.1
      ensures KeepsSilent(user, Replay(g, log), m)
    {
      var longer := log + [m];
      assert longer[..|log|] == log;
      assert AlongSilent(user, g, longer) && CleanRun(user, g, longer);
      ReplayValid(g, log);
      MergeIsQuotient(Replay(g, log), m.0, m.1);
    }
  }

  lemma CleanOrdersNeedForest(user: bool, g: CallGraph)
    requires g.Valid() && EveryOrderClean(user, g)
    ensures Forest(SilentPairs(user, g))
  {
    if !Forest(SilentPairs(user, g)) {
      var e :| e in SilentPairs(user, g) && Connected(SilentPairs(user, g) - {e}, e.0, e.1);
      CleanOrdersKeepSilent(user, g);
      var log := BadOrder(user, g, e);
      CleanRunIsProper(user, g, log);
    }
  }

  /** Every order being clean, one merge leaves a smaller graph of the same kind. */
  lemma CleanMergeStep(user: bool, g: CallGraph, l: Name, r: Name) returns (h: CallGraph)
    requires g.Valid() && EveryOrderClean(user, g) && SilentEdge(user, g, (l, r))
    ensures h == Combine(g, l, r) && h.Valid() && EveryOrderClean(user, h) && |h.vertices| < |g.vertices|
    ensures l != r && Clean(g, l, r) && IsMerge(SilentPairs(user, g), l, r, SilentPairs(user, h))
    ensures Forest(SilentPairs(user, g)) && IsQuotient(g, l, r, h)
  {
    h := Combine(g, l, r);
    CombineValid(g, l, r);
    CleanOrderStep(user, g, (l, r));
    CleanMergesSilent(user, g, l, r);
    CleanOrdersNeedForest(user, g);
    MergeIsQuotient(g, l, r);
    assert h.vertices.Keys == g.vertices.Keys - {r};
  }

  /** If the silent path of a call edge led in the wrong direction, merging the rest of it
      would make the two edges one. */
  lemma {:induction false} WrongDirection(user: bool, g: CallGraph, e: Pair, d: Pair)
    requires g.Valid() && EveryOrderClean(user, g) && CallEdge(user, g, e) && SilentEdge(user, g, d)
    requires Connected(SilentPairs(user, g), e.0, e.1) && !Connected(SilentPairs(user, g) - {d}, e.0, e.1)
    ensures Connected(SilentPairs(user, g) - {d}, e.1, d.0)
    decreases |g.vertices|
  {
    var s := SilentPairs(user, g);
    if m :| m in s && m != d {
      var h := CleanMergeStep(user, g, m.0, m.1);
      var s' := SilentPairs(user, h);
      var (e', d') := (MovedPair(m.0, m.1, e), MovedPair(m.0, m.1, d));
      MergeConnects(s, m.0, m.1, s', e.0, e.1);
      MergeConnectsWithout(s, m.0, m.1, s', d, e.0, e.1);
      MergeConnectsWithout(s, m.0, m.1, s', d, e.1, d.0);
      assert d' in s';
      WrongDirection(user, h, e', d');
    } else {
      Ends(s, d, e.0, e.1);
      assert s - {d} == {};
      NothingConnected(e.0);
      NothingConnected(e.1);
    }
  }

  lemma NothingConnected(x: Name)
    ensures forall y :: Connected({}, x, y) <==> x == y
  {
    ConnectedSelf({}, x);
    forall y | Connected({}, x, y) ensures x == y {
      var p :| LinkPathFrom({}, p, x, y);
      assert |p| > 1 ==> Joined({}, p[0], p[1]);
    }
  }

  /** If no call edge carried the loop of `e` over `d`, it would be lost once everything
      between the ends of `e` and the target of `d` has been merged. */
  lemma {:induction false} LoopNeedsCarrier(user: bool, g: CallGraph, e: Pair, d: Pair)
    requires g.Valid() && EveryOrderClean(user, g) && CallEdge(user, g, e) && SilentEdge(user, g, d)
    requires Beyond(SilentPairs(user, g), d, e)
    ensures exists f :: Carries(user, g, e, d, f)
    decreases |g.vertices|
  {
    var s := SilentPairs(user, g);
    if e == (d.1, d.1) {
      CleanOrderStep(user, g, d);
      CleanOrdersNeedForest(user, g);
      LoopCarrier(user, g, d);
    } else {
      var x := if e.0 != d.1 then e.0 else e.1;
      ConnectedWithout(s, d, x, d.1);
      CleanOrdersNeedForest(user, g);
      var m := Separator(s, x, d.1);
      var h := CleanMergeStep(user, g, m.0, m.1);
      var s' := SilentPairs(user, h);
      BeyondMerge(s, m.0, m.1, s', d, e);
      assert MovedPair(m.0, m.1, d) in s';
      LoopNeedsCarrier(user, h, MovedPair(m.0, m.1, e), MovedPair(m.0, m.1, d));
      var f' :| Carries(user, h, MovedPair(m.0, m.1, e), MovedPair(m.0, m.1, d), f');
      var f := CarrierBefore(user, g, m, e, d, x, f');
    }
  }

  /** A loop at the target of `d` that is kept when `d` is merged. */
  lemma LoopCarrier(user: bool, g: CallGraph, d: Pair)
    requires g.Valid() && Forest(SilentPairs(user, g)) && SilentEdge(user, g, d) && Clean(g, d.0, d.1)
    requires CallEdge(user, g, (d.1, d.1))
    ensures exists f :: Carries(user, g, (d.1, d.1), d, f)
  {
    var s := SilentPairs(user, g);
    var f := if (d.0, d.0) in g.edges then (d.0, d.0) else (d.1, d.0);
    ForestNoLoop(s, d.0);
    if f in s {
      ConnectedEdge(s - {f}, d.0, d.1);
      ConnectedSym(s - {f}, d.0, d.1);
    }
    forall c | c in s ensures Connected(s - {c}, d.1, d.1) {
      ConnectedSelf(s - {c}, d.1);
    }
    assert Carries(user, g, (d.1, d.1), d, f);
  }

  /** The carrier found after merging `m`, a pair between the loop and the target of `d`,
      was one before. */
  lemma CarrierBefore(user: bool, g: CallGraph, m: Pair, e: Pair, d: Pair, x: Name, f': Pair) returns (f: Pair)
    requires g.Valid() && Forest(SilentPairs(user, g)) && SilentEdge(user, g, m) && Clean(g, m.0, m.1)
    requires SilentEdge(user, g, d) && d != m && Beyond(SilentPairs(user, g), d, e) && (x == e.0 || x == e.1)
    requires !Connected(SilentPairs(user, g) - {m}, x, d.1)
    requires Carries(user, Combine(g, m.0, m.1), MovedPair(m.0, m.1, e), MovedPair(m.0, m.1, d), f')
    ensures Carries(user, g, e, d, f)
  {
    var (l, r) := m;
    var h := Combine(g, l, r);
    var s, s' := SilentPairs(user, g), SilentPairs(user, h);
    CleanMergesSilent(user, g, l, r);
    f := CallPreimage(user, g, l, r, f');
    SourceStays(s, m, d, x);
    if f.0 != d.0 {
      ConnectedWithout(s, d, e.0, d.1);
      ConnectedWithout(s, d, e.1, d.1);
      BetweenBefore(s, l, r, s', d, f.0, e.0, e.1, x);
    }
  }

  /** The source of `d` is not an end of a pair that lies beyond `d`. */
  lemma SourceStays(s: set<Pair>, m: Pair, d: Pair, x: Name)
    requires Forest(s) && d in s && m in s
    requires Connected(s - {d}, x, d.1) && !Connected(s - {m}, x, d.1)
    ensures d.0 != m.0 && d.0 != m.1
  {
    var t := s - {d};
    assert t - {m} == s - {m} - {d};
    if Connected(t - {m}, x, d.1) {
      ConnectedMono(t - {m}, s - {m}, x, d.1);
    }
    Ends(t, m, x, d.1);
    ConnectedEdge(t, m.0, m.1);
    var end := if Connected(t - {m}, d.1, m.0) then m.0 else m.1;
    ConnectedWithout(t, m, d.1, end);
    ConnectedSym(t, d.1, end);
    ConnectedSym(t, m.0, m.1);
    if d.0 == m.0 || d.0 == m.1 {
      ConnectedTrans(t, d.0, end, d.1);
    }
  }

  lemma BetweenBefore(s: set<Pair>, l: Name, r: Name, s': set<Pair>, d: Pair, a: Name, x: Name, y: Name, z: Name)
    requires Forest(s) && IsMerge(s, l, r, s') && d in s && d != (l, r)
    requires Between(s', Moved(l, r, a), Moved(l, r, x), Moved(l, r, y), Moved(l, r, d.1))
    requires Connected(s, x, d.1) && Connected(s, y, d.1) && (z == x || z == y)
    requires !Connected(s - {(l, r)}, z, d.1)
    ensures Between(s, a, x, y, d.1)
  {
    var v := d.1;
    forall c | c in s ensures Connected(s - {c}, a, x) || Connected(s - {c}, a, y) || Connected(s - {c}, a, v) {
      var b := if c == (l, r) then d else c;
      assert MovedPair(l, r, b) in s';
      MergeConnectsWithout(s, l, r, s', b, a, x);
      MergeConnectsWithout(s, l, r, s', b, a, y);
      MergeConnectsWithout(s, l, r, s', b, a, v);
      if c == (l, r) {
        ConnectedToTarget(s, d, a, x, y);
        OneSide(s, c, a, z, v);
      }
    }
  }

  lemma ConnectedToTarget(s: set<Pair>, d: Pair, a: Name, x: Name, y: Name)
    requires Connected(s, x, d.1) && Connected(s, y, d.1)
    requires Connected(s - {d}, a, x) || Connected(s - {d}, a, y) || Connected(s - {d}, a, d.1)
    ensures Connected(s, a, d.1)
  {
    var z := if Connected(s - {d}, a, x) then x else if Connected(s - {d}, a, y) then y else d.1;
    ConnectedSelf(s, d.1);
    ConnectedWithout(s, d, a, z);
    ConnectedTrans(s, a, z, d.1);
  }

  /** A pair that keeps `z` and `v` together leaves everything connected to one of them. */
  lemma OneSide(s: set<Pair>, c: Pair, a: Name, z: Name, v: Name)
    requires Connected(s, a, v) && Connected(s, z, v) && !Connected(s - {c}, z, v)
    ensures Connected(s - {c}, a, z) || Connected(s - {c}, a, v)
  {
    var t := s - {c};
    Ends(s, c, z, v);
    if !Connected(t, a, v) {
      Ends(s, c, a, v);
      forall p | p == c.0 || p == c.1 ensures Connected(t, z, p) ==> Connected(t, p, z) {
        if Connected(t, z, p) {
          ConnectedSym(t, z, p);
        }
      }
      forall p | p == c.0 || p == c.1 ensures Connected(t, v, p) ==> Connected(t, p, v) {
        if Connected(t, v, p) {
          ConnectedSym(t, v, p);
        }
      }
      StepFront(t, z, c.0, v);
      StepFront(t, z, c.1, v);
      StepFront(t, a, c.0, z);
      StepFront(t, a, c.1, z);
      StepFront(t, a, c.0, v);
      StepFront(t, a, c.1, v);
    }
  }

  /** Every order of merging silent edges is clean if and only if the graph is contractible. */
  lemma EveryOrderCleanIffContractible(user: bool, g: CallGraph)
    requires g.Valid()
    ensures EveryOrderClean(user, g) <==> Contractible(user, g)
  {
    if Contractible(user, g) {
      forall log | AlongSilent(user, g, log) ensures CleanRun(user, g, log) {
        AlongIsLogged(user, g, log);
        ContractibleRunIsClean(user, g, log);
      }
    }
    if EveryOrderClean(user, g) {
      CleanOrdersNeedForest(user, g);
      var log := CompleteRun(user, g);
      assert CleanRun(user, g, log);
      CleanRunNeedsOneLabel(user, g, log);
      CleanOrdersKeepLoops(user, g);
    }
  }

  lemma CleanOrdersKeepLoops(user: bool, g: CallGraph)
    requires g.Valid() && EveryOrderClean(user, g)
    ensures LoopsKept(user, g)
  {
    var s := SilentPairs(user, g);
    forall e | CallEdge(user, g, e) && Connected(s, e.0, e.1)
      ensures LeadsBack(s, e)
      ensures forall d | SilentEdge(user, g, d) && Beyond(s, d, e) :: exists f :: Carries(user, g, e, d, f)
    {
      forall d | d in s && !Connected(s - {d}, e.0, e.1) ensures Connected(s - {d}, e.1, d.0) {
        WrongDirection(user, g, e, d);
      }
      forall d | SilentEdge(user, g, d) && Beyond(s, d, e) ensures exists f :: Carries(user, g, e, d, f) {
        LoopNeedsCarrier(user, g, e, d);
      }
    }
  }
}
