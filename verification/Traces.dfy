/** Paths of a call graph and the calls they spell. */
module Traces {
  import opened CallGraphs
  import opened Connectivity
  import opened Contraction

  ghost predicate IsPath(g: CallGraph, p: seq<Name>) {
    if |p| <= 1 then |p| == 1 && p[0] in g.vertices
    else IsPath(g, p[..|p| - 1]) && (p[|p| - 2], p[|p| - 1]) in g.edges
  }

  ghost predicate PathFrom(g: CallGraph, p: seq<Name>, x: Name, y: Name) {
    IsPath(g, p) && p[0] == x && p[|p| - 1] == y
  }

  function Visible(user: bool, lbl: string): seq<string> {
    if Silent(user, lbl) then [] else [lbl]
  }

  /** The labels along a path, silent ones left out. */
  ghost function Calls(user: bool, g: CallGraph, p: seq<Name>): seq<string>
    requires IsPath(g, p)
  {
    if |p| == 1 then []
    else Calls(user, g, p[..|p| - 1]) + Visible(user, g.edges[(p[|p| - 2], p[|p| - 1])])
  }

  /** There is a path from `x` to `y` that spells `calls`. */
  ghost predicate Spells(user: bool, g: CallGraph, x: Name, y: Name, calls: seq<string>) {
    exists p :: PathFrom(g, p, x, y) && Calls(user, g, p) == calls
  }

  lemma PathSnoc(user: bool, g: CallGraph, p: seq<Name>, y: Name)
    requires IsPath(g, p) && (p[|p| - 1], y) in g.edges
    ensures IsPath(g, p + [y])
    ensures Calls(user, g, p + [y]) == Calls(user, g, p) + Visible(user, g.edges[(p[|p| - 1], y)])
  {
    assert (p + [y])[..|p|] == p;
  }

  lemma SpellsSnoc(user: bool, g: CallGraph, x: Name, y: Name, z: Name, calls: seq<string>, lbl: string)
    requires Spells(user, g, x, y, calls) && g.Has(y, z, lbl)
    ensures Spells(user, g, x, z, calls + Visible(user, lbl))
  {
    var p :| PathFrom(g, p, x, y) && Calls(user, g, p) == calls;
    PathSnoc(user, g, p, z);
    assert PathFrom(g, p + [z], x, z);
  }

  lemma SpellsNothing(user: bool, g: CallGraph, x: Name)
    requires x in g.vertices
    ensures Spells(user, g, x, x, [])
  {
    assert PathFrom(g, [x], x, x);
  }

  // ----- contraction seen from outside -----

  /** `h` keeps the edges of `g` with their labels under the renaming `rep`; a silent
      edge may instead have its ends renamed to one vertex. */
  ghost predicate Keeps(user: bool, g: CallGraph, h: CallGraph, rep: Name -> Name) {
    && (forall x | x in g.vertices :: rep(x) in h.vertices)
    && forall e | e in g.edges ::
         h.Has(rep(e.0), rep(e.1), g.edges[e]) || (Silent(user, g.edges[e]) && rep(e.0) == rep(e.1))
  }

  lemma {:induction false} PathKept(user: bool, g: CallGraph, h: CallGraph, rep: Name -> Name, p: seq<Name>)
    requires Keeps(user, g, h, rep) && IsPath(g, p)
    ensures Spells(user, h, rep(p[0]), rep(p[|p| - 1]), Calls(user, g, p))
  {
    if |p| == 1 {
      SpellsNothing(user, h, rep(p[0]));
    } else {
      var k := |p| - 1;
      var e := (p[k - 1], p[k]);
      PathKept(user, g, h, rep, p[..k]);
      if h.Has(rep(e.0), rep(e.1), g.edges[e]) {
        SpellsSnoc(user, h, rep(p[0]), rep(e.0), rep(e.1), Calls(user, g, p[..k]), g.edges[e]);
      } else {
        assert Calls(user, g, p) == Calls(user, g, p[..k]);
      }
    }
  }

  lemma CleanRunKeeps(user: bool, g: CallGraph, log: Log)
    requires g.Valid() && CleanRun(user, g, log)
    ensures Keeps(user, g, Replay(g, log), x => Rep(log, x))
  {
    CleanRunIsProper(user, g, log);
    RepSurvives(user, g, log);
    forall e | e in g.edges
      ensures Replay(g, log).Has(Rep(log, e.0), Rep(log, e.1), g.edges[e]) ||
              (Silent(user, g.edges[e]) && Rep(log, e.0) == Rep(log, e.1))
    {
      CleanEdgeImage(user, g, log, e);
    }
  }

  /** Every call trace of the graph is a call trace of the contracted graph, between the representatives. */
  lemma TracesSurvive(user: bool, g: CallGraph, log: Log, x: Name, y: Name, calls: seq<string>)
    requires g.Valid() && CleanRun(user, g, log) && Spells(user, g, x, y, calls)
    ensures Spells(user, Replay(g, log), Rep(log, x), Rep(log, y), calls)
  {
    var p :| PathFrom(g, p, x, y) && Calls(user, g, p) == calls;
    CleanRunKeeps(user, g, log);
    PathKept(user, g, Replay(g, log), x => Rep(log, x), p);
  }

  /** `calls` can be spelled from `x` to `y` when silent edges may be crossed in both directions. */
  ghost predicate SpellsAcross(user: bool, g: CallGraph, x: Name, y: Name, calls: seq<string>)
    decreases |calls|
  {
    if calls == [] then Connected(SilentPairs(user, g), x, y)
    else
      var k := |calls| - 1;
      exists e :: e in g.edges && g.edges[e] == calls[k] && !Silent(user, calls[k]) &&
                  Connected(SilentPairs(user, g), e.1, y) && SpellsAcross(user, g, x, e.0, calls[..k])
  }

  /** `h` is the quotient of `g` by its silent components, `rep` naming the component of a vertex. */
  ghost predicate IsComponentGraph(user: bool, g: CallGraph, h: CallGraph, rep: Name -> Name) {
    && h.Valid() && Done(user, h)
    && (forall x | x in g.vertices :: rep(x) in h.vertices)
    && (forall v | v in h.vertices :: v in g.vertices && rep(v) == v)
    && (forall x, y {:trigger SameRep(rep, x, y)} :: SameRep(rep, x, y) <==> Connected(SilentPairs(user, g), x, y))
    && (forall x, y, lbl {:trigger RepEdge(h, rep, x, y, lbl)} ::
          RepEdge(h, rep, x, y, lbl) <==> QuotientEdge(user, g, x, y, lbl))
  }

  ghost predicate SameRep(rep: Name -> Name, x: Name, y: Name) {
    rep(x) == rep(y)
  }

  ghost predicate RepEdge(h: CallGraph, rep: Name -> Name, x: Name, y: Name, lbl: string) {
    h.Has(rep(x), rep(y), lbl)
  }

  lemma EdgeOrigin(user: bool, g: CallGraph, h: CallGraph, rep: Name -> Name, v: Name, y: Name, lbl: string)
    returns (e: Pair)
    requires IsComponentGraph(user, g, h, rep) && v in h.vertices && h.Has(v, rep(y), lbl)
    ensures e in g.edges && g.edges[e] == lbl && !Silent(user, lbl)
    ensures rep(e.0) == v && Connected(SilentPairs(user, g), e.1, y)
  {
    assert RepEdge(h, rep, v, y, lbl);
    e :| e in g.edges && g.edges[e] == lbl && !Silent(user, lbl) &&
         Connected(SilentPairs(user, g), e.0, v) && Connected(SilentPairs(user, g), e.1, y);
    assert SameRep(rep, e.0, v);
  }

  lemma {:induction false} PathIsAcross(user: bool, g: CallGraph, h: CallGraph, rep: Name -> Name, x: Name, y: Name,
                                        q: seq<Name>)
    requires IsComponentGraph(user, g, h, rep) && PathFrom(h, q, rep(x), rep(y))
    ensures SpellsAcross(user, g, x, y, Calls(user, h, q))
    decreases |q|
  {
    if |q| == 1 {
      assert SameRep(rep, x, y);
    } else {
      var k := |q| - 1;
      var lbl := h.edges[(q[k - 1], q[k])];
      var e := EdgeOrigin(user, g, h, rep, q[k - 1], y, lbl);
      PathIsAcross(user, g, h, rep, x, e.0, q[..k]);
      var calls := Calls(user, h, q);
      assert calls[..|calls| - 1] == Calls(user, h, q[..k]);
    }
  }

  lemma {:induction false} AcrossIsPath(user: bool, g: CallGraph, h: CallGraph, rep: Name -> Name, x: Name, y: Name,
                                        calls: seq<string>)
    requires IsComponentGraph(user, g, h, rep) && x in g.vertices && SpellsAcross(user, g, x, y, calls)
    ensures Spells(user, h, rep(x), rep(y), calls)
    decreases |calls|
  {
    if calls == [] {
      assert SameRep(rep, x, y);
      SpellsNothing(user, h, rep(x));
    } else {
      var k := |calls| - 1;
      var e :| e in g.edges && g.edges[e] == calls[k] && !Silent(user, calls[k]) &&
               Connected(SilentPairs(user, g), e.1, y) && SpellsAcross(user, g, x, e.0, calls[..k]);
      AcrossIsPath(user, g, h, rep, x, e.0, calls[..k]);
      ConnectedSelf(SilentPairs(user, g), e.0);
      assert QuotientEdge(user, g, e.0, y, calls[k]) && RepEdge(h, rep, e.0, y, calls[k]);
      SpellsSnoc(user, h, rep(x), rep(e.0), rep(y), calls[..k], calls[k]);
      assert calls == calls[..k] + [calls[k]];
    }
  }

  lemma CleanRunGivesComponentGraph(user: bool, g: CallGraph, log: Log)
    requires g.Valid() && CleanRun(user, g, log) && Done(user, Replay(g, log))
    ensures IsComponentGraph(user, g, Replay(g, log), x => Rep(log, x))
  {
    CleanRunIsQuotient(user, g, log);
    ReplayValid(g, log);
  }

  lemma ComponentGraphTraces(user: bool, g: CallGraph, h: CallGraph, rep: Name -> Name, x: Name, y: Name,
                             calls: seq<string>)
    requires IsComponentGraph(user, g, h, rep) && x in g.vertices
    ensures Spells(user, h, rep(x), rep(y), calls) <==> SpellsAcross(user, g, x, y, calls)
  {
    if Spells(user, h, rep(x), rep(y), calls) {
      var q :| PathFrom(h, q, rep(x), rep(y)) && Calls(user, h, q) == calls;
      PathIsAcross(user, g, h, rep, x, y, q);
    }
    if SpellsAcross(user, g, x, y, calls) {
      AcrossIsPath(user, g, h, rep, x, y, calls);
    }
  }

  /** The traces of the contracted graph are exactly those of the original graph with
      its silent edges open in both directions. */
  lemma TracesExactly(user: bool, g: CallGraph, log: Log, x: Name, y: Name, calls: seq<string>)
    requires g.Valid() && CleanRun(user, g, log) && Done(user, Replay(g, log)) && x in g.vertices
    ensures Spells(user, Replay(g, log), Rep(log, x), Rep(log, y), calls) <==> SpellsAcross(user, g, x, y, calls)
  {
    CleanRunGivesComponentGraph(user, g, log);
    ComponentGraphTraces(user, g, Replay(g, log), z => Rep(log, z), x, y, calls);
  }
}
