/** Expansion and contraction keep the meaning of a function: the calls along its block walks. */
module ExpansionTraces {
  import opened CallGraphs
  import opened Contraction
  import opened VisitOrders
  import opened CleanVisits
  import opened Traces
  import opened Expansion

  /** The calls of the blocks of a walk, one block after the other. */
  function Spell(calls: CallLists, p: seq<Name>): seq<string> {
    if p == [] then [] else Spell(calls, p[..|p| - 1]) + CallsOf(calls, p[|p| - 1])
  }

  /** A walk of blocks from `x` to `y` makes the calls `tr`. */
  ghost predicate BlockWalkSpells(g: CallGraph, calls: CallLists, x: Name, y: Name, tr: seq<string>) {
    exists p :: PathFrom(g, p, x, y) && Spell(calls, p) == tr
  }

  // ----- from block walks to paths of the expanded graph -----

  lemma ChainLink(g: CallGraph, calls: CallLists, nm: Namer, x: CallGraph, b: Name, k: nat)
    requires BlockGraph(g, calls, nm) && Expanded(g, calls, nm, x) && b in g.vertices && k < |CallsOf(calls, b)|
    ensures x.Has(nm(b, k), nm(b, k + 1), CallsOf(calls, b)[k])
    ensures Visible(false, CallsOf(calls, b)[k]) == [CallsOf(calls, b)[k]]
  {
    assert ChainEdge(g, nm, AllCalls(calls), b, k, (nm(b, k), nm(b, k + 1)));
    assert CallsOf(calls, b)[k] in calls[b];
  }

  lemma ControlLink(g: CallGraph, calls: CallLists, nm: Namer, x: CallGraph, b: Name, s: Name)
    requires BlockGraph(g, calls, nm) && Expanded(g, calls, nm, x) && (b, s) in g.edges
    ensures x.Has(End(calls, nm, b), s, CONTROL)
  {
    assert ControlEdge(g, calls, nm, g.edges.Keys, (b, s), (End(calls, nm, b), s));
  }

  /** Along a row of linked vertices every label is spelled. */
  lemma {:induction false} AlongLinks(x: CallGraph, start: Name, vs: seq<Name>, cs: seq<string>, tr: seq<string>,
                                      k: nat)
    requires |vs| == |cs| + 1 && k <= |cs| && Spells(false, x, start, vs[0], tr)
    requires forall j | 0 <= j < |cs| :: x.Has(vs[j], vs[j + 1], cs[j]) && Visible(false, cs[j]) == [cs[j]]
    ensures Spells(false, x, start, vs[k], tr + cs[..k])
    decreases k
  {
    if k == 0 {
      assert tr + cs[..0] == tr;
    } else {
      AlongLinks(x, start, vs, cs, tr, k - 1);
      SpellsSnoc(false, x, start, vs[k - 1], vs[k], tr + cs[..k - 1], cs[k - 1]);
      assert tr + cs[..k - 1] + [cs[k - 1]] == tr + cs[..k];
    }
  }

  lemma AlongChain(g: CallGraph, calls: CallLists, nm: Namer, x: CallGraph, start: Name, b: Name, tr: seq<string>)
    requires BlockGraph(g, calls, nm) && Expanded(g, calls, nm, x) && b in g.vertices
    requires Spells(false, x, start, nm(b, 0), tr)
    ensures Spells(false, x, start, End(calls, nm, b), tr + CallsOf(calls, b))
  {
    var cs := CallsOf(calls, b);
    var vs := seq(|cs| + 1, j requires 0 <= j <= |cs| => nm(b, j));
    forall j | 0 <= j < |cs| ensures x.Has(vs[j], vs[j + 1], cs[j]) && Visible(false, cs[j]) == [cs[j]] {
      ChainLink(g, calls, nm, x, b, j);
    }
    AlongLinks(x, start, vs, cs, tr, |cs|);
    assert cs[..|cs|] == cs;
  }

  lemma BlockIsVertex(g: CallGraph, calls: CallLists, nm: Namer, x: CallGraph, b: Name)
    requires BlockGraph(g, calls, nm) && Expanded(g, calls, nm, x) && b in g.vertices
    ensures b in x.vertices && nm(b, 0) == b
  {
    assert ChainVertex(g, nm, AllCalls(calls), b, 0, b);
  }

  lemma PathInside(g: CallGraph, p: seq<Name>)
    requires g.Valid() && IsPath(g, p)
    ensures p[|p| - 1] in g.vertices
  {
  }

  lemma {:induction false} BlockWalkExpands(g: CallGraph, calls: CallLists, nm: Namer, x: CallGraph, p: seq<Name>)
    requires BlockGraph(g, calls, nm) && Expanded(g, calls, nm, x) && IsPath(g, p)
    ensures Spells(false, x, p[0], End(calls, nm, p[|p| - 1]), Spell(calls, p))
    decreases |p|
  {
    var k := |p| - 1;
    var b := p[k];
    PathInside(g, p);
    BlockIsVertex(g, calls, nm, x, b);
    if k == 0 {
      SpellsNothing(false, x, b);
    } else {
      BlockWalkExpands(g, calls, nm, x, p[..k]);
      ControlLink(g, calls, nm, x, p[k - 1], b);
      SpellsSnoc(false, x, p[0], End(calls, nm, p[k - 1]), b, Spell(calls, p[..k]), CONTROL);
      assert Spell(calls, p[..k]) + [] == Spell(calls, p[..k]);
    }
    AlongChain(g, calls, nm, x, p[0], b, Spell(calls, p[..k]));
  }

  // ----- and back -----

  /** Position `k` of the chain of the last block of walk `p` has been reached, and `tr` spelled. */
  ghost predicate Reached(g: CallGraph, calls: CallLists, nm: Namer, p: seq<Name>, k: nat, start: Name, end: Name,
                          tr: seq<string>) {
    && IsPath(g, p) && p[0] == start
    && k <= |CallsOf(calls, p[|p| - 1])| && end == nm(p[|p| - 1], k)
    && tr == Spell(calls, p[..|p| - 1]) + CallsOf(calls, p[|p| - 1])[..k]
  }

  /** From position `k` of a chain only the next call leads on, from its end only the block's control edges. */
  lemma EdgeFromChain(g: CallGraph, calls: CallLists, nm: Namer, x: CallGraph, b: Name, k: nat, y: Name)
    requires BlockGraph(g, calls, nm) && Expanded(g, calls, nm, x) && b in g.vertices && k <= |CallsOf(calls, b)|
    requires (nm(b, k), y) in x.edges
    ensures (k < |CallsOf(calls, b)| && y == nm(b, k + 1) && x.edges[(nm(b, k), y)] == CallsOf(calls, b)[k])
         || (k == |CallsOf(calls, b)| && (b, y) in g.edges && x.edges[(nm(b, k), y)] == CONTROL)
  {
    var len, e := AllCalls(calls), (nm(b, k), y);
    assert Accounted(g, calls, nm, len, g.edges.Keys, e);
    if c, j: nat :| ChainEdge(g, nm, len, c, j, e) {
      NamesDiffer(g, calls, nm, b, k, c, j);
    } else {
      var d :| ControlEdge(g, calls, nm, g.edges.Keys, d, e);
      NamesDiffer(g, calls, nm, b, k, d.0, |CallsOf(calls, d.0)|);
    }
  }

  lemma NextBlock(g: CallGraph, calls: CallLists, nm: Namer, p: seq<Name>, start: Name, end: Name, tr: seq<string>,
                  y: Name)
    requires g.Valid() && (forall b | b in g.vertices :: nm(b, 0) == b)
    requires IsPath(g, p) && Reached(g, calls, nm, p, |CallsOf(calls, p[|p| - 1])|, start, end, tr) &&
             (p[|p| - 1], y) in g.edges
    ensures Reached(g, calls, nm, p + [y], 0, start, y, tr)
  {
    var b := p[|p| - 1];
    PathSnoc(false, g, p, y);
    assert (p + [y])[..|p|] == p;
    assert CallsOf(calls, b)[..|CallsOf(calls, b)|] == CallsOf(calls, b);
    assert Spell(calls, p) + CallsOf(calls, y)[..0] == Spell(calls, p);
  }

  lemma NextCall(g: CallGraph, calls: CallLists, nm: Namer, p: seq<Name>, k: nat, start: Name, end: Name,
                 tr: seq<string>)
    requires Reached(g, calls, nm, p, k, start, end, tr) && k < |CallsOf(calls, p[|p| - 1])|
    ensures Reached(g, calls, nm, p, k + 1, start, nm(p[|p| - 1], k + 1), tr + [CallsOf(calls, p[|p| - 1])[k]])
  {
    var cs := CallsOf(calls, p[|p| - 1]);
    assert Spell(calls, p[..|p| - 1]) + cs[..k] + [cs[k]] == Spell(calls, p[..|p| - 1]) + cs[..k + 1];
  }

  /** A walk of blocks, and a position in its last block, that explain `end` and `tr`. */
  ghost predicate HasOrigin(g: CallGraph, calls: CallLists, nm: Namer, start: Name, end: Name, tr: seq<string>) {
    exists p, k: nat :: Reached(g, calls, nm, p, k, start, end, tr)
  }

  /** One more edge of the expanded graph: the next call of the block, or a step to the next block. */
  lemma OriginStep(g: CallGraph, calls: CallLists, nm: Namer, x: CallGraph, start: Name, end: Name, tr: seq<string>,
                   y: Name)
    requires BlockGraph(g, calls, nm) && Expanded(g, calls, nm, x) && HasOrigin(g, calls, nm, start, end, tr)
    requires (end, y) in x.edges
    ensures HasOrigin(g, calls, nm, start, y, tr + Visible(false, x.edges[(end, y)]))
  {
    var p, k: nat :| Reached(g, calls, nm, p, k, start, end, tr);
    var b := p[|p| - 1];
    PathInside(g, p);
    EdgeFromChain(g, calls, nm, x, b, k, y);
    if k < |CallsOf(calls, b)| {
      ChainLink(g, calls, nm, x, b, k);
      NextCall(g, calls, nm, p, k, start, end, tr);
    } else {
      NextBlock(g, calls, nm, p, start, end, tr, y);
      assert tr + [] == tr;
    }
  }

  lemma OriginStart(g: CallGraph, calls: CallLists, nm: Namer, b: Name)
    requires b in g.vertices && nm(b, 0) == b
    ensures HasOrigin(g, calls, nm, b, b, [])
  {
    assert Reached(g, calls, nm, [b], 0, b, b, []);
  }

  /** At the end of the chain of `c` the walk ends in `c`. */
  lemma OriginAtEnd(g: CallGraph, calls: CallLists, nm: Namer, b: Name, c: Name, tr: seq<string>)
    requires BlockGraph(g, calls, nm) && c in g.vertices && HasOrigin(g, calls, nm, b, End(calls, nm, c), tr)
    ensures BlockWalkSpells(g, calls, b, c, tr)
  {
    var p, k: nat :| Reached(g, calls, nm, p, k, b, End(calls, nm, c), tr);
    PathInside(g, p);
    NamesDiffer(g, calls, nm, p[|p| - 1], k, c, |CallsOf(calls, c)|);
    assert CallsOf(calls, c)[..k] == CallsOf(calls, c);
    assert PathFrom(g, p, b, c) && Spell(calls, p) == tr;
  }

  lemma {:induction false} ExpandedPathOrigin(g: CallGraph, calls: CallLists, nm: Namer, x: CallGraph, q: seq<Name>)
    requires BlockGraph(g, calls, nm) && Expanded(g, calls, nm, x) && IsPath(x, q) && q[0] in g.vertices
    ensures HasOrigin(g, calls, nm, q[0], q[|q| - 1], Calls(false, x, q))
    decreases |q|
  {
    if |q| == 1 {
      OriginStart(g, calls, nm, q[0]);
    } else {
      var m := |q| - 1;
      var q' := q[..m];
      assert q'[0] == q[0] && q'[|q'| - 1] == q[m - 1];
      ExpandedPathOrigin(g, calls, nm, x, q');
      OriginStep(g, calls, nm, x, q[0], q[m - 1], Calls(false, x, q'), q[m]);
    }
  }

  /** Expansion keeps the meaning, both ways: between two blocks, the expanded graph spells
      (up to the end of the last block's chain) exactly what the block walks spell. */
  lemma ExpansionKeepsTraces(g: CallGraph, calls: CallLists, nm: Namer, x: CallGraph, b: Name, c: Name, tr: seq<string>)
    requires BlockGraph(g, calls, nm) && Expanded(g, calls, nm, x) && b in g.vertices && c in g.vertices
    ensures BlockWalkSpells(g, calls, b, c, tr) <==> Spells(false, x, b, End(calls, nm, c), tr)
  {
    if BlockWalkSpells(g, calls, b, c, tr) {
      var p :| PathFrom(g, p, b, c) && Spell(calls, p) == tr;
      BlockWalkExpands(g, calls, nm, x, p);
    }
    if Spells(false, x, b, End(calls, nm, c), tr) {
      var q :| PathFrom(x, q, b, End(calls, nm, c)) && Calls(false, x, q) == tr;
      ExpandedPathOrigin(g, calls, nm, x, q);
      OriginAtEnd(g, calls, nm, b, c, tr);
    }
  }

  /** Expansion and a clean contraction together: every call sequence of the function's
      block walks is a call sequence of its library call graph. */
  lemma CompiledTraces(g: CallGraph, calls: CallLists, nm: Namer, x: CallGraph, log: Log, b: Name, c: Name,
                       tr: seq<string>)
    requires BlockGraph(g, calls, nm) && Expanded(g, calls, nm, x) && b in g.vertices && c in g.vertices
    requires CleanRun(false, x, log) || (Collapsible(x) && VisitRun(x, log))
    requires BlockWalkSpells(g, calls, b, c, tr)
    ensures Spells(false, Replay(x, log), Rep(log, b), Rep(log, End(calls, nm, c)), tr)
  {
    if !CleanRun(false, x, log) {
      CollapsibleRunIsClean(x, log);
    }
    ExpansionKeepsTraces(g, calls, nm, x, b, c, tr);
    TracesSurvive(false, x, log, b, End(calls, nm, c), tr);
  }
}
