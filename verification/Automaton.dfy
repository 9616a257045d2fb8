/** The automaton that a packed graph stands for, without any memory.

    A state is the position of a node.  A call moves along the first edge of the
    node that carries the call's id; an edge into state 0 is a refusal, because
    memgraph.c uses the value 0 for "no transition". */
module Automaton {
  import opened Options
  import opened PoolLayout

  /** The target of the first edge that carries `call`. */
  function FirstMatch(es: seq<Edge>, call: Word): Option<Word> {
    if es == [] then None
    else if es[0].call == call then Some(es[0].target)
    else FirstMatch(es[1..], call)
  }

  /** The state entered on `call` in state `s`; 0 is a refusal. */
  function Step(g: Graph, s: nat, call: Word): Word
    requires s < |g|
  {
    match FirstMatch(g[s].edges, call)
    case None => 0
    case Some(t) => t
  }

  lemma {:induction false} FirstMatchFound(es: seq<Edge>, call: Word, i: nat)
    requires i < |es| && es[i].call == call
    requires forall k | 0 <= k < i :: es[k].call != call
    ensures FirstMatch(es, call) == Some(es[i].target)
  {
    if i > 0 {
      FirstMatchFound(es[1..], call, i - 1);
    }
  }

  lemma {:induction false} FirstMatchMissing(es: seq<Edge>, call: Word)
    requires forall k | 0 <= k < |es| :: es[k].call != call
    ensures FirstMatch(es, call) == None
  {
    if es != [] {
      FirstMatchMissing(es[1..], call);
    }
  }

  lemma {:induction false} FirstMatchWhere(es: seq<Edge>, call: Word) returns (i: nat)
    requires FirstMatch(es, call).Some?
    ensures i < |es| && es[i] == Edge(call, FirstMatch(es, call).value)
    ensures forall k | 0 <= k < i :: es[k].call != call
  {
    if es[0].call == call {
      i := 0;
    } else {
      var j := FirstMatchWhere(es[1..], call);
      i := j + 1;
      forall k | 0 <= k < i ensures es[k].call != call {
        if k > 0 {
          assert es[k] == es[1..][k - 1];
        }
      }
    }
  }

  // ----- labelled-graph semantics -----

  /** Edge `i` of node `s` is the first one for `call`, and leads to `t`. */
  ghost predicate FirstEdge(g: Graph, s: nat, call: Word, t: Word, i: nat) {
    && s < |g| && i < |g[s].edges|
    && g[s].edges[i] == Edge(call, t)
    && forall k | 0 <= k < i :: g[s].edges[k].call != call
  }

  /** The graph has a first edge for `call` from `s` to `t`, 0 being a state like any other. */
  ghost predicate Follows(g: Graph, s: nat, call: Word, t: Word) {
    exists i :: FirstEdge(g, s, call, t, i)
  }

  /** `states` is a walk of the graph that spells `calls`. */
  ghost predicate Walk(g: Graph, states: seq<Word>, calls: seq<Word>) {
    && |states| == |calls| + 1
    && forall i | 0 <= i < |calls| :: Follows(g, states[i], calls[i], states[i + 1])
  }

  lemma StepFollows(g: Graph, s: nat, call: Word, t: Word)
    requires s < |g|
    ensures t != 0 ==> (Step(g, s, call) == t <==> Follows(g, s, call, t))
    ensures Step(g, s, call) == 0 <==> forall u: Word :: Follows(g, s, call, u) ==> u == 0
  {
    var es := g[s].edges;
    if FirstMatch(es, call).Some? {
      var i := FirstMatchWhere(es, call);
      assert FirstEdge(g, s, call, Step(g, s, call), i);
      assert Follows(g, s, call, Step(g, s, call));
    }
    forall u: Word | Follows(g, s, call, u) ensures FirstMatch(es, call) == Some(u) {
      var i :| FirstEdge(g, s, call, u, i);
      FirstMatchFound(es, call, i);
    }
  }

  // ----- monitored runs -----

  /** The states a monitored program goes through, and whether it was stopped. */
  datatype Run = Run(states: seq<Word>, killed: bool)

  function MonitorRun(g: Graph, s: Word, calls: seq<Word>): (r: Run)
    requires TargetsInside(g) && s < |g|
    ensures 1 <= |r.states| <= |calls| + 1
    ensures r.states[0] == s
    ensures r.killed <==> |r.states| <= |calls|
    decreases |calls|
  {
    if calls == [] then Run([s], false)
    else
      var t := Step(g, s, calls[0]);
      if t == 0 then Run([s], true)
      else
        StepInside(g, s, calls[0]);
        var rest := MonitorRun(g, t, calls[1..]);
        Run([s] + rest.states, rest.killed)
  }

  lemma StepInside(g: Graph, s: nat, call: Word)
    requires TargetsInside(g) && s < |g|
    ensures Step(g, s, call) < |g|
  {
    if FirstMatch(g[s].edges, call).Some? {
      var i := FirstMatchWhere(g[s].edges, call);
    }
  }

  /** One more call at the end of a run that was not stopped. */
  lemma {:induction false} MonitorRunSnoc(g: Graph, s: Word, calls: seq<Word>, call: Word)
    requires TargetsInside(g) && s < |g|
    requires !MonitorRun(g, s, calls).killed
    ensures var r := MonitorRun(g, s, calls);
            var last := r.states[|calls|];
            && last < |g|
            && MonitorRun(g, s, calls + [call]) ==
               (if Step(g, last, call) == 0 then Run(r.states, true)
                else Run(r.states + [Step(g, last, call)], false))
    decreases |calls|
  {
    if calls == [] {
      StepInside(g, s, call);
      assert (calls + [call])[1..] == [];
    } else {
      var t := Step(g, s, calls[0]);
      StepInside(g, s, calls[0]);
      MonitorRunSnoc(g, t, calls[1..], call);
      assert (calls + [call])[1..] == calls[1..] + [call];
      var r, rest := MonitorRun(g, s, calls), MonitorRun(g, t, calls[1..]);
      assert r.states == [s] + rest.states;
    }
  }

  /** A stopped run is not changed by the calls that would have come later. */
  lemma {:induction false} MonitorRunStopped(g: Graph, s: Word, calls: seq<Word>, more: seq<Word>)
    requires TargetsInside(g) && s < |g|
    requires MonitorRun(g, s, calls).killed
    ensures MonitorRun(g, s, calls + more) == MonitorRun(g, s, calls)
    decreases |calls|
  {
    assert (calls + more)[0] == calls[0];
    var t := Step(g, s, calls[0]);
    if t != 0 {
      StepInside(g, s, calls[0]);
      MonitorRunStopped(g, t, calls[1..], more);
      assert (calls + more)[1..] == calls[1..] + more;
    }
  }

  /** The monitor lets `calls` through exactly when the graph has a walk from `s`
      that spells them and never enters state 0, and then it is in the states of
      that walk. */
  lemma {:induction false} MonitorRunIsWalk(g: Graph, s: Word, calls: seq<Word>, states: seq<Word>)
    requires TargetsInside(g) && s < |g|
    ensures (MonitorRun(g, s, calls) == Run(states, false)) <==>
            (states != [] && states[0] == s && Walk(g, states, calls) && 0 !in states[1..])
    decreases |calls|
  {
    if calls == [] {
      if states != [] && states[0] == s && Walk(g, states, calls) {
        assert states == [s];
      }
    } else {
      var t := Step(g, s, calls[0]);
      StepInside(g, s, calls[0]);
      StepFollows(g, s, calls[0], t);
      if t != 0 && |states| > 1 {
        MonitorRunIsWalk(g, t, calls[1..], states[1..]);
        assert states == [states[0]] + states[1..];
        if states[0] == s && states[1] == t {
          WalkCons(g, states, calls);
          assert states[1..] == [t] + states[2..];
        }
        if Walk(g, states, calls) && states[0] == s && 0 !in states[1..] {
          StepFollows(g, s, calls[0], states[1]);
          assert Follows(g, states[0], calls[0], states[1]);
          assert states[1] == states[1..][0] != 0;
        }
      } else if |states| > 1 && states[0] == s && Walk(g, states, calls) {
        assert Follows(g, states[0], calls[0], states[1]);
        assert states[1] in states[1..];
      }
    }
  }

  lemma WalkCons(g: Graph, states: seq<Word>, calls: seq<Word>)
    requires |states| > 1 && calls != []
    ensures Walk(g, states, calls) <==>
            Follows(g, states[0], calls[0], states[1]) && Walk(g, states[1..], calls[1..])
  {
    if Follows(g, states[0], calls[0], states[1]) && Walk(g, states[1..], calls[1..]) {
      forall i | 0 <= i < |calls| ensures Follows(g, states[i], calls[i], states[i + 1]) {
        if i > 0 {
          assert Follows(g, states[1..][i - 1], calls[1..][i - 1], states[1..][i]);
        }
      }
    }
    if Walk(g, states, calls) {
      forall i | 0 <= i < |calls[1..]|
        ensures Follows(g, states[1..][i], calls[1..][i], states[1..][i + 1])
      {
        assert Follows(g, states[i + 1], calls[i + 1], states[i + 2]);
      }
    }
  }

  /** A run is stopped only at a call the graph cannot follow or can follow only into state 0. */
  lemma {:induction false} StoppedMeansRefused(g: Graph, s: Word, calls: seq<Word>)
    requires TargetsInside(g) && s < |g|
    ensures var r := MonitorRun(g, s, calls);
            var k := |r.states| - 1;
            && MonitorRun(g, s, calls[..k]) == Run(r.states, false)
            && (r.killed ==> r.states[k] < |g| && Step(g, r.states[k], calls[k]) == 0)
    decreases |calls|
  {
    var r := MonitorRun(g, s, calls);
    var k := |r.states| - 1;
    if k > 0 {
      var t := Step(g, s, calls[0]);
      StepInside(g, s, calls[0]);
      StoppedMeansRefused(g, t, calls[1..]);
      assert calls[..k][1..] == calls[1..][..k - 1];
      assert r.states == [s] + MonitorRun(g, t, calls[1..]).states;
    }
  }

  // ----- edges that lead out of the graph -----

  /** The state that the monitor enters on `call`: the step, converted to int and back; 0 is a refusal. */
  function Enter(g: Graph, s: nat, call: Word): (t: Word)
    requires s < |g|
    ensures (t - Step(g, s, call)) % 0x1_0000_0000 == 0
    ensures t < 0x8000_0000 || t >= 0xFFFF_FFFF_8000_0000
  {
    ToWord(ToInt32(Step(g, s, call)))
  }

  /** Over the calls the monitor enters only nodes of the graph; a refusal leaves it where it is. */
  ghost predicate Confined(g: Graph, s: nat, calls: seq<Word>)
    requires s < |g|
    decreases |calls|
  {
    calls == [] ||
    (var t := Enter(g, s, calls[0]);
     t < |g| && Confined(g, if t == 0 then s else t, calls[1..]))
  }

  ghost function EndState(g: Graph, s: nat, calls: seq<Word>): (t: nat)
    requires s < |g| && Confined(g, s, calls)
    ensures t < |g|
    decreases |calls|
  {
    if calls == [] then s
    else
      var t := Enter(g, s, calls[0]);
      EndState(g, if t == 0 then s else t, calls[1..])
  }

  /** The first edge for every call leads to a node, once its target has been converted. */
  ghost predicate ExitsInside(g: Graph, s: nat) {
    forall call, t :: Follows(g, s, call, t) ==> ToWord(ToInt32(t)) < |g|
  }

  lemma ExitsInsideIsEnter(g: Graph, s: nat)
    requires s < |g|
    ensures ExitsInside(g, s) <==> forall call :: Enter(g, s, call) < |g|
  {
    forall call, t | Follows(g, s, call, t) ensures Step(g, s, call) == t {
      var i :| FirstEdge(g, s, call, t, i);
      FirstMatchFound(g[s].edges, call, i);
    }
    if ExitsInside(g, s) {
      forall call ensures Enter(g, s, call) < |g| {
        if FirstMatch(g[s].edges, call).Some? {
          var i := FirstMatchWhere(g[s].edges, call);
          assert FirstEdge(g, s, call, Step(g, s, call), i);
          assert Follows(g, s, call, Step(g, s, call));
        }
      }
    }
    if forall call :: Enter(g, s, call) < |g| {
      forall call, t | Follows(g, s, call, t) ensures ToWord(ToInt32(t)) < |g| {
        assert Enter(g, s, call) < |g|;
      }
    }
  }

  lemma {:induction false} ConfinedSnoc(g: Graph, s: nat, calls: seq<Word>, call: Word)
    requires s < |g|
    ensures Confined(g, s, calls + [call]) <==> Confined(g, s, calls) && Enter(g, EndState(g, s, calls), call) < |g|
    decreases |calls|
  {
    if calls == [] {
      assert (calls + [call])[1..] == [];
    } else {
      var t := Enter(g, s, calls[0]);
      assert (calls + [call])[1..] == calls[1..] + [call];
      if t < |g| {
        ConfinedSnoc(g, if t == 0 then s else t, calls[1..], call);
      }
    }
  }

  lemma {:induction false} EndStateSnoc(g: Graph, s: nat, calls: seq<Word>, call: Word)
    requires s < |g| && Confined(g, s, calls + [call]) && Confined(g, s, calls)
    ensures var t := EndState(g, s, calls);
            EndState(g, s, calls + [call]) == if Enter(g, t, call) == 0 then t else Enter(g, t, call)
    decreases |calls|
  {
    if calls == [] {
      assert (calls + [call])[1..] == [];
    } else {
      var t := Enter(g, s, calls[0]);
      assert (calls + [call])[1..] == calls[1..] + [call];
      EndStateSnoc(g, if t == 0 then s else t, calls[1..], call);
    }
  }

  ghost predicate AlwaysConfined(g: Graph, s: nat)
    requires s < |g|
  {
    forall calls :: Confined(g, s, calls)
  }

  /** The first edges of every node that can be reached lead to nodes. */
  ghost predicate ReachedExitsInside(g: Graph, s: nat)
    requires s < |g|
  {
    forall made | Confined(g, s, made) :: ExitsInside(g, EndState(g, s, made))
  }

  lemma {:induction false} ConfinedPrefixes(g: Graph, s: nat, calls: seq<Word>)
    requires s < |g| && ReachedExitsInside(g, s)
    ensures Confined(g, s, calls)
    decreases |calls|
  {
    if calls != [] {
      var made, call := calls[..|calls| - 1], calls[|calls| - 1];
      ConfinedPrefixes(g, s, made);
      ExitsInsideIsEnter(g, EndState(g, s, made));
      ConfinedSnoc(g, s, made, call);
      assert calls == made + [call];
    }
  }

  /** No call sequence leads the monitor out of the graph if and only if the first edges of
      every node it can reach lead to nodes.  `verify_graph` does not check this. */
  lemma ConfinedExactly(g: Graph, s: nat)
    requires s < |g|
    ensures AlwaysConfined(g, s) <==> ReachedExitsInside(g, s)
  {
    if AlwaysConfined(g, s) {
      forall made | Confined(g, s, made) ensures ExitsInside(g, EndState(g, s, made)) {
        forall call ensures Enter(g, EndState(g, s, made), call) < |g| {
          ConfinedSnoc(g, s, made, call);
        }
        ExitsInsideIsEnter(g, EndState(g, s, made));
      }
    }
    if ReachedExitsInside(g, s) {
      forall calls ensures Confined(g, s, calls) {
        ConfinedPrefixes(g, s, calls);
      }
    }
  }

  /** A set of nodes that no step leaves, a refusal apart. */
  ghost predicate Stays(g: Graph, s: set<nat>) {
    forall u | u in s :: u < |g| && forall call :: Enter(g, u, call) == 0 || Enter(g, u, call) in s
  }

  lemma {:induction false} StaysConfined(g: Graph, s: set<nat>, u: nat, calls: seq<Word>)
    requires Stays(g, s) && u in s
    ensures u < |g| && Confined(g, u, calls)
    decreases |calls|
  {
    if calls != [] {
      var t := Enter(g, u, calls[0]);
      StaysConfined(g, s, if t == 0 then u else t, calls[1..]);
    }
  }

  ghost predicate Reaches(g: Graph, v: nat, u: nat)
    requires v < |g|
  {
    exists calls :: Confined(g, v, calls) && EndState(g, v, calls) == u
  }

  /** In terms of sets: a node is never left for anything but nodes if and only if some set
      of nodes contains it and is left by no step. */
  lemma ConfinedByClosedSet(g: Graph, v: nat)
    requires v < |g|
    ensures AlwaysConfined(g, v) <==> exists s: set<nat> :: v in s && Stays(g, s)
  {
    if AlwaysConfined(g, v) {
      var s := set u: nat | u < |g| && Reaches(g, v, u);
      assert Confined(g, v, []) && EndState(g, v, []) == v && Reaches(g, v, v);
      forall u, call | u in s ensures Enter(g, u, call) == 0 || Enter(g, u, call) in s {
        var calls :| Confined(g, v, calls) && EndState(g, v, calls) == u;
        ConfinedSnoc(g, v, calls, call);
        EndStateSnoc(g, v, calls, call);
        assert Confined(g, v, calls + [call]);
      }
      assert Stays(g, s);
    }
    if s: set<nat> :| v in s && Stays(g, s) {
      forall calls ensures Confined(g, v, calls) {
        StaysConfined(g, s, v, calls);
      }
    }
  }

  /** In a graph that has all its targets inside the conversions change nothing. */
  lemma EnterIsStep(g: Graph, s: nat, call: Word)
    requires TargetsInside(g) && s < |g| <= 0x8000_0000
    ensures Enter(g, s, call) == Step(g, s, call) < |g|
  {
    StepInside(g, s, call);
  }

  lemma InsideIsConfined(g: Graph, s: nat)
    requires TargetsInside(g) && s < |g| <= 0x8000_0000
    ensures AlwaysConfined(g, s)
  {
    forall made | Confined(g, s, made) ensures ExitsInside(g, EndState(g, s, made)) {
      forall call ensures Enter(g, EndState(g, s, made), call) < |g| {
        EnterIsStep(g, EndState(g, s, made), call);
      }
      ExitsInsideIsEnter(g, EndState(g, s, made));
    }
    ConfinedExactly(g, s);
  }

  /** A first edge back into state 0 is part of the graph, and yet always refused. */
  lemma ReturnToStartIsRefused(g: Graph, s: Word, call: Word)
    requires TargetsInside(g) && Follows(g, s, call, 0)
    ensures Walk(g, [s, 0], [call])
    ensures MonitorRun(g, s, [call]) == Run([s], true)
  {
    StepFollows(g, s, call, 0);
    var i :| FirstEdge(g, s, call, 0, i);
    FirstMatchFound(g[s].edges, call, i);
    assert Follows(g, [s, 0][0], [call][0], [s, 0][1]);
  }
}
