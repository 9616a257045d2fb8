/** sandboxing.c: the system calls that drive the monitor, and a whole monitored
    life of a program: build the pool, hand it to the kernel, make the calls. */
module Sandbox {
  import opened PoolLayout
  import opened MemGraph
  import opened Automaton

  const EINVAL: int := 22

  class Sandbox {
    const monitor: MemGraph
    var kernelBuffer: seq<Word>
    var alive: bool

    constructor ()
      ensures fresh(monitor) && monitor.pool == null && monitor.nodes == null
      ensures alive
    {
      monitor := new MemGraph();
      kernelBuffer := [];
      alive := true;
    }

    /** The kernel's pool after `data` has been copied over it. */
    ghost function Image(data: seq<Word>): (words: seq<Word>)
      requires |data| <= POOL_WORDS
      requires monitor.pool != null ==> monitor.pool.Length == POOL_WORDS
      reads monitor, monitor.pool
      ensures |words| == POOL_WORDS
    {
      monitor.Image(data)
    }

    /** sandbox_init.  When the pool does not verify, the kernel build only logs the
        fact and resets the monitor all the same. */
    method SandboxInit(data: seq<Word>) returns (retval: int)
      requires |data| <= POOL_WORDS
      requires monitor.pool != null ==> monitor.pool.Length == POOL_WORDS
      requires data != [] ==> Checkable(Image(data)) && HeaderGood(Image(data)) && Image(data)[COUNT_FIELD] > 0
      requires data != [] && monitor.nodes != null ==> Image(data)[COUNT_FIELD] <= monitor.nodes.Length
      modifies this`kernelBuffer, monitor, monitor.pool, monitor.nodes
      ensures data == [] ==> retval == -EINVAL
      ensures data != [] ==>
                && retval == 0 && kernelBuffer == data
                && monitor.pool != null && fresh({monitor.pool} - {old(monitor.pool)})
                && monitor.pool[..] == old(Image(data))
                && (forall k | 0 <= k < |data| :: monitor.pool[k] == data[k])
                && (old(monitor.pool) != null ==>
                      forall k | |data| <= k < POOL_WORDS :: monitor.pool[k] == old(monitor.pool[k]))
                && monitor.currentProgstate == 0
                && (GoodPool(monitor.pool[..]) ==> monitor.Loaded())
                && (monitor.Loaded() && LookAheadInside(TableBase(monitor.pool[..]), monitor.graph) ==> monitor.Ready())
      ensures fresh({monitor.nodes} - {old(monitor.nodes), null})
    {
      if data == [] {
        return -EINVAL;
      }
      kernelBuffer := data;
      var ok := monitor.InitializeGraph(kernelBuffer);
      monitor.ResetProgstate();
      return 0;
    }

    /** sandbox_dummycall: the program goes on in the state the check announced, or is killed. */
    method DummyCall(number: Word) returns (retval: int, ghost announced: int)
      requires alive && monitor.Ready() && Enter(monitor.graph, monitor.currentProgstate, number) < |monitor.graph|
      modifies this`alive, monitor`currentProgstate, monitor`startNode
      ensures monitor.Ready()
      ensures announced == ToInt32(Step(monitor.graph, old(monitor.currentProgstate), number))
      ensures alive <==> announced != 0
      ensures alive ==> retval == announced == monitor.currentProgstate
      ensures !alive ==> monitor.currentProgstate == old(monitor.currentProgstate)
    {
      retval := number;
      var valid := monitor.IsStateTransitionValid(number);
      announced := valid;
      monitor.PositionIsInt(Enter(monitor.graph, monitor.currentProgstate, number));
      if valid != 0 {
        retval := monitor.TransitionToState(number);
      } else {
        alive := false;
      }
    }
  }

  /** The graphs that a monitored program can be given: at least one node, ids in
      order, targets inside, and room for the word looked at behind the last node. */
  ghost predicate Monitorable(g: Graph) {
    && g != [] && IdsInOrder(g) && TargetsInside(g)
    && (Records(g) < MAX_RECORDS || (Records(g) == MAX_RECORDS && g[|g| - 1].edges != []))
  }

  /** The next node in order, its edges split into the two arrays `alloc_node` takes. */
  method AddNext(m: MemGraph, n: Node)
    requires m.Building() && m.Indexed(HEADER_WORDS) && n.id == |m.graph|
    requires HEADER_WORDS + Size(m.graph) + NodeWords(n) <= POOL_WORDS
    modifies m, m.pool, m.nodes
    ensures m.Building() && m.Indexed(HEADER_WORDS) && m.graph == old(m.graph) + [n]
    ensures m.pool == old(m.pool) && m.nodes != null && (m.nodes == old(m.nodes) || fresh(m.nodes))
  {
    var es := n.edges;
    var successors := seq(|es|, j requires 0 <= j < |es| => es[j].target);
    var libcalls := seq(|es|, j requires 0 <= j < |es| => es[j].call);
    assert EdgeList(|es|, successors, libcalls) == es;
    m.InOrderHasRoom();
    var _ := m.AddNode(n.id, |es|, successors, libcalls);
  }

  /** The graph's nodes handed to `alloc_node` one after the other. */
  method FillPool(g: Graph) returns (m: MemGraph)
    requires IdsInOrder(g) && Records(g) <= MAX_RECORDS
    ensures fresh(m) && m.pool != null && fresh(m.pool) && (m.nodes == null || fresh(m.nodes))
    ensures m.Building() && m.Indexed(HEADER_WORDS) && m.graph == g
  {
    m := new MemGraph();
    var _ := m.InitializeGraph([]);
    var i: nat := 0;
    while i < |g|
      invariant i <= |g|
      invariant m.Building() && m.Indexed(HEADER_WORDS) && m.graph == g[..i]
      invariant fresh(m) && fresh(m.pool) && (m.nodes == null || fresh(m.nodes))
    {
      PrefixFits(g, i);
      AddNext(m, g[i]);
      assert g[..i + 1] == g[..i] + [g[i]];
      i := i + 1;
    }
    assert g[..i] == g;
  }

  /** Until it is finalized, a pool is refused, whatever graph it holds. */
  method VerifyUnfinished(g: Graph) returns (code: int)
    requires IdsInOrder(g) && Records(g) <= MAX_RECORDS
    ensures code == -5
  {
    var m := FillPool(g);
    code := m.VerifyGraph();
  }

  /** `finalize_graph` on a filled pool, and `verify_graph` on what it leaves. */
  method FinishPool(m: MemGraph) returns (image: seq<Word>, verdict: int)
    requires m.Building() && m.Indexed(HEADER_WORDS)
    modifies m, m.pool, m.nodes
    ensures |image| == POOL_WORDS
    ensures image[TABLE_FIELD] == 8 * HEADER_WORDS && image[COUNT_FIELD] == |old(m.graph)|
    ensures GraphAt(image, HEADER_WORDS, old(m.graph))
    ensures GoodPool(image) && Checkable(image) && verdict == 1
    ensures m.Loaded() && m.graph == old(m.graph) && m.pool == old(m.pool) && m.pool[..] == image
  {
    ghost var g := m.graph;
    FinalizedPoolIsGood(m.pool[..], m.graph);
    m.FinalizeGraph();
    image := m.pool[..];
    verdict := VerifyBuilt(m, g);
  }

  /** `verify_graph` on a good pool finds the graph that it holds. */
  method VerifyBuilt(m: MemGraph, ghost g: Graph) returns (verdict: int)
    requires m.pool != null && m.pool.Length == POOL_WORDS && GoodPool(m.pool[..]) && Checkable(m.pool[..])
    requires m.pool[TABLE_FIELD] == 8 * HEADER_WORDS && m.pool[COUNT_FIELD] == |g| &&
             GraphAt(m.pool[..], HEADER_WORDS, g)
    requires m.nodes != null ==> |g| <= m.nodes.Length
    modifies m`nodes, m`graph, m.nodes
    ensures verdict == 1 && m.Loaded() && m.graph == g && m.pool[..] == old(m.pool[..])
  {
    verdict := m.VerifyGraph();
    DecodeUnique(m.pool[..], HEADER_WORDS, m.graph, g);
  }

  /** Filled and finalized, the pool verifies and holds the graph, and `verify_graph` finds
      again where each node was allocated. */
  method BuildPool(g: Graph) returns (image: seq<Word>, table: seq<nat>, verdict: int)
    requires IdsInOrder(g) && Records(g) <= MAX_RECORDS
    ensures |image| == POOL_WORDS
    ensures image[TABLE_FIELD] == 8 * HEADER_WORDS && image[COUNT_FIELD] == |g|
    ensures GraphAt(image, HEADER_WORDS, g)
    ensures GoodPool(image) && Checkable(image) && verdict == 1
    ensures |g| <= |table| && TableAt(table, HEADER_WORDS, g)
  {
    var m := FillPool(g);
    image, verdict := FinishPool(m);
    table := m.nodes[..];
  }

  lemma PrefixFits(g: Graph, k: nat)
    requires k < |g| && Records(g) <= MAX_RECORDS
    ensures HEADER_WORDS + Size(g[..k]) + NodeWords(g[k]) <= POOL_WORDS
  {
    FitsExactly(g);
    RecordsDisjoint(g, k, |g|);
    assert g[..|g|] == g;
  }

  /** Build a pool in one process and hand it to the kernel of a fresh sandbox. */
  method Boot(g: Graph) returns (kernel: Sandbox)
    requires Monitorable(g)
    ensures fresh(kernel) && fresh(kernel.monitor) && kernel.alive
    ensures kernel.monitor.Ready() && kernel.monitor.graph == g && kernel.monitor.currentProgstate == 0
  {
    var image, table, verdict := BuildPool(g);
    kernel := new Sandbox();
    assert kernel.Image(image) == image;
    var _ := kernel.SandboxInit(image);
    FitsExactly(g);
    LookAheadExactly(g);
    DecodeUnique(image, HEADER_WORDS, kernel.monitor.graph, g);
  }

  /** One more call of a program that is still alive. */
  method CallOnce(kernel: Sandbox, ghost g: Graph, ghost made: seq<Word>, call: Word, before: seq<Word>)
    returns (states: seq<Word>)
    requires kernel.alive && kernel.monitor.Ready() && kernel.monitor.graph == g && TargetsInside(g)
    requires MonitorRun(g, 0, made) == Run(before, false)
    requires before[|before| - 1] == kernel.monitor.currentProgstate
    modifies kernel`alive, kernel.monitor`currentProgstate, kernel.monitor`startNode
    ensures kernel.monitor.Ready()
    ensures MonitorRun(g, 0, made + [call]) == Run(states, !kernel.alive)
    ensures kernel.alive ==> states[|states| - 1] == kernel.monitor.currentProgstate
  {
    MonitorRunSnoc(g, 0, made, call);
    states := before;
    kernel.monitor.PositionIsInt(kernel.monitor.currentProgstate);
    EnterIsStep(g, kernel.monitor.currentProgstate, call);
    var retval, announced := kernel.DummyCall(call);
    if kernel.alive {
      states := states + [retval];
    }
  }

  /** A whole life: build, hand over, verify, reset, and make calls until killed.
      The monitor goes exactly the way of the automaton. */
  method Enforce(g: Graph, calls: seq<Word>) returns (states: seq<Word>, killed: bool)
    requires Monitorable(g)
    ensures Run(states, killed) == MonitorRun(g, 0, calls)
  {
    var kernel := Boot(g);
    states := [kernel.monitor.currentProgstate];
    var i: nat := 0;
    while i < |calls| && kernel.alive
      invariant i <= |calls| && fresh(kernel) && fresh(kernel.monitor)
      invariant kernel.monitor.Ready() && kernel.monitor.graph == g
      invariant MonitorRun(g, 0, calls[..i]) == Run(states, !kernel.alive)
      invariant kernel.alive ==> states[|states| - 1] == kernel.monitor.currentProgstate
    {
      assert calls[..i + 1] == calls[..i] + [calls[i]];
      states := CallOnce(kernel, g, calls[..i], calls[i], states);
      i := i + 1;
    }
    killed := !kernel.alive;
    assert calls[..i] + calls[i..] == calls;
    if killed {
      MonitorRunStopped(g, 0, calls[..i], calls[i..]);
    } else {
      assert calls[..i] == calls;
    }
  }

  // ----- any mix of checks, moves and resets -----

  datatype Operation = Check(call: Word) | Move(call: Word) | Reset

  /** No move leads out of the graph. */
  ghost predicate OperationsConfined(g: Graph, s: nat, ops: seq<Operation>)
    requires s < |g|
    decreases |ops|
  {
    ops == [] ||
    match ops[0]
    case Check(_) => OperationsConfined(g, s, ops[1..])
    case Reset => OperationsConfined(g, 0, ops[1..])
    case Move(call) =>
      var t := Enter(g, s, call);
      t < |g| && OperationsConfined(g, if t == 0 then s else t, ops[1..])
  }

  /** The state of the monitor after some operations: refusals and checks change nothing. */
  ghost function StateAfter(g: Graph, s: nat, ops: seq<Operation>): (t: nat)
    requires s < |g| && OperationsConfined(g, s, ops)
    ensures t < |g|
    decreases |ops|
  {
    if ops == [] then s
    else
      match ops[0]
      case Check(_) => StateAfter(g, s, ops[1..])
      case Reset => StateAfter(g, 0, ops[1..])
      case Move(call) =>
        var t := Enter(g, s, call);
        StateAfter(g, if t == 0 then s else t, ops[1..])
  }

  /** A graph that confines all call sequences from its start confines all operations, too. */
  lemma {:induction false} CallsConfineOperations(g: Graph, made: seq<Word>, ops: seq<Operation>)
    requires g != [] && AlwaysConfined(g, 0)
    ensures OperationsConfined(g, EndState(g, 0, made), ops)
    decreases |ops|
  {
    if ops != [] {
      match ops[0]
      case Check(_) =>
        CallsConfineOperations(g, made, ops[1..]);
      case Reset =>
        CallsConfineOperations(g, [], ops[1..]);
      case Move(call) =>
        ConfinedSnoc(g, 0, made, call);
        EndStateSnoc(g, 0, made, call);
        CallsConfineOperations(g, made + [call], ops[1..]);
    }
  }

  /** What the last operation does: a check nothing, a reset goes to state 0, and a move
      goes where the automaton goes or, refused, nowhere. */
  lemma {:induction false} LastOperation(g: Graph, s: nat, ops: seq<Operation>, op: Operation)
    requires s < |g| && OperationsConfined(g, s, ops)
    ensures var t := StateAfter(g, s, ops);
            && (OperationsConfined(g, s, ops + [op]) <==> (op.Move? ==> Enter(g, t, op.call) < |g|))
            && (OperationsConfined(g, s, ops + [op]) ==>
                  StateAfter(g, s, ops + [op]) ==
                    match op
                    case Check(_) => t
                    case Reset => 0
                    case Move(call) => if Enter(g, t, call) != 0 then Enter(g, t, call) else t)
    decreases |ops|
  {
    if ops == [] {
      assert (ops + [op])[1..] == [];
    } else {
      assert (ops + [op])[1..] == ops[1..] + [op];
      match ops[0]
      case Check(_) =>
        LastOperation(g, s, ops[1..], op);
      case Reset =>
        LastOperation(g, 0, ops[1..], op);
      case Move(call) =>
        var t := Enter(g, s, call);
        LastOperation(g, if t == 0 then s else t, ops[1..], op);
    }
  }

  /** Over every run the state stays a node of the graph, and the current record is its record. */
  method Drive(m: MemGraph, ops: seq<Operation>)
    requires m.Ready() && OperationsConfined(m.graph, m.currentProgstate, ops)
    modifies m`currentProgstate, m`startNode
    ensures m.Ready()
    ensures m.currentProgstate == StateAfter(m.graph, old(m.currentProgstate), ops)
  {
    var i: nat := 0;
    while i < |ops|
      invariant i <= |ops| && m.Ready()
      invariant OperationsConfined(m.graph, m.currentProgstate, ops[i..])
      invariant StateAfter(m.graph, m.currentProgstate, ops[i..]) == StateAfter(m.graph, old(m.currentProgstate), ops)
    {
      assert ops[i..][1..] == ops[i + 1..];
      match ops[i] {
        case Check(call) =>
          var _ := m.IsStateTransitionValid(call);
        case Move(call) =>
          var _ := m.TransitionToState(call);
        case Reset =>
          m.ResetProgstate();
      }
      i := i + 1;
    }
  }

  // ----- a pool that verifies and leads out of its graph -----

  /** One node whose only edge leads behind the lookup table. */
  function EscapingGraph(call: Word, target: Word): Graph {
    [Node(0, [Edge(call, target)])]
  }

  /** Its pool passes `verify_graph`, and the one call that its edge carries would have the
      monitor read a table entry that does not exist. */
  method EscapingPool(call: Word, target: Word) returns (image: seq<Word>, verdict: int)
    requires ToInt32(target) != 0
    ensures |image| == POOL_WORDS && GraphAt(image, HEADER_WORDS, EscapingGraph(call, target)) && verdict == 1
    ensures !Confined(EscapingGraph(call, target), 0, [call])
  {
    var g := EscapingGraph(call, target);
    FirstMatchFound(g[0].edges, call, 0);
    assert Records(g) == 2;
    var table;
    image, table, verdict := BuildPool(g);
  }
}
