/** memgraph.c: the pool, its allocator, the check of a pool and the monitor that runs on it.

    The static variables of the file are the fields of `MemGraph`.  A pointer
    into the pool is a word index; a NULL pool or table is a null array. */
module MemGraph {
  import opened Options
  import opened PoolLayout
  import opened PoolWalk
  import Automaton

  const ERROR_INVALID_GRAPH: int := -1
  const ERROR_INVALID_NODE: int := -2
  const ERROR_INVALID_EDGE: int := -3
  const ERROR_INVALID_STATE: int := -5

  /** Entries added to the lookup table at a time. */
  const LISTING_STEP: nat := 4096

  ghost predicate Finalized(words: seq<Word>)
    requires |words| == POOL_WORDS
  {
    words[FLAG_FIELD] % 256 != 0
  }

  ghost predicate HeaderGood(words: seq<Word>)
    requires |words| == POOL_WORDS
  {
    Finalized(words) && words[MAGIC_FIELD] == META_MAGIC
  }

  /** Where the header says that the records start. */
  ghost function TableBase(words: seq<Word>): nat
    requires |words| == POOL_WORDS
  {
    words[TABLE_FIELD] / 8
  }

  /** If the header is accepted, then the table is word-aligned and every record
      that the walk reaches lies inside the pool. */
  ghost predicate Checkable(words: seq<Word>)
    requires |words| == POOL_WORDS
  {
    HeaderGood(words) ==>
      words[TABLE_FIELD] % 8 == 0 && WalkInside(words, TableBase(words), words[COUNT_FIELD])
  }

  ghost predicate GoodPool(words: seq<Word>)
    requires |words| == POOL_WORDS
  {
    HeaderGood(words) && GoodWalk(words, TableBase(words), words[COUNT_FIELD])
  }

  /** What `create_pool` writes. */
  function FreshPool(): (words: seq<Word>)
    ensures |words| == POOL_WORDS
  {
    seq(POOL_WORDS, i =>
      if i == MAGIC_FIELD then META_MAGIC
      else if i == VERSION_FIELD then POOL_VERSION
      else if i == SIZE_FIELD then POOL_BYTES
      else if i == TABLE_FIELD then 8 * HEADER_WORDS
      else 0)
  }

  /** The pool with its one-byte flag set to 1. */
  function FinalizedPool(words: seq<Word>): (r: seq<Word>)
    requires |words| == POOL_WORDS
    ensures |r| == POOL_WORDS && Finalized(r)
    ensures forall k | 0 <= k < POOL_WORDS && k != FLAG_FIELD :: r[k] == words[k]
  {
    words[FLAG_FIELD := words[FLAG_FIELD] - words[FLAG_FIELD] % 256 + 1]
  }

  /** A buffer copied over the front of a pool. */
  function Overlay(data: seq<Word>, words: seq<Word>): (r: seq<Word>)
    requires |data| <= |words|
    ensures |r| == |words|
  {
    data + words[|data|..]
  }

  /** `is_state_transition_valid` looks at the word behind the record of the current
      node even when the node has no edges; that word must be inside the pool. */
  ghost predicate LookAheadInside(base: nat, g: Graph) {
    forall i | 0 <= i < |g| :: LooksInside(base, g, i)
  }

  ghost predicate LooksInside(base: nat, g: Graph, i: nat)
    requires i < |g|
  {
    base + Size(g[..i]) + 3 < POOL_WORDS
  }

  /** In a pool built by `alloc_node` only a last node without edges that ends
      exactly at the end of the pool is out of bounds. */
  lemma LookAheadExactly(g: Graph)
    requires g != [] && HEADER_WORDS + Size(g) <= POOL_WORDS
    ensures LookAheadInside(HEADER_WORDS, g) <==> Records(g) < MAX_RECORDS || g[|g| - 1].edges != []
  {
    FitsExactly(g);
    SizeCountsRecords(g);
    var last := |g| - 1;
    assert Size(g) == Size(g[..last]) + NodeWords(g[last]);
    EarlierLooksInside(g);
    assert LooksInside(HEADER_WORDS, g, last) <==> Records(g) < MAX_RECORDS || g[last].edges != [];
  }

  lemma EarlierLooksInside(g: Graph)
    requires g != [] && HEADER_WORDS + Size(g) <= POOL_WORDS
    ensures forall i | 0 <= i < |g| - 1 :: LooksInside(HEADER_WORDS, g, i)
  {
    forall i | 0 <= i < |g| - 1 ensures LooksInside(HEADER_WORDS, g, i) {
      RecordsDisjoint(g, i, |g| - 1);
    }
  }

  /** The edges handed to `alloc_node` as two parallel arrays. */
  function EdgeList(n: nat, successors: seq<Word>, libcalls: seq<Word>): (es: seq<Edge>)
    requires n <= |successors| && n <= |libcalls|
    ensures |es| == n && forall i | 0 <= i < n :: es[i] == Edge(libcalls[i], successors[i])
  {
    seq(n, i requires 0 <= i < n => Edge(libcalls[i], successors[i]))
  }

  class MemGraph {
    var pool: array?<Word>
    var poolEdge: nat
    var nodes: array?<nat>
    var numNodesListings: nat
    var currentProgstate: Word
    var startNode: nat

    /** The graph in the pool, once there is one. */
    ghost var graph: Graph

    constructor ()
      ensures pool == null && nodes == null && numNodesListings == 0 && graph == []
    {
      pool, poolEdge, nodes, numNodesListings := null, 0, null, 0;
      currentProgstate, startNode := 0, 0;
      graph := [];
    }

    // ----- the allocator -----

    /** A pool made in this process by `create_pool` and `alloc_node`: header,
        bump pointer, records and size of the lookup table belong together. */
    ghost predicate Building()
      reads this, pool, nodes
    {
      && pool != null && pool.Length == POOL_WORDS
      && pool[MAGIC_FIELD] == META_MAGIC && pool[VERSION_FIELD] == POOL_VERSION
      && pool[SIZE_FIELD] == POOL_BYTES
      && pool[TABLE_FIELD] == 8 * HEADER_WORDS && pool[COUNT_FIELD] == |graph|
      && pool[FLAG_FIELD] % 256 == 0
      && poolEdge == HEADER_WORDS + Size(graph)
      && GraphAt(pool[..], HEADER_WORDS, graph)
      && Listings()
    }

    /** The first table is allocated without recording its size; from the second
        node on the recorded size is the real one. */
    ghost predicate Listings()
      reads this
    {
      if nodes == null then graph == [] && numNodesListings == 0
      else if numNodesListings == 0 then |graph| == 1 && nodes.Length == LISTING_STEP
      else 0 < |graph| <= numNodesListings == nodes.Length
    }

    /** Entry `i` of the lookup table is the place of node `i`. */
    ghost predicate Indexed(base: nat)
      reads this, nodes
    {
      if nodes == null then graph == [] else TableAt(nodes[..], base, graph)
    }

    /** Entries the lookup table has once the next call of `alloc_node` has grown it. */
    ghost function TableRoom(): nat
      reads this
    {
      if nodes == null then LISTING_STEP
      else if |graph| >= numNodesListings then numNodesListings + LISTING_STEP
      else numNodesListings
    }

    /** Ids given in order always find room in the lookup table. */
    lemma InOrderHasRoom()
      requires Building()
      ensures |graph| < TableRoom()
    {
    }

    method CreatePool()
      modifies this`pool, this`poolEdge
      ensures pool != null && fresh(pool) && pool[..] == FreshPool()
      ensures pool.Length == 131072 && poolEdge == 11
      ensures pool[0] == 0xDEADBEEF && pool[1] == 1 && pool[3] == 1048576 && pool[9] == 88
      ensures forall k | 0 <= k < 131072 && k != 0 && k != 1 && k != 3 && k != 9 :: pool[k] == 0
    {
      pool := new Word[POOL_WORDS](_ => 0);
      poolEdge := HEADER_WORDS;
      pool[SIZE_FIELD] := POOL_BYTES;
      pool[VERSION_FIELD] := POOL_VERSION;
      pool[MAGIC_FIELD] := META_MAGIC;
      pool[TABLE_FIELD] := 8 * HEADER_WORDS;
      pool[COUNT_FIELD] := 0;
    }

    /** The lookup table is allocated on the first call and grown when it is full. */
    method GrowListings()
      requires pool != null && pool.Length == POOL_WORDS && pool[COUNT_FIELD] == |graph| && Listings()
      modifies this`nodes, this`numNodesListings
      ensures nodes != null && (fresh(nodes) || nodes == old(nodes))
      ensures nodes.Length == old(TableRoom())
      ensures nodes.Length == if old(nodes) == null then 4096
                              else if |graph| >= old(numNodesListings) then old(numNodesListings) + 4096
                              else old(nodes.Length)
      ensures old(nodes) != null ==> old(nodes.Length) <= nodes.Length
      ensures old(nodes) != null ==> forall i | 0 <= i < old(nodes.Length) :: nodes[i] == old(nodes[i])
      ensures numNodesListings == if old(nodes) == null then 0 else nodes.Length
    {
      if nodes == null {
        nodes := new nat[LISTING_STEP];
      } else if pool[COUNT_FIELD] >= numNodesListings {
        numNodesListings := numNodesListings + LISTING_STEP;
        var moved := new nat[numNodesListings];
        forall i | 0 <= i < nodes.Length {
          moved[i] := nodes[i];
        }
        nodes := moved;
      }
    }

    /** alloc_node, on any pool with room; a negative count writes a node without edges. */
    method AllocNode(id: Word, numSuccessors: int, successors: seq<Word>, libcalls: seq<Word>)
      returns (node: nat)
      requires pool != null && pool.Length == POOL_WORDS && pool[COUNT_FIELD] == |graph| && Listings()
      requires |graph| + 1 < WORD_VALUES && HEADER_WORDS <= poolEdge
      requires -0x8000_0000 <= numSuccessors < 0x8000_0000
      requires numSuccessors <= |successors| && numSuccessors <= |libcalls|
      requires poolEdge + 3 + 3 * (if numSuccessors > 0 then numSuccessors else 0) <= POOL_WORDS
      requires id < TableRoom()
      modifies this`poolEdge, this`nodes, this`numNodesListings, pool, nodes
      ensures node == old(poolEdge)
      ensures poolEdge == node + 3 + 3 * (if numSuccessors > 0 then numSuccessors else 0)
      ensures pool[node] == NODE_MAGIC && pool[node + 1] == id && pool[node + 2] == ToWord(numSuccessors)
      ensures forall i | 0 <= i < numSuccessors ::
                && pool[node + 3 + 3 * i] == EDGE_MAGIC
                && pool[node + 3 + 3 * i + 1] == libcalls[i] && pool[node + 3 + 3 * i + 2] == successors[i]
      ensures numSuccessors >= 0 ==> NodeAt(pool[..], node, Node(id, EdgeList(numSuccessors, successors, libcalls)))
      ensures forall k | 0 <= k < POOL_WORDS && k != COUNT_FIELD && !(node <= k < poolEdge) :: pool[k] == old(pool[k])
      ensures pool[COUNT_FIELD] == |graph| + 1
      ensures nodes != null && (fresh(nodes) || nodes == old(nodes)) && nodes.Length == old(TableRoom())
      ensures nodes[id] == node
      ensures old(nodes) != null ==> old(nodes.Length) <= nodes.Length
      ensures old(nodes) != null ==> forall i | 0 <= i < old(nodes.Length) && i != id :: nodes[i] == old(nodes[i])
      ensures numNodesListings == if old(nodes) == null then 0 else nodes.Length
    {
      node := poolEdge;
      poolEdge := poolEdge + 3;
      GrowListings();
      assert pool as object != nodes as object;
      nodes[id] := node;
      if numSuccessors > 0 {
        poolEdge := poolEdge + 3 * numSuccessors;
      }
      RecordNode(pool, node, id, numSuccessors, successors, libcalls);
    }

    /** `alloc_node` on a pool under construction adds its node to the graph.  With
        ids given in order the lookup table stays the table of the graph. */
    method AddNode(id: Word, numSuccessors: nat, successors: seq<Word>, libcalls: seq<Word>)
      returns (node: nat)
      requires Building()
      requires numSuccessors < 0x8000_0000
      requires numSuccessors <= |successors| && numSuccessors <= |libcalls|
      requires HEADER_WORDS + Size(graph) + 3 + 3 * numSuccessors <= POOL_WORDS
      requires id < TableRoom()
      modifies this`poolEdge, this`nodes, this`numNodesListings, this`graph, pool, nodes
      ensures Building()
      ensures graph == old(graph) + [Node(id, EdgeList(numSuccessors, successors, libcalls))]
      ensures var n := graph[|old(graph)|];
              && n.id == id && |n.edges| == numSuccessors
              && forall i | 0 <= i < numSuccessors :: n.edges[i] == Edge(libcalls[i], successors[i])
      ensures node == HEADER_WORDS + Size(old(graph))
      ensures id < nodes.Length && nodes[id] == node && fresh({nodes} - {old(nodes)})
      ensures old(Indexed(HEADER_WORDS)) && id == |old(graph)| ==> Indexed(HEADER_WORDS)
      ensures forall k | COUNT_FIELD < k < node :: pool[k] == old(pool[k])
    {
      SizeCountsRecords(graph);
      ghost var words, g, n := pool[..], graph, Node(id, EdgeList(numSuccessors, successors, libcalls));
      ghost var table := if nodes == null then [] else nodes[..];
      node := AllocNode(id, numSuccessors, successors, libcalls);
      graph := g + [n];
      StillBuilding(words, g, n);
      StillIndexed(table, g, n, id);
    }

    lemma StillIndexed(table: seq<nat>, g: Graph, n: Node, id: Word)
      requires graph == g + [n] && nodes != null && id < nodes.Length && nodes[id] == HEADER_WORDS + Size(g)
      requires |table| <= nodes.Length && forall i | 0 <= i < |table| && i != id :: nodes[i] == table[i]
      ensures id == |g| && TableAt(table, HEADER_WORDS, g) && |g| <= |table| ==> Indexed(HEADER_WORDS)
    {
      TableGrown(table, nodes[..], g, n, id);
    }

    /** `graph` is one node longer than what the pool held, and so is the pool now. */
    lemma StillBuilding(words: seq<Word>, g: Graph, n: Node)
      requires graph == g + [n] && pool != null && pool.Length == POOL_WORDS == |words|
      requires words[MAGIC_FIELD] == META_MAGIC && words[VERSION_FIELD] == POOL_VERSION
      requires words[SIZE_FIELD] == POOL_BYTES && words[TABLE_FIELD] == 8 * HEADER_WORDS
      requires words[FLAG_FIELD] % 256 == 0 && GraphAt(words, HEADER_WORDS, g)
      requires NodeAt(pool[..], HEADER_WORDS + Size(g), n) && pool[COUNT_FIELD] == |g| + 1
      requires forall k | 0 <= k < HEADER_WORDS + Size(g) && k != COUNT_FIELD :: pool[k] == words[k]
      requires poolEdge == HEADER_WORDS + Size(g) + NodeWords(n) && Listings()
      ensures Building() && graph[|g|] == n
    {
      PoolGrown(words, pool[..], g, n);
    }

    /** The pool with one more node behind its graph, and the same header but for the count. */
    lemma PoolGrown(words: seq<Word>, words': seq<Word>, g: Graph, n: Node)
      requires |words| == |words'| == POOL_WORDS && GraphAt(words, HEADER_WORDS, g)
      requires NodeAt(words', HEADER_WORDS + Size(g), n)
      requires forall k | 0 <= k < HEADER_WORDS + Size(g) && k != COUNT_FIELD :: words'[k] == words[k]
      ensures GraphAt(words', HEADER_WORDS, g + [n]) && Size(g + [n]) == Size(g) + NodeWords(n) && (g + [n])[|g|] == n
      ensures forall k | 0 <= k < HEADER_WORDS && k != COUNT_FIELD :: words'[k] == words[k]
    {
      GraphInside(words, HEADER_WORDS, g);
      GraphSnoc(words, words', HEADER_WORDS, g, n);
      Snoc(g, n);
    }

    /** The table with the entry of the next node. */
    lemma TableGrown(table: seq<nat>, table': seq<nat>, g: Graph, n: Node, id: Word)
      requires id < |table'| && table'[id] == HEADER_WORDS + Size(g)
      requires |table| <= |table'| && forall i | 0 <= i < |table| && i != id :: table'[i] == table[i]
      ensures id == |g| && TableAt(table, HEADER_WORDS, g) && |g| <= |table| ==> TableAt(table', HEADER_WORDS, g + [n])
    {
      if id == |g| && TableAt(table, HEADER_WORDS, g) && |g| <= |table| {
        TableSnoc(table, table', HEADER_WORDS, g, n);
      }
    }

    /** finalize_graph: sets the flag byte and nothing else. */
    method FinalizeGraph()
      requires pool != null && pool.Length == POOL_WORDS
      modifies pool
      ensures pool[..] == FinalizedPool(old(pool[..]))
      ensures pool[4] % 256 == 1 && pool[4] / 256 == old(pool[4]) / 256
      ensures forall k | 0 <= k < POOL_WORDS && k != 4 :: pool[k] == old(pool[k])
    {
      pool[FLAG_FIELD] := pool[FLAG_FIELD] - pool[FLAG_FIELD] % 256 + 1;
    }

    // ----- checking a pool -----

    /** The pool holds `graph`, and the lookup table is its table. */
    ghost predicate Loaded()
      reads this, pool, nodes
    {
      && pool != null && pool.Length == POOL_WORDS
      && pool[COUNT_FIELD] == |graph|
      && GraphAt(pool[..], TableBase(pool[..]), graph)
      && nodes != null && TableAt(nodes[..], TableBase(pool[..]), graph) && |graph| <= nodes.Length
    }

    /** verify_graph */
    method VerifyGraph() returns (r: int)
      requires pool != null ==> pool.Length == POOL_WORDS && Checkable(pool[..])
      requires pool != null && nodes != null && HeaderGood(pool[..]) ==> pool[COUNT_FIELD] <= nodes.Length
      modifies this`nodes, this`graph, nodes
      ensures nodes == old(nodes) || (old(nodes) == null && fresh(nodes))
      ensures pool == null ==> r == ERROR_INVALID_GRAPH
      ensures pool != null ==>
                var words := pool[..];
                var base, n := TableBase(words), words[COUNT_FIELD];
                && (r == ERROR_INVALID_STATE <==> !Finalized(words))
                && (r == ERROR_INVALID_GRAPH <==> Finalized(words) && words[MAGIC_FIELD] != META_MAGIC)
                && (r == 1 <==> HeaderGood(words) && GoodWalk(words, base, n))
                && (r == ERROR_INVALID_NODE <==> HeaderGood(words) && BadNodeWalk(words, base, n))
                && (r == ERROR_INVALID_EDGE <==> HeaderGood(words) && BadEdgeWalk(words, base, n))
      ensures r == 1 ==> Loaded()
      ensures pool != null && HeaderGood(pool[..]) ==> nodes != null && pool[COUNT_FIELD] <= nodes.Length
    {
      if pool == null {
        return ERROR_INVALID_GRAPH;
      }
      if pool[FLAG_FIELD] % 256 == 0 {
        return ERROR_INVALID_STATE;
      }
      if pool[MAGIC_FIELD] != META_MAGIC {
        return ERROR_INVALID_GRAPH;
      }
      if nodes == null {
        nodes := new nat[pool[COUNT_FIELD]];
      }
      ghost var g;
      r, g := WalkRecords(pool, nodes);
      VerdictsExclude(pool[..], TableBase(pool[..]), pool[COUNT_FIELD]);
      graph := g;
    }

    /** The pool after `size` bytes of `data` were copied over its front. */
    ghost function Image(data: seq<Word>): (words: seq<Word>)
      requires |data| <= POOL_WORDS
      requires pool != null ==> pool.Length == POOL_WORDS
      reads this, pool
      ensures |words| == POOL_WORDS
    {
      Overlay(data, if pool == null then FreshPool() else pool[..])
    }

    /** initialize_graph; an empty buffer starts a new pool.  `ok` says whether the
        copied pool was verified: the user-space build exits when it was not. */
    method InitializeGraph(data: seq<Word>) returns (ok: bool)
      requires |data| <= POOL_WORDS
      requires pool != null ==> pool.Length == POOL_WORDS
      requires data != [] ==> Checkable(Image(data))
      requires data != [] && nodes != null && HeaderGood(Image(data)) ==> Image(data)[COUNT_FIELD] <= nodes.Length
      modifies this`pool, this`poolEdge, this`nodes, this`graph, pool, nodes
      ensures pool != null && (fresh(pool) || pool == old(pool)) && pool[..] == old(Image(data))
      ensures forall k | 0 <= k < |data| :: pool[k] == data[k]
      ensures forall k | |data| <= k < POOL_WORDS ::
                pool[k] == if old(pool) != null then old(pool[k])
                           else if k == 0 then 0xDEADBEEF else if k == 1 then 1
                           else if k == 3 then 1048576 else if k == 9 then 88 else 0
      ensures data == [] ==> nodes == null && graph == []
      ensures data == [] && old(pool) == null && numNodesListings == 0 ==> Building() && Indexed(HEADER_WORDS)
      ensures data != [] ==> (ok <==> GoodPool(pool[..])) && (ok ==> Loaded())
      ensures data != [] && HeaderGood(pool[..]) ==> nodes != null && pool[COUNT_FIELD] <= nodes.Length
      ensures nodes == null || fresh(nodes) || nodes == old(nodes)
    {
      if pool == null {
        CreatePool();
      }
      ghost var words := pool[..];
      forall i | 0 <= i < |data| {
        pool[i] := 0;
      }
      if data != [] {
        forall i | 0 <= i < |data| {
          pool[i] := data[i];
        }
        assert pool[..] == Overlay(data, words);
        var code := VerifyGraph();
        ok := code == 1;
      } else {
        assert pool[..] == Overlay(data, words);
        nodes := null;
        graph := [];
        ok := false;
      }
    }

    // ----- the monitor -----

    /** A loaded graph with the monitor in one of its states. */
    ghost predicate Ready()
      reads this, pool, nodes
    {
      && Loaded()
      && LookAheadInside(TableBase(pool[..]), graph)
      && currentProgstate < |graph|
      && startNode == TableBase(pool[..]) + Size(graph[..currentProgstate])
    }

    /** reset_progstate */
    method ResetProgstate()
      requires nodes != null && 0 < nodes.Length
      modifies this`currentProgstate, this`startNode
      ensures currentProgstate == 0 && startNode == nodes[0]
      ensures Loaded() && graph != [] && LookAheadInside(TableBase(pool[..]), graph) ==> Ready()
    {
      currentProgstate := 0;
      startNode := nodes[currentProgstate];
      if Loaded() && graph != [] {
        TablePlace(nodes[..], TableBase(pool[..]), graph, 0);
      }
    }

    /** is_state_transition_valid: the state that `call` leads to, as an int; 0 is a refusal. */
    method IsStateTransitionValid(call: Word) returns (r: int)
      requires Ready()
      ensures r == ToInt32(Automaton.Step(graph, currentProgstate, call))
    {
      ghost var es := graph[currentProgstate].edges;
      NodePlace(pool[..], TableBase(pool[..]), graph, currentProgstate);
      assert LooksInside(TableBase(pool[..]), graph, currentProgstate);
      var first := startNode + 3;
      if pool[startNode] != NODE_MAGIC {
        return 0;
      }
      assert es != [] ==> EdgeAt(pool[..], first, es[0]);
      if pool[first] != EDGE_MAGIC {
        return 0;
      }
      var i: nat := 0;
      while i < pool[startNode + 2]
        invariant 0 <= i <= |es|
        invariant forall k | 0 <= k < i :: es[k].call != call
      {
        assert EdgeAt(pool[..], first + 3 * i, es[i]);
        if pool[first + 3 * i + 1] == call {
          Automaton.FirstMatchFound(es, call, i);
          return ToInt32(pool[first + 3 * i + 2]);
        }
        i := i + 1;
      }
      Automaton.FirstMatchMissing(es, call);
      return 0;
    }

    /** transition_to_state: enters the state of the automaton, or refuses and changes nothing.
        The lookup table must have an entry for the state. */
    method TransitionToState(call: Word) returns (r: int)
      requires Ready() && Automaton.Enter(graph, currentProgstate, call) < |graph|
      modifies this`currentProgstate, this`startNode
      ensures Ready()
      ensures var t := Automaton.Enter(graph, old(currentProgstate), call);
              if t != 0 then currentProgstate == t && r == t
              else currentProgstate == old(currentProgstate) && startNode == old(startNode) && r == ERROR_INVALID_STATE
    {
      if currentProgstate >= pool[COUNT_FIELD] {
        return ERROR_INVALID_STATE;
      }
      var valid := IsStateTransitionValid(call);
      var temp := ToWord(valid);
      if temp != 0 {
        currentProgstate := temp;
        TablePlace(nodes[..], TableBase(pool[..]), graph, currentProgstate);
        startNode := nodes[currentProgstate];
        PositionIsInt(currentProgstate);
        return ToInt32(currentProgstate);
      } else {
        return ERROR_INVALID_STATE;
      }
    }

    /** The pool is too small for a state that does not fit an int. */
    lemma PositionIsInt(t: nat)
      requires Loaded() && t < |graph|
      ensures |graph| <= 0x8000_0000 && ToInt32(t) == t
    {
      GraphInside(pool[..], TableBase(pool[..]), graph);
      SizeCountsRecords(graph);
    }
  }

  /** One more node in the header; a record in the pool is not touched. */
  method CountNode(pool: array<Word>, ghost node: nat, ghost n: Option<Node>)
    requires pool.Length == POOL_WORDS && pool[COUNT_FIELD] + 1 < WORD_VALUES
    requires n.Some? ==> HEADER_WORDS <= node && NodeAt(pool[..], node, n.value)
    modifies pool
    ensures pool[COUNT_FIELD] == old(pool[COUNT_FIELD]) + 1
    ensures forall k | 0 <= k < POOL_WORDS && k != COUNT_FIELD :: pool[k] == old(pool[k])
    ensures n.Some? ==> NodeAt(pool[..], node, n.value)
  {
    ghost var words := pool[..];
    pool[COUNT_FIELD] := pool[COUNT_FIELD] + 1;
    if n.Some? {
      NodeFrame(words, pool[..], node, n.value);
    }
  }

  /** The inner loop of `verify_graph`: stops at the first bad edge of a node. */
  method WalkEdges(pool: array<Word>, node: nat) returns (good: bool, startNode: nat)
    requires RecordInside(pool[..], node) && pool[node] == NODE_MAGIC
    ensures good <==> EdgeMagics(pool[..], node, pool[node + 2])
    ensures good ==> startNode == EdgePlace(node, pool[node + 2]) <= pool.Length
  {
    startNode := node + 3;
    var first := startNode;
    var j: nat := 0;
    while j < pool[node + 2]
      invariant 0 <= j <= pool[node + 2]
      invariant startNode == EdgePlace(node, j) <= pool.Length
      invariant EdgeMagics(pool[..], node, j)
    {
      assert EdgePlace(node, j) + 3 <= pool.Length;
      if pool[first + 3 * j] != EDGE_MAGIC {
        assert !EdgeMagic(pool[..], node, j);
        return false, startNode;
      }
      assert EdgeMagic(pool[..], node, j);
      startNode := startNode + 3;
      j := j + 1;
    }
    return true, startNode;
  }

  /** The outer loop of `verify_graph`, which also fills the lookup table. */
  method WalkRecords(pool: array<Word>, nodes: array<nat>) returns (r: int, ghost g: Graph)
    requires pool.Length == POOL_WORDS && pool[COUNT_FIELD] <= nodes.Length
    requires WalkInside(pool[..], TableBase(pool[..]), pool[COUNT_FIELD])
    modifies nodes
    ensures r == 1 || r == ERROR_INVALID_NODE || r == ERROR_INVALID_EDGE
    ensures r == 1 ==>
              && |g| == pool[COUNT_FIELD] && GraphAt(pool[..], TableBase(pool[..]), g)
              && TableAt(nodes[..], TableBase(pool[..]), g)
    ensures r == ERROR_INVALID_NODE ==> BadNodeWalk(pool[..], TableBase(pool[..]), pool[COUNT_FIELD])
    ensures r == ERROR_INVALID_EDGE ==> BadEdgeWalk(pool[..], TableBase(pool[..]), pool[COUNT_FIELD])
  {
    assert pool as object != nodes as object;
    ghost var words, n := pool[..], pool[COUNT_FIELD];
    ghost var base := TableBase(words);
    g := [];
    var startNode := pool[TABLE_FIELD] / 8;
    var i := 0;
    while i < pool[COUNT_FIELD]
      invariant 0 <= i <= n && |g| == i
      invariant GraphAt(words, base, g) && startNode == base + Size(g)
      invariant TableAt(nodes[..], base, g)
    {
      var node := startNode;
      assert RecordInside(words, node);
      ghost var table := nodes[..];
      nodes[i] := node;
      if pool[node] != NODE_MAGIC {
        assert BadNodeAfter(words, base, g);
        return ERROR_INVALID_NODE, g;
      }
      var edgesGood;
      edgesGood, startNode := WalkEdges(pool, node);
      if !edgesGood {
        FirstBadEdge(words, node, words[node + 2]);
        ghost var j: nat :| j < words[node + 2] && EdgeMagics(words, node, j) && !EdgeMagic(words, node, j);
        assert BadEdgeAfter(words, base, g, j);
        return ERROR_INVALID_EDGE, g;
      }
      g := WalkStep(words, base, g, table, nodes[..]);
      i := i + 1;
    }
    return 1, g;
  }

  /** A built pool, once finalized, passes the check and still holds its graph. */
  lemma FinalizedPoolIsGood(words: seq<Word>, g: Graph)
    requires |words| == POOL_WORDS && GraphAt(words, HEADER_WORDS, g)
    requires words[MAGIC_FIELD] == META_MAGIC && words[TABLE_FIELD] == 8 * HEADER_WORDS && words[COUNT_FIELD] == |g|
    ensures var words' := FinalizedPool(words);
            GraphAt(words', HEADER_WORDS, g) && GoodPool(words') && Checkable(words')
  {
    var words' := FinalizedPool(words);
    GraphInside(words, HEADER_WORDS, g);
    GraphFrame(words, words', HEADER_WORDS, g);
    GoodWalkInside(words', HEADER_WORDS, g);
  }

  /** One good node more: the graph and the table that the walk has read so far. */
  lemma WalkStep(words: seq<Word>, base: nat, g: Graph, table: seq<nat>, table': seq<nat>) returns (h: Graph)
    requires GraphAt(words, base, g) && TableAt(table, base, g)
    requires base + Size(g) + 3 <= |words| && words[base + Size(g)] == NODE_MAGIC
    requires EdgeMagics(words, base + Size(g), words[base + Size(g) + 2])
    requires EdgePlace(base + Size(g), words[base + Size(g) + 2]) <= |words|
    requires |g| < |table| && table' == table[|g| := base + Size(g)]
    ensures |h| == |g| + 1 && GraphAt(words, base, h) && TableAt(table', base, h)
    ensures base + Size(h) == EdgePlace(base + Size(g), words[base + Size(g) + 2])
  {
    var n := ReadNode(words, base + Size(g));
    GraphSnoc(words, words, base, g, n);
    TableSnoc(table, table', base, g, n);
    Snoc(g, n);
    h := g + [n];
  }

  /** The record words of `alloc_node`: the node, then its edges. */
  method WriteRecord(pool: array<Word>, node: nat, id: Word, numSuccessors: int,
                     successors: seq<Word>, libcalls: seq<Word>)
    requires -0x8000_0000 <= numSuccessors < 0x8000_0000
    requires numSuccessors <= |successors| && numSuccessors <= |libcalls|
    requires node + 3 <= pool.Length && node + 3 + 3 * numSuccessors <= pool.Length
    modifies pool
    ensures forall k | 0 <= k < pool.Length && !(node <= k < node + 3) &&
            !(node + 3 <= k < node + 3 + 3 * numSuccessors) ::
              pool[k] == old(pool[k])
    ensures pool[node] == NODE_MAGIC && pool[node + 1] == id && pool[node + 2] == ToWord(numSuccessors)
    ensures numSuccessors >= 0 ==> NodeAt(pool[..], node, Node(id, EdgeList(numSuccessors, successors, libcalls)))
  {
    pool[node] := NODE_MAGIC;
    pool[node + 1] := id;
    pool[node + 2] := ToWord(numSuccessors);
    if numSuccessors > 0 {
      WriteEdges(pool, node + 3, numSuccessors, successors, libcalls);
    }
  }

  /** The record words, and one node more in the header. */
  method RecordNode(pool: array<Word>, node: nat, id: Word, numSuccessors: int,
                    successors: seq<Word>, libcalls: seq<Word>)
    requires pool.Length == POOL_WORDS && pool[COUNT_FIELD] + 1 < WORD_VALUES && HEADER_WORDS <= node
    requires -0x8000_0000 <= numSuccessors < 0x8000_0000
    requires numSuccessors <= |successors| && numSuccessors <= |libcalls|
    requires node + 3 <= pool.Length && node + 3 + 3 * numSuccessors <= pool.Length
    modifies pool
    ensures pool[COUNT_FIELD] == old(pool[COUNT_FIELD]) + 1
    ensures forall k | 0 <= k < pool.Length && k != COUNT_FIELD && !(node <= k < node + 3) &&
            !(node + 3 <= k < node + 3 + 3 * numSuccessors) ::
              pool[k] == old(pool[k])
    ensures pool[node] == NODE_MAGIC && pool[node + 1] == id && pool[node + 2] == ToWord(numSuccessors)
    ensures forall i | 0 <= i < numSuccessors ::
              && pool[node + 3 + 3 * i] == EDGE_MAGIC
              && pool[node + 3 + 3 * i + 1] == libcalls[i] && pool[node + 3 + 3 * i + 2] == successors[i]
    ensures numSuccessors >= 0 ==> NodeAt(pool[..], node, Node(id, EdgeList(numSuccessors, successors, libcalls)))
  {
    WriteRecord(pool, node, id, numSuccessors, successors, libcalls);
    ghost var n := if numSuccessors >= 0 then Some(Node(id, EdgeList(numSuccessors, successors, libcalls))) else None;
    CountNode(pool, node, n);
    if numSuccessors >= 0 {
      EdgeWords(pool[..], node + 3, numSuccessors, successors, libcalls);
    }
  }

  /** The edge loop of `alloc_node`. */
  method WriteEdges(pool: array<Word>, first: nat, n: nat, successors: seq<Word>, libcalls: seq<Word>)
    requires n <= |successors| && n <= |libcalls|
    requires first + 3 * n <= pool.Length
    modifies pool
    ensures EdgesAt(pool[..], first, EdgeList(n, successors, libcalls))
    ensures forall i | 0 <= i < n ::
              && pool[first + 3 * i] == EDGE_MAGIC
              && pool[first + 3 * i + 1] == libcalls[i] && pool[first + 3 * i + 2] == successors[i]
    ensures forall k | 0 <= k < pool.Length && !(first <= k < first + 3 * n) :: pool[k] == old(pool[k])
  {
    for i := 0 to n
      invariant EdgesAt(pool[..], first, EdgeList(i, successors, libcalls))
      invariant forall k | 0 <= k < pool.Length && !(first <= k < first + 3 * i) :: pool[k] == old(pool[k])
    {
      ghost var before := pool[..];
      pool[first + 3 * i] := EDGE_MAGIC;
      pool[first + 3 * i + 1] := libcalls[i];
      pool[first + 3 * i + 2] := successors[i];
      EdgesSnoc(before, pool[..], first, EdgeList(i, successors, libcalls), Edge(libcalls[i], successors[i]));
      assert EdgeList(i + 1, successors, libcalls) ==
             EdgeList(i, successors, libcalls) + [Edge(libcalls[i], successors[i])];
    }
    EdgeWords(pool[..], first, n, successors, libcalls);
  }

  /** The words of the edges of two parallel arrays. */
  lemma EdgeWords(words: seq<Word>, first: nat, n: nat, successors: seq<Word>, libcalls: seq<Word>)
    requires n <= |successors| && n <= |libcalls| && EdgesAt(words, first, EdgeList(n, successors, libcalls))
    ensures forall i | 0 <= i < n ::
              && words[first + 3 * i] == EDGE_MAGIC
              && words[first + 3 * i + 1] == libcalls[i] && words[first + 3 * i + 2] == successors[i]
  {
    var es := EdgeList(n, successors, libcalls);
    forall i | 0 <= i < n
      ensures words[first + 3 * i] == EDGE_MAGIC
      ensures words[first + 3 * i + 1] == libcalls[i] && words[first + 3 * i + 2] == successors[i]
    {
      assert EdgeAt(words, first + 3 * i, es[i]);
    }
  }

  lemma EdgesSnoc(words: seq<Word>, words': seq<Word>, pos: nat, es: seq<Edge>, e: Edge)
    requires EdgesAt(words, pos, es) && |words'| == |words|
    requires forall k | pos <= k < pos + 3 * |es| :: words'[k] == words[k]
    requires EdgeAt(words', pos + 3 * |es|, e)
    ensures EdgesAt(words', pos, es + [e])
  {
    var fs := es + [e];
    forall j {:trigger fs[j]} | 0 <= j < |fs| ensures EdgeAt(words', pos + 3 * j, fs[j]) {
      if j < |es| {
        assert EdgeAt(words, pos + 3 * j, es[j]);
      }
    }
  }
}
