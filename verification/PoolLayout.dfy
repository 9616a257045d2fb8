/** The memory pool of memgraph.c as a flat sequence of 64-bit words.

    On LP64 every field of the pool's structures is one word, except the flag
    `graph_finalized`, which is the low byte of word 4.  The header takes 11
    words; a node record and an edge record take 3 words each.  All positions in
    this model are word indices: a byte offset of the source divided by 8. */
module PoolLayout {
  /** unsigned long */
  type Word = w: nat | w < 0x1_0000_0000_0000_0000

  const WORD_VALUES: nat := 0x1_0000_0000_0000_0000
  const POOL_BYTES: nat := 1048576
  const POOL_WORDS: nat := 131072
  const HEADER_WORDS: nat := 11
  const MAX_RECORDS: nat := 43687

  const META_MAGIC: Word := 0xDEADBEEF
  const NODE_MAGIC: Word := 0xCAFEBABE
  const EDGE_MAGIC: Word := 0xBAADF00D
  const POOL_VERSION: Word := 1

  // Word index of each header field that is read or written
  const MAGIC_FIELD: nat := 0
  const VERSION_FIELD: nat := 1
  const SIZE_FIELD: nat := 3
  const FLAG_FIELD: nat := 4
  const COUNT_FIELD: nat := 8
  const TABLE_FIELD: nat := 9

  /** What a conversion from unsigned long to int keeps. */
  function ToInt32(w: Word): (r: int)
    ensures -0x8000_0000 <= r < 0x8000_0000
    ensures (r - w) % 0x1_0000_0000 == 0
  {
    var low := w % 0x1_0000_0000;
    if low < 0x8000_0000 then low else low - 0x1_0000_0000
  }

  /** What a conversion from int to unsigned long gives (sign extension). */
  function ToWord(i: int): (w: Word)
    requires -0x8000_0000 <= i < 0x8000_0000
    ensures w == i || w - 0x1_0000_0000_0000_0000 == i
    ensures ToInt32(w) == i
  {
    if i < 0 then WORD_VALUES + i else i
  }

  // ----- graphs -----

  datatype Edge = Edge(call: Word, target: Word)

  datatype NodeRecord = Node(id: Word, edges: seq<Edge>)

  /** The number of edges of a node must fit its count field. */
  type Node = n: NodeRecord | |n.edges| < 0x1_0000_0000_0000_0000 witness Node(0, [])

  type Graph = seq<Node>

  /** Number of nodes and edges. */
  function Records(g: Graph): nat {
    if g == [] then 0 else Records(g[..|g| - 1]) + 1 + |g[|g| - 1].edges|
  }

  function NodeWords(n: Node): nat {
    3 + 3 * |n.edges|
  }

  /** Words that a graph takes in memory. */
  function Size(g: Graph): nat {
    if g == [] then 0 else Size(g[..|g| - 1]) + NodeWords(g[|g| - 1])
  }

  /** Node ids are the positions 0, 1, 2, ... in the order of allocation. */
  ghost predicate IdsInOrder(g: Graph) {
    forall i | 0 <= i < |g| :: g[i].id == i
  }

  /** Every edge leads to a node of the graph. */
  ghost predicate TargetsInside(g: Graph) {
    forall i, j | 0 <= i < |g| && 0 <= j < |g[i].edges| :: g[i].edges[j].target < |g|
  }

  // ----- a graph in memory -----

  ghost predicate EdgeAt(words: seq<Word>, pos: nat, e: Edge) {
    && pos + 3 <= |words|
    && words[pos] == EDGE_MAGIC && words[pos + 1] == e.call && words[pos + 2] == e.target
  }

  ghost predicate EdgesAt(words: seq<Word>, pos: nat, es: seq<Edge>) {
    && pos + 3 * |es| <= |words|
    && forall j {:trigger es[j]} | 0 <= j < |es| :: EdgeAt(words, pos + 3 * j, es[j])
  }

  ghost predicate NodeAt(words: seq<Word>, pos: nat, n: Node) {
    && pos + 3 <= |words|
    && words[pos] == NODE_MAGIC && words[pos + 1] == n.id && words[pos + 2] == |n.edges|
    && EdgesAt(words, pos + 3, n.edges)
  }

  /** The records of `g` lie one after the other from word `base` on. */
  ghost predicate GraphAt(words: seq<Word>, base: nat, g: Graph) {
    if g == [] then base <= |words|
    else
      && GraphAt(words, base, g[..|g| - 1])
      && NodeAt(words, base + Size(g[..|g| - 1]), g[|g| - 1])
  }

  /** Entry `i` of the lookup table is the place of node `i`; the table may be longer than the graph. */
  ghost predicate TableAt(table: seq<nat>, base: nat, g: Graph) {
    g == [] ||
    (&& TableAt(table, base, g[..|g| - 1])
     && |g| <= |table|
     && table[|g| - 1] == base + Size(g[..|g| - 1]))
  }

  // ----- arithmetic of the layout -----

  /** The words used are 3 per node and edge. */
  lemma {:induction false} SizeCountsRecords(g: Graph)
    ensures Size(g) == 3 * Records(g)
    ensures |g| <= Records(g)
  {
    if g != [] {
      SizeCountsRecords(g[..|g| - 1]);
    }
  }

  /** A graph stays inside the 1 MiB pool exactly when it has at most 43687 records. */
  lemma FitsExactly(g: Graph)
    ensures HEADER_WORDS + Size(g) <= POOL_WORDS <==> Records(g) <= MAX_RECORDS
    ensures 8 * (HEADER_WORDS + Size(g)) == 88 + 24 * Records(g)
  {
    SizeCountsRecords(g);
  }

  lemma Snoc(g: Graph, n: Node)
    ensures (g + [n])[..|g|] == g
    ensures Size(g + [n]) == Size(g) + NodeWords(n)
    ensures Records(g + [n]) == Records(g) + 1 + |n.edges|
  {
    assert (g + [n])[..|g|] == g;
  }

  /** Records of different nodes do not overlap. */
  lemma {:induction false} RecordsDisjoint(g: Graph, i: nat, j: nat)
    requires i < j <= |g|
    ensures Size(g[..i]) + NodeWords(g[i]) <= Size(g[..j])
    decreases j
  {
    assert g[..j][..j - 1] == g[..j - 1];
    if i + 1 < j {
      RecordsDisjoint(g, i, j - 1);
    }
  }

  // ----- memory lemmas -----

  lemma GraphInside(words: seq<Word>, base: nat, g: Graph)
    requires GraphAt(words, base, g)
    ensures base + Size(g) <= |words|
  {
  }

  lemma NodeFrame(words: seq<Word>, words': seq<Word>, pos: nat, n: Node)
    requires NodeAt(words, pos, n)
    requires pos + NodeWords(n) <= |words'|
    requires forall k | pos <= k < pos + NodeWords(n) :: words'[k] == words[k]
    ensures NodeAt(words', pos, n)
  {
    var es := n.edges;
    forall j {:trigger es[j]} | 0 <= j < |es| ensures EdgeAt(words', pos + 3 + 3 * j, es[j]) {
      assert EdgeAt(words, pos + 3 + 3 * j, es[j]);
    }
  }

  /** A graph in memory depends only on the words its records take. */
  lemma {:induction false} GraphFrame(words: seq<Word>, words': seq<Word>, base: nat, g: Graph)
    requires GraphAt(words, base, g)
    requires base + Size(g) <= |words'|
    requires forall k | base <= k < base + Size(g) :: words'[k] == words[k]
    ensures GraphAt(words', base, g)
  {
    if g != [] {
      var h := g[..|g| - 1];
      GraphInside(words, base, h);
      GraphFrame(words, words', base, h);
      NodeFrame(words, words', base + Size(h), g[|g| - 1]);
    }
  }

  lemma {:induction false} TableFrame(table: seq<nat>, table': seq<nat>, base: nat, g: Graph)
    requires TableAt(table, base, g)
    requires |g| <= |table'|
    requires forall i | 0 <= i < |g| :: table'[i] == table[i]
    ensures TableAt(table', base, g)
  {
    if g != [] {
      TableFrame(table, table', base, g[..|g| - 1]);
    }
  }

  /** Writing one more node behind a graph, and nothing inside it, gives the longer graph. */
  lemma GraphSnoc(words: seq<Word>, words': seq<Word>, base: nat, g: Graph, n: Node)
    requires GraphAt(words, base, g)
    requires NodeAt(words', base + Size(g), n)
    requires base + Size(g) <= |words|
    requires forall k | base <= k < base + Size(g) :: words'[k] == words[k]
    ensures GraphAt(words', base, g + [n])
  {
    Snoc(g, n);
    GraphFrame(words, words', base, g);
  }

  lemma TableSnoc(table: seq<nat>, table': seq<nat>, base: nat, g: Graph, n: Node)
    requires TableAt(table, base, g)
    requires |g| < |table'| && table'[|g|] == base + Size(g)
    requires |g| <= |table| && forall i | 0 <= i < |g| :: table'[i] == table[i]
    ensures TableAt(table', base, g + [n])
  {
    Snoc(g, n);
    TableFrame(table, table', base, g);
  }

  /** Every prefix of a graph in memory is in memory. */
  lemma {:induction false} GraphPrefix(words: seq<Word>, base: nat, g: Graph, k: nat)
    requires GraphAt(words, base, g) && k <= |g|
    ensures GraphAt(words, base, g[..k])
    decreases |g|
  {
    if k < |g| {
      GraphPrefix(words, base, g[..|g| - 1], k);
      assert g[..|g| - 1][..k] == g[..k];
    } else {
      assert g[..k] == g;
    }
  }

  /** Node `i` lies behind the records of the nodes before it, and its table entry says so. */
  lemma NodePlace(words: seq<Word>, base: nat, g: Graph, i: nat)
    requires GraphAt(words, base, g) && i < |g|
    ensures NodeAt(words, base + Size(g[..i]), g[i])
  {
    GraphPrefix(words, base, g, i + 1);
    assert g[..i + 1][..i] == g[..i];
  }

  lemma {:induction false} TablePlace(table: seq<nat>, base: nat, g: Graph, i: nat)
    requires TableAt(table, base, g) && i < |g|
    ensures |g| <= |table| && table[i] == base + Size(g[..i])
    decreases |g|
  {
    if i < |g| - 1 {
      TablePlace(table, base, g[..|g| - 1], i);
      assert g[..|g| - 1][..i] == g[..i];
    }
  }

  lemma NodeUnique(words: seq<Word>, pos: nat, m: Node, n: Node)
    requires NodeAt(words, pos, m) && NodeAt(words, pos, n)
    ensures m == n
  {
    forall j | 0 <= j < |m.edges| ensures m.edges[j] == n.edges[j] {
      assert EdgeAt(words, pos + 3 + 3 * j, m.edges[j]);
      assert EdgeAt(words, pos + 3 + 3 * j, n.edges[j]);
    }
    assert m.edges == n.edges;
  }

  /** Decoding is unique: memory holds at most one graph of a given length at a given place. */
  lemma {:induction false} DecodeUnique(words: seq<Word>, base: nat, g: Graph, h: Graph)
    requires GraphAt(words, base, g) && GraphAt(words, base, h)
    requires |g| == |h|
    ensures g == h
  {
    if g != [] {
      var k := |g| - 1;
      DecodeUnique(words, base, g[..k], h[..k]);
      NodeUnique(words, base + Size(g[..k]), g[k], h[k]);
      assert g == g[..k] + [g[k]] && h == h[..k] + [h[k]];
    }
  }
}
