/** What the walk of `verify_graph` over the records of a pool can find. */
module PoolWalk {
  import opened PoolLayout

  /** Where edge record `j` of the node record at `pos` starts. */
  function EdgePlace(pos: nat, j: nat): nat {
    pos + 3 + 3 * j
  }

  /** Edge record `j` behind the node record at `pos` carries the edge magic. */
  ghost predicate EdgeMagic(words: seq<Word>, pos: nat, j: nat) {
    var p := EdgePlace(pos, j);
    p + 3 <= |words| && words[p] == EDGE_MAGIC
  }

  /** So do the first `n` edge records. */
  ghost predicate EdgeMagics(words: seq<Word>, pos: nat, n: nat) {
    forall j | 0 <= j < n :: EdgeMagic(words, pos, j)
  }

  /** Behind the good graph `g` stands a record that is not a node. */
  ghost predicate BadNodeAfter(words: seq<Word>, base: nat, g: Graph) {
    var p := base + Size(g);
    GraphAt(words, base, g) && p + 3 <= |words| && words[p] != NODE_MAGIC
  }

  /** Behind the good graph `g` stands a node whose edge `j` is its first bad one. */
  ghost predicate BadEdgeAfter(words: seq<Word>, base: nat, g: Graph, j: nat) {
    var p := base + Size(g);
    && GraphAt(words, base, g)
    && EdgePlace(p, j) + 3 <= |words|
    && words[p] == NODE_MAGIC && j < words[p + 2]
    && EdgeMagics(words, p, j) && !EdgeMagic(words, p, j)
  }

  /** All `n` nodes and their edges are in order. */
  ghost predicate GoodWalk(words: seq<Word>, base: nat, n: nat) {
    exists g: Graph :: |g| == n && GraphAt(words, base, g)
  }

  /** The first bad record of the walk is a node record. */
  ghost predicate BadNodeWalk(words: seq<Word>, base: nat, n: nat) {
    exists g: Graph :: |g| < n && BadNodeAfter(words, base, g)
  }

  /** The first bad record of the walk is an edge record. */
  ghost predicate BadEdgeWalk(words: seq<Word>, base: nat, n: nat) {
    exists g: Graph, j: nat :: |g| < n && BadEdgeAfter(words, base, g, j)
  }

  /** The node record at `p`, and every edge record the walk looks at from there, is inside the pool. */
  ghost predicate RecordInside(words: seq<Word>, p: nat) {
    && p + 3 <= |words|
    && (words[p] == NODE_MAGIC ==>
          forall j: nat | j < words[p + 2] && EdgeMagics(words, p, j) ::
            EdgePlace(p, j) + 3 <= |words|)
  }

  /** Every record that the walk reaches lies inside the pool. */
  ghost predicate WalkInside(words: seq<Word>, base: nat, n: nat) {
    && base <= |words|
    && forall g: Graph | |g| < n && GraphAt(words, base, g) :: RecordInside(words, base + Size(g))
  }

  lemma GoodNode(words: seq<Word>, base: nat, g: Graph, h: Graph)
    requires GraphAt(words, base, g) && GraphAt(words, base, h) && |h| < |g|
    ensures NodeAt(words, base + Size(h), g[|h|])
  {
    GraphPrefix(words, base, g, |h|);
    DecodeUnique(words, base, g[..|h|], h);
    NodePlace(words, base, g, |h|);
  }

  lemma NodeHasMagics(words: seq<Word>, pos: nat, n: Node, j: nat)
    requires NodeAt(words, pos, n) && j < |n.edges|
    ensures EdgeMagic(words, pos, j)
  {
    assert EdgeAt(words, pos + 3 + 3 * j, n.edges[j]);
  }

  lemma GoodNotBadNode(words: seq<Word>, base: nat, g: Graph, h: Graph)
    requires GraphAt(words, base, g) && |h| < |g|
    ensures !BadNodeAfter(words, base, h)
  {
    if BadNodeAfter(words, base, h) {
      GoodNode(words, base, g, h);
    }
  }

  lemma GoodNotBadEdge(words: seq<Word>, base: nat, g: Graph, h: Graph, j: nat)
    requires GraphAt(words, base, g) && |h| < |g|
    ensures !BadEdgeAfter(words, base, h, j)
  {
    if BadEdgeAfter(words, base, h, j) {
      GoodNode(words, base, g, h);
      NodeHasMagics(words, base + Size(h), g[|h|], j);
    }
  }

  lemma BadNodeNotBadEdge(words: seq<Word>, base: nat, g: Graph, h: Graph, j: nat)
    requires BadNodeAfter(words, base, g)
    ensures !BadEdgeAfter(words, base, h, j)
  {
    if BadEdgeAfter(words, base, h, j) {
      if |h| < |g| {
        GoodNotBadEdge(words, base, g, h, j);
      } else if |g| < |h| {
        GoodNotBadNode(words, base, h, g);
      } else {
        DecodeUnique(words, base, g, h);
      }
    }
  }

  /** The three verdicts exclude each other. */
  lemma VerdictsExclude(words: seq<Word>, base: nat, n: nat)
    ensures !(GoodWalk(words, base, n) && BadNodeWalk(words, base, n))
    ensures !(GoodWalk(words, base, n) && BadEdgeWalk(words, base, n))
    ensures !(BadNodeWalk(words, base, n) && BadEdgeWalk(words, base, n))
  {
    if GoodWalk(words, base, n) {
      var g: Graph :| |g| == n && GraphAt(words, base, g);
      forall h: Graph | |h| < n ensures !BadNodeAfter(words, base, h) {
        GoodNotBadNode(words, base, g, h);
      }
      forall h: Graph, j: nat | |h| < n ensures !BadEdgeAfter(words, base, h, j) {
        GoodNotBadEdge(words, base, g, h, j);
      }
    }
    if BadNodeWalk(words, base, n) {
      var g: Graph :| |g| < n && BadNodeAfter(words, base, g);
      forall h: Graph, j: nat ensures !BadEdgeAfter(words, base, h, j) {
        BadNodeNotBadEdge(words, base, g, h, j);
      }
    }
  }

  /** A node record with good edge magics is the record of some node. */
  lemma ReadNode(words: seq<Word>, pos: nat) returns (n: Node)
    requires pos + 3 <= |words| && words[pos] == NODE_MAGIC
    requires EdgeMagics(words, pos, words[pos + 2])
    requires EdgePlace(pos, words[pos + 2]) <= |words|
    ensures NodeAt(words, pos, n)
  {
    var count := words[pos + 2];
    var first := pos + 3;
    var es := seq(count, j requires 0 <= j < count =>
      Edge(words[first + 3 * j + 1], words[first + 3 * j + 2]));
    n := Node(words[pos + 1], es);
    forall j {:trigger es[j]} | 0 <= j < count ensures EdgeAt(words, first + 3 * j, es[j]) {
      assert EdgeMagic(words, pos, j);
    }
  }

  /** What the walk finds behind a good graph. */
  lemma NextRecord(words: seq<Word>, base: nat, g: Graph)
    requires GraphAt(words, base, g) && RecordInside(words, base + Size(g))
    ensures BadNodeAfter(words, base, g)
         || (exists j: nat :: BadEdgeAfter(words, base, g, j))
         || GoodWalk(words, base, |g| + 1)
  {
    var p := base + Size(g);
    if words[p] == NODE_MAGIC {
      FirstBadEdge(words, p, words[p + 2]);
      if EdgeMagics(words, p, words[p + 2]) {
        var n := ReadNode(words, p);
        GraphInside(words, base, g);
        GraphSnoc(words, words, base, g, n);
        assert |g + [n]| == |g| + 1;
      } else {
        var j: nat :| j < words[p + 2] && EdgeMagics(words, p, j) && !EdgeMagic(words, p, j);
        assert BadEdgeAfter(words, base, g, j);
      }
    }
  }

  /** When all records that are reached lie inside, every pool gets one of the three verdicts. */
  lemma {:induction false} VerdictsCover(words: seq<Word>, base: nat, n: nat)
    requires WalkInside(words, base, n)
    ensures GoodWalk(words, base, n) || BadNodeWalk(words, base, n) || BadEdgeWalk(words, base, n)
  {
    if n == 0 {
      assert GraphAt(words, base, []);
    } else {
      VerdictsCover(words, base, n - 1);
      if GoodWalk(words, base, n - 1) {
        var g: Graph :| |g| == n - 1 && GraphAt(words, base, g);
        NextRecord(words, base, g);
      }
    }
  }

  /** Of a good pool the walk never leaves the pool. */
  lemma GoodWalkInside(words: seq<Word>, base: nat, g: Graph)
    requires GraphAt(words, base, g)
    ensures WalkInside(words, base, |g|)
  {
    GraphInside(words, base, g);
    forall h: Graph | |h| < |g| && GraphAt(words, base, h) ensures RecordInside(words, base + Size(h)) {
      GoodNode(words, base, g, h);
    }
  }

  lemma {:induction false} FirstBadEdge(words: seq<Word>, p: nat, n: nat)
    ensures EdgeMagics(words, p, n) || exists j: nat :: j < n && EdgeMagics(words, p, j) && !EdgeMagic(words, p, j)
    ensures EdgeMagics(words, p, n) && n > 0 ==> EdgePlace(p, n) <= |words|
  {
    if n > 0 {
      FirstBadEdge(words, p, n - 1);
      if EdgeMagics(words, p, n) {
        assert EdgeMagic(words, p, n - 1);
      }
    }
  }

  // ----- the walk in terms of words -----

  /** The record of edge `j` behind the node record at `p` starts with the magic word. */
  ghost predicate EdgeWord(words: seq<Word>, p: nat, j: nat) {
    p + 3 + 3 * j < |words| && words[p + 3 + 3 * j] == 0xBAADF00D
  }

  /** A node record with all its edges, up to where the next record would start. */
  ghost predicate GoodRecord(words: seq<Word>, p: nat, next: nat) {
    p + 3 <= |words| && words[p] == 0xCAFEBABE &&
    var count: nat := words[p + 2];
    && next == p + 3 + 3 * count <= |words|
    && forall j: nat | j < count :: EdgeWord(words, p, j)
  }

  /** Good node records start at `places`, the last entry being where the next one would start. */
  ghost predicate Places(words: seq<Word>, base: nat, places: seq<nat>) {
    && places != [] && places[0] == base && places[|places| - 1] <= |words|
    && forall i {:trigger places[i]} | 0 <= i < |places| - 1 :: GoodRecord(words, places[i], places[i + 1])
  }

  lemma NodeIsGoodRecord(words: seq<Word>, p: nat, n: Node)
    requires NodeAt(words, p, n)
    ensures GoodRecord(words, p, p + NodeWords(n))
  {
    forall j: nat | j < words[p + 2] ensures EdgeWord(words, p, j) {
      NodeHasMagics(words, p, n, j);
    }
  }

  lemma GoodRecordIsNode(words: seq<Word>, p: nat, next: nat) returns (n: Node)
    requires GoodRecord(words, p, next)
    ensures NodeAt(words, p, n) && next == p + NodeWords(n)
  {
    forall j: nat | j < words[p + 2] ensures EdgeMagic(words, p, j) {
      assert EdgeWord(words, p, j);
    }
    n := ReadNode(words, p);
  }

  /** A graph in memory lies at such places. */
  lemma {:induction false} GraphPlaces(words: seq<Word>, base: nat, g: Graph) returns (places: seq<nat>)
    requires GraphAt(words, base, g)
    ensures Places(words, base, places) && |places| == |g| + 1 && places[|g|] == base + Size(g)
  {
    if g == [] {
      places := [base];
    } else {
      var k := |g| - 1;
      var first := GraphPlaces(words, base, g[..k]);
      NodeIsGoodRecord(words, base + Size(g[..k]), g[k]);
      places := first + [base + Size(g)];
      forall i {:trigger places[i]} | 0 <= i < |places| - 1 ensures GoodRecord(words, places[i], places[i + 1]) {
        if i < k {
          assert places[i] == first[i] && places[i + 1] == first[i + 1];
        }
      }
    }
  }

  lemma PlacesBefore(words: seq<Word>, base: nat, places: seq<nat>)
    requires Places(words, base, places) && |places| > 1
    ensures var k := |places| - 1;
            Places(words, base, places[..k]) && GoodRecord(words, places[k - 1], places[k])
  {
    var k := |places| - 1;
    var first := places[..k];
    forall i {:trigger first[i]} | 0 <= i < |first| - 1 ensures GoodRecord(words, first[i], first[i + 1]) {
      assert first[i] == places[i] && first[i + 1] == places[i + 1];
    }
    assert GoodRecord(words, places[k - 1], places[k]);
  }

  /** At such places lies a graph. */
  lemma {:induction false} PlacesGraph(words: seq<Word>, base: nat, places: seq<nat>) returns (g: Graph)
    requires Places(words, base, places)
    ensures GraphAt(words, base, g) && |g| == |places| - 1 && places[|g|] == base + Size(g)
    decreases |places|
  {
    var k := |places| - 1;
    if k == 0 {
      g := [];
    } else {
      PlacesBefore(words, base, places);
      var h := PlacesGraph(words, base, places[..k]);
      var n := GoodRecordIsNode(words, places[k - 1], places[k]);
      GraphSnoc(words, words, base, h, n);
      Snoc(h, n);
      g := h + [n];
    }
  }

  /** The walk is good if and only if there are `n` good records one behind the other. */
  lemma GoodWalkByWords(words: seq<Word>, base: nat, n: nat)
    ensures GoodWalk(words, base, n) <==> exists places :: Places(words, base, places) && |places| == n + 1
  {
    if GoodWalk(words, base, n) {
      var g: Graph :| |g| == n && GraphAt(words, base, g);
      var places := GraphPlaces(words, base, g);
    }
    if places :| Places(words, base, places) && |places| == n + 1 {
      var g := PlacesGraph(words, base, places);
    }
  }

  /** Behind the good records stands one without the node magic. */
  ghost predicate StopsAtNode(words: seq<Word>, base: nat, places: seq<nat>) {
    Places(words, base, places) &&
    var p := places[|places| - 1];
    p + 3 <= |words| && words[p] != 0xCAFEBABE
  }

  /** Behind them stands a node whose edge `j` is the first without the edge magic. */
  ghost predicate StopsAtEdge(words: seq<Word>, base: nat, places: seq<nat>, j: nat) {
    Places(words, base, places) &&
    var p := places[|places| - 1];
    && p + 6 + 3 * j <= |words| && words[p] == 0xCAFEBABE && j < words[p + 2]
    && (forall i: nat | i < j :: EdgeWord(words, p, i)) && words[p + 3 + 3 * j] != 0xBAADF00D
  }

  /** The first bad record is a node if and only if fewer than `n` good records lead to one. */
  lemma BadNodeByWords(words: seq<Word>, base: nat, n: nat)
    ensures BadNodeWalk(words, base, n) <==> exists places :: |places| <= n && StopsAtNode(words, base, places)
  {
    if BadNodeWalk(words, base, n) {
      var g: Graph :| |g| < n && BadNodeAfter(words, base, g);
      var places := GraphPlaces(words, base, g);
      assert StopsAtNode(words, base, places);
    }
    if places :| |places| <= n && StopsAtNode(words, base, places) {
      var g := PlacesGraph(words, base, places);
      assert BadNodeAfter(words, base, g);
    }
  }

  /** And it is an edge if and only if fewer than `n` good records lead to a node with a bad edge. */
  lemma BadEdgeByWords(words: seq<Word>, base: nat, n: nat)
    ensures BadEdgeWalk(words, base, n) <==>
            exists places, j: nat :: |places| <= n && StopsAtEdge(words, base, places, j)
  {
    if BadEdgeWalk(words, base, n) {
      var g: Graph, j: nat :| |g| < n && BadEdgeAfter(words, base, g, j);
      var places := BadEdgePlaces(words, base, g, j);
    }
    if places, j: nat :| |places| <= n && StopsAtEdge(words, base, places, j) {
      var g := BadEdgeGraph(words, base, places, j);
    }
  }

  lemma BadEdgePlaces(words: seq<Word>, base: nat, g: Graph, j: nat) returns (places: seq<nat>)
    requires BadEdgeAfter(words, base, g, j)
    ensures StopsAtEdge(words, base, places, j) && |places| == |g| + 1
  {
    places := GraphPlaces(words, base, g);
    EdgesByWords(words, base + Size(g), j);
  }

  lemma BadEdgeGraph(words: seq<Word>, base: nat, places: seq<nat>, j: nat) returns (g: Graph)
    requires StopsAtEdge(words, base, places, j)
    ensures BadEdgeAfter(words, base, g, j) && |g| == |places| - 1
  {
    g := PlacesGraph(words, base, places);
    EdgesByWords(words, base + Size(g), j);
  }

  lemma EdgesByWords(words: seq<Word>, p: nat, n: nat)
    requires p + 3 + 3 * n <= |words|
    ensures EdgeMagics(words, p, n) <==> forall i: nat | i < n :: EdgeWord(words, p, i)
  {
    forall i: nat | i < n ensures EdgeMagic(words, p, i) <==> EdgeWord(words, p, i) {
      assert p + 3 + 3 * i + 3 <= p + 3 + 3 * n;
    }
  }
}
