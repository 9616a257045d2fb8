/** Directed paths of pairs. */
module Trails {
  import opened CallGraphs
  import opened Connectivity

  ghost predicate Trail(s: set<Pair>, p: seq<Name>) {
    |p| >= 2 && forall i | 0 <= i < |p| - 1 :: (p[i], p[i + 1]) in s
  }

  /** Following the directions, at least one edge. */
  ghost predicate LeadsTo(s: set<Pair>, x: Name, y: Name) {
    exists p :: Trail(s, p) && p[0] == x && p[|p| - 1] == y
  }

  lemma LeadsEdge(s: set<Pair>, x: Name, y: Name)
    requires (x, y) in s
    ensures LeadsTo(s, x, y)
  {
    var p := [x, y];
    assert Trail(s, p) && p[0] == x && p[|p| - 1] == y;
  }

  lemma LeadsTrans(s: set<Pair>, x: Name, y: Name, z: Name)
    requires LeadsTo(s, x, y) && LeadsTo(s, y, z)
    ensures LeadsTo(s, x, z)
  {
    var p :| Trail(s, p) && p[0] == x && p[|p| - 1] == y;
    var q :| Trail(s, q) && q[0] == y && q[|q| - 1] == z;
    var r := p + q[1..];
    forall i | 0 <= i < |r| - 1 ensures (r[i], r[i + 1]) in s {
      if i < |p| - 1 {
        assert (p[i], p[i + 1]) in s;
      } else {
        var j := i - (|p| - 1);
        assert (q[j], q[j + 1]) in s && r[i] == q[j] && r[i + 1] == q[j + 1];
      }
    }
    assert Trail(s, r) && r[0] == x && r[|r| - 1] == z;
  }

  lemma LeadsOn(s: set<Pair>, x: Name, y: Name, z: Name)
    requires LeadsTo(s, x, y) && (y, z) in s
    ensures LeadsTo(s, x, z)
  {
    LeadsEdge(s, y, z);
    LeadsTrans(s, x, y, z);
  }

  /** A merge keeps every directed path but the merged edge itself. */
  lemma {:induction false} TrailMerge(s: set<Pair>, l: Name, r: Name, s': set<Pair>, p: seq<Name>)
    requires IsMerge(s, l, r, s') && l != r && Trail(s, p)
    ensures (p[0], p[|p| - 1]) == (l, r) || LeadsTo(s', Moved(l, r, p[0]), Moved(l, r, p[|p| - 1]))
    decreases |p|
  {
    var e, last := (p[0], p[1]), p[|p| - 1];
    assert e in s;
    if e != (l, r) {
      assert MovedPair(l, r, e) in s';
      LeadsEdge(s', Moved(l, r, p[0]), Moved(l, r, p[1]));
    }
    if |p| > 2 {
      forall i | 0 <= i < |p[1..]| - 1 ensures (p[1..][i], p[1..][i + 1]) in s {
        assert (p[i + 1], p[i + 2]) in s;
      }
      TrailMerge(s, l, r, s', p[1..]);
      if e != (l, r) && (p[1], last) != (l, r) {
        LeadsTrans(s', Moved(l, r, p[0]), Moved(l, r, p[1]), Moved(l, r, last));
      }
    }
  }

  lemma LeadsMerge(s: set<Pair>, l: Name, r: Name, s': set<Pair>, x: Name, y: Name)
    requires IsMerge(s, l, r, s') && l != r && LeadsTo(s, x, y) && (x, y) != (l, r)
    ensures LeadsTo(s', Moved(l, r, x), Moved(l, r, y))
  {
    var p :| Trail(s, p) && p[0] == x && p[|p| - 1] == y;
    TrailMerge(s, l, r, s', p);
  }

  lemma LeadsByEdge(s: set<Pair>, x: Name, y: Name)
    requires LeadsTo(s, x, y)
    ensures exists e :: e in s
  {
    var p :| Trail(s, p) && p[0] == x && p[|p| - 1] == y;
    assert (p[0], p[1]) in s;
  }

  lemma TrailTail(s: set<Pair>, p: seq<Name>, i: nat)
    requires Trail(s, p) && i < |p| - 1
    ensures Trail(s, p[i..])
  {
    forall j | 0 <= j < |p[i..]| - 1 ensures (p[i..][j], p[i..][j + 1]) in s {
      assert (p[i + j], p[i + j + 1]) in s;
    }
  }

  /** The first edge of a directed path. */
  lemma LeadsFirst(s: set<Pair>, x: Name, y: Name) returns (m: Name)
    requires LeadsTo(s, x, y)
    ensures (x, m) in s && (m == y || LeadsTo(s, m, y))
  {
    var p :| Trail(s, p) && p[0] == x && p[|p| - 1] == y;
    m := p[1];
    assert (p[0], p[1]) in s;
    if |p| > 2 {
      TrailTail(s, p, 1);
      assert p[1..][0] == m && p[1..][|p[1..]| - 1] == y;
    }
  }

  lemma LeadsLast(s: set<Pair>, x: Name, y: Name) returns (k: Name)
    requires LeadsTo(s, x, y)
    ensures (k, y) in s && (k == x || LeadsTo(s, x, k))
  {
    var p :| Trail(s, p) && p[0] == x && p[|p| - 1] == y;
    var n := |p| - 1;
    k := p[n - 1];
    assert (p[n - 1], p[n]) in s;
    if n > 1 {
      forall j | 0 <= j < |p[..n]| - 1 ensures (p[..n][j], p[..n][j + 1]) in s {
        assert (p[j], p[j + 1]) in s;
      }
      assert Trail(s, p[..n]) && p[..n][0] == x && p[..n][|p[..n]| - 1] == k;
    }
  }

  ghost function Avoiding(s: set<Pair>, z: Name): set<Pair> {
    set e | e in s && e.0 != z && e.1 != z
  }

  /** A directed path to another vertex leaves its start for good by some edge. */
  lemma {:induction false} TrailLeaves(s: set<Pair>, p: seq<Name>) returns (m: Name)
    requires Trail(s, p) && p[0] != p[|p| - 1]
    ensures (p[0], m) in s && m != p[0] && Connected(Avoiding(s, p[0]), m, p[|p| - 1])
    decreases |p|
  {
    if i :| 0 < i < |p| - 1 && p[i] == p[0] {
      TrailTail(s, p, i);
      m := TrailLeaves(s, p[i..]);
    } else {
      m := p[1];
      assert (p[0], p[1]) in s;
      var t, q := Avoiding(s, p[0]), p[1..];
      forall j | 0 <= j < |q| - 1 ensures Joined(t, q[j], q[j + 1]) {
        assert (p[j + 1], p[j + 2]) in s;
      }
      assert LinkPathFrom(t, q, m, p[|p| - 1]);
    }
  }

  lemma LeadsLeaves(s: set<Pair>, x: Name, y: Name) returns (m: Name)
    requires LeadsTo(s, x, y) && x != y
    ensures (x, m) in s && m != x && Connected(Avoiding(s, x), m, y)
  {
    var p :| Trail(s, p) && p[0] == x && p[|p| - 1] == y;
    m := TrailLeaves(s, p);
  }

  ghost predicate Acyclic(s: set<Pair>) {
    forall x :: !LeadsTo(s, x, x)
  }

  /** Without directed cycles, some vertex of a set leads to no other of it. */
  lemma {:induction false} Lowest(s: set<Pair>, vs: set<Name>) returns (u: Name)
    requires Acyclic(s) && vs != {}
    ensures u in vs && forall v | v in vs :: (u, v) !in s
    decreases |vs|
  {
    var w :| w in vs;
    var below := set v | v in vs && LeadsTo(s, w, v);
    if v :| v in vs && (w, v) in s {
      assert w !in below;
      SmallerSet(below, vs);
      LeadsEdge(s, w, v);
      assert v in below;
      u := Lowest(s, below);
      forall v | v in vs ensures (u, v) !in s {
        if (u, v) in s {
          LeadsOn(s, w, u, v);
        }
      }
    } else {
      u := w;
    }
  }

  lemma SmallerSet(a: set<Name>, b: set<Name>)
    requires a < b
    ensures |a| < |b|
  {
    assert b == a + (b - a) && b - a != {};
  }
}
