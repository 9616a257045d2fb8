/** Connectedness of vertices by a set of pairs taken in either direction. */
module Connectivity {
  import opened CallGraphs

  predicate Joined(s: set<Pair>, x: Name, y: Name) {
    (x, y) in s || (y, x) in s
  }

  ghost predicate LinkPath(s: set<Pair>, p: seq<Name>) {
    p != [] && forall i | 0 <= i < |p| - 1 :: Joined(s, p[i], p[i + 1])
  }

  ghost predicate LinkPathFrom(s: set<Pair>, p: seq<Name>, x: Name, y: Name) {
    LinkPath(s, p) && p[0] == x && p[|p| - 1] == y
  }

  ghost predicate Connected(s: set<Pair>, x: Name, y: Name) {
    exists p :: LinkPathFrom(s, p, x, y)
  }

  lemma ConnectedSelf(s: set<Pair>, x: Name)
    ensures Connected(s, x, x)
  {
    assert LinkPathFrom(s, [x], x, x);
  }

  lemma ConnectedEdge(s: set<Pair>, x: Name, y: Name)
    requires Joined(s, x, y)
    ensures Connected(s, x, y)
  {
    assert LinkPathFrom(s, [x, y], x, y);
  }

  lemma ConnectedTrans(s: set<Pair>, x: Name, y: Name, z: Name)
    requires Connected(s, x, y) && Connected(s, y, z)
    ensures Connected(s, x, z)
  {
    var p :| LinkPathFrom(s, p, x, y);
    var q :| LinkPathFrom(s, q, y, z);
    var r := p + q[1..];
    forall i | 0 <= i < |r| - 1 ensures Joined(s, r[i], r[i + 1]) {
      if i < |p| - 1 {
        assert Joined(s, p[i], p[i + 1]);
      } else {
        var j := i - (|p| - 1);
        assert Joined(s, q[j], q[j + 1]);
        assert r[i] == q[j] && r[i + 1] == q[j + 1];
      }
    }
    assert r[|r| - 1] == z;
    assert LinkPathFrom(s, r, x, z);
  }

  lemma ConnectedSym(s: set<Pair>, x: Name, y: Name)
    requires Connected(s, x, y)
    ensures Connected(s, y, x)
  {
    var p :| LinkPathFrom(s, p, x, y);
    var n := |p|;
    var q := seq(n, i requires 0 <= i < n => p[n - 1 - i]);
    forall i | 0 <= i < n - 1 ensures Joined(s, q[i], q[i + 1]) {
      assert Joined(s, p[n - 2 - i], p[n - 1 - i]);
    }
    assert LinkPathFrom(s, q, y, x);
  }

  lemma ConnectedMono(s: set<Pair>, t: set<Pair>, x: Name, y: Name)
    requires Connected(s, x, y) && s <= t
    ensures Connected(t, x, y)
  {
    var p :| LinkPathFrom(s, p, x, y);
    forall i | 0 <= i < |p| - 1 ensures Joined(t, p[i], p[i + 1]) {
      assert Joined(s, p[i], p[i + 1]);
    }
    assert LinkPathFrom(t, p, x, y);
  }

  /** The vertex that stands for `x` once `r` is merged into `l`. */
  function Moved(l: Name, r: Name, x: Name): Name {
    if x == r then l else x
  }

  function MovedPair(l: Name, r: Name, e: Pair): Pair {
    (Moved(l, r, e.0), Moved(l, r, e.1))
  }

  function Image(rep: Name -> Name, e: Pair): Pair {
    (rep(e.0), rep(e.1))
  }

  /** Whatever is identified by `rep` was connected before. */
  ghost predicate JoinsConnected(s: set<Pair>, rep: Name -> Name) {
    forall x, y {:trigger rep(x), rep(y)} :: rep(x) == rep(y) ==> Connected(s, x, y)
  }

  lemma {:induction false} LiftPath(s: set<Pair>, s': set<Pair>, rep: Name -> Name, p: seq<Name>, x: Name, y: Name)
    requires forall f | f in s' :: exists e | e in s :: Image(rep, e) == f
    requires JoinsConnected(s, rep) && LinkPathFrom(s', p, rep(x), rep(y))
    ensures Connected(s, x, y)
    decreases |p|
  {
    if |p| > 1 {
      var f := if (p[0], p[1]) in s' then (p[0], p[1]) else (p[1], p[0]);
      assert Joined(s', p[0], p[1]);
      var e :| e in s && Image(rep, e) == f;
      var (a, b) := if (p[0], p[1]) in s' then (e.0, e.1) else (e.1, e.0);
      ConnectedEdge(s, a, b);
      PathTail(s', p);
      LiftPath(s, s', rep, p[1..], b, y);
      ConnectedTrans(s, x, a, b);
      ConnectedTrans(s, x, b, y);
    }
  }

  lemma PathTail(s: set<Pair>, p: seq<Name>)
    requires LinkPath(s, p) && |p| > 1
    ensures LinkPath(s, p[1..])
  {
    forall i | 0 <= i < |p[1..]| - 1 ensures Joined(s, p[1..][i], p[1..][i + 1]) {
      assert Joined(s, p[i + 1], p[i + 2]);
    }
  }

  /** A connection after vertices have been identified was a connection before, if these were connected. */
  lemma LiftConnectedBy(s: set<Pair>, s': set<Pair>, rep: Name -> Name, x: Name, y: Name)
    requires forall f | f in s' :: exists e | e in s :: Image(rep, e) == f
    requires JoinsConnected(s, rep) && Connected(s', rep(x), rep(y))
    ensures Connected(s, x, y)
  {
    var p :| LinkPathFrom(s', p, rep(x), rep(y));
    LiftPath(s, s', rep, p, x, y);
  }

  lemma {:induction false} MapPath(s: set<Pair>, s': set<Pair>, rep: Name -> Name, p: seq<Name>)
    requires LinkPath(s, p)
    requires forall e | e in s :: rep(e.0) == rep(e.1) || Image(rep, e) in s'
    ensures Connected(s', rep(p[0]), rep(p[|p| - 1]))
    decreases |p|
  {
    if |p| == 1 {
      ConnectedSelf(s', rep(p[0]));
    } else {
      assert Joined(s, p[0], p[1]);
      var (x, y) := (rep(p[0]), rep(p[1]));
      var e := if (p[0], p[1]) in s then (p[0], p[1]) else (p[1], p[0]);
      assert rep(e.0) == rep(e.1) || Image(rep, e) in s';
      if x == y {
        ConnectedSelf(s', x);
      } else {
        ConnectedEdge(s', x, y);
      }
      PathTail(s, p);
      MapPath(s, s', rep, p[1..]);
      ConnectedTrans(s', x, y, rep(p[|p| - 1]));
    }
  }

  /** A connection is still one after vertices have been identified, if every pair is kept. */
  lemma MapConnectedBy(s: set<Pair>, s': set<Pair>, rep: Name -> Name, x: Name, y: Name)
    requires forall e | e in s :: rep(e.0) == rep(e.1) || Image(rep, e) in s'
    requires Connected(s, x, y)
    ensures Connected(s', rep(x), rep(y))
  {
    var p :| LinkPathFrom(s, p, x, y);
    MapPath(s, s', rep, p);
  }

  lemma SameImage(s: set<Pair>, l: Name, r: Name, x: Name, y: Name)
    requires Connected(s, l, r) && Moved(l, r, x) == Moved(l, r, y)
    ensures Connected(s, x, y)
  {
    ConnectedSelf(s, x);
    ConnectedSym(s, l, r);
  }

  function Mover(l: Name, r: Name): (rep: Name -> Name)
    ensures forall x :: rep(x) == Moved(l, r, x)
  {
    x => Moved(l, r, x)
  }

  lemma LiftConnected(s: set<Pair>, s': set<Pair>, l: Name, r: Name, x: Name, y: Name)
    requires forall f | f in s' :: exists e | e in s :: MovedPair(l, r, e) == f
    requires Connected(s, l, r)
    requires Connected(s', Moved(l, r, x), Moved(l, r, y))
    ensures Connected(s, x, y)
  {
    var rep := Mover(l, r);
    forall x, y | rep(x) == rep(y) ensures Connected(s, x, y) {
      SameImage(s, l, r, x, y);
    }
    forall f | f in s' ensures exists e | e in s :: Image(rep, e) == f {
      var e :| e in s && MovedPair(l, r, e) == f;
      assert Image(rep, e) == f;
    }
    LiftConnectedBy(s, s', rep, x, y);
  }

  lemma MapConnected(s: set<Pair>, s': set<Pair>, l: Name, r: Name, x: Name, y: Name)
    requires forall e | e in s :: var f := MovedPair(l, r, e); f.0 == f.1 || f in s'
    requires Connected(s, x, y)
    ensures Connected(s', Moved(l, r, x), Moved(l, r, y))
  {
    var rep := Mover(l, r);
    forall e | e in s ensures rep(e.0) == rep(e.1) || Image(rep, e) in s' {
      assert MovedPair(l, r, e) == Image(rep, e);
    }
    MapConnectedBy(s, s', rep, x, y);
  }

  // ----- connections with one pair taken away -----

  lemma ConnectedWithout(s: set<Pair>, d: Pair, x: Name, y: Name)
    requires Connected(s - {d}, x, y)
    ensures Connected(s, x, y)
  {
    ConnectedMono(s - {d}, s, x, y);
  }

  ghost predicate NearEnd(s: set<Pair>, d: Pair, x: Name) {
    Connected(s - {d}, x, d.0) || Connected(s - {d}, x, d.1)
  }

  /** What a pair is needed for passes through its ends. */
  lemma {:induction false} ThroughEnds(s: set<Pair>, d: Pair, p: seq<Name>)
    requires LinkPath(s, p)
    ensures Connected(s - {d}, p[0], p[|p| - 1]) || (NearEnd(s, d, p[0]) && NearEnd(s, d, p[|p| - 1]))
    decreases |p|
  {
    var t := s - {d};
    ConnectedSelf(t, p[0]);
    if |p| > 1 {
      assert Joined(s, p[0], p[1]);
      PathTail(s, p);
      ThroughEnds(s, d, p[1..]);
      if Joined(t, p[0], p[1]) {
        ConnectedEdge(t, p[0], p[1]);
        StepFront(t, p[0], p[1], p[|p| - 1]);
        StepFront(t, p[0], p[1], d.0);
        StepFront(t, p[0], p[1], d.1);
      } else {
        ConnectedSelf(t, p[1]);
        if Connected(t, p[1], p[|p| - 1]) {
          ConnectedSym(t, p[1], p[|p| - 1]);
        }
      }
    }
  }

  lemma StepFront(t: set<Pair>, x: Name, y: Name, z: Name)
    ensures Connected(t, x, y) && Connected(t, y, z) ==> Connected(t, x, z)
  {
    if Connected(t, x, y) && Connected(t, y, z) {
      ConnectedTrans(t, x, y, z);
    }
  }

  /** A pair that keeps two vertices together has each of them at one end. */
  lemma Ends(s: set<Pair>, d: Pair, x: Name, y: Name)
    requires Connected(s, x, y) && !Connected(s - {d}, x, y)
    ensures d in s && NearEnd(s, d, x) && NearEnd(s, d, y)
  {
    assert d !in s ==> s - {d} == s;
    var p :| LinkPathFrom(s, p, x, y);
    ThroughEnds(s, d, p);
  }

  // ----- forests -----

  /** No pair closes a cycle: without it, its ends are not connected. */
  ghost predicate Forest(s: set<Pair>) {
    forall e | e in s :: !Connected(s - {e}, e.0, e.1)
  }

  /** In a forest no pair joins a vertex with itself. */
  lemma ForestNoLoop(s: set<Pair>, x: Name)
    requires Forest(s)
    ensures (x, x) !in s
  {
    if (x, x) in s {
      ConnectedSelf(s - {(x, x)}, x);
    }
  }

  /** No two pairs of a forest fall together when the ends of a third are merged. */
  lemma ForestNoCollision(s: set<Pair>, l: Name, r: Name, e: Pair, f: Pair)
    requires Forest(s) && (l, r) in s && e in s && f in s
    requires e != (l, r) && f != (l, r) && MovedPair(l, r, e) == MovedPair(l, r, f)
    ensures e == f
  {
    if e != f {
      var t := s - {e};
      ConnectedEdge(t, l, r);
      ConnectedEdge(t, f.0, f.1);
      SameImage(t, l, r, e.0, f.0);
      SameImage(t, l, r, f.1, e.1);
      ConnectedTrans(t, e.0, f.0, f.1);
      ConnectedTrans(t, e.0, f.1, e.1);
    }
  }

  /** Merging the ends of a pair of a forest leaves a forest. */
  lemma ForestMerge(s: set<Pair>, s': set<Pair>, l: Name, r: Name)
    requires Forest(s) && (l, r) in s
    requires forall f | f in s' :: exists e | e in s - {(l, r)} :: MovedPair(l, r, e) == f
    ensures Forest(s')
  {
    forall f | f in s' ensures !Connected(s' - {f}, f.0, f.1) {
      if Connected(s' - {f}, f.0, f.1) {
        var e :| e in s - {(l, r)} && MovedPair(l, r, e) == f;
        var t := s - {e};
        ConnectedEdge(t, l, r);
        forall f' | f' in s' - {f} ensures exists e' | e' in t :: MovedPair(l, r, e') == f' {
          var e' :| e' in s - {(l, r)} && MovedPair(l, r, e') == f';
          assert e' in t;
        }
        LiftConnected(t, s' - {f}, l, r, e.0, e.1);
      }
    }
  }

  // ----- merging the ends of a pair of a forest -----

  /** `s'` is what merging the ends of (l, r) makes of `s`. */
  ghost predicate IsMerge(s: set<Pair>, l: Name, r: Name, s': set<Pair>) {
    && (l, r) in s
    && (forall f | f in s' :: exists e | e in s - {(l, r)} :: MovedPair(l, r, e) == f)
    && (forall e | e in s - {(l, r)} :: MovedPair(l, r, e) in s')
  }

  /** Merging changes no connection. */
  lemma MergeConnects(s: set<Pair>, l: Name, r: Name, s': set<Pair>, x: Name, y: Name)
    requires IsMerge(s, l, r, s')
    ensures Connected(s', Moved(l, r, x), Moved(l, r, y)) <==> Connected(s, x, y)
  {
    ConnectedEdge(s, l, r);
    if Connected(s, x, y) {
      MapConnected(s, s', l, r, x, y);
    }
    if Connected(s', Moved(l, r, x), Moved(l, r, y)) {
      LiftConnected(s, s', l, r, x, y);
    }
  }

  /** Nor does it change what another pair is needed for. */
  lemma MergeConnectsWithout(s: set<Pair>, l: Name, r: Name, s': set<Pair>, d: Pair, x: Name, y: Name)
    requires Forest(s) && IsMerge(s, l, r, s') && d in s && d != (l, r)
    ensures Connected(s' - {MovedPair(l, r, d)}, Moved(l, r, x), Moved(l, r, y)) <==> Connected(s - {d}, x, y)
  {
    var t, t' := s - {d}, s' - {MovedPair(l, r, d)};
    ConnectedEdge(t, l, r);
    if Connected(t, x, y) {
      forall e | e in t ensures var f := MovedPair(l, r, e); f.0 == f.1 || f in t' {
        if e != (l, r) && MovedPair(l, r, e) == MovedPair(l, r, d) {
          ForestNoCollision(s, l, r, e, d);
        }
      }
      MapConnected(t, t', l, r, x, y);
    }
    if Connected(t', Moved(l, r, x), Moved(l, r, y)) {
      forall f | f in t' ensures exists e | e in t :: MovedPair(l, r, e) == f {
        var e :| e in s - {(l, r)} && MovedPair(l, r, e) == f;
        assert e in t;
      }
      LiftConnected(t, t', l, r, x, y);
    }
  }

  /** A path that does not come back to its start. */
  lemma {:induction false} LeaveOnce(s: set<Pair>, p: seq<Name>) returns (q: seq<Name>)
    requires LinkPath(s, p)
    ensures LinkPathFrom(s, q, p[0], p[|p| - 1]) && forall i | 0 < i < |q| :: q[i] != p[0]
    decreases |p|
  {
    q := p;
    if i :| 0 < i < |p| && p[i] == p[0] {
      forall j | 0 <= j < |p[i..]| - 1 ensures Joined(s, p[i..][j], p[i..][j + 1]) {
        assert Joined(s, p[i + j], p[i + j + 1]);
      }
      q := LeaveOnce(s, p[i..]);
    }
  }

  /** In a forest two connected vertices are kept together by some pair. */
  lemma Separator(s: set<Pair>, x: Name, y: Name) returns (d: Pair)
    requires Forest(s) && Connected(s, x, y) && x != y
    ensures d in s && !Connected(s - {d}, x, y)
  {
    var p :| LinkPathFrom(s, p, x, y);
    var q := LeaveOnce(s, p);
    assert Joined(s, q[0], q[1]);
    d := if (q[0], q[1]) in s then (q[0], q[1]) else (q[1], q[0]);
    var t := s - {d};
    forall i | 0 <= i < |q[1..]| - 1 ensures Joined(t, q[1..][i], q[1..][i + 1]) {
      assert Joined(s, q[i + 1], q[i + 2]);
    }
    assert LinkPathFrom(t, q[1..], q[1], y);
    if Connected(t, x, y) {
      ConnectedSym(t, q[1], y);
      ConnectedTrans(t, x, y, q[1]);
      ConnectedSym(t, x, q[1]);
    }
  }
}
