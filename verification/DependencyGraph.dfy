/**
 Directed graphs over process names, and what it means for one to contain a
 cycle. An arc (u, v) says that u has to come before v. Both dependency
 algorithms of the supervisor are measured against the definitions here.
 */
module DependencyGraph {

  type Arcs = set<(string, string)>

  ghost function Elements<T>(s: seq<T>): set<T> {
    set x | x in s
  }

  ghost predicate Distinct<T>(s: seq<T>) {
    forall i, j | 0 <= i < j < |s| :: s[i] != s[j]
  }

  ghost predicate Walk(arcs: Arcs, p: seq<string>) {
    && |p| >= 1
    && forall i | 0 <= i < |p| - 1 :: (p[i], p[i + 1]) in arcs
  }

  /** A closed walk; a self-arc gives the cycle [v, v]. */
  ghost predicate Cycle(arcs: Arcs, p: seq<string>) {
    && |p| >= 2
    && Walk(arcs, p)
    && p[0] == p[|p| - 1]
  }

  ghost predicate Cyclic(arcs: Arcs) {
    exists p :: Cycle(arcs, p)
  }

  ghost predicate OnCycle(arcs: Arcs, v: string) {
    exists p :: Cycle(arcs, p) && p[0] == v
  }

  /** Every predecessor of an element of `order` stands earlier in `order`. */
  ghost predicate PredecessorsFirst(arcs: Arcs, order: seq<string>) {
    forall i, u | 0 <= i < |order| && (u, order[i]) in arcs :: u in order[..i]
  }

  /** `v` can never be ordered: a walk into it starts on a cycle or outside `nodes`. */
  ghost predicate BlockedBy(nodes: set<string>, arcs: Arcs, v: string, p: seq<string>) {
    && Walk(arcs, p)
    && p[|p| - 1] == v
    && (p[0] !in nodes || OnCycle(arcs, p[0]))
  }

  ghost predicate Blocked(nodes: set<string>, arcs: Arcs, v: string) {
    exists p :: BlockedBy(nodes, arcs, v, p)
  }

  /** Some predecessor of `v` is missing from `order`. */
  ghost predicate Waits(arcs: Arcs, order: seq<string>, v: string) {
    exists u :: (u, v) in arcs && u !in order
  }

  ghost function Startable(nodes: set<string>, arcs: Arcs): set<string> {
    set v | v in nodes && !Blocked(nodes, arcs, v)
  }

  // ---- counting -----------------------------------------------------------

  lemma {:induction false} DistinctSize<T>(s: seq<T>)
    ensures |Elements(s)| <= |s|
    ensures |Elements(s)| == |s| <==> Distinct(s)
  {
    if s == [] {
      assert Elements(s) == {};
    } else {
      var front, last := s[..|s| - 1], s[|s| - 1];
      DistinctSize(front);
      assert s == front + [last];
      assert Elements(s) == Elements(front) + {last};
      if last in front {
        assert Elements(s) == Elements(front);
        var k :| 0 <= k < |front| && front[k] == last;
        assert s[k] == s[|s| - 1];
      } else {
        assert Distinct(front) ==> Distinct(s);
        assert Distinct(s) ==> Distinct(front) by {
          forall i, j | Distinct(s) && 0 <= i < j < |front| ensures front[i] != front[j] {
            assert s[i] != s[j];
          }
        }
      }
    }
  }

  lemma SubsetSize<T>(a: set<T>, b: set<T>)
    requires a <= b
    ensures |a| <= |b|
    ensures |a| == |b| ==> a == b
  {
    assert b == a + (b - a);
    assert |b| == |a| + |b - a|;
  }

  /** More positions than values: some value occurs twice. */
  lemma Pigeonhole(p: seq<string>, s: set<string>) returns (i: nat, j: nat)
    requires forall k | 0 <= k < |p| :: p[k] in s
    requires |p| > |s|
    ensures i < j < |p| && p[i] == p[j]
  {
    assert Elements(p) <= s;
    SubsetSize(Elements(p), s);
    DistinctSize(p);
    i, j :| 0 <= i < j < |p| && p[i] == p[j];
  }

  // ---- orders and cycles --------------------------------------------------

  /** A walk into an ordered element runs entirely inside the order up to that element. */
  lemma {:induction false} WalkStaysOrdered(arcs: Arcs, order: seq<string>, p: seq<string>, i: nat)
    requires PredecessorsFirst(arcs, order)
    requires Walk(arcs, p) && i < |order| && p[|p| - 1] == order[i]
    ensures p[0] in order[..i + 1]
    ensures |p| >= 2 ==> p[0] in order[..i]
    decreases |p|
  {
    if |p| == 1 {
      assert order[..i + 1][i] == p[0];
    } else {
      var front := p[..|p| - 1];
      var u := front[|front| - 1];
      assert (p[|p| - 2], p[|p| - 1]) in arcs;
      assert u in order[..i];
      var k :| 0 <= k < i && order[..i][k] == u;
      WalkStaysOrdered(arcs, order, front, k);
      assert order[..k + 1] == order[..i][..k + 1];
    }
  }

  lemma OrderedNotOnCycle(arcs: Arcs, order: seq<string>, i: nat)
    requires Distinct(order) && PredecessorsFirst(arcs, order) && i < |order|
    ensures !OnCycle(arcs, order[i])
  {
    forall c | Cycle(arcs, c) && c[0] == order[i] ensures false {
      WalkStaysOrdered(arcs, order, c, i);
    }
  }

  /** If the arcs' targets can all be listed predecessors-first, there is no cycle. */
  lemma OrderedAcyclic(arcs: Arcs, order: seq<string>)
    requires Distinct(order) && PredecessorsFirst(arcs, order)
    requires forall a | a in arcs :: a.1 in order
    ensures !Cyclic(arcs)
  {
    forall c | Cycle(arcs, c) ensures false {
      assert (c[|c| - 2], c[|c| - 1]) in arcs;
      var i :| 0 <= i < |order| && order[i] == c[0];
      OrderedNotOnCycle(arcs, order, i);
      assert OnCycle(arcs, order[i]);
    }
  }

  ghost predicate HasWayBack(nodes: set<string>, arcs: Arcs, s: set<string>, w: string) {
    exists u :: (u, w) in arcs && (u in s || u !in nodes)
  }

  /** Either a backward walk of `n` steps inside `s`, or one that leaves `nodes`. */
  lemma {:induction false} WalkBack(nodes: set<string>, arcs: Arcs, s: set<string>, v: string, n: nat)
    returns (p: seq<string>)
    requires v in s && s <= nodes
    requires forall w | w in s :: HasWayBack(nodes, arcs, s, w)
    ensures Walk(arcs, p) && p[|p| - 1] == v
    ensures p[0] !in nodes || (|p| == n + 1 && forall k | 0 <= k < |p| :: p[k] in s)
  {
    if n == 0 {
      p := [v];
    } else {
      var tail := WalkBack(nodes, arcs, s, v, n - 1);
      if tail[0] !in nodes {
        p := tail;
      } else {
        var u :| (u, tail[0]) in arcs && (u in s || u !in nodes);
        p := [u] + tail;
        forall i | 0 <= i < |p| - 1 ensures (p[i], p[i + 1]) in arcs {
          if i > 0 {
            assert (tail[i - 1], tail[i - 1 + 1]) in arcs;
          }
        }
      }
    }
  }

  lemma CycleInWalk(arcs: Arcs, p: seq<string>, i: nat, j: nat)
    requires Walk(arcs, p) && i < j < |p| && p[i] == p[j]
    ensures OnCycle(arcs, p[i])
    ensures Walk(arcs, p[i..])
  {
    var c := p[i..j + 1];
    assert Cycle(arcs, c) && c[0] == p[i];
  }

  /**
   The elements of a predecessors-first order that cannot be extended are
   exactly the nodes that no cycle and no unknown name blocks.
   */
  lemma MaximalOrderIsStartable(nodes: set<string>, arcs: Arcs, order: seq<string>)
    requires Distinct(order) && PredecessorsFirst(arcs, order) && Elements(order) <= nodes
    requires forall v | v in nodes && v !in order :: Waits(arcs, order, v)
    ensures Elements(order) == Startable(nodes, arcs)
  {
    forall i | 0 <= i < |order| ensures !Blocked(nodes, arcs, order[i]) {
      forall p | BlockedBy(nodes, arcs, order[i], p) ensures false {
        WalkStaysOrdered(arcs, order, p, i);
        var k :| 0 <= k < |order[..i + 1]| && order[..i + 1][k] == p[0];
        assert order[k] in Elements(order);
        OrderedNotOnCycle(arcs, order, k);
      }
    }
    forall v | v in nodes && v !in order ensures Blocked(nodes, arcs, v) {
      LeftoverIsBlocked(nodes, arcs, order, v);
    }
  }

  lemma LeftoverIsBlocked(nodes: set<string>, arcs: Arcs, order: seq<string>, v: string)
    requires forall w | w in nodes && w !in order :: Waits(arcs, order, w)
    requires v in nodes && v !in order
    ensures Blocked(nodes, arcs, v)
  {
    var s := nodes - Elements(order);
    forall w | w in s ensures HasWayBack(nodes, arcs, s, w) {
      assert Waits(arcs, order, w);
    }
    var p := WalkBack(nodes, arcs, s, v, |s|);
    if p[0] !in nodes {
      assert BlockedBy(nodes, arcs, v, p);
    } else {
      var i, j := Pigeonhole(p, s);
      CycleInWalk(arcs, p, i, j);
      assert BlockedBy(nodes, arcs, v, p[i..]);
    }
  }

  // ---- turning a graph round ----------------------------------------------

  ghost function Flip(arcs: Arcs): Arcs {
    set a | a in arcs :: (a.1, a.0)
  }

  lemma FlipMember(arcs: Arcs, u: string, v: string)
    ensures (u, v) in Flip(arcs) <==> (v, u) in arcs
  {
    if (v, u) in arcs {
      assert ((v, u).1, (v, u).0) == (u, v);
    }
  }

  lemma FlipCyclic(arcs: Arcs)
    ensures Cyclic(Flip(arcs)) <==> Cyclic(arcs)
  {
    if Cyclic(arcs) {
      FlipCycle(arcs);
    }
    if Cyclic(Flip(arcs)) {
      FlipCycle(Flip(arcs));
      forall u, v ensures (u, v) in Flip(Flip(arcs)) <==> (u, v) in arcs {
        FlipMember(Flip(arcs), u, v);
        FlipMember(arcs, v, u);
      }
      assert Flip(Flip(arcs)) == arcs;
    }
  }

  lemma FlipCycle(arcs: Arcs)
    requires Cyclic(arcs)
    ensures Cyclic(Flip(arcs))
  {
    var p :| Cycle(arcs, p);
    var q := seq(|p|, i requires 0 <= i < |p| => p[|p| - 1 - i]);
    forall i | 0 <= i < |q| - 1 ensures (q[i], q[i + 1]) in Flip(arcs) {
      var k := |p| - 2 - i;
      assert (p[k], p[k + 1]) in arcs;
      FlipMember(arcs, q[i], q[i + 1]);
    }
    assert Cycle(Flip(arcs), q);
  }
}
