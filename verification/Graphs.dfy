/** Finite directed graphs, given by their set of edges.  Shared by every component of the
    runtime that walks a dependency relation: plugins, knowledge graph, jobs and services. */
module Graphs {

  /** A path is the nonempty sequence of the nodes it visits. */
  ghost predicate IsPath<T>(edges: set<(T, T)>, p: seq<T>) {
    |p| > 0 && forall i {:trigger p[i]} :: 0 <= i < |p| - 1 ==> (p[i], p[i + 1]) in edges
  }

  ghost predicate Walk<T>(edges: set<(T, T)>, a: T, b: T, p: seq<T>) {
    IsPath(edges, p) && p[0] == a && p[|p| - 1] == b
  }

  /** b can be reached from a in zero or more steps. */
  ghost predicate Reaches<T(!new)>(edges: set<(T, T)>, a: T, b: T) {
    exists p :: Walk(edges, a, b, p)
  }

  /** b can be reached from a in one or more steps. */
  ghost predicate ReachesPlus<T(!new)>(edges: set<(T, T)>, a: T, b: T) {
    exists p :: Walk(edges, a, b, p) && |p| >= 2
  }

  ghost predicate Acyclic<T(!new)>(edges: set<(T, T)>) {
    forall a :: !ReachesPlus(edges, a, a)
  }

  /** No edge leaves S. */
  ghost predicate Closed<T(!new)>(edges: set<(T, T)>, S: set<T>) {
    forall a, b :: a in S && (a, b) in edges ==> b in S
  }

  ghost function Endpoints<T>(edges: set<(T, T)>): set<T> {
    (set e | e in edges :: e.0) + (set e | e in edges :: e.1)
  }

  lemma ReachesRefl<T(!new)>(edges: set<(T, T)>, a: T)
    ensures Reaches(edges, a, a)
  {
    assert Walk(edges, a, a, [a]);
  }

  lemma EdgeReaches<T(!new)>(edges: set<(T, T)>, a: T, b: T)
    requires (a, b) in edges
    ensures ReachesPlus(edges, a, b) && Reaches(edges, a, b)
  {
    assert Walk(edges, a, b, [a, b]);
  }

  lemma JoinWalks<T>(edges: set<(T, T)>, a: T, b: T, c: T, p: seq<T>, q: seq<T>)
    requires Walk(edges, a, b, p) && Walk(edges, b, c, q)
    ensures Walk(edges, a, c, p + q[1..]) && |p + q[1..]| == |p| + |q| - 1
  {
    var r := p + q[1..];
    forall i | 0 <= i < |r| - 1 ensures (r[i], r[i + 1]) in edges {
      if i < |p| - 1 {
        assert r[i] == p[i] && r[i + 1] == p[i + 1];
      } else {
        var j := i - |p| + 1;
        assert r[i] == q[j] && r[i + 1] == q[j + 1];
      }
    }
  }

  lemma ReachesTrans<T(!new)>(edges: set<(T, T)>, a: T, b: T, c: T)
    requires Reaches(edges, a, b) && Reaches(edges, b, c)
    ensures Reaches(edges, a, c)
  {
    var p :| Walk(edges, a, b, p);
    var q :| Walk(edges, b, c, q);
    JoinWalks(edges, a, b, c, p, q);
  }

  lemma ReachesPlusTrans<T(!new)>(edges: set<(T, T)>, a: T, b: T, c: T)
    requires Reaches(edges, a, b) && Reaches(edges, b, c)
    requires ReachesPlus(edges, a, b) || ReachesPlus(edges, b, c)
    ensures ReachesPlus(edges, a, c)
  {
    if ReachesPlus(edges, a, b) {
      var p :| Walk(edges, a, b, p) && |p| >= 2;
      var q :| Walk(edges, b, c, q);
      JoinWalks(edges, a, b, c, p, q);
    } else {
      var p :| Walk(edges, a, b, p);
      var q :| Walk(edges, b, c, q) && |q| >= 2;
      JoinWalks(edges, a, b, c, p, q);
    }
  }

  lemma PlusIsReaches<T(!new)>(edges: set<(T, T)>, a: T, b: T)
    ensures ReachesPlus(edges, a, b) ==> Reaches(edges, a, b)
    ensures Reaches(edges, a, b) && a != b ==> ReachesPlus(edges, a, b)
  {
  }

  /** A walk of at least one step starts with an edge. */
  lemma FirstStep<T(!new)>(edges: set<(T, T)>, a: T, c: T) returns (b: T)
    requires ReachesPlus(edges, a, c)
    ensures (a, b) in edges && Reaches(edges, b, c)
  {
    var p :| Walk(edges, a, c, p) && |p| >= 2;
    b := p[1];
    assert p[0] == a;
    assert Walk(edges, b, c, p[1..]);
  }

  /** A walk of at least one step ends with an edge. */
  lemma LastStep<T(!new)>(edges: set<(T, T)>, a: T, c: T) returns (b: T)
    requires ReachesPlus(edges, a, c)
    ensures (b, c) in edges && Reaches(edges, a, b)
  {
    var p :| Walk(edges, a, c, p) && |p| >= 2;
    b := p[|p| - 2];
    assert p[|p| - 2 + 1] == c;
    assert Walk(edges, a, b, p[..|p| - 1]);
  }

  /** Each stretch of a path is a path. */
  lemma SubPath<T>(edges: set<(T, T)>, p: seq<T>, i: nat, j: nat)
    requires IsPath(edges, p) && i <= j < |p|
    ensures Walk(edges, p[i], p[j], p[i..j + 1])
  {
    var q := p[i..j + 1];
    assert |q| == j + 1 - i;
    forall k | 0 <= k < |q| - 1 ensures (q[k], q[k + 1]) in edges {
      assert q[k] == p[i + k] && q[k + 1] == p[i + k + 1];
    }
  }

  lemma ExtendPath<T>(edges: set<(T, T)>, p: seq<T>, n: T)
    requires IsPath(edges, p) && (p[|p| - 1], n) in edges
    ensures IsPath(edges, p + [n])
  {
    var q := p + [n];
    forall i | 0 <= i < |q| - 1 ensures (q[i], q[i + 1]) in edges {
      if i < |p| - 1 {
        assert q[i] == p[i] && q[i + 1] == p[i + 1];
      }
    }
  }

  /** Meeting a node of the chain again closes a cycle. */
  lemma StackCycle<T(!new)>(edges: set<(T, T)>, stack: seq<T>, n: T)
    requires IsPath(edges, stack + [n]) && n in stack
    ensures ReachesPlus(edges, n, n)
  {
    var p := stack + [n];
    var i :| 0 <= i < |stack| && stack[i] == n;
    SubPath(edges, p, i, |p| - 1);
    assert p[i] == n;
  }

  /** What is reached from a closed set stays in it. */
  lemma ClosedContainsReachable<T(!new)>(edges: set<(T, T)>, S: set<T>, a: T, b: T)
    requires Closed(edges, S) && a in S && Reaches(edges, a, b)
    ensures b in S
  {
    var p :| Walk(edges, a, b, p);
    ClosedContainsPath(edges, S, p);
  }

  lemma {:induction false} ClosedContainsPath<T(!new)>(edges: set<(T, T)>, S: set<T>, p: seq<T>)
    requires Closed(edges, S) && IsPath(edges, p) && p[0] in S
    ensures p[|p| - 1] in S
    decreases |p|
  {
    if |p| > 1 {
      SubPath(edges, p, 0, |p| - 2);
      ClosedContainsPath(edges, S, p[..|p| - 1]);
      assert p[|p| - 2] in S;
      assert p[|p| - 2 + 1] == p[|p| - 1];
    }
  }

  lemma NoClosedWalk<T(!new)>(edges: set<(T, T)>, a: T, p: seq<T>)
    requires Acyclic(edges) && |p| >= 2
    ensures !Walk(edges, a, a, p)
  {
    assert !ReachesPlus(edges, a, a);
  }

  lemma MonotoneReaches<T(!new)>(small: set<(T, T)>, large: set<(T, T)>, a: T, b: T)
    requires small <= large
    ensures Reaches(small, a, b) ==> Reaches(large, a, b)
    ensures ReachesPlus(small, a, b) ==> ReachesPlus(large, a, b)
  {
    if Reaches(small, a, b) {
      var p :| Walk(small, a, b, p);
      assert Walk(large, a, b, p);
    }
    if ReachesPlus(small, a, b) {
      var p :| Walk(small, a, b, p) && |p| >= 2;
      assert Walk(large, a, b, p);
    }
  }

  lemma AcyclicSubset<T(!new)>(small: set<(T, T)>, large: set<(T, T)>)
    requires small <= large && Acyclic(large)
    ensures Acyclic(small)
  {
    forall a ensures !ReachesPlus(small, a, a) {
      MonotoneReaches(small, large, a, a);
    }
  }

  ghost function OutEdges<T>(u: T, outs: set<T>): set<(T, T)> {
    set v | v in outs :: (u, v)
  }

  /** A new edge out of u does not help to reach u. */
  lemma NewEdgeUseless<T(!new)>(edges: set<(T, T)>, u: T, outs: set<T>, a: T, p: seq<T>)
    requires Walk(edges + OutEdges(u, outs), a, u, p)
    ensures Reaches(edges, a, u)
    decreases |p|
  {
    var all := edges + OutEdges(u, outs);
    if i :| 0 <= i < |p| - 1 && p[i] == u {
      SubPath(all, p, 0, i);
      NewEdgeUseless(edges, u, outs, a, p[0..i + 1]);
    } else {
      forall i | 0 <= i < |p| - 1 ensures (p[i], p[i + 1]) in edges {
        assert (p[i], p[i + 1]) in all;
      }
      assert Walk(edges, a, u, p);
    }
  }

  /** Edges from u to nodes that cannot reach u close no cycle. */
  lemma AddEdgesAcyclic<T(!new)>(edges: set<(T, T)>, u: T, outs: set<T>)
    requires Acyclic(edges)
    requires forall v :: v in outs ==> !Reaches(edges, v, u)
    ensures Acyclic(edges + OutEdges(u, outs))
  {
    var all := edges + OutEdges(u, outs);
    forall a ensures !ReachesPlus(all, a, a) {
      if p :| Walk(all, a, a, p) && |p| >= 2 {
        if i :| 0 <= i < |p| - 1 && p[i] == u && p[i + 1] in outs {
          SubPath(all, p, i + 1, |p| - 1);
          SubPath(all, p, 0, i);
          JoinWalks(all, p[i + 1], a, u, p[i + 1..|p|], p[0..i + 1]);
          NewEdgeUseless(edges, u, outs, p[i + 1], p[i + 1..|p|] + p[0..i + 1][1..]);
        } else {
          forall i | 0 <= i < |p| - 1 ensures (p[i], p[i + 1]) in edges {
            assert (p[i], p[i + 1]) in all;
          }
          assert !Walk(edges, a, a, p) by { NoClosedWalk(edges, a, p); }
        }
      }
    }
  }

  /** Conversely, an edge to a node that reaches u closes a cycle. */
  lemma AddEdgeCyclic<T(!new)>(edges: set<(T, T)>, u: T, v: T)
    requires Reaches(edges, v, u)
    ensures !Acyclic(edges + {(u, v)})
  {
    var all := edges + {(u, v)};
    MonotoneReaches(edges, all, v, u);
    EdgeReaches(all, u, v);
    ReachesPlusTrans(all, u, v, u);
  }

  /** Every element comes after all the elements it has an edge to. */
  ghost predicate DependenciesFirst<T(!new)>(edges: set<(T, T)>, order: seq<T>) {
    forall i, b ::
      0 <= i < |order| && (order[i], b) in edges ==> b in order[..i]
  }

  ghost function Elements<T>(s: seq<T>): set<T> {
    set x | x in s
  }

  lemma ElementsAppend<T>(s: seq<T>, x: T)
    ensures Elements(s + [x]) == Elements(s) + {x}
  {
  }

  lemma ElementsTake<T>(s: seq<T>, i: nat)
    requires i < |s|
    ensures s[..i + 1] == s[..i] + [s[i]]
    ensures Elements(s[..i + 1]) == Elements(s[..i]) + {s[i]}
  {
    assert s[..i + 1] == s[..i] + [s[i]];
    ElementsAppend(s[..i], s[i]);
  }

  ghost predicate Distinct<T>(s: seq<T>) {
    forall i, j :: 0 <= i < j < |s| ==> s[i] != s[j]
  }

  lemma DistinctAppend<T>(s: seq<T>, x: T)
    requires Distinct(s) && x !in Elements(s)
    ensures Distinct(s + [x])
  {
  }

  lemma DistinctPrepend<T>(x: T, s: seq<T>)
    requires Distinct(s) && x !in Elements(s)
    ensures Distinct([x] + s)
  {
  }

  lemma DistinctEmpty<T>()
    ensures Distinct<T>([])
  {
  }

  /** Along a path inside an order with dependencies first, positions decrease. */
  lemma {:induction false} OrderBoundsPath<T(!new)>(edges: set<(T, T)>, order: seq<T>, p: seq<T>, i: nat)
    returns (j: nat)
    requires DependenciesFirst(edges, order)
    requires IsPath(edges, p) && i < |order| && p[0] == order[i]
    ensures j <= i - |p| + 1 && order[j] == p[|p| - 1]
    decreases |p|
  {
    if |p| == 1 {
      j := i;
    } else {
      assert p[0 + 1] == p[1] && (order[i], p[1]) in edges;
      assert p[1] in order[..i];
      var k :| 0 <= k < i && order[k] == p[1];
      SubPath(edges, p, 1, |p| - 1);
      assert p[1..|p|] == p[1..];
      j := OrderBoundsPath(edges, order, p[1..], k);
    }
  }

  /** An order with dependencies first, that holds every node with an outgoing edge, refutes cycles. */
  lemma OrderRefutesCycles<T(!new)>(edges: set<(T, T)>, order: seq<T>)
    requires DependenciesFirst(edges, order) && Distinct(order)
    requires forall e :: e in edges ==> e.0 in order
    ensures Acyclic(edges)
  {
    forall a ensures !ReachesPlus(edges, a, a) {
      if p :| Walk(edges, a, a, p) && |p| >= 2 {
        assert (p[0], p[0 + 1]) in edges;
        var i :| 0 <= i < |order| && order[i] == a;
        var j := OrderBoundsPath(edges, order, p, i);
      }
    }
  }

  /** b can be reached from a in at most n steps. */
  ghost predicate Within<T(!new)>(edges: set<(T, T)>, a: T, b: T, n: nat) {
    exists p :: Walk(edges, a, b, p) && |p| <= n + 1
  }

  ghost function Successors<T>(edges: set<(T, T)>, S: set<T>): set<T> {
    set e | e in edges && e.0 in S :: e.1
  }

  /** What a breadth-first search knows after n levels. */
  ghost function Ball<T>(edges: set<(T, T)>, a: T, n: nat): set<T> {
    if n == 0 then {a} else Ball(edges, a, n - 1) + Successors(edges, Ball(edges, a, n - 1))
  }

  lemma {:induction false} BallIsWithin<T(!new)>(edges: set<(T, T)>, a: T, n: nat, b: T)
    ensures b in Ball(edges, a, n) <==> Within(edges, a, b, n)
  {
    if b in Ball(edges, a, n) {
      BallHasWalk(edges, a, n, b);
    }
    if p :| Walk(edges, a, b, p) && |p| <= n + 1 {
      WalkInBall(edges, a, b, p, n);
    }
  }

  lemma {:induction false} BallHasWalk<T(!new)>(edges: set<(T, T)>, a: T, n: nat, b: T)
    requires b in Ball(edges, a, n)
    ensures Within(edges, a, b, n)
  {
    if n == 0 {
      assert Walk(edges, a, b, [a]);
    } else if b in Ball(edges, a, n - 1) {
      BallHasWalk(edges, a, n - 1, b);
    } else {
      var e :| e in edges && e.0 in Ball(edges, a, n - 1) && e.1 == b;
      BallHasWalk(edges, a, n - 1, e.0);
      var p :| Walk(edges, a, e.0, p) && |p| <= n;
      JoinWalks(edges, a, e.0, b, p, [e.0, b]);
    }
  }

  lemma {:induction false} WalkInBall<T(!new)>(edges: set<(T, T)>, a: T, b: T, p: seq<T>, n: nat)
    requires Walk(edges, a, b, p) && |p| <= n + 1
    ensures b in Ball(edges, a, n)
    decreases n
  {
    if |p| == 1 {
      BallGrows(edges, a, 0, n);
    } else {
      var c := p[|p| - 2];
      SubPath(edges, p, 0, |p| - 2);
      WalkInBall(edges, a, c, p[0..|p| - 1], n - 1);
      assert p[|p| - 2 + 1] == b && (c, b) in edges;
    }
  }

  lemma {:induction false} BallGrows<T(!new)>(edges: set<(T, T)>, a: T, m: nat, n: nat)
    requires m <= n
    ensures Ball(edges, a, m) <= Ball(edges, a, n)
    decreases n - m
  {
    if m < n {
      BallGrows(edges, a, m + 1, n);
    }
  }

  /** Once a level adds nothing, no later level does. */
  lemma {:induction false} BallFixpoint<T(!new)>(edges: set<(T, T)>, a: T, m: nat, n: nat)
    requires m <= n && Ball(edges, a, m + 1) == Ball(edges, a, m)
    ensures Ball(edges, a, n) == Ball(edges, a, m)
    decreases n
  {
    hide Successors;
    if m < n {
      BallFixpoint(edges, a, m, n - 1);
    }
  }
}
