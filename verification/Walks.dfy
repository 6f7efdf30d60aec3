/** Directed graphs given by a finite set of edges: walks, reachability and
    cycles.  Shared by the validator's cycle check, the dependency engine, the
    depth check and import resolution. */
module Walks {

  /** A walk is a non-empty list of nodes, each joined to the next by an edge. */
  ghost predicate IsWalk<T>(edges: set<(T, T)>, p: seq<T>)
  {
    |p| > 0 && forall i :: 0 <= i < |p| - 1 ==> (p[i], p[i + 1]) in edges
  }

  ghost predicate WalkBetween<T>(edges: set<(T, T)>, p: seq<T>, u: T, v: T)
  {
    IsWalk(edges, p) && p[0] == u && p[|p| - 1] == v
  }

  /** v can be reached from u in zero or more steps. */
  ghost predicate Reaches<T(!new)>(edges: set<(T, T)>, u: T, v: T)
  {
    exists p: seq<T> :: WalkBetween(edges, p, u, v)
  }

  /** v can be reached from u in one or more steps. */
  ghost predicate ReachesPlus<T(!new)>(edges: set<(T, T)>, u: T, v: T)
  {
    exists p: seq<T> :: WalkBetween(edges, p, u, v) && |p| > 1
  }

  ghost predicate Cyclic<T(!new)>(edges: set<(T, T)>)
  {
    exists v: T :: ReachesPlus(edges, v, v)
  }

  /** The nodes that reach v in one or more steps. */
  ghost function Above<T(!new)>(edges: set<(T, T)>, v: T): set<T>
  {
    set e | e in edges && ReachesPlus(edges, e.0, v) :: e.0
  }

  lemma ReachesSelf<T(!new)>(edges: set<(T, T)>, v: T)
    ensures Reaches(edges, v, v)
  {
    assert WalkBetween(edges, [v], v, v);
  }

  lemma EdgeReaches<T(!new)>(edges: set<(T, T)>, u: T, v: T)
    requires (u, v) in edges
    ensures ReachesPlus(edges, u, v) && Reaches(edges, u, v)
  {
    assert WalkBetween(edges, [u, v], u, v);
  }

  lemma PlusIsReach<T(!new)>(edges: set<(T, T)>, u: T, v: T)
    requires ReachesPlus(edges, u, v)
    ensures Reaches(edges, u, v)
  {
  }

  lemma JoinWalks<T>(edges: set<(T, T)>, p: seq<T>, q: seq<T>, u: T, v: T, w: T)
    requires WalkBetween(edges, p, u, v) && WalkBetween(edges, q, v, w)
    ensures WalkBetween(edges, p + q[1..], u, w) && |p + q[1..]| == |p| + |q| - 1
  {
    var r := p + q[1..];
    forall i | 0 <= i < |r| - 1
      ensures (r[i], r[i + 1]) in edges
    {
      if i >= |p| - 1 {
        assert r[i] == q[i - (|p| - 1)];
        assert r[i + 1] == q[i + 1 - (|p| - 1)];
      }
    }
  }

  lemma ReachesTransitive<T(!new)>(edges: set<(T, T)>, u: T, v: T, w: T)
    requires Reaches(edges, u, v) && Reaches(edges, v, w)
    ensures Reaches(edges, u, w)
    ensures ReachesPlus(edges, u, v) || ReachesPlus(edges, v, w) ==> ReachesPlus(edges, u, w)
  {
    var p :| WalkBetween(edges, p, u, v) && (ReachesPlus(edges, u, v) ==> |p| > 1);
    var q :| WalkBetween(edges, q, v, w) && (ReachesPlus(edges, v, w) ==> |q| > 1);
    JoinWalks(edges, p, q, u, v, w);
  }

  /** A walk cannot leave a set that contains the targets of all its edges. */
  lemma {:induction false} WalkStaysInside<T>(edges: set<(T, T)>, inside: set<T>, p: seq<T>, k: nat)
    requires IsWalk(edges, p) && k < |p| && p[0] in inside
    requires forall e :: e in edges && e.0 in inside ==> e.1 in inside
    ensures p[k] in inside
  {
    if k > 0 {
      WalkStaysInside(edges, inside, p, k - 1);
      assert (p[k - 1], p[k]) in edges;
    }
  }

  lemma ReachStaysInside<T(!new)>(edges: set<(T, T)>, inside: set<T>, u: T, v: T)
    requires Reaches(edges, u, v) && u in inside
    requires forall e :: e in edges && e.0 in inside ==> e.1 in inside
    ensures v in inside
  {
    var p :| WalkBetween(edges, p, u, v);
    WalkStaysInside(edges, inside, p, |p| - 1);
  }

  /** Walking an edge backwards in an acyclic graph strictly shrinks the set of
      nodes above: the measure for inductions over dependencies. */
  lemma AboveShrinks<T(!new)>(edges: set<(T, T)>, u: T, v: T)
    requires !Cyclic(edges) && (u, v) in edges
    ensures Above(edges, u) < Above(edges, v)
    ensures |Above(edges, u)| < |Above(edges, v)|
  {
    EdgeReaches(edges, u, v);
    forall x | x in Above(edges, u)
      ensures x in Above(edges, v)
    {
      PlusIsReach(edges, x, u);
      ReachesTransitive(edges, x, u, v);
    }
    assert (u, v).0 in Above(edges, v);
    assert u !in Above(edges, u);
    SubsetIsSmaller(Above(edges, u), Above(edges, v));
  }

  lemma SubsetIsSmaller<T>(a: set<T>, b: set<T>)
    requires a < b
    ensures |a| < |b|
  {
    var x :| x in b && x !in a;
    SubsetIsNoLarger(a, b - {x});
  }

  lemma {:induction false} SubsetIsNoLarger<T>(a: set<T>, b: set<T>)
    requires a <= b
    ensures |a| <= |b|
    decreases a
  {
    if a != {} {
      var x :| x in a;
      SubsetIsNoLarger(a - {x}, b - {x});
    }
  }
}
