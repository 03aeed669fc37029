/** Reachability in a finite graph, defined without reference to any marking order:
    a node is reachable when it lies within some number of edges of a root. */
module Reachability {
  ghost function Within<T>(edges: map<T, seq<T>>, roots: set<T>, n: nat): set<T> {
    if n == 0 then roots
    else
      var near := Within(edges, roots, n - 1);
      near + set x, y | x in near && x in edges && y in edges[x] :: y
  }

  ghost predicate Reachable<T>(edges: map<T, seq<T>>, roots: set<T>, x: T) {
    exists n: nat :: x in Within(edges, roots, n)
  }

  /** The members of `s` that are reachable from the roots. */
  ghost function ReachableIn<T>(edges: map<T, seq<T>>, roots: set<T>, s: set<T>): set<T> {
    set x | x in s && Reachable(edges, roots, x)
  }

  ghost predicate Closed<T>(edges: map<T, seq<T>>, s: set<T>) {
    forall x, y | x in s && x in edges && y in edges[x] :: y in s
  }

  lemma RootReachable<T>(edges: map<T, seq<T>>, roots: set<T>, x: T)
    requires x in roots
    ensures Reachable(edges, roots, x)
  {
    assert x in Within(edges, roots, 0);
  }

  lemma StepReachable<T>(edges: map<T, seq<T>>, roots: set<T>, x: T, y: T)
    requires Reachable(edges, roots, x) && x in edges && y in edges[x]
    ensures Reachable(edges, roots, y)
  {
    var n: nat :| x in Within(edges, roots, n);
    assert y in Within(edges, roots, n + 1);
  }

  /** A closed set that holds the roots holds everything reachable from them. */
  lemma {:induction false} ClosedHolds<T>(edges: map<T, seq<T>>, roots: set<T>, s: set<T>, x: T)
    requires roots <= s && Closed(edges, s) && Reachable(edges, roots, x)
    ensures x in s
  {
    var n: nat :| x in Within(edges, roots, n);
    ClosedHoldsWithin(edges, roots, s, n);
  }

  lemma {:induction false} ClosedHoldsWithin<T>(edges: map<T, seq<T>>, roots: set<T>, s: set<T>, n: nat)
    requires roots <= s && Closed(edges, s)
    ensures Within(edges, roots, n) <= s
  {
    if n > 0 {
      ClosedHoldsWithin(edges, roots, s, n - 1);
    }
  }

  /** Reachability composes. */
  lemma {:induction false} ReachableFrom<T>(edges: map<T, seq<T>>, roots: set<T>, from: set<T>, x: T)
    requires forall r | r in from :: Reachable(edges, roots, r)
    requires Reachable(edges, from, x)
    ensures Reachable(edges, roots, x)
  {
    var n: nat :| x in Within(edges, from, n);
    ReachableFromWithin(edges, roots, from, n, x);
  }

  lemma {:induction false} ReachableFromWithin<T>(edges: map<T, seq<T>>, roots: set<T>, from: set<T>, n: nat, x: T)
    requires forall r | r in from :: Reachable(edges, roots, r)
    requires x in Within(edges, from, n)
    ensures Reachable(edges, roots, x)
    decreases n
  {
    if n > 0 {
      var near := Within(edges, from, n - 1);
      if x in near {
        ReachableFromWithin(edges, roots, from, n - 1, x);
      } else {
        var w :| w in near && w in edges && x in edges[w];
        ReachableFromWithin(edges, roots, from, n - 1, w);
        StepReachable(edges, roots, w, x);
      }
    }
  }
}
