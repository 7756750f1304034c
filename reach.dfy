/**
 * Reachability in an object graph. A graph maps each object id to the ids
 * its trace operation reports, in order; marks play no part here.
 */
module Reach {

  type Id = nat

  type Graph = map<Id, seq<Id>>

  /** The ids a sequence mentions, as a set. */
  function Elems(s: seq<Id>): set<Id>
  {
    set x | x in s
  }

  /** p is a non-empty chain of registered objects, each one a child of the one before. */
  ghost predicate IsPath(g: Graph, p: seq<Id>)
  {
    |p| > 0 &&
    (forall i :: 0 <= i < |p| ==> p[i] in g) &&
    (forall i :: 0 < i < |p| ==> p[i] in g[p[i - 1]])
  }

  /** x can be reached from one of roots by following children. */
  ghost predicate Reachable(g: Graph, roots: set<Id>, x: Id)
  {
    exists p :: IsPath(g, p) && p[0] in roots && p[|p| - 1] == x
  }

  /** Every registered object reachable from roots. */
  ghost function ReachableSet(g: Graph, roots: set<Id>): (r: set<Id>)
    ensures forall x :: x in r <==> x in g && Reachable(g, roots, x)
  {
    set x | x in g && Reachable(g, roots, x)
  }

  /** S holds every child, registered in g, of each of its registered members. */
  ghost predicate ClosedUnder(g: Graph, s: set<Id>)
  {
    forall x, c :: x in s && x in g && c in g[x] && c in g ==> c in s
  }

  /** Nothing is reachable from no roots. */
  lemma NothingReachable(g: Graph, x: Id)
    ensures !Reachable(g, Elems([]), x)
  {
    assert Elems([]) == {};
  }

  /** A registered root reaches itself. */
  lemma RootReachable(g: Graph, roots: set<Id>, r: Id)
    requires r in roots && r in g
    ensures Reachable(g, roots, r)
  {
    assert IsPath(g, [r]);
  }

  /** Reachability extends along one child edge. */
  lemma StepReachable(g: Graph, roots: set<Id>, x: Id, c: Id)
    requires Reachable(g, roots, x)
    requires x in g && c in g[x] && c in g
    ensures Reachable(g, roots, c)
  {
    var p :| IsPath(g, p) && p[0] in roots && p[|p| - 1] == x;
    var q := p + [c];
    assert q[|q| - 1] == c && q[0] == p[0];
    assert IsPath(g, q);
  }

  /** The last node of a path from a root lies in every closed set containing the roots. */
  lemma {:induction false} PathInClosed(g: Graph, roots: set<Id>, s: set<Id>, p: seq<Id>)
    requires IsPath(g, p) && p[0] in roots
    requires forall r :: r in roots && r in g ==> r in s
    requires ClosedUnder(g, s)
    ensures p[|p| - 1] in s
    decreases |p|
  {
    if |p| > 1 {
      var q := p[..|p| - 1];
      assert IsPath(g, q);
      PathInClosed(g, roots, s, q);
      assert p[|p| - 2] == q[|q| - 1];
      assert p[|p| - 1] in g[p[|p| - 2]];
    }
  }

  /** Everything reachable lies in any closed set that contains the roots. */
  lemma ReachableInClosed(g: Graph, roots: set<Id>, s: set<Id>)
    requires forall r :: r in roots && r in g ==> r in s
    requires ClosedUnder(g, s)
    ensures ReachableSet(g, roots) <= s
  {
    forall x | x in ReachableSet(g, roots)
      ensures x in s
    {
      var p :| IsPath(g, p) && p[0] in roots && p[|p| - 1] == x;
      PathInClosed(g, roots, s, p);
    }
  }

  /**
   * When every member of mids is a child of some root, whatever mids reach
   * the roots reach too.
   */
  lemma ReachableThroughParents(g: Graph, roots: set<Id>, mids: set<Id>, x: Id)
    requires forall m :: m in mids ==> exists r :: r in roots && r in g && m in g[r]
    requires Reachable(g, mids, x)
    ensures Reachable(g, roots, x)
  {
    var p :| IsPath(g, p) && p[0] in mids && p[|p| - 1] == x;
    var r :| r in roots && r in g && p[0] in g[r];
    var q := [r] + p;
    assert q[|q| - 1] == x && q[1] == p[0];
    forall i | 1 < i < |q|
      ensures q[i] in g[q[i - 1]]
    {
      assert q[i] == p[i - 1] && q[i - 1] == p[i - 2];
    }
    assert IsPath(g, q);
  }
}
