/** Paths in a directed graph given by its edge relation. */
module Reachability {

  /** Every consecutive pair of nodes of `path` is an edge. */
  ghost predicate IsWalk<T(!new)>(edge: (T, T) -> bool, path: seq<T>) {
    forall i :: 0 <= i < |path| - 1 ==> edge(path[i], path[i + 1])
  }

  ghost predicate IsPath<T(!new)>(edge: (T, T) -> bool, from: T, to: T, path: seq<T>) {
    && |path| > 0
    && path[0] == from
    && path[|path| - 1] == to
    && IsWalk(edge, path)
  }

  ghost predicate Reaches<T(!new)>(edge: (T, T) -> bool, from: T, to: T) {
    exists path :: IsPath(edge, from, to, path)
  }

  lemma ReachesItself<T(!new)>(edge: (T, T) -> bool, x: T)
    ensures Reaches(edge, x, x)
  {
    assert IsPath(edge, x, x, [x]);
  }

  lemma Prepend<T(!new)>(edge: (T, T) -> bool, x: T, y: T, z: T)
    requires edge(x, y) && Reaches(edge, y, z)
    ensures Reaches(edge, x, z)
  {
    var path :| IsPath(edge, y, z, path);
    var longer := [x] + path;
    forall i | 0 <= i < |longer| - 1
      ensures edge(longer[i], longer[i + 1])
    {
      if i > 0 {
        assert longer[i] == path[i - 1] && longer[i + 1] == path[i];
      }
    }
    assert IsPath(edge, x, z, longer);
  }

  /** A path that starts in a set closed under the edges never leaves it. */
  lemma {:induction false} ClosedSetKeepsPath<T(!new)>(edge: (T, T) -> bool, closed: set<T>, path: seq<T>, k: nat)
    requires IsWalk(edge, path) && k < |path| && path[0] in closed
    requires forall x, y :: x in closed && edge(x, y) ==> y in closed
    ensures path[k] in closed
  {
    if k > 0 {
      ClosedSetKeepsPath(edge, closed, path, k - 1);
      assert edge(path[k - 1], path[k - 1 + 1]);
    }
  }

  lemma ClosedSetHoldsReached<T(!new)>(edge: (T, T) -> bool, closed: set<T>, from: T, to: T)
    requires from in closed && Reaches(edge, from, to)
    requires forall x, y :: x in closed && edge(x, y) ==> y in closed
    ensures to in closed
  {
    var path :| IsPath(edge, from, to, path);
    ClosedSetKeepsPath(edge, closed, path, |path| - 1);
  }
}
