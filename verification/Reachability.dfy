/** Reachability in a graph given by its successor function. */
module Reachability {
  type Graph = string -> seq<string>

  ghost predicate Path(g: Graph, p: seq<string>) {
    p != [] && forall i :: 0 <= i < |p| - 1 ==> p[i + 1] in g(p[i])
  }

  ghost predicate Reaches(g: Graph, a: string, b: string) {
    exists p :: Path(g, p) && p[0] == a && p[|p| - 1] == b
  }

  ghost predicate Closed(g: Graph, nodes: set<string>) {
    forall n <- nodes :: forall m <- g(n) :: m in nodes
  }

  lemma ReachesSelf(g: Graph, a: string)
    ensures Reaches(g, a, a)
  {
    assert Path(g, [a]);
  }

  /** From the first step of a path to the rest of it. */
  lemma ReachesAfter(g: Graph, a: string, b: string, c: string)
    requires b in g(a) && Reaches(g, b, c)
    ensures Reaches(g, a, c)
  {
    var p :| Path(g, p) && p[0] == b && p[|p| - 1] == c;
    var q := [a] + p;
    forall i | 0 <= i < |q| - 1
      ensures q[i + 1] in g(q[i])
    {
      assert q[i + 1] == p[i];
      assert i > 0 ==> q[i] == p[i - 1] && p[i - 1 + 1] in g(p[i - 1]);
    }
    assert Path(g, q) && q[0] == a && q[|q| - 1] == c;
  }

  lemma {:induction false} PathReaches(g: Graph, p: seq<string>, c: string)
    requires Path(g, p) && Reaches(g, p[|p| - 1], c)
    ensures Reaches(g, p[0], c)
    decreases |p|
  {
    if |p| > 1 {
      assert p[1] in g(p[0]);
      PathReaches(g, p[1..], c);
      ReachesAfter(g, p[0], p[1], c);
    }
  }

  lemma ReachesTransitive(g: Graph, a: string, b: string, c: string)
    requires Reaches(g, a, b) && Reaches(g, b, c)
    ensures Reaches(g, a, c)
  {
    var p :| Path(g, p) && p[0] == a && p[|p| - 1] == b;
    PathReaches(g, p, c);
  }

  lemma {:induction false} ClosedPath(g: Graph, nodes: set<string>, p: seq<string>)
    requires Closed(g, nodes) && Path(g, p) && p[0] in nodes
    ensures p[|p| - 1] in nodes
    decreases |p|
  {
    if |p| > 1 {
      assert p[1] in g(p[0]);
      ClosedPath(g, nodes, p[1..]);
    }
  }

  /** A closed set holds everything reachable from its members. */
  lemma ClosedHolds(g: Graph, nodes: set<string>, a: string, b: string)
    requires Closed(g, nodes) && a in nodes && Reaches(g, a, b)
    ensures b in nodes
  {
    var p :| Path(g, p) && p[0] == a && p[|p| - 1] == b;
    ClosedPath(g, nodes, p);
  }
}
