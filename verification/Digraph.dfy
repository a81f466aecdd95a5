/** Finite directed graphs with possibly dangling edges, paths, reachability and acyclicity.
    Commit histories, commit-graph files and tree objects are all read as such graphs. */
module Digraph {
  type Node = nat

  /** Maps each present node to its ordered edge targets; a target need not be present. */
  type Graph = map<Node, seq<Node>>

  /** An edge between two present nodes. */
  ghost predicate Edge(g: Graph, x: Node, y: Node) {
    x in g && y in g && y in g[x]
  }

  ghost predicate IsPath(g: Graph, p: seq<Node>) {
    |p| > 0 && p[0] in g && (|p| > 1 ==> Edge(g, p[0], p[1]) && IsPath(g, p[1..]))
  }

  ghost predicate PathBetween(g: Graph, p: seq<Node>, x: Node, y: Node) {
    IsPath(g, p) && p[0] == x && p[|p| - 1] == y
  }

  /** `y` is `x` or an ancestor of `x`. */
  ghost predicate Reaches(g: Graph, x: Node, y: Node) {
    exists p :: PathBetween(g, p, x, y)
  }

  /** `y` is reachable from `x` by one edge or more. */
  ghost predicate StrictlyReaches(g: Graph, x: Node, y: Node) {
    exists z :: Edge(g, x, z) && Reaches(g, z, y)
  }

  ghost predicate Acyclic(g: Graph) {
    forall x :: !StrictlyReaches(g, x, x)
  }

  ghost function Reachable(g: Graph, x: Node): set<Node> {
    set y | y in g && Reaches(g, x, y)
  }

  /** `s` contains every present target of an edge that starts in `s`. */
  ghost predicate Closed(g: Graph, s: set<Node>) {
    forall x, y :: x in s && Edge(g, x, y) ==> y in s
  }

  lemma ReachesRefl(g: Graph, x: Node)
    requires x in g
    ensures Reaches(g, x, x)
  {
    assert PathBetween(g, [x], x, x);
  }

  lemma ReachesPresent(g: Graph, x: Node, y: Node)
    requires Reaches(g, x, y)
    ensures x in g && y in g
  {
    var p :| PathBetween(g, p, x, y);
    PathNodePresent(g, p, |p| - 1);
  }

  lemma {:induction false} PathNodePresent(g: Graph, p: seq<Node>, i: nat)
    requires IsPath(g, p) && i < |p|
    ensures p[i] in g
  {
    if i > 0 { PathNodePresent(g, p[1..], i - 1); }
  }

  lemma {:induction false} PathSuffix(g: Graph, p: seq<Node>, i: nat)
    requires IsPath(g, p) && i < |p|
    ensures IsPath(g, p[i..])
  {
    if i == 0 {
      assert p[0..] == p;
    } else {
      PathSuffix(g, p[1..], i - 1);
      assert p[1..][i - 1..] == p[i..];
    }
  }

  lemma {:induction false} PathPrefix(g: Graph, p: seq<Node>, i: nat)
    requires IsPath(g, p) && 0 < i <= |p|
    ensures IsPath(g, p[..i])
  {
    if i > 1 {
      PathPrefix(g, p[1..], i - 1);
      var q := p[..i];
      assert q[1..] == p[1..][..i - 1];
      assert q[0] == p[0] && q[1] == p[1];
    }
  }

  lemma {:induction false} PathEdge(g: Graph, p: seq<Node>, i: nat)
    requires IsPath(g, p) && i + 1 < |p|
    ensures Edge(g, p[i], p[i + 1])
  {
    if i > 0 { PathEdge(g, p[1..], i - 1); }
  }

  /** Two paths that meet can be joined. */
  lemma {:induction false} PathJoin(g: Graph, p: seq<Node>, q: seq<Node>)
    requires IsPath(g, p) && IsPath(g, q) && p[|p| - 1] == q[0]
    ensures IsPath(g, p + q[1..])
  {
    if |p| == 1 {
      assert p + q[1..] == q;
    } else {
      PathJoin(g, p[1..], q);
      assert (p + q[1..])[1..] == p[1..] + q[1..];
    }
  }

  lemma PathExtend(g: Graph, p: seq<Node>, y: Node)
    requires IsPath(g, p) && Edge(g, p[|p| - 1], y)
    ensures IsPath(g, p + [y])
  {
    var step := [p[|p| - 1], y];
    assert step[1..] == [y] && IsPath(g, [y]);
    PathJoin(g, p, step);
  }

  lemma ReachesTrans(g: Graph, x: Node, y: Node, z: Node)
    requires Reaches(g, x, y) && Reaches(g, y, z)
    ensures Reaches(g, x, z)
  {
    var p :| PathBetween(g, p, x, y);
    var q :| PathBetween(g, q, y, z);
    PathJoin(g, p, q);
    assert PathBetween(g, p + q[1..], x, z);
  }

  lemma ReachesEdge(g: Graph, x: Node, y: Node)
    requires Edge(g, x, y)
    ensures Reaches(g, x, y)
  {
    assert PathBetween(g, [x, y], x, y) by { assert [x, y][1..] == [y]; }
  }

  /** Following one more edge at the far end. */
  lemma ReachesThenEdge(g: Graph, x: Node, y: Node, z: Node)
    requires Reaches(g, x, y) && Edge(g, y, z)
    ensures Reaches(g, x, z) && StrictlyReaches(g, x, z)
  {
    ReachesEdge(g, y, z);
    ReachesTrans(g, x, y, z);
    ReachesPresent(g, x, y);
    ReachesRefl(g, z);
    if x != y {
      ReachesCases(g, x, y);
      var w :| Edge(g, x, w) && Reaches(g, w, y);
      ReachesTrans(g, w, y, z);
    }
  }

  /** A node reaches itself and whatever its edge targets reach, and nothing else. */
  lemma ReachesCases(g: Graph, x: Node, y: Node)
    ensures Reaches(g, x, y) <==> (x == y && x in g) || StrictlyReaches(g, x, y)
  {
    if Reaches(g, x, y) {
      var p :| PathBetween(g, p, x, y);
      if |p| > 1 { assert PathBetween(g, p[1..], p[1], y); }
    } else if StrictlyReaches(g, x, y) {
      var z :| Edge(g, x, z) && Reaches(g, z, y);
      ReachesEdge(g, x, z);
      ReachesTrans(g, x, z, y);
    } else if x == y && x in g {
      ReachesRefl(g, x);
    }
  }

  lemma StrictThenReaches(g: Graph, x: Node, y: Node, z: Node)
    requires StrictlyReaches(g, x, y) && Reaches(g, y, z)
    ensures StrictlyReaches(g, x, z)
  {
    var w :| Edge(g, x, w) && Reaches(g, w, y);
    ReachesTrans(g, w, y, z);
  }

  lemma ReachesThenStrict(g: Graph, x: Node, y: Node, z: Node)
    requires Reaches(g, x, y) && StrictlyReaches(g, y, z)
    ensures StrictlyReaches(g, x, z)
  {
    var w :| Edge(g, y, w) && Reaches(g, w, z);
    ReachesThenEdge(g, x, y, w);
    StrictThenReaches(g, x, w, z);
  }

  /** A closed set contains everything its members reach. */
  lemma ClosedContains(g: Graph, s: set<Node>, x: Node, y: Node)
    requires Closed(g, s) && x in s && Reaches(g, x, y)
    ensures y in s
  {
    var p :| PathBetween(g, p, x, y);
    ClosedContainsPath(g, s, p);
  }

  lemma {:induction false} ClosedContainsPath(g: Graph, s: set<Node>, p: seq<Node>)
    requires Closed(g, s) && IsPath(g, p) && p[0] in s
    ensures p[|p| - 1] in s
  {
    if |p| > 1 { ClosedContainsPath(g, s, p[1..]); }
  }

  /** In an acyclic graph a node that strictly reaches another reaches strictly more. */
  lemma StrictReachableShrinks(g: Graph, x: Node, y: Node)
    requires Acyclic(g) && StrictlyReaches(g, x, y)
    ensures Reachable(g, y) < Reachable(g, x)
  {
    ReachesCases(g, x, y);
    forall z | z in Reachable(g, y) ensures z in Reachable(g, x) { ReachesTrans(g, x, y, z); }
    ReachesPresent(g, x, y);
    ReachesRefl(g, x);
    if Reaches(g, y, x) { StrictThenReaches(g, x, y, x); }
    assert x in Reachable(g, x) && x !in Reachable(g, y);
  }

  /** `m` is in `s` and no member of `s` strictly reaches it. */
  ghost predicate Maximal(g: Graph, s: set<Node>, m: Node) {
    m in s && forall y :: y in s ==> !StrictlyReaches(g, y, m)
  }

  /** In a finite acyclic graph every member of a set lies below a maximal one. */
  lemma BelowMaximal(g: Graph, s: set<Node>, x: Node) returns (m: Node)
    requires Acyclic(g) && s <= g.Keys && x in s
    ensures Maximal(g, s, m) && Reaches(g, m, x)
    decreases g.Keys - Reachable(g, x)
  {
    if y :| y in s && StrictlyReaches(g, y, x) {
      StrictReachableShrinks(g, y, x);
      assert y in g.Keys - Reachable(g, x) by {
        if Reaches(g, x, y) { StrictThenReaches(g, y, x, y); }
      }
      assert y !in g.Keys - Reachable(g, y) by { ReachesRefl(g, y); }
      m := BelowMaximal(g, s, y);
      ReachesCases(g, y, x);
      ReachesTrans(g, m, y, x);
    } else {
      m := x;
      ReachesRefl(g, x);
    }
  }

  /** In an acyclic graph no path is longer than the number of nodes. */
  lemma {:induction false} PathLength(g: Graph, p: seq<Node>)
    requires Acyclic(g) && IsPath(g, p)
    ensures |p| <= |Reachable(g, p[0])| <= |g|
  {
    CardinalityMonotone(Reachable(g, p[0]), g.Keys);
    assert p[0] in Reachable(g, p[0]) by { ReachesRefl(g, p[0]); }
    if |p| > 1 {
      PathLength(g, p[1..]);
      assert StrictlyReaches(g, p[0], p[1]) by { ReachesRefl(g, p[1]); }
      StrictReachableShrinks(g, p[0], p[1]);
      CardinalityMonotone(Reachable(g, p[1]), Reachable(g, p[0]));
    }
  }

  lemma CardinalityMonotone(a: set<Node>, b: set<Node>)
    requires a <= b
    ensures |a| <= |b|
    ensures a < b ==> |a| < |b|
  {
    assert b == a + (b - a);
  }
}
