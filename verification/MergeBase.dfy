/** Merge bases of one commit with several others. */
module MergeBase {
  import opened Digraph
  import opened History
  import opened Options
  import opened PaintDown
  import opened Redundancy

  /** What the bases of `first` and `others` must be: common ancestors without repetition, with every best
      one among them; and exactly the best ones, best first, if there is no clock skew. */
  ghost predicate AreBases(h: History, first: Oid, others: seq<Oid>, bases: seq<Oid>) {
    && Distinct(bases)
    && (forall x :: x in bases ==> CommonAncestor(h.parents, first, others, x))
    && (forall x :: BestCommonAncestor(h.parents, first, others, x) ==> x in bases)
    && (NoClockSkew(h) ==> BestFirst(h, bases))
    && (NoClockSkew(h) ==> forall x :: x in bases ==> BestCommonAncestor(h.parents, first, others, x))
  }

  /** All of `s` are best common ancestors. */
  ghost predicate AllBest(g: Graph, first: Oid, others: seq<Oid>, s: seq<Oid>) {
    forall x :: x in s ==> BestCommonAncestor(g, first, others, x)
  }

  /** Every commit of `s` that is no best common ancestor is reached from a parent of another one along first parents.
      */
  ghost predicate OthersInShadow(g: Graph, first: Oid, others: seq<Oid>, s: seq<Oid>) {
    forall x :: x in s ==> BestCommonAncestor(g, first, others, x) || InShadow(g, s, x)
  }

  /** `bases` is what was painted without all that lies on first-parent walks from there, and holds only best common
      ancestors exactly if everything else that was painted lies there. */
  ghost predicate ArePruned(g: Graph, first: Oid, others: seq<Oid>, painted: seq<Oid>, bases: Option<seq<Oid>>) {
    var kept := Without(painted, Shadow(g, painted));
    && bases == (if kept == [] then None else Some(kept))
    && (bases.Some? ==> (AllBest(g, first, others, kept) <==> OthersInShadow(g, first, others, painted)))
  }

  /** Computes the merge bases. If `first` is among the others it is the answer without a walk, present or not; the
      same holds if there are no others. With sane generation numbers the answer is what painting lists, without all
      that lies on first-parent walks from there, and holds only best common ancestors exactly if everything else that
      was painted lies there. */
  method MergeBase(first: Oid, others: seq<Oid>, graph: CommitGraph<Flags>)
    returns (bases: Option<seq<Oid>>, ghost run: seq<State>)
    requires graph.Valid() && Acyclic(graph.history.parents)
    modifies graph`data
    ensures graph.Valid()
    ensures others == [] || first in others ==> bases == Some([first])
    ensures others != [] && (first in others ==> first in graph.history.parents) ==>
              && (bases.None? <==> !exists x :: CommonAncestor(graph.history.parents, first, others, x))
              && (bases.Some? ==> AreBases(graph.history, first, others, bases.value))
    ensures others != [] && first !in others ==> WholeRun(graph.history, first, others, run)
    ensures others != [] && first !in others && GenerationsMonotone(graph.history) ==>
              ArePruned(graph.history.parents, first, others, run[|run| - 1].out, bases)
  {
    var h := graph.history;
    run := [];
    if others == [] || first in others {
      if first in others && first in h.parents { SelfIsAnswer(h, first, others); }
      return Some([first]), run;
    }
    graph.Clear(NONE);
    var kept;
    kept, run := PaintAndPrune(first, others, graph);
    bases := if kept == [] then None else Some(kept);
  }

  method PaintAndPrune(first: Oid, others: seq<Oid>, graph: CommitGraph<Flags>)
    returns (kept: seq<Oid>, ghost run: seq<State>)
    requires graph.Valid() && Acyclic(graph.history.parents) && forall x :: x in graph.data ==> graph.data[x] == NONE
    modifies graph`data
    ensures graph.Valid() && AreBases(graph.history, first, others, kept)
    ensures kept == [] <==> !exists x :: CommonAncestor(graph.history.parents, first, others, x)
    ensures WholeRun(graph.history, first, others, run)
    ensures GenerationsMonotone(graph.history) ==>
              var bases := if kept == [] then None else Some(kept);
              ArePruned(graph.history.parents, first, others, run[|run| - 1].out, bases)
  {
    var painted;
    painted, run := PaintDownToCommon(first, others, graph);
    kept := RemoveRedundant(painted, graph);
    PruningKeepsBest(graph.history, first, others, painted, kept);
    BestIffShadowed(graph.history.parents, first, others, painted);
  }

  /** Pruning leaves only best common ancestors exactly if everything else lies on a first-parent walk from a parent
      of a candidate. */
  lemma BestIffShadowed(g: Graph, first: Oid, others: seq<Oid>, painted: seq<Oid>)
    requires forall x :: x in painted ==> CommonAncestor(g, first, others, x)
    ensures AllBest(g, first, others, Without(painted, Shadow(g, painted))) <==>
      OthersInShadow(g, first, others, painted)
  {
    forall x | x in painted ensures x in Shadow(g, painted) <==> InShadow(g, painted, x) {
      if InShadow(g, painted, x) { ShadowIsBelow(g, painted, x); }
      ReachesPresent(g, first, x);
    }
    forall x | x in painted && InShadow(g, painted, x) ensures !BestCommonAncestor(g, first, others, x) {
      ShadowIsBelow(g, painted, x);
    }
  }

  /** A commit that is compared with itself is its own only best common ancestor. */
  lemma SelfIsOnlyBest(g: Graph, first: Oid, others: seq<Oid>)
    requires Acyclic(g) && first in others && first in g
    ensures CommonAncestor(g, first, others, first)
    ensures forall x :: BestCommonAncestor(g, first, others, x) <==> x == first
  {
    ReachesRefl(g, first);
    forall x | CommonAncestor(g, first, others, x) ensures x == first || StrictlyReaches(g, first, x) {
      ReachesCases(g, first, x);
    }
    forall y | CommonAncestor(g, first, others, y) ensures !StrictlyReaches(g, y, first) {
      if StrictlyReaches(g, y, first) { ReachesThenStrict(g, first, y, first); }
    }
  }

  lemma SelfIsAnswer(h: History, first: Oid, others: seq<Oid>)
    requires Acyclic(h.parents) && first in others && first in h.parents
    ensures AreBases(h, first, others, [first]) && CommonAncestor(h.parents, first, others, first)
  {
    SelfIsOnlyBest(h.parents, first, others);
  }

  lemma PruningKeepsBest(h: History, first: Oid, others: seq<Oid>, painted: seq<Oid>, kept: seq<Oid>)
    requires Acyclic(h.parents) && AreBases(h, first, others, painted)
    requires exists dropped :: dropped <= Shadow(h.parents, painted) && kept == Without(painted, dropped)
    ensures AreBases(h, first, others, kept)
    ensures kept == [] <==> !exists x :: CommonAncestor(h.parents, first, others, x)
  {
    var dropped :| dropped <= Shadow(h.parents, painted) && kept == Without(painted, dropped);
    forall x | BestCommonAncestor(h.parents, first, others, x) ensures x in kept && x !in dropped {
      if InShadow(h.parents, painted, x) { ShadowIsBelow(h.parents, painted, x); }
    }
    if NoClockSkew(h) {
      NothingDropped(painted, dropped);
    }
    if x :| CommonAncestor(h.parents, first, others, x) {
      var best := BestExists(h.parents, first, others, x);
      assert best in kept;
    }
  }

  lemma {:induction false} NothingDropped(s: seq<Oid>, drop: set<Oid>)
    requires forall x :: x in s ==> x !in drop
    ensures Without(s, drop) == s
  {
    if s != [] {
      NothingDropped(s[..|s| - 1], drop);
      assert s == s[..|s| - 1] + [s[|s| - 1]];
    }
  }

  // ----- an answer that holds a redundant commit

  /** Two merges of 4 and 2, where 2 is also the second parent of the parent of 4. By its date, 2 is newer than 4. */
  function Skewed(): History {
    History(map[6 := [4, 2], 5 := [4, 2], 4 := [3], 3 := [1, 2], 2 := [], 1 := []],
            x => if x >= 5 then 5 else if x == 2 then 4 else if x == 4 then 3 else if x == 3 then 2 else 1,
            x => None)
  }

  const FROM_FIRST := Flags(true, false, false, false)
  const FROM_OTHER := Flags(false, true, false, false)
  const FROM_BOTH := Flags(true, true, false, false)

  /** How far the painting of 6 and 5 has come. */
  ghost predicate Phase(s: State) {
    && At(s.data, 6) == FROM_FIRST && At(s.data, 5) == FROM_OTHER && At(s.data, 1) == NONE
    && (forall x :: x in s.queue ==> 2 <= x <= 6)
    && (|| Early(s) || Late(s))
  }

  /** Nothing was listed yet. */
  ghost predicate Early(s: State) {
    && s.out == [] && At(s.data, 3) == NONE && At(s.data, 4) == At(s.data, 2) && 3 !in s.queue
    && (|| (At(s.data, 4) == NONE && 6 in s.queue && 5 in s.queue && 4 !in s.queue && 2 !in s.queue)
        || (At(s.data, 4) == FROM_FIRST && 5 in s.queue)
        || (At(s.data, 4) == FROM_OTHER && 6 in s.queue)
        || (At(s.data, 4) == FROM_BOTH && 4 in s.queue && 2 in s.queue))
  }

  /** First 2 is listed, then 4. */
  ghost predicate Late(s: State) {
    && At(s.data, 2) == FROM_BOTH.(result := true)
    && (|| (At(s.data, 4) == FROM_BOTH && At(s.data, 3) == NONE && s.out == [2] && 4 in s.queue && 3 !in s.queue)
        || (&& At(s.data, 4) == FROM_BOTH.(result := true) && At(s.data, 3) == FROM_BOTH.(stale := true)
            && s.out == [2, 4]))
  }

  /** What a visit of `top` does to `x`. */
  lemma Visit(s: State, top: Oid, s': State, x: Oid)
    requires StepAt(Skewed(), s, top, s') && top in Skewed().parents
    ensures var mid, h := Visited(s.data, top), Skewed();
      && At(s'.data, x) == (if Edge(h.parents, top, x) then Union(At(mid, x), Passed(s.data[top])) else At(mid, x))
      && (x in s'.queue ==> x in s.queue || At(s'.data, x) != At(mid, x))
      && (x in s.queue && x != top ==> x in s'.queue)
      && (At(s'.data, x) != At(mid, x) ==> x in s'.queue)
      && (x in s.queue ==> AtMost(Priority(h, x), Priority(h, top)))
  {
    var h, mid, rest := Skewed(), Visited(s.data, top), s.queue - multiset{top};
    assert Received(h.parents, h.parents[top], Passed(s.data[top]), mid, s'.data, x);
    assert x in s'.queue <==> x in rest || Changed(mid, s'.data, x);
    if x in s.queue { assert AtMost(ByPriority(h)(x), ByPriority(h)(top)); }
  }

  lemma SkewedEdges(x: Oid, y: Oid)
    requires Edge(Skewed().parents, x, y)
    ensures y in {2, 3, 4} || (x == 3 && y == 1)
  {
  }

  lemma VisitAll(s: State, top: Oid, s': State)
    requires Phase(s) && StepAt(Skewed(), s, top, s')
    ensures 2 <= top <= 6 && (top != 3 ==> At(s'.data, 1) == NONE)
    ensures top != 3 ==> forall x :: x in s'.queue ==> 2 <= x <= 6
  {
    assert top in s.queue;
    Visit(s, top, s', 1);
    if Edge(Skewed().parents, top, 1) { SkewedEdges(top, 1); }
    forall x | x in s'.queue && top != 3 ensures 2 <= x <= 6 {
      Visit(s, top, s', x);
      if Edge(Skewed().parents, top, x) { SkewedEdges(top, x); }
    }
  }

  /** The commits at the top of the queue are those with the latest dates. */
  lemma TopIsNewest(s: State, top: Oid)
    requires Phase(s) && GoesOn(s) && IsTop(s.queue, ByPriority(Skewed()), top)
    ensures top in {2, 4, 5, 6}
    ensures Early(s) && top <= 4 ==> top == 2 && At(s.data, 4) == FROM_BOTH
  {
    var h := Skewed();
    forall x | x in s.queue ensures AtMost(Priority(h, x), Priority(h, top)) {
      assert AtMost(ByPriority(h)(x), ByPriority(h)(top));
    }
    var x :| x in s.queue && !At(s.data, x).stale;
  }

  lemma SeedPasses(s: State, top: Oid, x: Oid)
    requires Phase(s) && top in {5, 6} && top in s.data
    ensures Edge(Skewed().parents, top, x) <==> x in {2, 4}
    ensures Passed(s.data[top]) == if top == 6 then FROM_FIRST else FROM_OTHER
    ensures At(Visited(s.data, top), x) == At(s.data, x) && !Visited(s.data, top)[top].result
  {
    assert Skewed().parents[top] == [4, 2];
  }

  lemma SeedVisited(s: State, top: Oid, s': State, x: Oid)
    requires Phase(s) && StepAt(Skewed(), s, top, s') && top in {5, 6}
    ensures var passed := if top == 6 then FROM_FIRST else FROM_OTHER;
      At(s'.data, x) == if x in {2, 4} then Union(At(s.data, x), passed) else At(s.data, x)
    ensures x in s.queue && x != top ==> x in s'.queue
    ensures At(s'.data, x) != At(s.data, x) ==> x in s'.queue
    ensures x in s'.queue ==> x in s.queue || x in {2, 4}
    ensures s'.out == s.out
  {
    SeedPasses(s, top, x);
    Visit(s, top, s', x);
  }

  lemma SeedKeeps(s: State, top: Oid, s': State)
    requires Phase(s) && StepAt(Skewed(), s, top, s') && top in {5, 6}
    ensures At(s'.data, 5) == FROM_OTHER && At(s'.data, 6) == FROM_FIRST
    ensures Early(s) ==> Early(s')
    ensures Late(s) ==> Late(s')
  {
    SeedVisited(s, top, s', 2);
    SeedVisited(s, top, s', 3);
    SeedVisited(s, top, s', 4);
    SeedVisited(s, top, s', 5);
    SeedVisited(s, top, s', 6);
  }

  lemma TwoVisited(s: State, s': State)
    requires Phase(s) && StepAt(Skewed(), s, 2, s')
    requires Early(s) ==> At(s.data, 4) == FROM_BOTH
    ensures Late(s') && At(s'.data, 5) == FROM_OTHER && At(s'.data, 6) == FROM_FIRST
  {
    Visit(s, 2, s', 2);
    Visit(s, 2, s', 3);
    Visit(s, 2, s', 4);
    Visit(s, 2, s', 5);
    Visit(s, 2, s', 6);
  }

  lemma FourVisited(s: State, s': State)
    requires Phase(s) && Late(s) && StepAt(Skewed(), s, 4, s')
    ensures Late(s') && At(s'.data, 5) == FROM_OTHER && At(s'.data, 6) == FROM_FIRST
  {
    assert Skewed().parents[4] == [3];
    Visit(s, 4, s', 2);
    Visit(s, 4, s', 3);
    Visit(s, 4, s', 4);
    Visit(s, 4, s', 5);
    Visit(s, 4, s', 6);
  }

  lemma PhaseKept(s: State, top: Oid, s': State)
    requires Phase(s) && GoesOn(s) && StepAt(Skewed(), s, top, s')
    ensures Phase(s')
  {
    TopIsNewest(s, top);
    VisitAll(s, top, s');
    if top == 2 {
      TwoVisited(s, s');
    } else if top == 4 {
      FourVisited(s, s');
    } else {
      SeedKeeps(s, top, s');
    }
  }

  lemma PhaseBegins(s: State)
    requires SeedsOnly(Skewed().parents, 6, [5], 1, s.data, s.queue) && s.out == []
    ensures Phase(s)
  {
    var g := Skewed().parents;
    assert [5][..1] == [5];
    assert SeedAt(g, 6, [5], 1, s.data, s.queue, 1) && SeedAt(g, 6, [5], 1, s.data, s.queue, 2);
    assert SeedAt(g, 6, [5], 1, s.data, s.queue, 3) && SeedAt(g, 6, [5], 1, s.data, s.queue, 4);
    assert SeedAt(g, 6, [5], 1, s.data, s.queue, 5) && SeedAt(g, 6, [5], 1, s.data, s.queue, 6);
    forall x | x in s.queue ensures 2 <= x <= 6 { assert SeedAt(g, 6, [5], 1, s.data, s.queue, x); }
  }

  lemma PhaseNext(s: State, s': State)
    requires Phase(s) && GoesOn(s) && Step(Skewed(), s, s')
    ensures Phase(s')
  {
    var top :| StepAt(Skewed(), s, top, s');
    PhaseKept(s, top, s');
  }

  lemma {:induction false} PhaseOfRun(run: seq<State>, i: nat)
    requires Runs(Skewed(), 6, [5], run) && i < |run|
    ensures Phase(run[i])
  {
    if i == 0 {
      PhaseBegins(run[0]);
    } else {
      PhaseOfRun(run, i - 1);
      assert Follows(Skewed(), run, i - 1);
      PhaseNext(run[i - 1], run[i]);
    }
  }

  /** However ties in the queue are broken, the painting of 6 and 5 lists 2 and then 4. */
  lemma SkewedIsPainted(run: seq<State>)
    requires WholeRun(Skewed(), 6, [5], run)
    ensures run[|run| - 1].out == [2, 4]
  {
    var s := run[|run| - 1];
    PhaseOfRun(run, |run| - 1);
    assert 5 !in s.queue && 6 !in s.queue;
    assert 4 in s.queue ==> At(s.data, 4).stale;
  }

  lemma FirstParentsOfThree()
    ensures Closed(FirstParents(Skewed().parents), {1, 3})
  {
    var g := Skewed().parents;
    assert g[3] == [1, 2] && g[1] == [];
  }

  /** The walk down from 4 takes the first parent 1 of 3 and misses 2. */
  lemma SkewedIsUnshadowed(x: Oid)
    requires InShadow(Skewed().parents, [2, 4], x)
    ensures x in {1, 3}
  {
    var g := Skewed().parents;
    var c, w :| c in [2, 4] && Edge(g, c, w) && Reaches(FirstParents(g), w, x);
    assert w == 3 by { assert g[2] == [] && g[4] == [3]; }
    FirstParentsOfThree();
    ClosedContains(FirstParents(g), {1, 3}, w, x);
  }

  lemma SkewedIsUnpruned()
    ensures Without([2, 4], Shadow(Skewed().parents, [2, 4])) == [2, 4]
  {
    var g := Skewed().parents;
    forall x | x in Shadow(g, [2, 4]) ensures x in {1, 3} { SkewedIsUnshadowed(x); }
    NothingDropped([2, 4], Shadow(g, [2, 4]));
  }

  lemma SkewedIsRedundant()
    ensures Acyclic(Skewed().parents) && StrictlyReaches(Skewed().parents, 4, 2)
    ensures CommonAncestor(Skewed().parents, 6, [5], 4) && !BestCommonAncestor(Skewed().parents, 6, [5], 2)
  {
    var g, others: seq<Oid> := Skewed().parents, [5];
    DescendingIsAcyclic(g);
    assert Edge(g, 4, 3) && Edge(g, 3, 2) && Edge(g, 6, 4) && Edge(g, 5, 4) && 5 in others;
    ReachesEdge(g, 3, 2);
    ReachesEdge(g, 6, 4);
    ReachesEdge(g, 5, 4);
  }

  /** The answer can hold a commit below another one, and it comes first: `2` is an ancestor of `4`. */
  method RedundantBaseIsReturned() returns (bases: Option<seq<Oid>>)
    ensures bases == Some([2, 4]) && StrictlyReaches(Skewed().parents, 4, 2)
    ensures CommonAncestor(Skewed().parents, 6, [5], 4) && !BestCommonAncestor(Skewed().parents, 6, [5], 2)
  {
    SkewedIsRedundant();
    SkewedIsUnpruned();
    var graph := new CommitGraph<Flags>(Skewed());
    ghost var run;
    bases, run := MergeBase(6, [5], graph);
    SkewedIsPainted(run);
  }

  lemma DescendingIsAcyclic(g: Graph)
    requires forall x, y :: Edge(g, x, y) ==> y < x
    ensures Acyclic(g)
  {
    forall x ensures !StrictlyReaches(g, x, x) {
      if StrictlyReaches(g, x, x) {
        var z :| Edge(g, x, z) && Reaches(g, z, x);
        var p :| PathBetween(g, p, z, x);
        DescendingAlong(g, p);
      }
    }
  }

  lemma {:induction false} DescendingAlong(g: Graph, p: seq<Oid>)
    requires IsPath(g, p) && forall x, y :: Edge(g, x, y) ==> y < x
    ensures p[|p| - 1] <= p[0]
  {
    if |p| > 1 { DescendingAlong(g, p[1..]); }
  }
}
