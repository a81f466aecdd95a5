/** Pruning of merge-base candidates that lie below other candidates. */
module Redundancy {
  import opened Digraph
  import opened History
  import opened Options
  import opened PaintDown

  /** The generation by which candidates are sorted and walks are cut off. */
  function Rank(h: History, x: Oid): int {
    Priority(h, x).major
  }

  /** Generation numbers never rise towards parents, as in every intact commit-graph file. */
  ghost predicate GenerationsMonotone(h: History) {
    forall x, y :: Edge(h.parents, x, y) ==> Generation(h, y) <= Generation(h, x)
  }

  /** `x` is reached from a parent of one of `commits` by following first parents only. */
  ghost predicate InShadow(g: Graph, commits: seq<Oid>, x: Oid) {
    exists c, w :: c in commits && Edge(g, c, w) && Reaches(FirstParents(g), w, x)
  }

  ghost function Shadow(g: Graph, commits: seq<Oid>): set<Oid> {
    set x | x in g && InShadow(g, commits, x)
  }

  lemma ShadowIsBelow(g: Graph, commits: seq<Oid>, x: Oid)
    requires InShadow(g, commits, x)
    ensures exists c :: c in commits && StrictlyReaches(g, c, x)
  {
    var c, w :| c in commits && Edge(g, c, w) && Reaches(FirstParents(g), w, x);
    FirstParentsReach(g, w, x);
    assert StrictlyReaches(g, c, x);
  }

  /** The shadow holds the parents of all candidates and is closed under first parents. */
  lemma ShadowClosed(g: Graph, commits: seq<Oid>)
    ensures forall c, w :: c in commits && Edge(g, c, w) ==> w in Shadow(g, commits)
    ensures Closed(FirstParents(g), Shadow(g, commits))
  {
    forall c, w | c in commits && Edge(g, c, w) ensures w in Shadow(g, commits) {
      ReachesRefl(FirstParents(g), w);
    }
    forall x, y | x in Shadow(g, commits) && Edge(FirstParents(g), x, y) ensures y in Shadow(g, commits) {
      var c, w :| c in commits && Edge(g, c, w) && Reaches(FirstParents(g), w, x);
      ReachesThenEdge(FirstParents(g), w, x, y);
    }
  }

  // ----- the walk invariant

  ghost function Results(data: Paint): set<Oid> {
    set x | x in data && data[x].result
  }

  /** STALE commits are shadowed, and a candidate keeps its RESULT bit as long as it is not STALE. */
  ghost predicate MarksSound(shadow: set<Oid>, commits: seq<Oid>, data: Paint, count: int) {
    && (forall x :: At(data, x).stale ==> x in shadow)
    && (forall x :: At(data, x).result ==> x in commits)
    && (forall x :: x in commits && !At(data, x).stale ==> At(data, x).result)
    && count == |Results(data)|
  }

  ghost predicate FirstParentStale(g: Graph, data: Paint, x: Oid) {
    x in g ==> var p := FirstPresent(g, g[x]); p.None? || At(data, p.value).stale
  }

  /** Every STALE commit except the pending one has been visited: it lost its RESULT bit, and its first
      parent is STALE as well unless the visit was cut off because of a generation below `minGen`. */
  ghost predicate Visits(h: History, data: Paint, pending: set<Oid>, minGen: int) {
    forall x :: At(data, x).stale && x !in pending ==>
      !At(data, x).result && (FirstParentStale(h.parents, data, x) || Rank(h, x) < minGen)
  }

  /** Every parent of a candidate is STALE or still waits to be walked. */
  ghost predicate StartsCovered(g: Graph, commits: seq<Oid>, data: Paint, walk: seq<Oid>) {
    forall c, w :: c in commits && Edge(g, c, w) ==> w in walk || At(data, w).stale
  }

  /** All candidates that sort before `sorted[minPos]` are STALE. */
  ghost predicate MinGenSound(h: History, commits: seq<Oid>, sorted: seq<Oid>, data: Paint, minPos: int) {
    && multiset(sorted) == multiset(commits) && SortedBy(sorted, ByPriority(h))
    && 0 <= minPos < |sorted|
    && (forall i :: 0 <= i < minPos ==> At(data, sorted[i]).stale)
  }

  ghost function Top(stack: seq<Oid>): set<Oid> {
    if stack == [] then {} else {stack[|stack| - 1]}
  }

  ghost function NotStale(g: Graph, data: Paint): set<Oid> {
    set x | x in g && !At(data, x).stale
  }

  // ----- steps of the walk

  lemma MarkStale(shadow: set<Oid>, commits: seq<Oid>, data: Paint, count: int, x: Oid)
    requires MarksSound(shadow, commits, data, count) && x in shadow
    ensures MarksSound(shadow, commits, data[x := At(data, x).(stale := true)], count)
  {
    var new_ := data[x := At(data, x).(stale := true)];
    assert Results(new_) == Results(data);
  }

  lemma ClearResult(shadow: set<Oid>, commits: seq<Oid>, data: Paint, count: int, x: Oid)
    requires MarksSound(shadow, commits, data, count) && At(data, x).stale && At(data, x).result
    ensures MarksSound(shadow, commits, data[x := data[x].(result := false)], count - 1)
  {
    assert Results(data[x := data[x].(result := false)]) == Results(data) - {x};
  }

  /** Advancing past STALE candidates keeps every remaining one at or above the minimum. */
  method AdvanceMinGen(h: History, ghost commits: seq<Oid>, sorted: seq<Oid>, data: Paint, minPos: nat)
    returns (newPos: nat)
    requires MinGenSound(h, commits, sorted, data, minPos)
    ensures minPos <= newPos && MinGenSound(h, commits, sorted, data, newPos)
    ensures Rank(h, sorted[minPos]) <= Rank(h, sorted[newPos])
  {
    newPos := minPos;
    while newPos < |sorted| - 1 && At(data, sorted[newPos]).stale
      invariant minPos <= newPos && MinGenSound(h, commits, sorted, data, newPos)
    {
      newPos := newPos + 1;
    }
    assert newPos > minPos ==> AtMost(ByPriority(h)(sorted[minPos]), ByPriority(h)(sorted[newPos]));
  }

  lemma FirstParentEdge(g: Graph, x: Oid, y: Oid)
    ensures Edge(FirstParents(g), x, y) <==> x in g && FirstPresent(g, g[x]) == Some(y)
  {}

  /** With its RESULT bit gone, the pending commit is done once nothing below it is left to mark. */
  lemma PendingDone(h: History, data: Paint, top: Oid, minGen: int)
    requires Visits(h, data, {top}, minGen) && !At(data, top).result
    requires Rank(h, top) < minGen || FirstParentStale(h.parents, data, top)
    ensures Visits(h, data, {}, minGen)
  {}

  /** Marking the first parent passes the pending role on to it. */
  lemma PendingMoves(h: History, data: Paint, top: Oid, p: Oid, minGen: int)
    requires Visits(h, data, {top}, minGen) && !At(data, top).result && top in h.parents
    requires FirstPresent(h.parents, h.parents[top]) == Some(p)
    ensures Visits(h, data[p := At(data, p).(stale := true)], {p}, minGen)
  {
    var new_ := data[p := At(data, p).(stale := true)];
    forall x | At(new_, x).stale && x !in {p}
      ensures !At(new_, x).result && (FirstParentStale(h.parents, new_, x) || Rank(h, x) < minGen)
    {
      assert At(data, x) == At(new_, x);
      assert x != top ==> !At(data, x).result && (FirstParentStale(h.parents, data, x) || Rank(h, x) < minGen);
    }
  }

  /** Looks at parents in order until one is present, and pushes that one if it is not STALE yet. */
  method PushFirstParent(graph: CommitGraph<Flags>, parents: seq<Oid>, stack: seq<Oid>) returns (newStack: seq<Oid>)
    requires graph.Valid()
    modifies graph`data
    ensures graph.Valid()
    ensures var p, data := FirstPresent(graph.history.parents, parents), old(graph.data);
      if p.None? || At(data, p.value).stale then
        graph.data == data && newStack == stack
      else
        graph.data == data[p.value := At(data, p.value).(stale := true)] && newStack == stack + [p.value]
  {
    newStack := stack;
    for i := 0 to |parents|
      invariant graph.data == old(graph.data) && newStack == stack
      invariant FirstPresent(graph.history.parents, parents) == FirstPresent(graph.history.parents, parents[i..])
    {
      var present := graph.GetOrInsert(parents[i], NONE);
      if present {
        if !graph.data[parents[i]].stale {
          graph.data := graph.data[parents[i] := graph.data[parents[i]].(stale := true)];
          newStack := stack + [parents[i]];
        }
        break;
      }
      assert parents[i..][1..] == parents[i + 1..];
    }
  }

  /** What every walk maintains. */
  ghost predicate Walking(h: History, shadow: set<Oid>, commits: seq<Oid>, sorted: seq<Oid>, data: Paint, count: int,
                          minPos: int) {
    && MarksSound(shadow, commits, data, count)
    && MinGenSound(h, commits, sorted, data, minPos)
    && Closed(FirstParents(h.parents), shadow)
    && count >= 1
  }

  ghost predicate StaleGrows(data: Paint, new_: Paint) {
    forall x :: At(data, x).stale ==> At(new_, x).stale
  }

  /** Takes the RESULT bit from a STALE commit and raises the minimum generation if it was the minimum. */
  method DropResult(graph: CommitGraph<Flags>, ghost shadow: set<Oid>, ghost commits: seq<Oid>, sorted: seq<Oid>,
                    count: nat, minPos: nat, top: Oid) returns (newCount: nat, newPos: nat)
    requires graph.Valid() && top in graph.data && graph.data[top].stale && count > 1
    requires Walking(graph.history, shadow, commits, sorted, graph.data, count, minPos)
    requires Visits(graph.history, graph.data, {top}, Rank(graph.history, sorted[minPos]))
    modifies graph`data
    ensures graph.Valid() && graph.data == old(graph.data)[top := old(graph.data)[top].(result := false)]
    ensures Walking(graph.history, shadow, commits, sorted, graph.data, newCount, newPos)
    ensures Visits(graph.history, graph.data, {top}, Rank(graph.history, sorted[newPos]))
  {
    ghost var data := graph.data;
    newCount, newPos := count, minPos;
    if graph.data[top].result {
      ClearResult(shadow, commits, data, count, top);
      graph.data := graph.data[top := graph.data[top].(result := false)];
      newCount := count - 1;
      if newCount > 1 && top == sorted[minPos] {
        newPos := AdvanceMinGen(graph.history, commits, sorted, graph.data, minPos);
      }
    }
    assert graph.data == data[top := data[top].(result := false)];
    VisitsAfterDrop(graph.history, data, top, Rank(graph.history, sorted[minPos]),
                    Rank(graph.history, sorted[newPos]));
  }

  lemma VisitsAfterDrop(h: History, data: Paint, top: Oid, minGen: int, newMin: int)
    requires top in data && minGen <= newMin && Visits(h, data, {top}, minGen)
    ensures Visits(h, data[top := data[top].(result := false)], {top}, newMin)
  {
  }

  ghost predicate OnStack(shadow: set<Oid>, data: Paint, stack: seq<Oid>) {
    forall x :: x in stack ==> x in data && data[x].stale && x in shadow
  }

  lemma DropKeepsStale(g: Graph, shadow: set<Oid>, data: Paint, stack: seq<Oid>, top: Oid)
    requires top in data && OnStack(shadow, data, stack)
    ensures var new_ := data[top := data[top].(result := false)];
      StaleGrows(data, new_) && NotStale(g, new_) == NotStale(g, data) && OnStack(shadow, new_, stack)
  {}

  lemma PushKeepsStale(g: Graph, shadow: set<Oid>, data: Paint, stack: seq<Oid>, p: Oid)
    requires p in shadow && p in g && !At(data, p).stale && OnStack(shadow, data, stack)
    ensures var new_ := data[p := At(data, p).(stale := true)];
      StaleGrows(data, new_) && NotStale(g, new_) < NotStale(g, data) && OnStack(shadow, new_, stack + [p])
  {
    assert p in NotStale(g, data);
  }

  lemma StaleGrowsTrans(a: Paint, b: Paint, c: Paint)
    requires StaleGrows(a, b) && StaleGrows(b, c)
    ensures StaleGrows(a, c)
  {}

  /** After the top of the stack lost its RESULT bit: pops it, or pushes its first parent. */
  method Descend(graph: CommitGraph<Flags>, ghost shadow: set<Oid>, ghost commits: seq<Oid>, sorted: seq<Oid>,
                 ghost count: nat, minPos: nat, stack: seq<Oid>) returns (newStack: seq<Oid>)
    requires graph.Valid() && stack != [] && OnStack(shadow, graph.data, stack)
    requires Walking(graph.history, shadow, commits, sorted, graph.data, count, minPos)
    requires Visits(graph.history, graph.data, Top(stack), Rank(graph.history, sorted[minPos]))
    requires !At(graph.data, stack[|stack| - 1]).result
    modifies graph`data
    ensures graph.Valid() && old(graph.data.Keys) <= graph.data.Keys && OnStack(shadow, graph.data, newStack)
    ensures Walking(graph.history, shadow, commits, sorted, graph.data, count, minPos)
    ensures Visits(graph.history, graph.data, Top(newStack), Rank(graph.history, sorted[minPos]))
    ensures StaleGrows(old(graph.data), graph.data)
    ensures var before := old(NotStale(graph.history.parents, graph.data));
      var after := NotStale(graph.history.parents, graph.data);
      after < before || (after == before && |newStack| < |stack|)
  {
    var h := graph.history;
    ghost var data, minGen := graph.data, Rank(h, sorted[minPos]);
    var top := stack[|stack| - 1];
    if Rank(h, top) < Rank(h, sorted[minPos]) {
      PendingDone(h, data, top, minGen);
      return stack[..|stack| - 1];
    }
    newStack := PushFirstParent(graph, h.parents[top], stack);
    if |newStack| == |stack| {
      PendingDone(h, data, top, minGen);
      newStack := stack[..|stack| - 1];
    } else {
      ghost var p := newStack[|stack|];
      FirstParentEdge(h.parents, top, p);
      MarkStale(shadow, commits, data, count, p);
      PendingMoves(h, data, top, p, minGen);
      PushKeepsStale(h.parents, shadow, data, stack, p);
    }
  }

  /** Follows first parents from `start`; stops early once a single candidate is left. */
  method WalkFrom(start: Oid, graph: CommitGraph<Flags>, ghost shadow: set<Oid>, ghost commits: seq<Oid>,
                  sorted: seq<Oid>,
                  count: nat, minPos: nat) returns (newCount: nat, newPos: nat)
    requires graph.Valid() && start in graph.data && start in shadow && count > 1
    requires Walking(graph.history, shadow, commits, sorted, graph.data, count, minPos)
    requires Visits(graph.history, graph.data, {}, Rank(graph.history, sorted[minPos]))
    modifies graph`data
    ensures graph.Valid() && old(graph.data.Keys) <= graph.data.Keys
    ensures Walking(graph.history, shadow, commits, sorted, graph.data, newCount, newPos)
    ensures newCount > 1 ==> Visits(graph.history, graph.data, {}, Rank(graph.history, sorted[newPos]))
    ensures StaleGrows(old(graph.data), graph.data) && At(graph.data, start).stale
  {
    var h := graph.history;
    newCount, newPos := count, minPos;
    MarkStale(shadow, commits, graph.data, count, start);
    graph.data := graph.data[start := graph.data[start].(stale := true)];
    var stack := [start];
    while stack != []
      invariant graph.Valid() && old(graph.data.Keys) <= graph.data.Keys && OnStack(shadow, graph.data, stack)
      invariant newCount > 1 && Walking(h, shadow, commits, sorted, graph.data, newCount, newPos)
      invariant Visits(h, graph.data, Top(stack), Rank(h, sorted[newPos]))
      invariant StaleGrows(old(graph.data), graph.data) && At(graph.data, start).stale
      decreases NotStale(h.parents, graph.data), |stack|
    {
      var top := stack[|stack| - 1];
      ghost var data := graph.data;
      newCount, newPos := DropResult(graph, shadow, commits, sorted, newCount, newPos, top);
      DropKeepsStale(h.parents, shadow, data, stack, top);
      StaleGrowsTrans(old(graph.data), data, graph.data);
      if newCount <= 1 { break; }
      data := graph.data;
      stack := Descend(graph, shadow, commits, sorted, newCount, newPos, stack);
      StaleGrowsTrans(old(graph.data), data, graph.data);
    }
  }

  // ----- preparation

  /** Exactly the commits in `done` are marked RESULT, and exactly those in `walk` are marked STALE. */
  ghost predicate Marked(data: Paint, done: seq<Oid>, walk: seq<Oid>) {
    forall x :: At(data, x) == Flags(false, false, x in walk, x in done)
  }

  ghost predicate Starts(g: Graph, commits: seq<Oid>, walk: seq<Oid>) {
    && (forall c, w :: c in commits && Edge(g, c, w) ==> w in walk)
    && (forall w :: w in walk ==> exists c :: c in commits && Edge(g, c, w))
  }

  /** Adds the present parents of a candidate to the walk, using STALE to add each only once. */
  method AddStarts(graph: CommitGraph<Flags>, parents: seq<Oid>, ghost done: seq<Oid>,
                   walk: seq<Oid>) returns (newWalk: seq<Oid>)
    requires graph.Valid() && Marked(graph.data, done, walk)
    modifies graph`data
    ensures graph.Valid() && old(graph.data.Keys) <= graph.data.Keys && Marked(graph.data, done, newWalk)
    ensures forall w :: w in newWalk <==> w in walk || (w in parents && w in graph.history.parents)
  {
    newWalk := walk;
    for i := 0 to |parents|
      invariant graph.Valid() && old(graph.data.Keys) <= graph.data.Keys && Marked(graph.data, done, newWalk)
      invariant forall w :: w in newWalk <==> w in walk || (w in parents[..i] && w in graph.history.parents)
    {
      var parent := parents[i];
      ghost var data := graph.data;
      var present := graph.GetOrInsert(parent, NONE);
      if present && !graph.data[parent].stale {
        graph.data := graph.data[parent := graph.data[parent].(stale := true)];
        newWalk := newWalk + [parent];
      }
      assert forall x :: x in parents[..i + 1] <==> x in parents[..i] || x == parent;
    }
    assert parents[..|parents|] == parents;
  }

  method MarkCandidates(graph: CommitGraph<Flags>, commits: seq<Oid>) returns (walk: seq<Oid>)
    requires graph.Valid() && Marked(graph.data, [], [])
    requires forall x :: x in commits ==> x in graph.data
    modifies graph`data
    ensures graph.Valid() && old(graph.data.Keys) <= graph.data.Keys && Marked(graph.data, commits, walk)
    ensures Starts(graph.history.parents, commits, walk)
  {
    var g := graph.history.parents;
    walk := [];
    for i := 0 to |commits|
      invariant graph.Valid() && old(graph.data.Keys) <= graph.data.Keys && Marked(graph.data, commits[..i], walk)
      invariant Starts(g, commits[..i], walk)
    {
      var id := commits[i];
      ghost var walkBefore := walk;
      graph.data := graph.data[id := graph.data[id].(result := true)];
      assert commits[..i + 1] == commits[..i] + [id];
      assert Marked(graph.data, commits[..i + 1], walk);
      walk := AddStarts(graph, g[id], commits[..i + 1], walk);
      StartsGrow(g, commits[..i], id, walkBefore, walk);
    }
    assert commits[..|commits|] == commits;
  }

  lemma StartsGrow(g: Graph, commits: seq<Oid>, id: Oid, walk: seq<Oid>, newWalk: seq<Oid>)
    requires Starts(g, commits, walk) && id in g
    requires forall w :: w in newWalk <==> w in walk || (w in g[id] && w in g)
    ensures Starts(g, commits + [id], newWalk)
  {
    forall w | w in newWalk ensures exists c :: c in commits + [id] && Edge(g, c, w) {
      if w in walk {
        var c :| c in commits && Edge(g, c, w);
        assert c in commits + [id];
      } else {
        assert id in commits + [id] && Edge(g, id, w);
      }
    }
  }

  /** Clears the STALE marks again so that the walks start from a clean slate. */
  method UnmarkStarts(graph: CommitGraph<Flags>, ghost commits: seq<Oid>, walk: seq<Oid>)
    requires graph.Valid() && Marked(graph.data, commits, walk)
    modifies graph`data
    ensures graph.Valid() && graph.data.Keys == old(graph.data.Keys) && Marked(graph.data, commits, [])
  {
    for i := 0 to |walk|
      invariant graph.Valid() && graph.data.Keys == old(graph.data.Keys)
      invariant forall x :: At(graph.data, x).stale ==> x in walk[i..]
      invariant forall x :: At(graph.data, x).(stale := false) == Flags(false, false, false, x in commits)
    {
      assert At(old(graph.data), walk[i]).stale;
      ghost var data := graph.data;
      graph.data := graph.data[walk[i] := graph.data[walk[i]].(stale := false)];
      forall x | At(graph.data, x).stale ensures x in walk[i + 1..] {
        assert At(data, x).stale;
        assert x in walk[i..] && x != walk[i];
      }
    }
  }

  // ----- the result

  /** `s` without the members of `drop`. */
  function Without(s: seq<Oid>, drop: set<Oid>): (r: seq<Oid>)
    ensures forall x :: x in r <==> x in s && x !in drop
    ensures Distinct(s) ==> Distinct(r)
  {
    if s == [] then [] else
      var front := Without(s[..|s| - 1], drop);
      if s[|s| - 1] in drop then front else front + [s[|s| - 1]]
  }

  ghost function StaleOf(commits: seq<Oid>, data: Paint): set<Oid> {
    set x | x in commits && At(data, x).stale
  }

  method KeepNotStale(commits: seq<Oid>, data: Paint) returns (out: seq<Oid>)
    ensures out == Without(commits, StaleOf(commits, data))
  {
    out := [];
    ghost var stale := StaleOf(commits, data);
    for i := 0 to |commits|
      invariant out == Without(commits[..i], stale)
    {
      assert commits[..i + 1][..i] == commits[..i];
      if !At(data, commits[i]).stale {
        out := out + [commits[i]];
      }
    }
    assert commits[..|commits|] == commits;
  }

  /** If all walks ran to their end, every shadowed candidate is STALE. */
  lemma {:induction false} WalksReach(h: History, commits: seq<Oid>, sorted: seq<Oid>, data: Paint, minPos: int,
                                      p: seq<Oid>)
    requires GenerationsMonotone(h) && MinGenSound(h, commits, sorted, data, minPos)
    requires Visits(h, data, {}, Rank(h, sorted[minPos]))
    requires IsPath(FirstParents(h.parents), p) && p[|p| - 1] in commits && At(data, p[0]).stale
    ensures At(data, p[|p| - 1]).stale
  {
    if |p| > 1 {
      FirstParentEdge(h.parents, p[0], p[1]);
      if At(data, p[1]).stale {
        WalksReach(h, commits, sorted, data, minPos, p[1..]);
      } else {
        FirstParentsPath(h.parents, p);
        GenerationDrops(h, p);
        BelowMinIsStale(h, commits, sorted, data, minPos, p[|p| - 1]);
      }
    }
  }

  lemma {:induction false} GenerationDrops(h: History, p: seq<Oid>)
    requires GenerationsMonotone(h) && IsPath(h.parents, p)
    ensures Rank(h, p[|p| - 1]) <= Rank(h, p[0])
  {
    if |p| > 1 { GenerationDrops(h, p[1..]); }
  }

  lemma BelowMinIsStale(h: History, commits: seq<Oid>, sorted: seq<Oid>, data: Paint, minPos: int, x: Oid)
    requires MinGenSound(h, commits, sorted, data, minPos)
    requires x in commits && Rank(h, x) < Rank(h, sorted[minPos])
    ensures At(data, x).stale
  {
    assert forall j :: minPos < j < |sorted| ==> AtMost(ByPriority(h)(sorted[minPos]), ByPriority(h)(sorted[j]));
    assert x in multiset(sorted);
  }

  lemma AllWalked(h: History, commits: seq<Oid>, sorted: seq<Oid>, data: Paint, minPos: int, x: Oid)
    requires GenerationsMonotone(h) && MinGenSound(h, commits, sorted, data, minPos)
    requires Visits(h, data, {}, Rank(h, sorted[minPos])) && StartsCovered(h.parents, commits, data, [])
    requires x in commits && InShadow(h.parents, commits, x)
    ensures At(data, x).stale
  {
    var c, w :| c in commits && Edge(h.parents, c, w) && Reaches(FirstParents(h.parents), w, x);
    var p :| PathBetween(FirstParents(h.parents), p, w, x);
    WalksReach(h, commits, sorted, data, minPos, p);
  }

  /** If the walks stopped early, the one candidate left is the only one outside of the shadow. */
  lemma OneLeft(g: Graph, commits: seq<Oid>, data: Paint, count: int, x: Oid)
    requires Acyclic(g) && MarksSound(Shadow(g, commits), commits, data, count) && count <= 1
    requires x in commits && InShadow(g, commits, x) && forall c :: c in commits ==> c in g
    ensures At(data, x).stale
  {
    var all := set c | c in commits;
    ShadowIsBelow(g, commits, x);
    var m := BelowMaximal(g, all, x);
    assert !InShadow(g, commits, m) by {
      if InShadow(g, commits, m) { ShadowIsBelow(g, commits, m); }
    }
    assert m in Results(data);
    if x in Results(data) {
      assert {m, x} <= Results(data);
      CardinalityMonotone({m, x}, Results(data));
    }
  }

  /** Candidates kept by an early or a complete end of the walks. */
  ghost predicate WalksDone(h: History, commits: seq<Oid>, sorted: seq<Oid>, data: Paint, count: int, minPos: int) {
    && Walking(h, Shadow(h.parents, commits), commits, sorted, data, count, minPos)
    && (count > 1 ==> Visits(h, data, {}, Rank(h, sorted[minPos])) && StartsCovered(h.parents, commits, data, []))
  }

  lemma StaleIsShadow(h: History, commits: seq<Oid>, sorted: seq<Oid>, data: Paint, count: int, minPos: int)
    requires Acyclic(h.parents) && GenerationsMonotone(h)
    requires WalksDone(h, commits, sorted, data, count, minPos) && forall c :: c in commits ==> c in h.parents
    ensures forall x :: x in commits ==> (At(data, x).stale <==> x in Shadow(h.parents, commits))
  {
    forall x | x in commits && x in Shadow(h.parents, commits) ensures At(data, x).stale {
      if count > 1 {
        AllWalked(h, commits, sorted, data, minPos, x);
      } else {
        OneLeft(h.parents, commits, data, count, x);
      }
    }
  }

  /** Walks from all starts, last one first, as long as more than one candidate is left. */
  method Walks(graph: CommitGraph<Flags>, ghost shadow: set<Oid>, commits: seq<Oid>, starts: seq<Oid>)
    returns (sorted: seq<Oid>, count: nat, minPos: nat)
    requires graph.Valid() && commits != []
    requires Ready(graph.history, shadow, commits, graph.data, starts)
    requires forall x :: x in starts ==> x in graph.data
    modifies graph`data
    ensures graph.Valid()
    ensures Walking(graph.history, shadow, commits, sorted, graph.data, count, minPos)
    ensures count > 1 ==> Visits(graph.history, graph.data, {}, Rank(graph.history, sorted[minPos]))
    ensures count > 1 ==> StartsCovered(graph.history.parents, commits, graph.data, [])
  {
    var h := graph.history;
    sorted := Sort(commits, ByPriority(h));
    assert |sorted| == |multiset(commits)| == |commits|;
    count, minPos := |commits|, 0;
    var walk := starts;
    while walk != [] && count > 1
      invariant graph.Valid() && old(graph.data.Keys) <= graph.data.Keys
      invariant forall x :: x in walk ==> x in shadow && x in graph.data
      invariant Walking(h, shadow, commits, sorted, graph.data, count, minPos)
      invariant StartsCovered(h.parents, commits, graph.data, walk)
      invariant count > 1 ==> Visits(h, graph.data, {}, Rank(h, sorted[minPos]))
    {
      ghost var data, before := graph.data, walk;
      var start := walk[|walk| - 1];
      walk := walk[..|walk| - 1];
      count, minPos := WalkFrom(start, graph, shadow, commits, sorted, count, minPos);
      CoveredAfterWalk(h.parents, commits, data, before, graph.data);
    }
  }

  lemma CoveredAfterWalk(g: Graph, commits: seq<Oid>, data: Paint, walk: seq<Oid>, new_: Paint)
    requires walk != [] && StartsCovered(g, commits, data, walk)
    requires StaleGrows(data, new_) && At(new_, walk[|walk| - 1]).stale
    ensures StartsCovered(g, commits, new_, walk[..|walk| - 1])
  {
  }

  /** The state in which the walks begin: no STALE bit anywhere. */
  ghost predicate Ready(h: History, shadow: set<Oid>, commits: seq<Oid>, data: Paint, starts: seq<Oid>) {
    && Closed(FirstParents(h.parents), shadow)
    && (forall x :: x in starts ==> x in shadow)
    && MarksSound(shadow, commits, data, |commits|)
    && StartsCovered(h.parents, commits, data, starts)
    && (forall x :: !At(data, x).stale)
  }

  lemma InitialMarks(h: History, commits: seq<Oid>, data: Paint, starts: seq<Oid>)
    requires Distinct(commits) && Marked(data, commits, []) && Starts(h.parents, commits, starts)
    ensures Ready(h, Shadow(h.parents, commits), commits, data, starts)
  {
    ShadowClosed(h.parents, commits);
    forall x ensures x in Results(data) <==> x in commits {
      assert At(data, x).result <==> x in commits;
    }
    assert Results(data) == Elements(commits);
    DistinctCount(commits);
  }

  ghost function Elements(s: seq<Oid>): set<Oid> {
    set x | x in s
  }

  lemma {:induction false} DistinctCount(s: seq<Oid>)
    requires Distinct(s)
    ensures |Elements(s)| == |s|
  {
    if s != [] {
      var front, last := s[..|s| - 1], s[|s| - 1];
      DistinctCount(front);
      assert last !in front;
      assert Elements(s) == Elements(front) + {last};
    }
  }

  /** Marks all candidates RESULT and collects their present parents, sorted by id. */
  method Prepare(graph: CommitGraph<Flags>, commits: seq<Oid>) returns (starts: seq<Oid>)
    requires graph.Valid() && Distinct(commits) && forall x :: x in commits ==> x in graph.data
    modifies graph`data
    ensures graph.Valid()
    ensures forall x :: x in starts ==> x in graph.data
    ensures Ready(graph.history, Shadow(graph.history.parents, commits), commits, graph.data, starts)
  {
    graph.Clear(NONE);
    starts := MarkCandidates(graph, commits);
    assert forall x :: x in starts ==> At(graph.data, x).stale;
    UnmarkStarts(graph, commits, starts);
    starts := Sort(starts, (x: Oid) => Key(x, 0));
    InitialMarks(graph.history, commits, graph.data, starts);
  }

  /** Whatever is dropped from the shadow, each dropped candidate lies below one that is kept. */
  lemma DroppedLieBelowKept(g: Graph, commits: seq<Oid>, dropped: set<Oid>, x: Oid) returns (k: Oid)
    requires Acyclic(g) && forall c :: c in commits ==> c in g
    requires dropped <= Shadow(g, commits) && x in commits && x in dropped
    ensures k in Without(commits, dropped) && StrictlyReaches(g, k, x)
  {
    ShadowIsBelow(g, commits, x);
    var c :| c in commits && StrictlyReaches(g, c, x);
    k := BelowMaximal(g, Elements(commits), c);
    ReachesThenStrict(g, k, c, x);
    if InShadow(g, commits, k) { ShadowIsBelow(g, commits, k); }
  }

  /** Each candidate is kept, or lies below one that is kept. */
  ghost predicate KeptOrBelow(g: Graph, commits: seq<Oid>, out: seq<Oid>) {
    && (forall x :: x in commits && x !in out ==> exists k :: k in out && StrictlyReaches(g, k, x))
    && (commits != [] ==> out != [])
  }

  lemma DroppingKeeps(g: Graph, commits: seq<Oid>, dropped: set<Oid>)
    requires Acyclic(g) && (forall c :: c in commits ==> c in g) && dropped <= Shadow(g, commits)
    ensures KeptOrBelow(g, commits, Without(commits, dropped))
  {
    var out := Without(commits, dropped);
    forall x | x in commits && x !in out ensures exists k :: k in out && StrictlyReaches(g, k, x) {
      var k := DroppedLieBelowKept(g, commits, dropped, x);
    }
    if commits != [] {
      assert commits[0] in commits;
    }
  }

  /** Drops only candidates that lie below another one, and, if there is no cycle, below one that is kept. Only first
      parents are followed, so exactly the candidates in the shadow are dropped if generation numbers are sane. */
  method RemoveRedundant(commits: seq<Oid>, graph: CommitGraph<Flags>) returns (out: seq<Oid>)
    requires graph.Valid() && Distinct(commits) && forall x :: x in commits ==> x in graph.data
    modifies graph`data
    ensures graph.Valid()
    ensures exists dropped :: dropped <= Shadow(graph.history.parents, commits) && out == Without(commits, dropped)
    ensures Acyclic(graph.history.parents) ==> KeptOrBelow(graph.history.parents, commits, out)
    ensures Acyclic(graph.history.parents) && GenerationsMonotone(graph.history) ==>
              out == Without(commits, Shadow(graph.history.parents, commits))
  {
    if commits == [] {
      out := [];
      assert out == Without(commits, {});
      return;
    }
    var starts := Prepare(graph, commits);
    var sorted, count, minPos := Walks(graph, Shadow(graph.history.parents, commits), commits, starts);
    out := KeepNotStale(commits, graph.data);
    KeptAreNotStale(graph.history, commits, sorted, graph.data, count, minPos);
    if Acyclic(graph.history.parents) {
      DroppingKeeps(graph.history.parents, commits, StaleOf(commits, graph.data));
    }
  }

  lemma KeptAreNotStale(h: History, commits: seq<Oid>, sorted: seq<Oid>, data: Paint, count: int, minPos: int)
    requires WalksDone(h, commits, sorted, data, count, minPos) && forall c :: c in commits ==> c in h.parents
    ensures StaleOf(commits, data) <= Shadow(h.parents, commits)
    ensures Acyclic(h.parents) && GenerationsMonotone(h) ==>
              Without(commits, StaleOf(commits, data)) == Without(commits, Shadow(h.parents, commits))
  {
    if Acyclic(h.parents) && GenerationsMonotone(h) {
      StaleIsShadow(h, commits, sorted, data, count, minPos);
      WithoutSame(commits, StaleOf(commits, data), Shadow(h.parents, commits));
    }
  }

  lemma {:induction false} WithoutSame(s: seq<Oid>, a: set<Oid>, b: set<Oid>)
    requires forall x :: x in s ==> (x in a <==> x in b)
    ensures Without(s, a) == Without(s, b)
  {
    if s != [] { WithoutSame(s[..|s| - 1], a, b); }
  }
}
