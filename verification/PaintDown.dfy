/** The first half of the merge-base search: painting the history down from both sides. */
module PaintDown {
  import opened Digraph
  import opened History
  import opened Options

  /** The bits of the painting: reachable from the first commit, reachable from another one,
      below a result, and listed as a result. */
  datatype Flags = Flags(commit1: bool, commit2: bool, stale: bool, result: bool)

  const NONE := Flags(false, false, false, false)

  type Paint = map<Oid, Flags>

  function Union(a: Flags, b: Flags): Flags {
    Flags(a.commit1 || b.commit1, a.commit2 || b.commit2, a.stale || b.stale, a.result || b.result)
  }

  predicate Contains(a: Flags, b: Flags) {
    Union(a, b) == a
  }

  function At(data: Paint, x: Oid): Flags {
    if x in data then data[x] else NONE
  }

  /** Queue order: generation first, then commit time. */
  function Priority(h: History, x: Oid): Key {
    var g := h.generation(x);
    Key(if g.Some? then g.value else GENERATION_NUMBER_INFINITY, h.time(x))
  }

  function ByPriority(h: History): Oid -> Key {
    (x: Oid) => Priority(h, x)
  }

  /** The generation number of a commit. Without one, it counts as younger than all that have one. */
  ghost function Generation(h: History, x: Oid): nat {
    if h.generation(x).Some? then h.generation(x).value else 0xffff_ffff
  }

  /** `y` has a lower generation than `x`, or the same one and an earlier date. */
  ghost predicate Older(h: History, y: Oid, x: Oid) {
    Generation(h, y) < Generation(h, x) || (Generation(h, y) == Generation(h, x) && h.time(y) < h.time(x))
  }

  /** Every parent is older than its child. */
  ghost predicate NoClockSkew(h: History) {
    forall x, y :: Edge(h.parents, x, y) ==> Older(h, y, x)
  }

  /** The queue goes by age. */
  lemma OlderIsBelow(h: History, y: Oid, x: Oid)
    ensures Older(h, y, x) <==> Below(Priority(h, y), Priority(h, x))
    ensures AtMost(Priority(h, y), Priority(h, x)) <==> !Older(h, x, y)
  {
  }

  // ----- what merge bases are

  ghost predicate FromOthers(g: Graph, others: seq<Oid>, x: Oid) {
    exists o :: o in others && Reaches(g, o, x)
  }

  ghost predicate CommonAncestor(g: Graph, first: Oid, others: seq<Oid>, x: Oid) {
    Reaches(g, first, x) && FromOthers(g, others, x)
  }

  /** `x` lies strictly below a common ancestor. */
  ghost predicate Shadowed(g: Graph, first: Oid, others: seq<Oid>, x: Oid) {
    exists y :: CommonAncestor(g, first, others, y) && StrictlyReaches(g, y, x)
  }

  ghost predicate BestCommonAncestor(g: Graph, first: Oid, others: seq<Oid>, x: Oid) {
    CommonAncestor(g, first, others, x) && !Shadowed(g, first, others, x)
  }

  ghost predicate Distinct(s: seq<Oid>) {
    forall i, j :: 0 <= i < j < |s| ==> s[i] != s[j]
  }

  /** Best first: no commit is older than one after it. */
  ghost predicate BestFirst(h: History, s: seq<Oid>) {
    forall i, j :: 0 <= i < j < |s| ==> !Older(h, s[i], s[j])
  }

  lemma ShadowedDown(g: Graph, first: Oid, others: seq<Oid>, x: Oid, y: Oid)
    requires Shadowed(g, first, others, x) && Reaches(g, x, y)
    ensures Shadowed(g, first, others, y)
  {
    var c :| CommonAncestor(g, first, others, c) && StrictlyReaches(g, c, x);
    StrictThenReaches(g, c, x, y);
  }

  /** Every common ancestor lies at or below a best one. */
  lemma BestExists(g: Graph, first: Oid, others: seq<Oid>, x: Oid) returns (best: Oid)
    requires Acyclic(g) && CommonAncestor(g, first, others, x)
    ensures BestCommonAncestor(g, first, others, best) && Reaches(g, best, x)
  {
    var all := set y | y in g && CommonAncestor(g, first, others, y);
    ReachesPresent(g, first, x);
    best := BelowMaximal(g, all, x);
    forall y | CommonAncestor(g, first, others, y) ensures !StrictlyReaches(g, y, best) {
      ReachesPresent(g, first, y);
      assert y in all;
    }
  }

  // ----- the painting invariant

  /** What a visited commit hands to its parents: its colors, and STALE once it has both. */
  function Passed(f: Flags): Flags {
    Flags(f.commit1, f.commit2, f.stale || (f.commit1 && f.commit2), false)
  }

  /** Every bit means what its name says. */
  ghost predicate Sound(g: Graph, first: Oid, others: seq<Oid>, data: Paint) {
    forall x :: x in data ==> SoundFlags(g, first, others, x, data[x])
  }

  ghost predicate SoundFlags(g: Graph, first: Oid, others: seq<Oid>, x: Oid, f: Flags) {
    && (f.commit1 ==> Reaches(g, first, x))
    && (f.commit2 ==> FromOthers(g, others, x))
    && (f.stale ==> Shadowed(g, first, others, x))
    && (f.result ==> f.commit1 && f.commit2)
  }

  /** The parents of `x` have received everything `x` has to hand down. */
  ghost predicate Settled(g: Graph, data: Paint, x: Oid) {
    && (forall p :: Edge(g, x, p) ==> Contains(At(data, p), Passed(At(data, x))))
    && (At(data, x).commit1 && At(data, x).commit2 && !At(data, x).stale ==> At(data, x).result)
  }

  /** Only queued commits may be unsettled. */
  ghost predicate Frontier(g: Graph, data: Paint, queue: multiset<Oid>) {
    && (forall x :: x in queue ==> x in data)
    && (forall x :: x in data && x !in queue ==> Settled(g, data, x))
  }

  ghost predicate Seeded(g: Graph, first: Oid, others: seq<Oid>, data: Paint) {
    && (first in g ==> At(data, first).commit1)
    && (forall o :: o in others && o in g ==> At(data, o).commit2)
  }

  ghost predicate Listed(data: Paint, out: seq<Oid>) {
    Distinct(out) && forall x :: x in out <==> At(data, x).result
  }

  /** If nothing that reaches `b` is queued, `b` has the color of every seed that reaches it. */
  lemma ColorsArrive(g: Graph, first: Oid, others: seq<Oid>, data: Paint, queue: multiset<Oid>, b: Oid)
    requires Frontier(g, data, queue) && Seeded(g, first, others, data)
    requires CommonAncestor(g, first, others, b)
    requires forall x :: x in queue && Reaches(g, x, b) ==> x == b
    ensures At(data, b).commit1 && At(data, b).commit2
  {
    var p :| PathBetween(g, p, first, b);
    ReachesPresent(g, first, b);
    SeedArrives(g, data, queue, p, b, Flags(true, false, false, false));
    var o :| o in others && Reaches(g, o, b);
    var q :| PathBetween(g, q, o, b);
    ReachesPresent(g, o, b);
    SeedArrives(g, data, queue, q, b, Flags(false, true, false, false));
  }

  lemma {:induction false} SeedArrives(g: Graph, data: Paint, queue: multiset<Oid>, p: seq<Oid>, b: Oid, f: Flags)
    requires Frontier(g, data, queue)
    requires IsPath(g, p) && p[|p| - 1] == b && !f.result
    requires forall x :: x in queue && Reaches(g, x, b) ==> x == b
    requires Contains(At(data, p[0]), f)
    ensures Contains(At(data, b), f)
  {
    if |p| > 1 && p[0] != b {
      assert PathBetween(g, p, p[0], b);
      assert Settled(g, data, p[0]);
      assert Edge(g, p[0], p[1]);
      SeedArrives(g, data, queue, p[1..], b, f);
    }
  }

  /** When only stale commits remain queued, every best common ancestor has been listed. */
  lemma BestAreListed(g: Graph, first: Oid, others: seq<Oid>, data: Paint, queue: multiset<Oid>, b: Oid)
    requires Sound(g, first, others, data) && Frontier(g, data, queue) && Seeded(g, first, others, data)
    requires forall x :: x in queue ==> At(data, x).stale
    requires BestCommonAncestor(g, first, others, b)
    ensures At(data, b).result
  {
    forall x | x in queue && Reaches(g, x, b) ensures false {
      ShadowedDown(g, first, others, x, b);
    }
    ColorsArrive(g, first, others, data, queue, b);
    assert Settled(g, data, b);
  }

  /** Without clock skew, a commit popped with both colors and no STALE bit is a best one. */
  lemma PoppedIsBest(h: History, first: Oid, others: seq<Oid>, data: Paint, queue: multiset<Oid>, x: Oid)
    requires NoClockSkew(h)
    requires Sound(h.parents, first, others, data) && Frontier(h.parents, data, queue)
       && Seeded(h.parents, first, others, data)
    requires IsTop(queue, ByPriority(h), x)
    requires At(data, x).commit1 && At(data, x).commit2 && !At(data, x).stale
    ensures BestCommonAncestor(h.parents, first, others, x)
  {
    var g := h.parents;
    if Shadowed(g, first, others, x) {
      var y :| CommonAncestor(g, first, others, y) && StrictlyReaches(g, y, x);
      forall z | z in queue && Reaches(g, z, y) ensures false {
        ReachesThenStrict(g, z, y, x);
        PriorityDrops(h, z, x);
      }
      ColorsArrive(g, first, others, data, queue, y);
      assert y !in queue by {
        if y in queue { ReachesPresent(g, first, y); ReachesRefl(g, y); }
      }
      assert Settled(g, data, y);
      var w :| Edge(g, y, w) && Reaches(g, w, x);
      assert At(data, w).stale;
      var p :| PathBetween(g, p, w, x);
      StaleArrives(h, data, queue, p, x);
    }
  }

  lemma PriorityDrops(h: History, x: Oid, y: Oid)
    requires NoClockSkew(h) && StrictlyReaches(h.parents, x, y)
    ensures Below(Priority(h, y), Priority(h, x))
  {
    var z :| Edge(h.parents, x, z) && Reaches(h.parents, z, y);
    var p :| PathBetween(h.parents, p, z, y);
    PriorityDropsAlong(h, p);
  }

  lemma {:induction false} PriorityDropsAlong(h: History, p: seq<Oid>)
    requires NoClockSkew(h) && IsPath(h.parents, p)
    ensures AtMost(Priority(h, p[|p| - 1]), Priority(h, p[0]))
  {
    if |p| > 1 { PriorityDropsAlong(h, p[1..]); }
  }

  lemma {:induction false} StaleArrives(h: History, data: Paint, queue: multiset<Oid>, p: seq<Oid>, x: Oid)
    requires NoClockSkew(h) && Frontier(h.parents, data, queue)
    requires IsTop(queue, ByPriority(h), x)
    requires IsPath(h.parents, p) && p[|p| - 1] == x && At(data, p[0]).stale
    ensures At(data, x).stale
  {
    if |p| > 1 {
      PriorityDropsAlong(h, p[1..]);
      assert Below(Priority(h, p[1]), Priority(h, p[0]));
      assert p[0] !in queue;
      assert Settled(h.parents, data, p[0]);
      StaleArrives(h, data, queue, p[1..], x);
    }
  }

  // ----- one painting step

  /** Marks a commit with both colors and no STALE bit as a result. */
  ghost function Visited(data: Paint, top: Oid): Paint
    requires top in data
  {
    var f := data[top];
    data[top := f.(result := f.result || (f.commit1 && f.commit2 && !f.stale))]
  }

  ghost predicate Changed(data: Paint, new_: Paint, x: Oid) {
    At(new_, x) != At(data, x)
  }

  /** `x` received `passed` if it is a present parent and kept its flags otherwise. */
  ghost predicate Received(g: Graph, parents: seq<Oid>, passed: Flags, data: Paint, new_: Paint, x: Oid) {
    At(new_, x) == if x in parents && x in g then Union(At(data, x), passed) else At(data, x)
  }

  ghost predicate HandedDown(g: Graph, parents: seq<Oid>, passed: Flags, data: Paint, new_: Paint) {
    forall x :: Received(g, parents, passed, data, new_, x)
  }

  /** `newQueue` holds `queue` and, on top, exactly the commits whose flags changed. */
  ghost predicate Requeued(queue: multiset<Oid>, newQueue: multiset<Oid>, data: Paint, new_: Paint) {
    && (forall x :: x in newQueue <==> x in queue || Changed(data, new_, x))
    && (newQueue == queue || exists x: Oid :: Changed(data, new_, x))
  }

  method HandDown(graph: CommitGraph<Flags>, parents: seq<Oid>, passed: Flags, queue: multiset<Oid>)
    returns (newQueue: multiset<Oid>)
    requires graph.Valid()
    modifies graph`data
    ensures graph.Valid() && old(graph.data.Keys) <= graph.data.Keys
    ensures HandedDown(graph.history.parents, parents, passed, old(graph.data), graph.data)
    ensures Requeued(queue, newQueue, old(graph.data), graph.data)
  {
    newQueue := queue;
    for i := 0 to |parents|
      invariant graph.Valid() && old(graph.data.Keys) <= graph.data.Keys
      invariant HandedDown(graph.history.parents, parents[..i], passed, old(graph.data), graph.data)
      invariant Requeued(queue, newQueue, old(graph.data), graph.data)
    {
      var parent := parents[i];
      ghost var before, queueBefore := graph.data, newQueue;
      var present := graph.GetOrInsert(parent, NONE);
      if present && !Contains(graph.data[parent], passed) {
        graph.data := graph.data[parent := Union(graph.data[parent], passed)];
        newQueue := newQueue + multiset{parent};
      }
      HandDownOne(graph.history.parents, parents, i, passed, queue, old(graph.data), before, queueBefore,
                  graph.data, newQueue);
    }
    assert parents[..|parents|] == parents;
  }

  lemma HandDownOne(g: Graph, parents: seq<Oid>, i: nat, passed: Flags, queue: multiset<Oid>, data: Paint,
                    mid: Paint, midQueue: multiset<Oid>, new_: Paint, newQueue: multiset<Oid>)
    requires i < |parents|
    requires HandedDown(g, parents[..i], passed, data, mid) && Requeued(queue, midQueue, data, mid)
    requires forall x :: x != parents[i] ==> At(new_, x) == At(mid, x)
    requires At(new_, parents[i]) == if parents[i] in g then Union(At(mid, parents[i]), passed) else At(mid, parents[i])
    requires newQueue ==
      if At(new_, parents[i]) == At(mid, parents[i]) then midQueue else midQueue + multiset{parents[i]}
    ensures HandedDown(g, parents[..i + 1], passed, data, new_) && Requeued(queue, newQueue, data, new_)
  {
    var p := parents[i];
    var upTo := parents[..i + 1];
    forall x ensures Received(g, upTo, passed, data, new_, x) {
      assert x in upTo <==> x in parents[..i] || x == p;
      assert Received(g, parents[..i], passed, data, mid, x);
    }
    forall x ensures Changed(data, mid, x) ==> Changed(data, new_, x) {
      assert Received(g, parents[..i], passed, data, mid, x);
    }
    forall x ensures x in newQueue <==> x in queue || Changed(data, new_, x) {
      assert Received(g, parents[..i], passed, data, mid, x);
      assert x in midQueue <==> x in queue || Changed(data, mid, x);
    }
    if newQueue != midQueue { assert Received(g, parents[..i], passed, data, mid, p); assert Changed(data, new_, p); }
  }

  lemma StepSound(g: Graph, first: Oid, others: seq<Oid>, data: Paint, top: Oid, new_: Paint)
    requires Sound(g, first, others, data) && top in data && top in g
    requires HandedDown(g, g[top], Passed(data[top]), data, new_)
    ensures Sound(g, first, others, new_)
  {
    forall x | x in new_ ensures SoundFlags(g, first, others, x, new_[x]) {
      assert Received(g, g[top], Passed(data[top]), data, new_, x);
      if Edge(g, top, x) {
        PassedSound(g, first, others, top, data[top], x);
      }
    }
  }

  lemma PassedSound(g: Graph, first: Oid, others: seq<Oid>, top: Oid, f: Flags, x: Oid)
    requires SoundFlags(g, first, others, top, f) && Edge(g, top, x)
    ensures SoundFlags(g, first, others, x, Passed(f))
  {
    ReachesEdge(g, top, x);
    if f.commit1 { ReachesTrans(g, first, top, x); }
    if f.commit2 {
      var o :| o in others && Reaches(g, o, top);
      ReachesTrans(g, o, top, x);
    }
    if f.stale {
      ShadowedDown(g, first, others, top, x);
    } else if f.commit1 && f.commit2 {
      ReachesRefl(g, x);
      assert CommonAncestor(g, first, others, top) && StrictlyReaches(g, top, x);
    }
  }

  lemma StepFrontier(g: Graph, data: Paint, queue: multiset<Oid>, top: Oid, mid: Paint, new_: Paint,
                     newQueue: multiset<Oid>)
    requires Frontier(g, data, queue) && top in data && top in g && data.Keys <= new_.Keys
    requires mid == Visited(data, top)
    requires HandedDown(g, g[top], Passed(mid[top]), mid, new_)
    requires Requeued(queue - multiset{top}, newQueue, mid, new_)
    ensures Frontier(g, new_, newQueue)
  {
    forall x | x in newQueue ensures x in new_ {}
    forall x | x in new_ && x !in newQueue ensures Settled(g, new_, x) {
      assert !Changed(mid, new_, x);
      assert x == top || (x in data ==> Settled(g, data, x));
      forall p | Edge(g, x, p) ensures Contains(At(new_, p), Passed(At(new_, x))) {
        assert Received(g, g[top], Passed(mid[top]), mid, new_, p);
      }
    }
  }

  lemma StepPainting(h: History, first: Oid, others: seq<Oid>, data: Paint, queue: multiset<Oid>, out: seq<Oid>,
                     top: Oid,
                     new_: Paint, newQueue: multiset<Oid>, newOut: seq<Oid>)
    requires Painting(h, first, others, data, queue, out)
    requires IsTop(queue, ByPriority(h), top) && top in data && top in h.parents && data.Keys <= new_.Keys
    requires HandedDown(h.parents, h.parents[top], Passed(data[top]), Visited(data, top), new_)
    requires Requeued(queue - multiset{top}, newQueue, Visited(data, top), new_)
    requires newOut == if Visited(data, top)[top].result && !data[top].result then out + [top] else out
    ensures Painting(h, first, others, new_, newQueue, newOut)
  {
    var g, mid := h.parents, Visited(data, top);
    VisitedSound(g, first, others, data, top);
    StepSound(g, first, others, mid, top, new_);
    StepFrontier(g, data, queue, top, mid, new_, newQueue);
    StepSeeded(g, first, others, data, top, new_);
    StepListed(g, data, top, new_, out, newOut);
    if NoClockSkew(h) {
      if newOut != out { PoppedIsBest(h, first, others, data, queue, top); }
      StepInOrder(h, first, others, data, queue, out, top, new_, newQueue, newOut);
    }
  }

  lemma VisitedSound(g: Graph, first: Oid, others: seq<Oid>, data: Paint, top: Oid)
    requires Sound(g, first, others, data) && top in data
    ensures Sound(g, first, others, Visited(data, top))
  {
  }

  lemma StepSeeded(g: Graph, first: Oid, others: seq<Oid>, data: Paint, top: Oid, new_: Paint)
    requires Seeded(g, first, others, data) && top in data && top in g
    requires HandedDown(g, g[top], Passed(data[top]), Visited(data, top), new_)
    ensures Seeded(g, first, others, new_)
  {
    assert Received(g, g[top], Passed(data[top]), Visited(data, top), new_, first);
    forall o | o in others && o in g ensures At(new_, o).commit2 {
      assert Received(g, g[top], Passed(data[top]), Visited(data, top), new_, o);
    }
  }

  lemma StepListed(g: Graph, data: Paint, top: Oid, new_: Paint, out: seq<Oid>, newOut: seq<Oid>)
    requires Listed(data, out) && top in data && top in g
    requires HandedDown(g, g[top], Passed(data[top]), Visited(data, top), new_)
    requires newOut == if Visited(data, top)[top].result && !data[top].result then out + [top] else out
    ensures Listed(new_, newOut)
  {
    forall x: Oid ensures x in newOut <==> At(new_, x).result {
      assert Received(g, g[top], Passed(data[top]), Visited(data, top), new_, x);
      assert x in out <==> At(data, x).result;
    }
    assert top in out <==> At(data, top).result;
  }

  lemma StepInOrder(h: History, first: Oid, others: seq<Oid>, data: Paint, queue: multiset<Oid>, out: seq<Oid>,
                    top: Oid, new_: Paint, newQueue: multiset<Oid>, newOut: seq<Oid>)
    requires NoClockSkew(h) && InOrder(h, first, others, queue, out)
    requires IsTop(queue, ByPriority(h), top) && top in data && top in h.parents
    requires HandedDown(h.parents, h.parents[top], Passed(data[top]), Visited(data, top), new_)
    requires Requeued(queue - multiset{top}, newQueue, Visited(data, top), new_)
    requires newOut == out || (newOut == out + [top] && BestCommonAncestor(h.parents, first, others, top))
    ensures InOrder(h, first, others, newQueue, newOut)
  {
    var g, mid := h.parents, Visited(data, top);
    forall q | q in newQueue ensures AtMost(Priority(h, q), Priority(h, top)) {
      if q in queue {
        assert AtMost(ByPriority(h)(q), ByPriority(h)(top));
      } else {
        assert Changed(mid, new_, q);
        assert Received(g, g[top], Passed(data[top]), mid, new_, q);
        assert Edge(g, top, q);
      }
    }
    forall i, j | 0 <= i < j < |newOut| ensures !Older(h, newOut[i], newOut[j]) {
      if j == |out| { OlderIsBelow(h, top, out[i]); }
    }
  }

  /** Handing flags down never clears a color, and requeues only when it adds one. */
  lemma StepProgress(h: History, data: Paint, queue: multiset<Oid>, top: Oid, new_: Paint, newQueue: multiset<Oid>)
    requires top in data && top in h.parents
    requires HandedDown(h.parents, h.parents[top], Passed(data[top]), Visited(data, top), new_)
    requires Requeued(queue, newQueue, Visited(data, top), new_)
    ensures Uncolored(h.parents, new_) <= Uncolored(h.parents, data)
    ensures newQueue == queue || Uncolored(h.parents, new_) < Uncolored(h.parents, data)
  {
    var g, mid := h.parents, Visited(data, top);
    forall x ensures Contains(At(new_, x).(result := false), At(data, x).(result := false)) {
      assert Received(g, g[top], Passed(data[top]), mid, new_, x);
    }
    if newQueue != queue {
      var x: Oid :| Changed(mid, new_, x);
      assert Received(g, g[top], Passed(data[top]), mid, new_, x);
      var f, f' := At(data, x), At(new_, x);
      var bit := if f.commit1 != f'.commit1 then 1 else if f.commit2 != f'.commit2 then 2 else 3;
      assert (x, bit) in Uncolored(g, data) && (x, bit) !in Uncolored(g, new_);
    }
  }

  /** The color bits that are not set yet. */
  ghost function Uncolored(g: Graph, data: Paint): set<(Oid, int)> {
    set x, bit | x in g && 1 <= bit <= 3 && !HasBit(At(data, x), bit) :: (x, bit)
  }

  predicate HasBit(f: Flags, bit: int) {
    if bit == 1 then f.commit1 else if bit == 2 then f.commit2 else f.stale
  }

  // ----- painting

  ghost predicate Painting(h: History, first: Oid, others: seq<Oid>, data: Paint, queue: multiset<Oid>, out: seq<Oid>) {
    && Sound(h.parents, first, others, data)
    && Frontier(h.parents, data, queue)
    && Seeded(h.parents, first, others, data)
    && Listed(data, out)
    && (NoClockSkew(h) ==> InOrder(h, first, others, queue, out))
  }

  /** Without clock skew the list holds best common ancestors only, best first, and nothing
      that is still queued can precede them. */
  ghost predicate InOrder(h: History, first: Oid, others: seq<Oid>, queue: multiset<Oid>, out: seq<Oid>) {
    && BestFirst(h, out)
    && (forall x :: x in out ==> BestCommonAncestor(h.parents, first, others, x))
    && (forall x, q :: x in out && q in queue ==> AtMost(Priority(h, q), Priority(h, x)))
  }

  // ----- runs of the painting

  datatype State = State(data: Paint, queue: multiset<Oid>, out: seq<Oid>)

  /** The flags of `x` once only the first `n` of the others were painted. */
  ghost predicate SeedAt(g: Graph, first: Oid, others: seq<Oid>, n: nat, data: Paint, queue: multiset<Oid>, x: Oid)
    requires n <= |others|
  {
    && At(data, x) == Flags(x == first && x in g, x in others[..n] && x in g, false, false)
    && (x in queue <==> x in g && (x == first || x in others[..n]))
  }

  ghost predicate SeedsOnly(g: Graph, first: Oid, others: seq<Oid>, n: nat, data: Paint, queue: multiset<Oid>)
    requires n <= |others|
  {
    forall x :: SeedAt(g, first, others, n, data, queue, x)
  }

  ghost predicate StepAt(h: History, s: State, top: Oid, s': State) {
    && IsTop(s.queue, ByPriority(h), top) && top in s.data && top in h.parents
    && HandedDown(h.parents, h.parents[top], Passed(s.data[top]), Visited(s.data, top), s'.data)
    && Requeued(s.queue - multiset{top}, s'.queue, Visited(s.data, top), s'.data)
    && s'.out == if Visited(s.data, top)[top].result && !s.data[top].result then s.out + [top] else s.out
  }

  ghost predicate Step(h: History, s: State, s': State) {
    exists top :: StepAt(h, s, top, s')
  }

  ghost predicate GoesOn(s: State) {
    exists x :: x in s.queue && !At(s.data, x).stale
  }

  ghost predicate Follows(h: History, run: seq<State>, i: nat)
    requires i + 1 < |run|
  {
    GoesOn(run[i]) && Step(h, run[i], run[i + 1])
  }

  /** A run that is not over yet: it begins with the seeds, and each state follows the one before it. */
  ghost predicate Runs(h: History, first: Oid, others: seq<Oid>, run: seq<State>) {
    && |run| > 0 && SeedsOnly(h.parents, first, others, |others|, run[0].data, run[0].queue) && run[0].out == []
    && forall i :: 0 <= i < |run| - 1 ==> Follows(h, run, i)
  }

  /** A run from its beginning to its end. */
  ghost predicate WholeRun(h: History, first: Oid, others: seq<Oid>, run: seq<State>) {
    Runs(h, first, others, run) && !GoesOn(run[|run| - 1])
  }

  lemma RunLonger(h: History, first: Oid, others: seq<Oid>, run: seq<State>, s: State)
    requires Runs(h, first, others, run) && GoesOn(run[|run| - 1]) && Step(h, run[|run| - 1], s)
    ensures Runs(h, first, others, run + [s])
  {
    var longer := run + [s];
    forall i | 0 <= i < |longer| - 1 ensures Follows(h, longer, i) {
      if i < |run| - 1 { assert Follows(h, run, i); }
    }
  }

  method SeedPainting(first: Oid, others: seq<Oid>, graph: CommitGraph<Flags>) returns (queue: multiset<Oid>)
    requires graph.Valid() && forall x :: x in graph.data ==> graph.data[x] == NONE
    modifies graph`data
    ensures graph.Valid()
    ensures Painting(graph.history, first, others, graph.data, queue, [])
    ensures SeedsOnly(graph.history.parents, first, others, |others|, graph.data, queue)
  {
    ghost var g := graph.history.parents;
    queue := multiset{};
    var present := graph.GetOrInsert(first, NONE);
    if present {
      graph.data := graph.data[first := graph.data[first].(commit1 := true)];
      queue := queue + multiset{first};
    }
    for i := 0 to |others|
      invariant graph.Valid() && SeedsOnly(g, first, others, i, graph.data, queue)
    {
      var other := others[i];
      ghost var before := graph.data;
      present := graph.GetOrInsert(other, NONE);
      if present {
        graph.data := graph.data[other := graph.data[other].(commit2 := true)];
        SeedOther(g, first, others, i, before, queue, graph.data);
        queue := queue + multiset{other};
      } else {
        SeedMissing(g, first, others, i, graph.data, queue);
      }
    }
    SeededAll(graph.history, first, others, graph.data, queue);
  }

  lemma SeedOther(g: Graph, first: Oid, others: seq<Oid>, i: nat, data: Paint, queue: multiset<Oid>, new_: Paint)
    requires i < |others| && others[i] in g && SeedsOnly(g, first, others, i, data, queue)
    requires new_ == data[others[i] := At(data, others[i]).(commit2 := true)]
    ensures SeedsOnly(g, first, others, i + 1, new_, queue + multiset{others[i]})
  {
    var queue', n := queue + multiset{others[i]}, i + 1;
    forall x ensures SeedAt(g, first, others, n, new_, queue', x) {
      assert SeedAt(g, first, others, i, data, queue, x);
      assert x in others[..n] <==> x in others[..i] || x == others[i];
    }
  }

  lemma SeedMissing(g: Graph, first: Oid, others: seq<Oid>, i: nat, data: Paint, queue: multiset<Oid>)
    requires i < |others| && others[i] !in g && SeedsOnly(g, first, others, i, data, queue)
    ensures SeedsOnly(g, first, others, i + 1, data, queue)
  {
    var n := i + 1;
    forall x ensures SeedAt(g, first, others, n, data, queue, x) {
      assert SeedAt(g, first, others, i, data, queue, x);
      assert x in others[..n] <==> x in others[..i] || x == others[i];
    }
  }

  lemma SeededAll(h: History, first: Oid, others: seq<Oid>, data: Paint, queue: multiset<Oid>)
    requires SeedsOnly(h.parents, first, others, |others|, data, queue)
    ensures Painting(h, first, others, data, queue, [])
  {
    var g, n := h.parents, |others|;
    assert others[..n] == others;
    forall x ensures At(data, x) == Flags(x == first && x in g, x in others && x in g, false, false) {
      assert SeedAt(g, first, others, n, data, queue, x);
    }
    forall x | x in g && (x == first || x in others) ensures x in queue && Reaches(g, x, x) {
      assert SeedAt(g, first, others, n, data, queue, x);
      ReachesRefl(g, x);
    }
    forall x | x in queue ensures x in g && x in data { assert SeedAt(g, first, others, n, data, queue, x); }
  }

  /** Pops one commit, lists it if both sides reach it, and hands its colors to its parents. */
  method VisitTop(ghost first: Oid, ghost others: seq<Oid>, graph: CommitGraph<Flags>, queue: multiset<Oid>,
                  out: seq<Oid>)
    returns (newQueue: multiset<Oid>, newOut: seq<Oid>)
    requires graph.Valid() && queue != multiset{}
    requires Painting(graph.history, first, others, graph.data, queue, out)
    modifies graph`data
    ensures graph.Valid()
    ensures Painting(graph.history, first, others, graph.data, newQueue, newOut)
    ensures var before := old(Uncolored(graph.history.parents, graph.data));
      var after := Uncolored(graph.history.parents, graph.data);
      after < before || (after == before && |newQueue| < |queue|)
    ensures Step(graph.history, State(old(graph.data), queue, out), State(graph.data, newQueue, newOut))
  {
    var h := graph.history;
    ghost var data := graph.data;
    var top, rest := PopTop(queue, ByPriority(h));
    var flags := graph.data[top];
    var isResult := flags.commit1 && flags.commit2 && !flags.stale;
    newOut := if isResult && !flags.result then out + [top] else out;
    graph.data := graph.data[top := flags.(result := flags.result || isResult)];
    newQueue := HandDown(graph, h.parents[top], Passed(flags), rest);
    StepPainting(h, first, others, data, queue, out, top, graph.data, newQueue, newOut);
    StepProgress(h, data, rest, top, graph.data, newQueue);
    assert StepAt(h, State(data, queue, out), top, State(graph.data, newQueue, newOut));
  }

  /** Visits commits by priority until only stale ones are queued; `out` lists, in visiting order,
      the commits that were reached from both sides before anything above them was. */
  method PaintDownToCommon(first: Oid, others: seq<Oid>, graph: CommitGraph<Flags>)
    returns (out: seq<Oid>, ghost run: seq<State>)
    requires graph.Valid() && forall x :: x in graph.data ==> graph.data[x] == NONE
    modifies graph`data
    ensures graph.Valid() && Distinct(out) && forall x :: x in out ==> x in graph.data
    ensures forall x :: x in out ==> CommonAncestor(graph.history.parents, first, others, x)
    ensures forall x :: BestCommonAncestor(graph.history.parents, first, others, x) ==> x in out
    ensures NoClockSkew(graph.history) ==>
              BestFirst(graph.history, out)
              && forall x :: x in out ==> BestCommonAncestor(graph.history.parents, first, others, x)
    ensures WholeRun(graph.history, first, others, run) && run[|run| - 1].out == out
  {
    var h := graph.history;
    var queue := SeedPainting(first, others, graph);
    out := [];
    run := [State(graph.data, queue, out)];
    while exists x :: x in queue && !At(graph.data, x).stale
      invariant graph.Valid()
      invariant Painting(h, first, others, graph.data, queue, out)
      invariant Runs(h, first, others, run) && run[|run| - 1] == State(graph.data, queue, out)
      decreases Uncolored(h.parents, graph.data), |queue|
    {
      queue, out := VisitTop(first, others, graph, queue, out);
      RunLonger(h, first, others, run, State(graph.data, queue, out));
      run := run + [State(graph.data, queue, out)];
    }
    PaintingDone(h, first, others, graph.data, queue, out);
  }

  lemma PaintingDone(h: History, first: Oid, others: seq<Oid>, data: Paint, queue: multiset<Oid>, out: seq<Oid>)
    requires Painting(h, first, others, data, queue, out)
    requires forall x :: x in queue ==> At(data, x).stale
    ensures forall x :: x in out ==> x in data && CommonAncestor(h.parents, first, others, x)
    ensures forall x :: BestCommonAncestor(h.parents, first, others, x) ==> x in out
  {
    forall x | x in out ensures x in data && CommonAncestor(h.parents, first, others, x) {
      assert At(data, x).result;
      assert SoundFlags(h.parents, first, others, x, data[x]);
    }
    forall b | BestCommonAncestor(h.parents, first, others, b) ensures b in out {
      BestAreListed(h.parents, first, others, data, queue, b);
    }
  }
}
