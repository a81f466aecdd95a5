/** Describing a commit by the closest named ancestor: a walk by date that tracks, with one bit per candidate name,
    which candidates reach which commits. */
module Describe {
  import opened Digraph
  import opened History
  import opened Options

  type Name = string

  const MAX_CANDIDATES: nat := 32
  const U32_MAX: nat := 0xffff_ffff

  /** The bits of the candidates that are known to reach a commit. */
  type Bits = set<int>

  /** A named commit met on the way. Its identity bit is the order in which it was found. */
  datatype Candidate = Candidate(name: Name, commitsInItsFuture: nat, bit: nat)

  /** Commit dates are compared after truncation to 32 bits. */
  function Date(h: History, x: Oid): nat {
    h.time(x) % 0x1_0000_0000
  }

  /** The parents that are followed. */
  ghost function Followed(h: History, firstParent: bool): Graph {
    if firstParent then FirstParents(h.parents) else h.parents
  }

  /** The lowest 32 bits of the commit time of a parent are below those of its child. */
  ghost predicate DatesDecrease(h: History, g: Graph) {
    forall x, y :: Edge(g, x, y) ==> h.time(y) % 0x1_0000_0000 < h.time(x) % 0x1_0000_0000
  }

  /** Parents are older than their children, and all times fit into 32 bits. */
  ghost predicate SaneTimes(h: History, g: Graph) {
    && (forall x :: x in g ==> 0 <= h.time(x) < 0x1_0000_0000)
    && (forall x, y :: Edge(g, x, y) ==> h.time(y) < h.time(x))
  }

  /** How many commits are in the history of `x` but not in that of `c`. */
  ghost function Distance(g: Graph, x: Oid, c: Oid): nat {
    |Reachable(g, x) - Reachable(g, c)|
  }

  // ----- the walk

  /** The state of a walk below `all`: the commits that were popped, the candidates in order, and what each reaches.
      */
  datatype Walk = Walk(g: Graph, all: set<Oid>, popped: set<Oid>, ids: seq<Oid>, below: seq<set<Oid>>)

  ghost predicate WellFormed(w: Walk) {
    && |w.ids| == |w.below|
    && w.popped <= w.all && Closed(w.g, w.all)
    && (forall i :: 0 <= i < |w.ids| ==>
          w.ids[i] in w.popped && IsBelow(w.g, w.ids[i], w.below[i]) && w.below[i] <= w.all)
  }

  /** `s` is everything `c` reaches: closed, and every other member has a predecessor inside. */
  ghost predicate IsBelow(g: Graph, c: Oid, s: set<Oid>) {
    c in s && Closed(g, s) && forall x :: x in s && x != c ==> HasPredecessor(g, s, x)
  }

  ghost predicate HasPredecessor(g: Graph, s: set<Oid>, x: Oid) {
    exists y :: y in s && Edge(g, y, x)
  }

  ghost predicate BitsSound(w: Walk, flags: map<Oid, Bits>, x: Oid)
    requires x in flags && |w.ids| == |w.below|
  {
    forall i :: i in flags[x] ==> 0 <= i < |w.ids| && x in w.below[i]
  }

  ghost predicate BitsComplete(w: Walk, flags: map<Oid, Bits>, x: Oid)
    requires x in flags && |w.ids| == |w.below|
  {
    forall i :: 0 <= i < |w.ids| && x in w.below[i] ==> i in flags[x]
  }

  ghost predicate ParentsLoaded(g: Graph, flags: map<Oid, Bits>, x: Oid) {
    forall y :: Edge(g, x, y) ==> y in flags
  }

  ghost predicate HandedDown(g: Graph, flags: map<Oid, Bits>, x: Oid)
    requires x in flags
  {
    forall y :: Edge(g, x, y) ==> y in flags && flags[x] <= flags[y]
  }

  /** Loaded commits are popped or queued; all popped ones but the exception brought their parents in. */
  ghost predicate Walking(w: Walk, flags: map<Oid, Bits>, queue: map<Oid, nat>, except: set<Oid>) {
    && WellFormed(w)
    && flags.Keys == w.popped + queue.Keys && w.popped !! queue.Keys && flags.Keys <= w.all
    && (forall x :: x in flags ==> BitsSound(w, flags, x))
    && (forall x :: x in w.popped && x !in except ==> ParentsLoaded(w.g, flags, x))
  }

  /** Everything in `all` that leads to `x` was popped. */
  ghost predicate Ready(w: Walk, x: Oid) {
    forall y :: y in w.all && Edge(w.g, y, x) ==> y in w.popped
  }

  /** If dates decrease, commits are popped only after all their descendants, so popped bits are final. */
  ghost predicate InOrder(h: History, w: Walk, flags: map<Oid, Bits>, queue: map<Oid, nat>, except: set<Oid>)
    requires Walking(w, flags, queue, w.popped)
  {
    && (forall x :: x in w.popped ==> Ready(w, x) && BitsComplete(w, flags, x))
    && (forall x :: x in w.popped && x !in except ==> HandedDown(w.g, flags, x))
    && (forall x :: x in queue ==> queue[x] >= Date(h, x) && (queue[x] == Date(h, x) || Ready(w, x)))
  }

  /** Counters hold the number of popped commits that the candidate does not reach. */
  ghost predicate Counted(w: Walk, candidates: seq<Candidate>)
    requires |w.ids| == |w.below|
  {
    && |candidates| == |w.ids|
    && forall i :: 0 <= i < |candidates| ==> candidates[i].commitsInItsFuture == |w.popped - w.below[i]|
  }

  lemma ReachableIsBelow(g: Graph, c: Oid)
    requires c in g
    ensures IsBelow(g, c, Reachable(g, c))
  {
    var s := Reachable(g, c);
    ReachesRefl(g, c);
    forall x, y | x in s && Edge(g, x, y) ensures y in s { ReachesThenEdge(g, c, x, y); }
    forall x | x in s && x != c ensures HasPredecessor(g, s, x) {
      var p :| PathBetween(g, p, c, x);
      var y := p[|p| - 2];
      PathEdge(g, p, |p| - 2);
      PathPrefix(g, p, |p| - 1);
      assert PathBetween(g, p[..|p| - 1], c, y);
    }
  }

  /** Whatever was not popped lies below a queued commit or the exception. */
  lemma {:induction false} Frontier(w: Walk, flags: map<Oid, Bits>, queue: map<Oid, nat>, except: set<Oid>,
                                    p: seq<Oid>) returns (z: Oid)
    requires Walking(w, flags, queue, except)
    requires IsPath(w.g, p) && p[0] in flags && p[|p| - 1] !in w.popped
    ensures (z in queue || (z in except && z in w.popped)) && Reaches(w.g, z, p[|p| - 1])
  {
    if p[0] in queue || p[0] in except {
      z := p[0];
      assert PathBetween(w.g, p, z, p[|p| - 1]);
    } else {
      assert ParentsLoaded(w.g, flags, p[0]);
      assert Edge(w.g, p[0], p[1]);
      z := Frontier(w, flags, queue, except, p[1..]);
    }
  }

  ghost predicate IsNewest(queue: map<Oid, nat>, x: Oid) {
    x in queue && forall y :: y in queue ==> queue[y] <= queue[x]
  }

  lemma {:induction false} DateDrops(h: History, g: Graph, p: seq<Oid>)
    requires DatesDecrease(h, g) && IsPath(g, p)
    ensures Date(h, p[|p| - 1]) <= Date(h, p[0])
  {
    if |p| > 1 { DateDrops(h, g, p[1..]); }
  }

  /** If dates decrease, the newest queued commit is popped after all of its descendants. */
  lemma NewestIsReady(h: History, w: Walk, flags: map<Oid, Bits>, queue: map<Oid, nat>, start: Oid, x: Oid)
    requires Walking(w, flags, queue, {}) && DatesDecrease(h, w.g) && InOrder(h, w, flags, queue, {})
    requires w.all == Reachable(w.g, start) && start in flags && IsNewest(queue, x)
    ensures Ready(w, x)
  {
    if queue[x] == Date(h, x) {
      forall y | y in w.all && Edge(w.g, y, x) ensures y in w.popped {
        if y !in w.popped {
          var p :| PathBetween(w.g, p, start, y);
          var z := Frontier(w, flags, queue, {}, p);
          var q :| PathBetween(w.g, q, z, y);
          DateDrops(h, w.g, q);
        }
      }
    }
  }

  lemma PopStructure(w: Walk, flags: map<Oid, Bits>, queue: map<Oid, nat>, x: Oid)
    requires Walking(w, flags, queue, {}) && x in queue
    ensures Walking(w.(popped := w.popped + {x}), flags, queue - {x}, {x})
  {
  }

  lemma PopInOrder(h: History, w: Walk, flags: map<Oid, Bits>, queue: map<Oid, nat>, x: Oid)
    requires Walking(w, flags, queue, {}) && InOrder(h, w, flags, queue, {}) && x in queue && Ready(w, x)
    requires Walking(w.(popped := w.popped + {x}), flags, queue - {x}, w.popped + {x})
    ensures InOrder(h, w.(popped := w.popped + {x}), flags, queue - {x}, {x})
  {
  }

  /** Popped commits are not reachable from one that is not. */
  lemma {:induction false} NotBelow(w: Walk, p: seq<Oid>)
    requires WellFormed(w) && forall x :: x in w.popped ==> Ready(w, x)
    requires IsPath(w.g, p) && p[0] in w.all && p[|p| - 1] in w.popped
    ensures p[0] in w.popped
  {
    if |p| > 1 {
      assert Edge(w.g, p[0], p[1]);
      NotBelow(w, p[1..]);
      assert Ready(w, p[1]);
    }
  }

  ghost function Named(w: Walk, x: Oid): Walk {
    w.(ids := w.ids + [x], below := w.below + [Reachable(w.g, x)])
  }

  lemma NameStructure(w: Walk, flags: map<Oid, Bits>, queue: map<Oid, nat>, x: Oid)
    requires Walking(w, flags, queue, {x}) && x in w.popped && x in w.g && Reachable(w.g, x) <= w.all
    ensures Walking(Named(w, x), flags[x := flags[x] + {|w.ids|}], queue, {x})
  {
    var w', flags' := Named(w, x), flags[x := flags[x] + {|w.ids|}];
    ReachableIsBelow(w.g, x);
    forall y | y in flags' ensures BitsSound(w', flags', y) { assert BitsSound(w, flags, y); }
    forall y | y in w'.popped && y !in {x} ensures ParentsLoaded(w.g, flags', y) {
      assert ParentsLoaded(w.g, flags, y);
    }
  }

  lemma NameInOrder(h: History, w: Walk, flags: map<Oid, Bits>, queue: map<Oid, nat>, x: Oid)
    requires Walking(w, flags, queue, {x}) && InOrder(h, w, flags, queue, {x}) && x in w.popped
    requires Walking(Named(w, x), flags[x := flags[x] + {|w.ids|}], queue, {x})
    requires w.popped * Reachable(w.g, x) == {x}
    ensures InOrder(h, Named(w, x), flags[x := flags[x] + {|w.ids|}], queue, {x})
  {
    var w', flags' := Named(w, x), flags[x := flags[x] + {|w.ids|}];
    forall y | y in w'.popped ensures Ready(w', y) && BitsComplete(w', flags', y) {
      assert Ready(w, y) && BitsComplete(w, flags, y);
      forall i | 0 <= i < |w'.ids| && y in w'.below[i] ensures i in flags'[y] {
        if i == |w.ids| { assert y in w.popped * Reachable(w.g, x); }
      }
    }
    forall y | y in w'.popped && y !in {x} ensures HandedDown(w.g, flags', y) { assert HandedDown(w.g, flags, y); }
    forall y | y in queue ensures queue[y] == Date(h, y) || Ready(w', y) {
      assert queue[y] == Date(h, y) || Ready(w, y);
    }
  }

  /** A commit that is popped in order reaches none of those popped before. */
  lemma NewReachesNothingOld(h: History, w: Walk, flags: map<Oid, Bits>, queue: map<Oid, nat>, x: Oid)
    requires Walking(w, flags, queue, {}) && InOrder(h, w, flags, queue, {}) && x in queue && x in w.g
    ensures w.popped * Reachable(w.g, x) == {}
  {
    forall y | y in w.popped ensures y !in Reachable(w.g, x) {
      if Reaches(w.g, x, y) {
        var p :| PathBetween(w.g, p, x, y);
        NotBelow(w, p);
      }
    }
  }

  /** Every candidate without a bit on the popped commit gets one more commit in its future. */
  method CountCommit(candidates: seq<Candidate>, bits: Bits) returns (r: seq<Candidate>)
    ensures CountedUp(candidates, bits, r)
  {
    r := candidates;
    for i := 0 to |candidates|
      invariant |r| == |candidates|
      invariant forall j :: 0 <= j < i ==>
        r[j] == if candidates[j].bit in bits then candidates[j]
                else candidates[j].(commitsInItsFuture := candidates[j].commitsInItsFuture + 1)
      invariant forall j :: i <= j < |r| ==> r[j] == candidates[j]
    {
      if candidates[i].bit !in bits {
        r := r[i := candidates[i].(commitsInItsFuture := candidates[i].commitsInItsFuture + 1)];
      }
    }
  }

  /** Counting one popped commit `x` keeps a counter exact if the bit tells whether the candidate reaches `x`. */
  lemma CountStep(popped: set<Oid>, x: Oid, below: set<Oid>, reached: bool)
    requires x !in popped && (reached <==> x in below)
    ensures |popped + {x} - below| == |popped - below| + (if reached then 0 else 1)
  {
    if reached {
      assert popped + {x} - below == popped - below;
    } else {
      assert popped + {x} - below == (popped - below) + {x};
    }
  }

  // ----- handing bits to parents

  ghost function Parents(g: Graph, x: Oid): set<Oid> {
    set y | y in g && Edge(g, x, y)
  }

  /** `y` received `bits` if it is one of `parents`, and was queued with its date if it was not loaded before. */
  ghost predicate PushedAt(h: History, parents: set<Oid>, bits: Bits, flags: map<Oid, Bits>, queue: map<Oid, nat>,
                           flags': map<Oid, Bits>, queue': map<Oid, nat>, y: Oid) {
    && (y in flags' <==> y in flags || y in parents)
    && (y in flags' ==> flags'[y] == (if y in flags then flags[y] else {}) + (if y in parents then bits else {}))
    && (y in queue' <==> y in queue || (y in parents && y !in flags))
    && (y in queue' ==> queue'[y] == if y in queue then queue[y] else Date(h, y))
  }

  ghost predicate Pushed(h: History, g: Graph, x: Oid, bits: Bits, flags: map<Oid, Bits>, queue: map<Oid, nat>,
                         flags': map<Oid, Bits>, queue': map<Oid, nat>) {
    PushedTo(h, Parents(g, x), bits, flags, queue, flags', queue')
  }

  ghost predicate PushedTo(h: History, parents: set<Oid>, bits: Bits, flags: map<Oid, Bits>, queue: map<Oid, nat>,
                           flags': map<Oid, Bits>, queue': map<Oid, nat>) {
    forall y :: PushedAt(h, parents, bits, flags, queue, flags', queue', y)
  }

  lemma PushStructure(h: History, w: Walk, x: Oid, flags: map<Oid, Bits>, queue: map<Oid, nat>,
                      flags': map<Oid, Bits>, queue': map<Oid, nat>)
    requires Walking(w, flags, queue, {x}) && x in w.popped && Pushed(h, w.g, x, flags[x], flags, queue, flags', queue')
    ensures Walking(w, flags', queue', {})
  {
    forall y ensures (y in flags' <==> y in w.popped || y in queue') && !(y in w.popped && y in queue') {
      assert PushedAt(h, Parents(w.g, x), flags[x], flags, queue, flags', queue', y);
    }
    assert flags'.Keys == w.popped + queue'.Keys;
    forall y | y in flags' ensures BitsSound(w, flags', y) && y in w.all {
      assert PushedAt(h, Parents(w.g, x), flags[x], flags, queue, flags', queue', y);
      assert y in flags ==> BitsSound(w, flags, y);
      assert BitsSound(w, flags, x);
    }
    forall y | y in w.popped ensures ParentsLoaded(w.g, flags', y) {
      forall z | Edge(w.g, y, z) ensures z in flags' {
        assert PushedAt(h, Parents(w.g, x), flags[x], flags, queue, flags', queue', z);
        assert y != x ==> ParentsLoaded(w.g, flags, y);
      }
    }
  }

  lemma PushInOrder(h: History, w: Walk, x: Oid, flags: map<Oid, Bits>, queue: map<Oid, nat>, flags': map<Oid, Bits>,
                    queue': map<Oid, nat>)
    requires Walking(w, flags, queue, {x}) && InOrder(h, w, flags, queue, {x})
    requires x in w.popped && Pushed(h, w.g, x, flags[x], flags, queue, flags', queue')
    requires Walking(w, flags', queue', {})
    requires NoPoppedParent(w, x)
    ensures InOrder(h, w, flags', queue', {})
  {
    forall y | y in w.popped ensures BitsComplete(w, flags', y) && HandedDown(w.g, flags', y) {
      assert PushedAt(h, Parents(w.g, x), flags[x], flags, queue, flags', queue', y);
      assert BitsComplete(w, flags, y) && (y != x ==> HandedDown(w.g, flags, y));
      forall z | Edge(w.g, y, z) ensures z in flags' && flags'[y] <= flags'[z] {
        assert PushedAt(h, Parents(w.g, x), flags[x], flags, queue, flags', queue', z);
      }
    }
    forall y | y in queue' ensures queue'[y] >= Date(h, y) && (queue'[y] == Date(h, y) || Ready(w, y)) {
      assert PushedAt(h, Parents(w.g, x), flags[x], flags, queue, flags', queue', y);
    }
  }

  ghost predicate NoPoppedParent(w: Walk, x: Oid) {
    forall y :: y in w.popped ==> !Edge(w.g, x, y)
  }

  /** A commit that is popped in order has no popped parent. */
  lemma ParentsNotPopped(h: History, w: Walk, x: Oid)
    requires x in w.all && x !in w.popped && forall y :: y in w.popped ==> Ready(w, y)
    requires DatesDecrease(h, w.g)
    ensures NoPoppedParent(w.(popped := w.popped + {x}), x)
  {
  }

  lemma PushOne(h: History, done: set<Oid>, bits: Bits, flags: map<Oid, Bits>, queue: map<Oid, nat>,
                flags': map<Oid, Bits>, queue': map<Oid, nat>, p: Oid)
    requires queue.Keys <= flags.Keys
    requires PushedTo(h, done, bits, flags, queue, flags', queue')
    ensures var flags'' := if p in flags' then flags'[p := flags'[p] + bits] else flags'[p := bits];
      var queue'' := if p in flags' then queue' else queue'[p := Date(h, p)];
      PushedTo(h, done + {p}, bits, flags, queue, flags'', queue'')
  {
    var flags'' := if p in flags' then flags'[p := flags'[p] + bits] else flags'[p := bits];
    var queue'' := if p in flags' then queue' else queue'[p := Date(h, p)];
    var done' := done + {p};
    forall y ensures PushedAt(h, done', bits, flags, queue, flags'', queue'', y) {
      assert PushedAt(h, done, bits, flags, queue, flags', queue', y);
    }
  }

  ghost function PresentOf(g: Graph, ids: seq<Oid>): set<Oid> {
    set y | y in ids && y in g
  }

  lemma PresentOfMore(g: Graph, ids: seq<Oid>, i: nat)
    requires 0 < i <= |ids|
    ensures PresentOf(g, ids[..i]) == PresentOf(g, ids[..i - 1]) + (if ids[i - 1] in g then {ids[i - 1]} else {})
  {
  }

  lemma FollowedFirst(h: History, x: Oid, p: Oid)
    requires x in h.parents && FirstPresent(h.parents, h.parents[x]) == Some(p)
    ensures Parents(Followed(h, true), x) == {p}
  {}

  lemma FollowedAll(h: History, firstParent: bool, x: Oid)
    requires x in h.parents && (firstParent ==> FirstPresent(h.parents, h.parents[x]) == None)
    ensures Parents(Followed(h, firstParent), x) == PresentOf(h.parents, h.parents[x])
  {}

  /** Hands `bits` to the present parents of `x`, or to the first of them only, and queues those that are new. */
  method PushParents(h: History, firstParent: bool, x: Oid, bits: Bits, flags: map<Oid, Bits>, queue: map<Oid, nat>)
    returns (flags': map<Oid, Bits>, queue': map<Oid, nat>)
    requires x in h.parents && queue.Keys <= flags.Keys && flags.Keys <= h.parents.Keys
    ensures Pushed(h, Followed(h, firstParent), x, bits, flags, queue, flags', queue')
  {
    flags', queue' := flags, queue;
    var parents := h.parents[x];
    ghost var done: set<Oid> := {};
    var i := 0;
    while i < |parents|
      invariant 0 <= i <= |parents|
      invariant PushedTo(h, done, bits, flags, queue, flags', queue')
      invariant done == PresentOf(h.parents, parents[..i])
      invariant firstParent ==> FirstPresent(h.parents, parents) == FirstPresent(h.parents, parents[i..]) && done == {}
    {
      var p := parents[i];
      i := i + 1;
      PresentOfMore(h.parents, parents, i);
      assert parents[i - 1..][1..] == parents[i..];
      if p in h.parents {
        PushOne(h, done, bits, flags, queue, flags', queue', p);
        done := done + {p};
        if p in flags' {
          flags' := flags'[p := flags'[p] + bits];
        } else {
          flags' := flags'[p := bits];
          queue' := queue'[p := Date(h, p)];
        }
        if firstParent {
          FollowedFirst(h, x, p);
          assert done == {p};
          return;
        }
      }
    }
    assert parents[..i] == parents && parents[i..] == [];
    FollowedAll(h, firstParent, x);
  }

  method PopNewest(queue: map<Oid, nat>) returns (x: Oid, rest: map<Oid, nat>)
    requires queue != map[]
    ensures IsNewest(queue, x) && rest == queue - {x}
  {
    ghost var top := NewestExists(queue.Keys, queue);
    x :| x in queue && forall y :: y in queue ==> queue[y] <= queue[x];
    rest := queue - {x};
  }

  lemma NewestExists(among: set<Oid>, queue: map<Oid, nat>) returns (x: Oid)
    requires among != {} && among <= queue.Keys
    ensures x in among && forall y :: y in among ==> queue[y] <= queue[x]
  {
    x :| x in among;
    if among != {x} {
      var other := NewestExists(among - {x}, queue);
      if queue[other] > queue[x] { x := other; }
    }
  }

  // ----- the whole search

  /** The candidates are exactly the named ones among the popped commits, numbered in the order they were found. */
  ghost predicate Found(w: Walk, names: map<Oid, Name>, candidates: seq<Candidate>) {
    && |candidates| == |w.ids| == |w.below|
    && (forall i :: 0 <= i < |w.ids| ==> FoundAt(w, names, candidates, i))
    && (forall i, j :: 0 <= i < j < |w.ids| ==> w.ids[i] != w.ids[j])
    && (forall x :: x in w.popped && x in names ==> x in w.ids)
  }

  ghost predicate FoundAt(w: Walk, names: map<Oid, Name>, candidates: seq<Candidate>, i: nat)
    requires i < |candidates| == |w.ids| == |w.below|
  {
    && w.ids[i] in names && candidates[i].name == names[w.ids[i]] && candidates[i].bit == i
    && w.below[i] == Reachable(w.g, w.ids[i])
  }

  /** The state between two steps of the search from `start`. */
  ghost predicate Searching(h: History, names: map<Oid, Name>, start: Oid, w: Walk, flags: map<Oid, Bits>,
                            queue: map<Oid, nat>,
                            except: set<Oid>, candidates: seq<Candidate>, commitsSeen: nat) {
    && Walking(w, flags, queue, except)
    && w.all == Reachable(w.g, start) && start in flags && w.g.Keys == h.parents.Keys
    && Found(w, names, candidates)
    && commitsSeen == |w.popped|
    && Exact(h, w, flags, queue, except, candidates)
  }

  ghost predicate Exact(h: History, w: Walk, flags: map<Oid, Bits>, queue: map<Oid, nat>, except: set<Oid>,
                        candidates: seq<Candidate>)
    requires Walking(w, flags, queue, except)
  {
    DatesDecrease(h, w.g) ==> InOrder(h, w, flags, queue, except) && Counted(w, candidates)
  }

  /** Popping an unnamed commit. */
  lemma VisitUnnamed(h: History, names: map<Oid, Name>, start: Oid, w: Walk, flags: map<Oid, Bits>,
                     queue: map<Oid, nat>,
                     candidates: seq<Candidate>, commitsSeen: nat, x: Oid, counted: seq<Candidate>)
    requires Searching(h, names, start, w, flags, queue, {}, candidates, commitsSeen)
    requires IsNewest(queue, x) && x !in names
    requires CountedUp(candidates, flags[x], counted)
    ensures Searching(h, names, start, w.(popped := w.popped + {x}), flags, queue - {x}, {x}, counted, commitsSeen + 1)
    ensures DatesDecrease(h, w.g) ==> NoPoppedParent(w.(popped := w.popped + {x}), x)
  {
    PopStructure(w, flags, queue, x);
    CountedIsRecounted(candidates, flags[x], counted);
    PopFound(w, names, candidates, x, counted);
    PopExact(h, names, start, w, flags, queue, candidates, x, counted);
  }

  /** The same candidates up to their counters. */
  ghost predicate Recounted(candidates: seq<Candidate>, counted: seq<Candidate>) {
    && |counted| == |candidates|
    && forall i :: 0 <= i < |counted| ==> counted[i].name == candidates[i].name && counted[i].bit == candidates[i].bit
  }

  lemma CountedIsRecounted(candidates: seq<Candidate>, bits: Bits, counted: seq<Candidate>)
    requires CountedUp(candidates, bits, counted)
    ensures Recounted(candidates, counted)
  {}

  lemma PopFound(w: Walk, names: map<Oid, Name>, candidates: seq<Candidate>, x: Oid, counted: seq<Candidate>)
    requires Found(w, names, candidates) && x !in names && Recounted(candidates, counted)
    ensures Found(w.(popped := w.popped + {x}), names, counted)
  {
    var w' := w.(popped := w.popped + {x});
    forall i | 0 <= i < |w'.ids| ensures FoundAt(w', names, counted, i) { assert FoundAt(w, names, candidates, i); }
  }

  lemma PopExact(h: History, names: map<Oid, Name>, start: Oid, w: Walk, flags: map<Oid, Bits>, queue: map<Oid, nat>,
                 candidates: seq<Candidate>, x: Oid, counted: seq<Candidate>)
    requires Walking(w, flags, queue, {}) && Exact(h, w, flags, queue, {}, candidates)
    requires Walking(w.(popped := w.popped + {x}), flags, queue - {x}, {x})
    requires w.all == Reachable(w.g, start) && start in flags && IsNewest(queue, x)
    requires CountedUp(candidates, flags[x], counted) && Found(w, names, candidates)
    ensures Exact(h, w.(popped := w.popped + {x}), flags, queue - {x}, {x}, counted)
    ensures DatesDecrease(h, w.g) ==> NoPoppedParent(w.(popped := w.popped + {x}), x)
  {
    if DatesDecrease(h, w.g) {
      ParentsNotPopped(h, w, x);
      NewestIsReady(h, w, flags, queue, start, x);
      PopInOrder(h, w, flags, queue, x);
      assert BitsSound(w, flags, x);
      assert BitsComplete(w.(popped := w.popped + {x}), flags, x);
      forall i | 0 <= i < |candidates| ensures candidates[i].bit == i { assert FoundAt(w, names, candidates, i); }
      CountAll(w, flags, candidates, x, counted);
    }
  }

  ghost predicate CountedUp(candidates: seq<Candidate>, bits: Bits, counted: seq<Candidate>) {
    && |counted| == |candidates|
    && forall i :: 0 <= i < |counted| ==>
      counted[i] == if candidates[i].bit in bits then candidates[i]
                    else candidates[i].(commitsInItsFuture := candidates[i].commitsInItsFuture + 1)
  }

  lemma CountAll(w: Walk, flags: map<Oid, Bits>, candidates: seq<Candidate>, x: Oid, counted: seq<Candidate>)
    requires |w.ids| == |w.below| && Counted(w, candidates) && x in flags && x !in w.popped
    requires BitsSound(w, flags, x) && BitsComplete(w, flags, x) && CountedUp(candidates, flags[x], counted)
    requires forall i :: 0 <= i < |candidates| ==> candidates[i].bit == i
    ensures Counted(w.(popped := w.popped + {x}), counted)
  {
    forall i | 0 <= i < |counted| ensures counted[i].commitsInItsFuture == |w.popped + {x} - w.below[i]| {
      CountStep(w.popped, x, w.below[i], i in flags[x]);
    }
  }

  ghost function VisitedNamed(w: Walk, x: Oid): (w': Walk)
    ensures w'.popped == w.popped + {x} && w'.g == w.g && w'.all == w.all
  {
    Named(w.(popped := w.popped + {x}), x)
  }

  lemma NamedStructure(start: Oid, w: Walk, flags: map<Oid, Bits>, queue: map<Oid, nat>, x: Oid)
    requires Walking(w, flags, queue, {}) && w.all == Reachable(w.g, start) && x in queue
    ensures x in w.g && Walking(w.(popped := w.popped + {x}), flags, queue - {x}, {x})
    ensures Walking(VisitedNamed(w, x), flags[x := flags[x] + {|w.ids|}], queue - {x}, {x})
  {
    ReachableShrinks(w.g, start, x);
    PopStructure(w, flags, queue, x);
    NameStructure(w.(popped := w.popped + {x}), flags, queue - {x}, x);
  }

  /** Popping a named commit adds a candidate whose future is everything popped before. */
  lemma VisitNamed(h: History, names: map<Oid, Name>, start: Oid, w: Walk, flags: map<Oid, Bits>, queue: map<Oid, nat>,
                   candidates: seq<Candidate>, commitsSeen: nat, x: Oid, flags': map<Oid, Bits>,
                   counted: seq<Candidate>)
    requires Searching(h, names, start, w, flags, queue, {}, candidates, commitsSeen)
    requires IsNewest(queue, x) && x in names
    requires flags' == flags[x := flags[x] + {|candidates|}]
    requires CountedUp(candidates + [Candidate(names[x], commitsSeen, |candidates|)], flags'[x], counted)
    ensures Searching(h, names, start, VisitedNamed(w, x), flags', queue - {x}, {x}, counted, commitsSeen + 1)
    ensures DatesDecrease(h, w.g) ==> NoPoppedParent(VisitedNamed(w, x), x)
  {
    var more := candidates + [Candidate(names[x], commitsSeen, |candidates|)];
    NamedStructure(start, w, flags, queue, x);
    CountedIsRecounted(more, flags'[x], counted);
    NameFound(w, names, candidates, x, commitsSeen, counted);
    NameExact(h, names, start, w, flags, queue, candidates, commitsSeen, x, flags', counted);
  }

  lemma ReachableShrinks(g: Graph, start: Oid, x: Oid)
    requires Reaches(g, start, x)
    ensures x in g && Reachable(g, x) <= Reachable(g, start)
  {
    ReachesPresent(g, start, x);
    forall y | y in Reachable(g, x) ensures y in Reachable(g, start) { ReachesTrans(g, start, x, y); }
  }

  lemma NameFound(w: Walk, names: map<Oid, Name>, candidates: seq<Candidate>, x: Oid, future: nat,
                  counted: seq<Candidate>)
    requires WellFormed(w) && Found(w, names, candidates) && x in names && x !in w.popped
    requires Recounted(candidates + [Candidate(names[x], future, |candidates|)], counted)
    ensures Found(VisitedNamed(w, x), names, counted)
  {
    var w' := VisitedNamed(w, x);
    forall i | 0 <= i < |w'.ids| ensures FoundAt(w', names, counted, i) {
      if i < |w.ids| { assert FoundAt(w, names, candidates, i); }
    }
    forall y | y in w'.popped && y in names ensures y in w'.ids {
      if y == x { assert w'.ids[|w.ids|] == x; } else { assert y in w.ids; }
    }
  }

  lemma NameExact(h: History, names: map<Oid, Name>, start: Oid, w: Walk, flags: map<Oid, Bits>, queue: map<Oid, nat>,
                  candidates: seq<Candidate>, commitsSeen: nat, x: Oid, flags': map<Oid, Bits>, counted: seq<Candidate>)
    requires Walking(w, flags, queue, {}) && Exact(h, w, flags, queue, {}, candidates) && Found(w, names, candidates)
    requires w.all == Reachable(w.g, start) && start in flags && IsNewest(queue, x) && x in w.g
    requires x in names && flags' == flags[x := flags[x] + {|candidates|}] && commitsSeen == |w.popped|
    requires CountedUp(candidates + [Candidate(names[x], commitsSeen, |candidates|)], flags'[x], counted)
    requires Walking(w.(popped := w.popped + {x}), flags, queue - {x}, {x})
    requires Walking(VisitedNamed(w, x), flags', queue - {x}, {x})
    ensures Exact(h, VisitedNamed(w, x), flags', queue - {x}, {x}, counted)
    ensures DatesDecrease(h, w.g) ==> NoPoppedParent(VisitedNamed(w, x), x)
  {
    if DatesDecrease(h, w.g) {
      NameOrder(h, start, w, flags, queue, x);
      assert BitsSound(w, flags, x);
      NameCounts(w, names, flags, candidates, x, commitsSeen, counted);
    }
  }

  lemma NameOrder(h: History, start: Oid, w: Walk, flags: map<Oid, Bits>, queue: map<Oid, nat>, x: Oid)
    requires Walking(w, flags, queue, {}) && InOrder(h, w, flags, queue, {}) && DatesDecrease(h, w.g)
    requires w.all == Reachable(w.g, start) && start in flags && IsNewest(queue, x) && x in w.g
    requires Walking(w.(popped := w.popped + {x}), flags, queue - {x}, {x})
    requires Walking(VisitedNamed(w, x), flags[x := flags[x] + {|w.ids|}], queue - {x}, {x})
    ensures InOrder(h, VisitedNamed(w, x), flags[x := flags[x] + {|w.ids|}], queue - {x}, {x})
    ensures NoPoppedParent(VisitedNamed(w, x), x) && BitsComplete(w, flags, x)
    ensures w.popped * Reachable(w.g, x) == {} && x in Reachable(w.g, x)
  {
    var popped := w.(popped := w.popped + {x});
    NewestIsReady(h, w, flags, queue, start, x);
    ParentsNotPopped(h, w, x);
    PopInOrder(h, w, flags, queue, x);
    assert BitsComplete(popped, flags, x);
    NewReachesNothingOld(h, w, flags, queue, x);
    ReachesRefl(w.g, x);
    assert popped.popped * Reachable(w.g, x) == {x};
    NameInOrder(h, popped, flags, queue - {x}, x);
  }

  lemma NameCountsOld(w: Walk, names: map<Oid, Name>, flags: map<Oid, Bits>, candidates: seq<Candidate>, x: Oid, i: nat)
    requires WellFormed(w) && Found(w, names, candidates) && Counted(w, candidates) && x in flags && x !in w.popped
    requires BitsSound(w, flags, x) && BitsComplete(w, flags, x) && i < |candidates|
    ensures |w.popped + {x} - w.below[i]| ==
      candidates[i].commitsInItsFuture + if candidates[i].bit in flags[x] then 0 else 1
    ensures candidates[i].bit == i
  {
    assert FoundAt(w, names, candidates, i);
    CountStep(w.popped, x, w.below[i], i in flags[x]);
  }

  lemma NameCounts(w: Walk, names: map<Oid, Name>, flags: map<Oid, Bits>, candidates: seq<Candidate>, x: Oid,
                   future: nat, counted: seq<Candidate>)
    requires WellFormed(w) && Found(w, names, candidates) && Counted(w, candidates) && x in flags
       && x !in w.popped && x in names
    requires BitsSound(w, flags, x) && BitsComplete(w, flags, x) && future == |w.popped|
    requires w.popped * Reachable(w.g, x) == {} && x in Reachable(w.g, x)
    requires CountedUp(candidates + [Candidate(names[x], future, |candidates|)], flags[x] + {|candidates|}, counted)
    ensures Counted(VisitedNamed(w, x), counted)
  {
    var w', n := VisitedNamed(w, x), |candidates|;
    assert w'.popped - w'.below[n] == w.popped;
    forall i | 0 <= i < n ensures counted[i].commitsInItsFuture == |w'.popped - w'.below[i]| {
      NameCountsOld(w, names, flags, candidates, x, i);
      assert w'.below[i] == w.below[i];
    }
  }

  /** Handing on to the parents completes the visit. */
  lemma VisitDone(h: History, names: map<Oid, Name>, start: Oid, w: Walk, flags: map<Oid, Bits>, queue: map<Oid, nat>,
                  candidates: seq<Candidate>, commitsSeen: nat, x: Oid, flags': map<Oid, Bits>, queue': map<Oid, nat>)
    requires Searching(h, names, start, w, flags, queue, {x}, candidates, commitsSeen) && x in w.popped
    requires DatesDecrease(h, w.g) ==> NoPoppedParent(w, x)
    requires Pushed(h, w.g, x, flags[x], flags, queue, flags', queue')
    ensures Searching(h, names, start, w, flags', queue', {}, candidates, commitsSeen)
  {
    PushStructure(h, w, x, flags, queue, flags', queue');
    if DatesDecrease(h, w.g) {
      PushInOrder(h, w, x, flags, queue, flags', queue');
    }
    assert PushedAt(h, Parents(w.g, x), flags[x], flags, queue, flags', queue', start);
  }

  // ----- when the search may stop

  /** All that was not popped lies below candidate `i`: its counter is final. */
  ghost predicate Settled(w: Walk, i: nat)
    requires i < |w.below|
  {
    w.all - w.popped <= w.below[i]
  }

  lemma StopSettles(w: Walk, flags: map<Oid, Bits>, queue: map<Oid, nat>, except: set<Oid>, start: Oid, i: nat)
    requires Walking(w, flags, queue, except) && w.all == Reachable(w.g, start) && start in flags && i < |w.ids|
    requires forall z :: z in queue || (z in except && z in w.popped) ==> i in flags[z]
    ensures Settled(w, i)
  {
    forall y | y in w.all - w.popped ensures y in w.below[i] {
      var p :| PathBetween(w.g, p, start, y);
      var z := Frontier(w, flags, queue, except, p);
      assert BitsSound(w, flags, z);
      assert IsBelow(w.g, w.ids[i], w.below[i]);
      ClosedContains(w.g, w.below[i], z, y);
    }
  }

  lemma ExhaustionPopsAll(w: Walk, flags: map<Oid, Bits>, start: Oid)
    requires Walking(w, flags, map[], {}) && w.all == Reachable(w.g, start) && start in flags
    ensures w.popped == w.all
  {
    forall y | y in w.all ensures y in w.popped {
      if y !in w.popped {
        var p :| PathBetween(w.g, p, start, y);
        var z := Frontier(w, flags, map[], {}, p);
      }
    }
  }

  ghost predicate IsBest(candidates: seq<Candidate>, b: nat) {
    && b < |candidates|
    && forall i :: 0 <= i < |candidates| ==> candidates[b].commitsInItsFuture <= candidates[i].commitsInItsFuture
  }

  /** The identity bits of all candidates with the fewest commits in their future. */
  method BestBits(candidates: seq<Candidate>) returns (bits: Bits)
    ensures forall b: nat :: IsBest(candidates, b) && candidates[b].commitsInItsFuture < U32_MAX ==>
        candidates[b].bit in bits
  {
    var shortest := U32_MAX;
    bits := {};
    for i := 0 to |candidates|
      invariant forall j :: 0 <= j < i ==> shortest <= candidates[j].commitsInItsFuture
      invariant forall j :: 0 <= j < i && candidates[j].commitsInItsFuture == shortest < U32_MAX ==>
          candidates[j].bit in bits
      invariant shortest == U32_MAX || exists j :: 0 <= j < i && candidates[j].commitsInItsFuture == shortest
      invariant shortest <= U32_MAX
    {
      if candidates[i].commitsInItsFuture < shortest {
        shortest := candidates[i].commitsInItsFuture;
        bits := {candidates[i].bit};
      } else if candidates[i].commitsInItsFuture == shortest {
        bits := bits + {candidates[i].bit};
      }
    }
    forall b: nat | IsBest(candidates, b) && candidates[b].commitsInItsFuture < U32_MAX
      ensures candidates[b].bit in bits
    {
      assert shortest <= candidates[b].commitsInItsFuture;
    }
  }

  /** The first candidate after sorting by counter, then by order of discovery. */
  method First(candidates: seq<Candidate>) returns (b: nat)
    requires candidates != []
    ensures IsBest(candidates, b)
    ensures forall i :: 0 <= i < b ==> candidates[b].commitsInItsFuture < candidates[i].commitsInItsFuture
  {
    b := 0;
    for i := 1 to |candidates|
      invariant b < i
      invariant forall j :: 0 <= j < i ==> candidates[b].commitsInItsFuture <= candidates[j].commitsInItsFuture
      invariant forall j :: 0 <= j < b ==> candidates[b].commitsInItsFuture < candidates[j].commitsInItsFuture
    {
      if candidates[i].commitsInItsFuture < candidates[b].commitsInItsFuture { b := i; }
    }
  }

  /** A settled candidate with the fewest commits in its future is the closest name. */
  lemma SettledIsClosest(names: map<Oid, Name>, start: Oid, w: Walk, candidates: seq<Candidate>, b: nat, n: Oid)
    requires WellFormed(w) && Found(w, names, candidates) && Counted(w, candidates) && w.all == Reachable(w.g, start)
    requires IsBest(candidates, b) && Settled(w, b) && n in names && n in w.all
    ensures candidates[b].commitsInItsFuture <= Distance(w.g, start, n)
  {
    if n in w.popped {
      var i :| 0 <= i < |w.ids| && w.ids[i] == n;
      assert FoundAt(w, names, candidates, i);
      CounterIsLowerBound(w, start, i);
    } else {
      assert FoundAt(w, names, candidates, b);
      BelowIsFarther(w, start, b, n);
    }
  }

  lemma CounterIsLowerBound(w: Walk, start: Oid, i: nat)
    requires i < |w.ids| == |w.below| && w.popped <= w.all == Reachable(w.g, start)
    requires w.below[i] == Reachable(w.g, w.ids[i])
    ensures |w.popped - w.below[i]| <= Distance(w.g, start, w.ids[i])
  {
    SubtractMonotone(w.popped, w.all, w.below[i], w.below[i]);
  }

  lemma BelowIsFarther(w: Walk, start: Oid, b: nat, n: Oid)
    requires b < |w.ids| == |w.below| && w.popped <= w.all == Reachable(w.g, start)
    requires w.below[b] == Reachable(w.g, w.ids[b])
    requires n in w.below[b]
    ensures |w.popped - w.below[b]| <= Distance(w.g, start, n)
  {
    ReachableShrinks(w.g, w.ids[b], n);
    SubtractMonotone(w.popped, w.all, w.below[b], Reachable(w.g, n));
  }

  lemma SubtractMonotone(a: set<Oid>, b: set<Oid>, c: set<Oid>, d: set<Oid>)
    requires a <= b && d <= c
    ensures |a - c| <= |b - d|
  {
    CardinalityMonotone(a - c, b - d);
  }

  /** A popped commit that is put back with the highest priority is popped again first. */
  lemma Requeue(h: History, names: map<Oid, Name>, start: Oid, w: Walk, flags: map<Oid, Bits>, queue: map<Oid, nat>,
                candidates: seq<Candidate>, commitsSeen: nat, x: Oid)
    requires Searching(h, names, start, w, flags, queue, {}, candidates, commitsSeen) && IsNewest(queue, x)
    ensures Searching(h, names, start, w, flags, (queue - {x})[x := U32_MAX], {}, candidates, commitsSeen)
  {
    var queue' := (queue - {x})[x := U32_MAX];
    RequeueKeys(queue, x);
    SameKeys(w, flags, queue, queue');
    RequeueExact(h, start, w, flags, queue, candidates, x, queue');
  }

  lemma RequeueKeys(queue: map<Oid, nat>, x: Oid)
    requires x in queue
    ensures (queue - {x})[x := U32_MAX].Keys == queue.Keys
  {
  }

  lemma RequeueExact(h: History, start: Oid, w: Walk, flags: map<Oid, Bits>, queue: map<Oid, nat>,
                     candidates: seq<Candidate>, x: Oid, queue': map<Oid, nat>)
    requires Walking(w, flags, queue, {}) && Walking(w, flags, queue', {}) && IsNewest(queue, x)
    requires w.all == Reachable(w.g, start) && start in flags && queue' == (queue - {x})[x := U32_MAX]
    requires Exact(h, w, flags, queue, {}, candidates)
    ensures Exact(h, w, flags, queue', {}, candidates)
  {
    if DatesDecrease(h, w.g) {
      NewestIsReady(h, w, flags, queue, start, x);
      RequeueInOrder(h, w, flags, queue, x, queue');
    }
  }

  lemma SameKeys(w: Walk, flags: map<Oid, Bits>, queue: map<Oid, nat>, queue': map<Oid, nat>)
    requires Walking(w, flags, queue, {}) && queue'.Keys == queue.Keys
    ensures Walking(w, flags, queue', {})
  {}

  lemma RequeueInOrder(h: History, w: Walk, flags: map<Oid, Bits>, queue: map<Oid, nat>, x: Oid, queue': map<Oid, nat>)
    requires Walking(w, flags, queue, {}) && InOrder(h, w, flags, queue, {}) && Ready(w, x)
    requires queue' == (queue - {x})[x := U32_MAX] && Walking(w, flags, queue', {})
    ensures InOrder(h, w, flags, queue', {})
  {
    forall y | y in queue' ensures queue'[y] >= Date(h, y) && (queue'[y] == Date(h, y) || Ready(w, y)) {
      if y != x { assert y in queue && queue'[y] == queue[y]; }
    }
  }

  /** Records a popped commit as a candidate if it is named, and counts it for every candidate that does not reach it.
      */
  method Visit(h: History, names: map<Oid, Name>, ghost start: Oid, ghost w: Walk, flags: map<Oid, Bits>,
               ghost queue: map<Oid, nat>,
               candidates: seq<Candidate>, commitsSeen: nat, x: Oid)
    returns (flags': map<Oid, Bits>, candidates': seq<Candidate>, ghost w': Walk)
    requires Searching(h, names, start, w, flags, queue, {}, candidates, commitsSeen) && IsNewest(queue, x)
    ensures Searching(h, names, start, w', flags', queue - {x}, {x}, candidates', commitsSeen + 1)
    ensures w'.popped == w.popped + {x} && w'.g == w.g && w'.all == w.all
    ensures DatesDecrease(h, w.g) ==> NoPoppedParent(w', x)
    ensures |candidates'| == if x in names then |candidates| + 1 else |candidates|
  {
    if x in names {
      flags' := flags[x := flags[x] + {|candidates|}];
      candidates' := candidates + [Candidate(names[x], commitsSeen, |candidates|)];
      candidates' := CountCommit(candidates', flags'[x]);
      w' := VisitedNamed(w, x);
      VisitNamed(h, names, start, w, flags, queue, candidates, commitsSeen, x, flags', candidates');
    } else {
      flags' := flags;
      candidates' := CountCommit(candidates, flags'[x]);
      w' := w.(popped := w.popped + {x});
      VisitUnnamed(h, names, start, w, flags, queue, candidates, commitsSeen, x, candidates');
    }
  }

  method HandOn(h: History, ghost names: map<Oid, Name>, ghost start: Oid, ghost w: Walk, firstParent: bool,
                flags: map<Oid, Bits>,
                queue: map<Oid, nat>, ghost candidates: seq<Candidate>, ghost commitsSeen: nat, x: Oid)
    returns (flags': map<Oid, Bits>, queue': map<Oid, nat>)
    requires Searching(h, names, start, w, flags, queue, {x}, candidates, commitsSeen) && x in w.popped
    requires DatesDecrease(h, w.g) ==> NoPoppedParent(w, x)
    requires w.g == Followed(h, firstParent)
    ensures Searching(h, names, start, w, flags', queue', {}, candidates, commitsSeen)
  {
    WalkIsPresent(w, start);
    flags', queue' := PushParents(h, firstParent, x, flags[x], flags, queue);
    VisitDone(h, names, start, w, flags, queue, candidates, commitsSeen, x, flags', queue');
  }

  lemma WalkIsPresent(w: Walk, start: Oid)
    requires w.all == Reachable(w.g, start)
    ensures w.all <= w.g.Keys
  {}

  /** Tells if all candidates with the fewest commits in their future reach the last popped commit. */
  method BestIsReached(h: History, ghost names: map<Oid, Name>, ghost start: Oid, ghost w: Walk, flags: map<Oid, Bits>,
                       candidates: seq<Candidate>, ghost commitsSeen: nat, x: Oid) returns (reached: bool)
    requires Searching(h, names, start, w, flags, map[], {x}, candidates, commitsSeen) && x in w.popped
       && |h.parents| < U32_MAX
    ensures reached && DatesDecrease(h, w.g) ==>
      forall b: nat :: IsBest(candidates, b) && b < |w.below| ==> Settled(w, b)
  {
    var best := BestBits(candidates);
    reached := best <= flags[x];
    if reached { EarlyStop(h, names, start, w, flags, candidates, commitsSeen, x, best); }
  }

  /** How one step of the search ended. */
  datatype Status = Going | Stopped | GaveUp

  ghost predicate AllBestSettled(w: Walk, candidates: seq<Candidate>) {
    forall b: nat :: IsBest(candidates, b) && b < |w.below| ==> Settled(w, b)
  }

  /** Pops and visits one commit. The search stops before its parents if the best candidates cannot change anymore,
      and gives up on a name if there are too many candidates. */
  method Step(h: History, names: map<Oid, Name>, ghost start: Oid, maxCandidates: nat, firstParent: bool,
              flags: map<Oid, Bits>, queue: map<Oid, nat>, candidates: seq<Candidate>, commitsSeen: nat, ghost w: Walk)
    returns (flags': map<Oid, Bits>, queue': map<Oid, nat>, candidates': seq<Candidate>, commitsSeen': nat,
             status: Status, ghost w': Walk, ghost x: Oid)
    requires queue != map[] && |h.parents| < U32_MAX && w.g == Followed(h, firstParent) && |candidates| <= maxCandidates
    requires Searching(h, names, start, w, flags, queue, {}, candidates, commitsSeen)
    ensures var except := if status.Stopped? then {x} else {};
      Searching(h, names, start, w', flags', queue', except, candidates', commitsSeen')
    ensures w'.g == w.g && w'.all == w.all && |candidates'| <= maxCandidates
    ensures status.Going? ==> w'.popped == w.popped + {x} && x in w.all - w.popped
    ensures status.Stopped? ==> queue' == map[] && candidates' != [] && (DatesDecrease(h, w.g) ==>
        AllBestSettled(w', candidates'))
    ensures status.GaveUp? ==> |candidates'| == maxCandidates && x in queue' && x in names
  {
    var id, rest := PopNewest(queue);
    x := id;
    if id in names && |candidates| >= maxCandidates {
      Requeue(h, names, start, w, flags, queue, candidates, commitsSeen, id);
      return flags, rest[id := U32_MAX], candidates, commitsSeen, GaveUp, w, id;
    }
    flags', candidates', w' := Visit(h, names, start, w, flags, queue, candidates, commitsSeen, id);
    commitsSeen', queue', status := commitsSeen + 1, rest, Going;
    if rest == map[] && candidates' != [] {
      var stop := BestIsReached(h, names, start, w', flags', candidates', commitsSeen', id);
      if stop {
        status := Stopped;
        return;
      }
    }
    flags', queue' := HandOn(h, names, start, w', firstParent, flags', rest, candidates', commitsSeen', id);
  }

  /** Walks by date and collects candidates until nothing is left, the best ones cannot change anymore, or there are
      too many. */
  method Search(h: History, names: map<Oid, Name>, start: Oid, maxCandidates: nat, firstParent: bool)
    returns (flags: map<Oid, Bits>, queue: map<Oid, nat>, candidates: seq<Candidate>, commitsSeen: nat, status: Status,
             ghost w: Walk, ghost last: Oid)
    requires start in h.parents && |h.parents| < U32_MAX && maxCandidates > 0
    ensures Searching(h, names, start, w, flags, queue, if status.Stopped? then {last} else {}, candidates, commitsSeen)
    ensures w.g == Followed(h, firstParent)
    ensures status.Stopped? ==> queue == map[]
    ensures candidates == [] ==> w.popped == w.all
    ensures !status.GaveUp? && DatesDecrease(h, w.g) ==> AllBestSettled(w, candidates)
    ensures status.GaveUp? ==> |candidates| == maxCandidates && last in queue && last in names
  {
    w, last := Walk(Followed(h, firstParent), Reachable(Followed(h, firstParent), start), {}, [], []), start;
    flags, queue, candidates, commitsSeen, status := map[start := {}], map[start := U32_MAX], [], 0, Going;
    StartSearching(h, names, start, w, flags, queue);
    while queue != map[]
      invariant Searching(h, names, start, w, flags, queue, {}, candidates, commitsSeen)
      invariant w.g == Followed(h, firstParent) && |candidates| <= maxCandidates && status.Going?
      decreases w.all - w.popped
    {
      flags, queue, candidates, commitsSeen, status, w, last :=
        Step(h, names, start, maxCandidates, firstParent, flags, queue, candidates, commitsSeen, w);
      if !status.Going? { return; }
    }
    ExhaustionPopsAll(w, flags, start);
  }

  lemma StartSearching(h: History, names: map<Oid, Name>, start: Oid, w: Walk, flags: map<Oid, Bits>,
                       queue: map<Oid, nat>)
    requires start in w.g && w.g.Keys == h.parents.Keys && w == Walk(w.g, Reachable(w.g, start), {}, [], [])
    requires flags == map[start := {}] && queue == map[start := U32_MAX]
    ensures Searching(h, names, start, w, flags, queue, {}, [], 0)
  {
    ReachableIsBelow(w.g, start);
    if DatesDecrease(h, w.g) {
      forall y | y in w.all && Edge(w.g, y, start) ensures false {
        var p :| PathBetween(w.g, p, start, y);
        DateDrops(h, w.g, p);
      }
      assert Ready(w, start);
    }
  }

  /** With an empty queue, everything left lies below the popped commit, and so below the candidates with a bit on it.
      */
  lemma EarlyStop(h: History, names: map<Oid, Name>, start: Oid, w: Walk, flags: map<Oid, Bits>,
                  candidates: seq<Candidate>,
                  commitsSeen: nat, x: Oid, best: Bits)
    requires Searching(h, names, start, w, flags, map[], {x}, candidates, commitsSeen) && x in w.popped
       && |h.parents| < U32_MAX
    requires forall b: nat :: IsBest(candidates, b) && candidates[b].commitsInItsFuture < U32_MAX ==>
        candidates[b].bit in best
    requires best <= flags[x]
    ensures DatesDecrease(h, w.g) ==> forall b: nat :: IsBest(candidates, b) && b < |w.below| ==> Settled(w, b)
  {
    if DatesDecrease(h, w.g) {
      forall b: nat | IsBest(candidates, b) && b < |w.below| ensures Settled(w, b) {
        assert FoundAt(w, names, candidates, b);
        CardinalityMonotone(w.popped - w.below[b], h.parents.Keys);
        StopSettles(w, flags, map[], {x}, start, b);
      }
    }
  }

  // ----- completing the counter of the chosen candidate

  /** The state while only the counter of candidate `b` is completed. */
  ghost predicate Finishing(h: History, start: Oid, w: Walk, flags: map<Oid, Bits>, queue: map<Oid, nat>,
                            except: set<Oid>, b: nat, count: nat) {
    && Walking(w, flags, queue, except)
    && w.all == Reachable(w.g, start) && start in flags && w.g.Keys == h.parents.Keys && b < |w.ids|
    && (DatesDecrease(h, w.g) ==> InOrder(h, w, flags, queue, except) && count == |w.popped - w.below[b]|)
  }

  lemma FinishPop(h: History, start: Oid, w: Walk, flags: map<Oid, Bits>, queue: map<Oid, nat>, b: nat, count: nat,
                  x: Oid)
    requires Finishing(h, start, w, flags, queue, {}, b, count) && IsNewest(queue, x)
    ensures var w' := w.(popped := w.popped + {x});
      && Finishing(h, start, w', flags, queue - {x}, {x}, b, if b in flags[x] then count else count + 1)
      && (DatesDecrease(h, w.g) ==> NoPoppedParent(w', x))
  {
    PopStructure(w, flags, queue, x);
    if DatesDecrease(h, w.g) {
      NewestIsReady(h, w, flags, queue, start, x);
      ParentsNotPopped(h, w, x);
      PopInOrder(h, w, flags, queue, x);
      assert BitsSound(w, flags, x);
      assert BitsComplete(w.(popped := w.popped + {x}), flags, x);
      CountStep(w.popped, x, w.below[b], b in flags[x]);
    }
  }

  lemma FinishPush(h: History, start: Oid, w: Walk, flags: map<Oid, Bits>, queue: map<Oid, nat>, b: nat, count: nat,
                   x: Oid, flags': map<Oid, Bits>, queue': map<Oid, nat>)
    requires Finishing(h, start, w, flags, queue, {x}, b, count) && x in w.popped
    requires DatesDecrease(h, w.g) ==> NoPoppedParent(w, x)
    requires Pushed(h, w.g, x, flags[x], flags, queue, flags', queue')
    ensures Finishing(h, start, w, flags', queue', {}, b, count)
  {
    PushStructure(h, w, x, flags, queue, flags', queue');
    if DatesDecrease(h, w.g) { PushInOrder(h, w, x, flags, queue, flags', queue'); }
    assert PushedAt(h, Parents(w.g, x), flags[x], flags, queue, flags', queue', start);
  }

  /** Once everything left lies below candidate `b`, its counter is its distance. */
  lemma FinishDone(h: History, start: Oid, w: Walk, flags: map<Oid, Bits>, queue: map<Oid, nat>, except: set<Oid>,
                   b: nat, count: nat)
    requires Finishing(h, start, w, flags, queue, except, b, count)
    requires forall z :: z in queue || (z in except && z in w.popped) ==> b in flags[z]
    ensures DatesDecrease(h, w.g) ==> count == |w.all - w.below[b]|
  {
    StopSettles(w, flags, queue, except, start, b);
    assert w.popped - w.below[b] == w.all - w.below[b];
  }

  /** Goes on until all that is queued lies below candidate `b`, counting what does not. */
  method FinishDepth(h: History, ghost start: Oid, firstParent: bool, startFlags: map<Oid, Bits>,
                     startQueue: map<Oid, nat>, b: nat, startCount: nat, ghost startWalk: Walk)
    returns (count: nat, commitsSeen: nat)
    requires startWalk.g == Followed(h, firstParent) && b < |startWalk.below|
    requires startQueue == map[] && DatesDecrease(h, startWalk.g) ==>
      startCount == |startWalk.all - startWalk.below[b]|
    requires startQueue != map[] ==> Finishing(h, start, startWalk, startFlags, startQueue, {}, b, startCount)
    ensures DatesDecrease(h, startWalk.g) ==> count == |startWalk.all - startWalk.below[b]|
    ensures commitsSeen <= |startWalk.all - startWalk.popped| && count <= startCount + commitsSeen
  {
    var flags, queue := startFlags, startQueue;
    ghost var w := startWalk;
    count, commitsSeen := startCount, 0;
    if queue == map[] { return; }
    while queue != map[]
      invariant Finishing(h, start, w, flags, queue, {}, b, count)
      invariant w.g == startWalk.g && w.all == startWalk.all && w.below == startWalk.below
      invariant commitsSeen + |w.all - w.popped| == |startWalk.all - startWalk.popped|
      invariant count <= startCount + commitsSeen
      decreases w.all - w.popped
    {
      var done;
      ghost var before := w;
      flags, queue, count, done, w := FinishStep(h, start, firstParent, flags, queue, b, count, w);
      OneLessLeft(before, w);
      commitsSeen := commitsSeen + 1;
      if done { return; }
    }
    FinishDone(h, start, w, flags, queue, {}, b, count);
  }

  lemma OneLessLeft(w: Walk, w': Walk)
    requires exists x :: x in w.all - w.popped && w' == w.(popped := w.popped + {x})
    ensures w'.all - w'.popped < w.all - w.popped && |w'.all - w'.popped| + 1 == |w.all - w.popped|
  {
    var x :| x in w.all - w.popped && w' == w.(popped := w.popped + {x});
    assert w.all - w.popped == (w'.all - w'.popped) + {x};
  }

  method FinishStep(h: History, ghost start: Oid, firstParent: bool, flags: map<Oid, Bits>, queue: map<Oid, nat>,
                    b: nat, count: nat, ghost w: Walk)
    returns (flags': map<Oid, Bits>, queue': map<Oid, nat>, count': nat, done: bool, ghost w': Walk)
    requires Finishing(h, start, w, flags, queue, {}, b, count) && w.g == Followed(h, firstParent) && queue != map[]
    ensures exists x :: x in w.all - w.popped && w' == w.(popped := w.popped + {x})
    ensures !done ==> Finishing(h, start, w', flags', queue', {}, b, count')
    ensures done && DatesDecrease(h, w.g) ==> count' == |w.all - w.below[b]|
    ensures count' <= count + 1
  {
    var x, rest := PopNewest(queue);
    FinishPop(h, start, w, flags, queue, b, count, x);
    w' := w.(popped := w.popped + {x});
    assert x in w.all - w.popped;
    flags', queue', done := flags, rest, false;
    count' := if b in flags[x] then count else count + 1;
    if b in flags[x] && forall z :: z in rest ==> b in flags[z] {
      done := true;
      FinishDone(h, start, w', flags, rest, {x}, b, count');
      return;
    }
    flags', queue' := FinishHandOn(h, start, w', firstParent, flags, rest, b, count', x);
  }

  method FinishHandOn(h: History, ghost start: Oid, ghost w: Walk, firstParent: bool, flags: map<Oid, Bits>,
                      queue: map<Oid, nat>, ghost b: nat, ghost count: nat, x: Oid)
    returns (flags': map<Oid, Bits>, queue': map<Oid, nat>)
    requires Finishing(h, start, w, flags, queue, {x}, b, count) && x in w.popped && w.g == Followed(h, firstParent)
    requires DatesDecrease(h, w.g) ==> NoPoppedParent(w, x)
    ensures Finishing(h, start, w, flags', queue', {}, b, count)
  {
    WalkIsPresent(w, start);
    flags', queue' := PushParents(h, firstParent, x, flags[x], flags, queue);
    FinishPush(h, start, w, flags, queue, b, count, x, flags', queue');
  }

  // ----- describing a commit

  /** The name and distance of the closest candidate, or no name if only the id is left to show. */
  datatype Outcome = Outcome(name: Option<Name>, id: Oid, depth: nat, commitsSeen: nat)

  datatype Result = Ok(outcome: Option<Outcome>) | MissingCommit

  ghost function NamedAncestors(g: Graph, names: map<Oid, Name>, start: Oid): set<Oid> {
    set n | n in names && n in Reachable(g, start)
  }

  /** `o` names the ancestor `c`. If dates decrease, its depth is the distance to `c`, all commits that make up the
      depth and `c` itself were seen, and no other name is closer unless the search gave up, which it does only with
      more names than candidates. */
  ghost predicate Describes(h: History, g: Graph, names: map<Oid, Name>, start: Oid, maxCandidates: nat, gaveUp: bool,
                            o: Outcome, c: Oid) {
    && c in NamedAncestors(g, names, start) && o.name == Some(names[c]) && o.id == start
    && o.commitsSeen <= |Reachable(g, start)|
    && (DatesDecrease(h, g) ==> o.depth == Distance(g, start, c) && o.depth < o.commitsSeen)
    && (gaveUp ==> |NamedAncestors(g, names, start)| > maxCandidates)
    && (DatesDecrease(h, g) && !gaveUp ==>
          forall n :: n in NamedAncestors(g, names, start) ==> o.depth <= Distance(g, start, n))
  }

  /** Finding more candidates than fit means that there are more names than candidates. */
  lemma GaveUpMeansMany(names: map<Oid, Name>, start: Oid, w: Walk, flags: map<Oid, Bits>, queue: map<Oid, nat>,
                        candidates: seq<Candidate>, x: Oid)
    requires Walking(w, flags, queue, {}) && Found(w, names, candidates) && w.all == Reachable(w.g, start)
    requires x in queue && x in names
    ensures |NamedAncestors(w.g, names, start)| > |candidates|
  {
    var found := set i | 0 <= i < |w.ids| :: w.ids[i];
    IdsCount(w.ids);
    forall y | y in found + {x} ensures y in NamedAncestors(w.g, names, start) {
      if i :| 0 <= i < |w.ids| && w.ids[i] == y { assert FoundAt(w, names, candidates, i); }
    }
    assert x !in found;
    CardinalityMonotone(found + {x}, NamedAncestors(w.g, names, start));
  }

  lemma {:induction false} IdsCount(ids: seq<Oid>)
    requires forall i, j :: 0 <= i < j < |ids| ==> ids[i] != ids[j]
    ensures |set i | 0 <= i < |ids| :: ids[i]| == |ids|
  {
    if ids != [] {
      var front := ids[..|ids| - 1];
      IdsCount(front);
      var a := set i | 0 <= i < |ids| :: ids[i];
      var b := set i | 0 <= i < |front| :: front[i];
      assert a == b + {ids[|ids| - 1]} by {
        forall y | y in b ensures y in a { var i :| 0 <= i < |front| && front[i] == y; assert ids[i] == y; }
        forall y | y in a ensures y in b + {ids[|ids| - 1]} {
          var i :| 0 <= i < |ids| && ids[i] == y;
          if i < |front| { assert front[i] == y; }
        }
      }
    }
  }

  /** A settled counter is the distance to its candidate. */
  lemma SettledIsDistance(names: map<Oid, Name>, start: Oid, w: Walk, candidates: seq<Candidate>, b: nat)
    requires WellFormed(w) && Found(w, names, candidates) && Counted(w, candidates) && w.all == Reachable(w.g, start)
    requires b < |w.below| && Settled(w, b)
    ensures candidates[b].commitsInItsFuture == |w.all - w.below[b]|
  {
    assert w.popped - w.below[b] == w.all - w.below[b];
  }

  lemma ChosenDescribes(h: History, names: map<Oid, Name>, start: Oid, maxCandidates: nat, w: Walk,
                        flags: map<Oid, Bits>, queue: map<Oid, nat>, except: set<Oid>, candidates: seq<Candidate>,
                        commitsSeen: nat, gaveUp: bool, last: Oid, b: nat, o: Outcome)
    requires Searching(h, names, start, w, flags, queue, except, candidates, commitsSeen) && IsBest(candidates, b)
    requires !gaveUp && DatesDecrease(h, w.g) ==> AllBestSettled(w, candidates)
    requires gaveUp ==> except == {} && |candidates| == maxCandidates && last in queue && last in names
    requires o.name == Some(candidates[b].name) && o.id == start && o.commitsSeen <= |w.all|
    requires DatesDecrease(h, w.g) ==> o.depth == |w.all - w.below[b]| && o.depth < o.commitsSeen
    ensures forall fallbackToOid :: Answers(h, w.g, names, start, maxCandidates, gaveUp, fallbackToOid, Some(o))
  {
    ChosenIsClosest(h, names, start, maxCandidates, w, flags, queue, except, candidates, commitsSeen, gaveUp, last, b,
                    o);
    DescriptionAnswers(h, w.g, names, start, maxCandidates, gaveUp, o, w.ids[b]);
  }

  lemma DescriptionAnswers(h: History, g: Graph, names: map<Oid, Name>, start: Oid, limit: nat, gaveUp: bool,
                           o: Outcome,
                           c: Oid)
    requires Describes(h, g, names, start, limit, gaveUp, o, c)
    ensures forall fallbackToOid :: Answers(h, g, names, start, limit, gaveUp, fallbackToOid, Some(o))
  {
    assert c in NamedAncestors(g, names, start);
  }

  lemma ChosenIsClosest(h: History, names: map<Oid, Name>, start: Oid, maxCandidates: nat, w: Walk,
                        flags: map<Oid, Bits>, queue: map<Oid, nat>, except: set<Oid>, candidates: seq<Candidate>,
                        commitsSeen: nat, gaveUp: bool, last: Oid, b: nat, o: Outcome)
    requires Searching(h, names, start, w, flags, queue, except, candidates, commitsSeen) && IsBest(candidates, b)
    requires !gaveUp && DatesDecrease(h, w.g) ==> AllBestSettled(w, candidates)
    requires gaveUp ==> except == {} && |candidates| == maxCandidates && last in queue && last in names
    requires o.name == Some(candidates[b].name) && o.id == start && o.commitsSeen <= |w.all|
    requires DatesDecrease(h, w.g) ==> o.depth == |w.all - w.below[b]| && o.depth < o.commitsSeen
    ensures Describes(h, w.g, names, start, maxCandidates, gaveUp, o, w.ids[b])
  {
    assert FoundAt(w, names, candidates, b);
    if gaveUp {
      GaveUpMeansMany(names, start, w, flags, queue, candidates, last);
    } else if DatesDecrease(h, w.g) {
      SettledIsDistance(names, start, w, candidates, b);
      forall n | n in NamedAncestors(w.g, names, start) ensures o.depth <= Distance(w.g, start, n) {
        SettledIsClosest(names, start, w, candidates, b, n);
      }
    }
  }

  /** What a walk must answer: no name if and only if there is no named ancestor, and otherwise a description. */
  ghost predicate Answers(h: History, g: Graph, names: map<Oid, Name>, commit: Oid, limit: nat, gaveUp: bool,
                          fallbackToOid: bool, outcome: Option<Outcome>) {
    if NamedAncestors(g, names, commit) == {} then
      outcome == if fallbackToOid then Some(Outcome(None, commit, 0, |Reachable(g, commit)|)) else None
    else
      outcome.Some? && exists c :: Describes(h, g, names, commit, limit, gaveUp, outcome.value, c)
  }

  /** Describes `commit` by a named ancestor. The search gives up when it finds one name more than it may remember. */
  method Describe(h: History, names: map<Oid, Name>, commit: Oid, maxCandidates: nat, fallbackToOid: bool,
                  firstParent: bool)
    returns (r: Result, ghost gaveUp: bool)
    requires |h.parents| < U32_MAX
    ensures commit in names ==> r == Ok(Some(Outcome(Some(names[commit]), commit, 0, 0)))
    ensures commit !in names && (maxCandidates == 0 || names == map[]) ==>
              r == Ok(if fallbackToOid then Some(Outcome(None, commit, 0, 0)) else None)
    ensures commit !in names && maxCandidates != 0 && names != map[] ==>
              if commit in h.parents then
                var g := if firstParent then FirstParents(h.parents) else h.parents;
                var limit := if maxCandidates < 32 then maxCandidates else 32;
                r.Ok? && Answers(h, g, names, commit, limit, gaveUp, fallbackToOid, r.outcome)
              else
                r == MissingCommit
  {
    gaveUp := false;
    if commit in names { return Ok(Some(Outcome(Some(names[commit]), commit, 0, 0))), gaveUp; }
    if maxCandidates == 0 || names == map[] {
      return Ok(if fallbackToOid then Some(Outcome(None, commit, 0, 0)) else None), gaveUp;
    }
    if commit !in h.parents { return MissingCommit, gaveUp; }
    var limit := if maxCandidates < MAX_CANDIDATES then maxCandidates else MAX_CANDIDATES;
    var flags, queue, candidates, commitsSeen, status; ghost var w, last;
    flags, queue, candidates, commitsSeen, status, w, last := Search(h, names, commit, limit, firstParent);
    if candidates == [] {
      NothingNamed(names, commit, w, candidates);
      return Ok(if fallbackToOid then Some(Outcome(None, commit, 0, commitsSeen)) else None), gaveUp;
    }
    gaveUp := status.GaveUp?;
    var o := Choose(h, names, commit, limit, firstParent, flags, queue, candidates, commitsSeen, status, w, last);
    r := Ok(Some(o));
  }

  /** In a history with sane times, what the search answers is the distance to a name, and no name is closer unless
      there are more names than candidates. */
  lemma ClosestByTime(h: History, g: Graph, names: map<Oid, Name>, commit: Oid, limit: nat, gaveUp: bool,
                      fallbackToOid: bool, outcome: Option<Outcome>) returns (c: Oid)
    requires Answers(h, g, names, commit, limit, gaveUp, fallbackToOid, outcome) && SaneTimes(h, g)
    requires NamedAncestors(g, names, commit) != {}
    ensures outcome.Some? && c in NamedAncestors(g, names, commit)
    ensures outcome.value.name == Some(names[c]) && outcome.value.depth == Distance(g, commit, c)
    ensures |NamedAncestors(g, names, commit)| <= limit ==> !gaveUp
    ensures !gaveUp ==>
      forall n :: n in NamedAncestors(g, names, commit) ==> outcome.value.depth <= Distance(g, commit, n)
  {
    assert DatesDecrease(h, g);
    c :| Describes(h, g, names, commit, limit, gaveUp, outcome.value, c);
  }

  lemma NothingNamed(names: map<Oid, Name>, start: Oid, w: Walk, candidates: seq<Candidate>)
    requires Found(w, names, candidates) && candidates == [] && w.popped == w.all == Reachable(w.g, start)
    ensures NamedAncestors(w.g, names, start) == {}
  {
    assert forall n :: n in w.popped && n in names ==> n in w.ids;
  }

  lemma Partition(w: Walk)
    requires w.popped <= w.all
    ensures |w.popped| + |w.all - w.popped| == |w.all|
  {
    assert w.all == w.popped + (w.all - w.popped);
  }

  /** Picks the best candidate and completes its counter. */
  method Choose(h: History, ghost names: map<Oid, Name>, commit: Oid, ghost limit: nat, firstParent: bool,
                flags: map<Oid, Bits>, queue: map<Oid, nat>, candidates: seq<Candidate>, commitsSeen: nat,
                ghost status: Status, ghost w: Walk, ghost last: Oid)
    returns (o: Outcome)
    requires var except := if status.Stopped? then {last} else {};
      Searching(h, names, commit, w, flags, queue, except, candidates, commitsSeen)
    requires w.g == Followed(h, firstParent) && candidates != []
    requires status.Stopped? ==> queue == map[]
    requires !status.GaveUp? && DatesDecrease(h, w.g) ==> AllBestSettled(w, candidates)
    requires status.GaveUp? ==> |candidates| == limit && last in queue && last in names
    ensures forall fallbackToOid :: Answers(h, w.g, names, commit, limit, status.GaveUp?, fallbackToOid, Some(o))
  {
    var b := First(candidates);
    ghost var except := if status.Stopped? then {last} else {};
    ReadyToFinish(h, names, commit, w, flags, queue, except, candidates, commitsSeen, status.GaveUp?, b);
    var depth, more := FinishDepth(h, commit, firstParent, flags, queue, b, candidates[b].commitsInItsFuture, w);
    o := Outcome(Some(candidates[b].name), commit, depth, commitsSeen + more);
    Partition(w);
    ChosenDescribes(h, names, commit, limit, w, flags, queue, except, candidates, commitsSeen, status.GaveUp?, last,
                    b, o);
  }

  lemma ReadyToFinish(h: History, names: map<Oid, Name>, start: Oid, w: Walk, flags: map<Oid, Bits>,
                      queue: map<Oid, nat>, except: set<Oid>, candidates: seq<Candidate>, commitsSeen: nat,
                      gaveUp: bool, b: nat)
    requires Searching(h, names, start, w, flags, queue, except, candidates, commitsSeen) && IsBest(candidates, b)
    requires !gaveUp && DatesDecrease(h, w.g) ==> AllBestSettled(w, candidates)
    requires except != {} ==> queue == map[]
    requires gaveUp ==> queue != map[]
    ensures b < |w.below| && w.ids[b] in NamedAncestors(w.g, names, start)
    ensures if queue == map[] then DatesDecrease(h, w.g) ==> candidates[b].commitsInItsFuture == |w.all - w.below[b]|
            else Finishing(h, start, w, flags, queue, {}, b, candidates[b].commitsInItsFuture)
    ensures DatesDecrease(h, w.g) ==> candidates[b].commitsInItsFuture < |w.popped|
  {
    assert FoundAt(w, names, candidates, b);
    CardinalityMonotone(w.popped - w.below[b], w.popped - {w.ids[b]});
    if queue == map[] && DatesDecrease(h, w.g) { SettledIsDistance(names, start, w, candidates, b); }
  }
}
