/** Flags and per-commit data shared by the fetch negotiation algorithms. */
module Negotiation {
  import opened Digraph
  import opened History

  /** `complete` and `alternate` belong to callers; the others are described with the algorithms. */
  datatype Flags = Flags(complete: bool, alternate: bool, common: bool, seen: bool, popped: bool, commonRef: bool,
                         advertised: bool)

  const NO_FLAGS := Flags(false, false, false, false, false, false, false)
  const SEEN := NO_FLAGS.(seen := true)
  const COMMON := NO_FLAGS.(common := true)
  const COMMON_REF := NO_FLAGS.(commonRef := true)
  const ADVERTISED := NO_FLAGS.(advertised := true)

  function Join(a: Flags, b: Flags): Flags {
    Flags(a.complete || b.complete, a.alternate || b.alternate, a.common || b.common, a.seen || b.seen,
          a.popped || b.popped, a.commonRef || b.commonRef, a.advertised || b.advertised)
  }

  predicate Intersects(a: Flags, b: Flags) {
    || (a.complete && b.complete) || (a.alternate && b.alternate) || (a.common && b.common) || (a.seen && b.seen)
    || (a.popped && b.popped) || (a.commonRef && b.commonRef) || (a.advertised && b.advertised)
  }

  /** Time-to-live counters are 16 bit wide. */
  type U16 = n: int | 0 <= n < 0x1_0000

  datatype Metadata = Metadata(originalTtl: U16, ttl: U16, flags: Flags)

  const NO_DATA := Metadata(0, 0, NO_FLAGS)

  type Marks = map<Oid, Metadata>

  function Of(data: Marks, x: Oid): Flags {
    if x in data then data[x].flags else NO_FLAGS
  }

  function SetFlags(data: Marks, x: Oid, f: Flags): Marks {
    data[x := (if x in data then data[x] else NO_DATA).(flags := f)]
  }

  /** Loading a commit makes no difference to its flags. */
  lemma Loaded(data: Marks, id: Oid, loaded: Marks, f: Flags)
    requires loaded == if id in data then data else data[id := NO_DATA]
    ensures Of(loaded, id) == Of(data, id) && SetFlags(loaded, id, f) == SetFlags(data, id, f)
  {
  }

  /** No negotiation has touched the graph yet; callers may have left their own flags. */
  ghost predicate Untouched(data: Marks) {
    forall x :: x in data ==>
      var f := data[x].flags;
      && !f.common && !f.seen && !f.popped && !f.commonRef && !f.advertised
      && data[x].originalTtl == data[x].ttl == 0
  }

  predicate Waits(f: Flags) {
    f.seen && !f.popped && !f.common
  }

  /** The commits that wait to be popped without being known as common: what the counter must count. */
  ghost function Waiting(data: Marks): set<Oid> {
    set x | x in data && Waits(Of(data, x))
  }

  lemma WaitingAfter(data: Marks, id: Oid, f: Flags)
    ensures |Waiting(SetFlags(data, id, f))|
         == |Waiting(data)| + (if Waits(f) then 1 else 0) - (if Waits(Of(data, id)) then 1 else 0)
  {
    var others := Waiting(data) - {id};
    assert Waiting(data) == if Waits(Of(data, id)) then others + {id} else others;
    assert Waiting(SetFlags(data, id, f)) == if Waits(f) then others + {id} else others;
  }

  function ByTime(h: History): Oid -> Key {
    (x: Oid) => Key(h.time(x), 0)
  }

  /** Everything that is common as a consequence of what was learned: acknowledged commits with their
      ancestors, and the strict ancestors of commits that are known to be common. */
  ghost function Covered(g: Graph, known: set<Oid>, acked: set<Oid>): set<Oid> {
    set x |
      && x in g
      && ((exists a :: a in acked && Reaches(g, a, x)) || (exists k :: k in known && StrictlyReaches(g, k, x)))
  }

  ghost function ReachableFrom(g: Graph, starts: set<Oid>): set<Oid> {
    set x | x in g && exists s :: s in starts && Reaches(g, s, x)
  }

  lemma CoveredGrows(g: Graph, known: set<Oid>, acked: set<Oid>, known': set<Oid>, acked': set<Oid>)
    requires known <= known' && acked <= acked'
    ensures Covered(g, known, acked) <= Covered(g, known', acked')
  {}

  lemma CoveredClosed(g: Graph, known: set<Oid>, acked: set<Oid>)
    ensures Closed(g, Covered(g, known, acked))
    ensures forall a :: a in acked && a in g ==> a in Covered(g, known, acked)
    ensures forall k, p :: k in known && Edge(g, k, p) ==> p in Covered(g, known, acked)
  {
    var covered := Covered(g, known, acked);
    forall x, y | x in covered && Edge(g, x, y) ensures y in covered {
      if a :| a in acked && Reaches(g, a, x) {
        ReachesThenEdge(g, a, x, y);
      } else {
        var k :| k in known && StrictlyReaches(g, k, x);
        ReachesEdge(g, x, y);
        StrictThenReaches(g, k, x, y);
      }
    }
    forall a | a in acked && a in g ensures a in covered { ReachesRefl(g, a); }
    forall k, p | k in known && Edge(g, k, p) ensures p in covered { ReachesRefl(g, p); }
  }

  lemma ReachableFromGrows(g: Graph, a: set<Oid>, b: set<Oid>)
    requires a <= b
    ensures ReachableFrom(g, a) <= ReachableFrom(g, b)
  {}

  lemma ReachableFromClosed(g: Graph, starts: set<Oid>)
    ensures Closed(g, ReachableFrom(g, starts))
    ensures forall s :: s in starts && s in g ==> s in ReachableFrom(g, starts)
  {
    forall x, y | x in ReachableFrom(g, starts) && Edge(g, x, y) ensures y in ReachableFrom(g, starts) {
      var s :| s in starts && Reaches(g, s, x);
      ReachesThenEdge(g, s, x, y);
    }
    forall s | s in starts && s in g ensures s in ReachableFrom(g, starts) { ReachesRefl(g, s); }
  }

  /** What a run has established so far: `covered` commits are common by what was learned, `scope` is all that
      may enter the queue, and `announced` is what was told to the remote. */
  datatype Context = Context(g: Graph, covered: set<Oid>, scope: set<Oid>, announced: set<Oid>)

  ghost predicate ParentsCovered(c: Context, x: Oid) {
    forall p :: Edge(c.g, x, p) ==> p in c.covered
  }

  ghost predicate ParentsSeen(g: Graph, data: Marks, x: Oid) {
    forall p :: Edge(g, x, p) ==> Of(data, p).seen
  }

  /** Every popped commit other than `except` has handed the walk on to all of its parents. */
  ghost predicate WalkContinues(g: Graph, data: Marks, except: set<Oid>) {
    forall x :: Of(data, x).popped && x !in except ==> ParentsSeen(g, data, x)
  }

  ghost predicate GrowsAt(data: Marks, new_: Marks, x: Oid) {
    && (Of(data, x).seen ==> Of(new_, x).seen)
    && (Of(data, x).common ==> Of(new_, x).common)
    && (Of(data, x).commonRef ==> Of(new_, x).commonRef)
    && Of(new_, x).popped == Of(data, x).popped
  }

  ghost predicate Grows(data: Marks, new_: Marks) {
    forall x :: GrowsAt(data, new_, x)
  }

  lemma GrowsTrans(a: Marks, b: Marks, c: Marks)
    requires Grows(a, b) && Grows(b, c)
    ensures Grows(a, c)
  {
    forall x ensures GrowsAt(a, c, x) { assert GrowsAt(a, b, x) && GrowsAt(b, c, x); }
  }

  lemma WalkStillContinues(g: Graph, data: Marks, new_: Marks, except: set<Oid>)
    requires WalkContinues(g, data, except) && Grows(data, new_)
    ensures WalkContinues(g, new_, except)
  {
    forall x | Of(new_, x).popped && x !in except ensures ParentsSeen(g, new_, x) {
      assert GrowsAt(data, new_, x);
      assert ParentsSeen(g, data, x);
      forall p | Edge(g, x, p) ensures Of(new_, p).seen { assert GrowsAt(data, new_, p); }
    }
  }

  ghost function NotCommon(g: Graph, data: Marks): set<Oid> {
    set x | x in g && !Of(data, x).common
  }

  lemma NotCommonShrinks(g: Graph, data: Marks, new_: Marks)
    requires Grows(data, new_)
    ensures NotCommon(g, new_) <= NotCommon(g, data)
  {
    forall x | x in NotCommon(g, new_) ensures x in NotCommon(g, data) { assert GrowsAt(data, new_, x); }
  }

  /** Whatever was queued is queued still, or was popped. */
  ghost predicate StillQueued(queued: multiset<Oid>, revs: multiset<Oid>, data: Marks) {
    forall x :: x in queued ==> x in revs || Of(data, x).popped
  }

  /** No commit that was queued before and is queued still is newer than `r`. */
  ghost predicate Newest(h: History, queued: multiset<Oid>, revs: multiset<Oid>, r: Oid) {
    forall x :: x in queued && x in revs ==> h.time(x) <= h.time(r)
  }

  lemma QueuedSince(g: Graph, first: multiset<Oid>, queued: multiset<Oid>, data: Marks, id: Oid, revs: multiset<Oid>,
                    new_: Marks)
    requires StillQueued(first, queued, data) && data.Keys <= g.Keys && queued - multiset{id} <= revs
    requires NotPopped(g, new_) <= NotPopped(g, data) && Of(new_, id).popped
    ensures StillQueued(first, revs, new_)
    ensures forall x :: x in first && x !in queued ==> Of(new_, x).popped
  {
    forall x | x in first ensures (x in revs || Of(new_, x).popped) && (x !in queued ==> Of(new_, x).popped) {
      if x !in queued {
        assert x in g && x !in NotPopped(g, data);
        assert x !in NotPopped(g, new_);
      }
    }
  }

  ghost predicate NonePopped(revs: multiset<Oid>, data: Marks) {
    forall x :: x in revs ==> !Of(data, x).popped
  }

  lemma NewestIsTop(h: History, first: multiset<Oid>, queued: multiset<Oid>, id: Oid, revs: multiset<Oid>, new_: Marks)
    requires IsTop(queued, ByTime(h), id) && NonePopped(revs, new_)
    requires forall x :: x in first && x !in queued ==> Of(new_, x).popped
    ensures Newest(h, first, revs, id)
  {
  }

  ghost predicate ParentsCommon(g: Graph, data: Marks, x: Oid) {
    forall p :: Edge(g, x, p) ==> Of(data, p).common
  }

  ghost predicate Newly(data: Marks, new_: Marks, x: Oid) {
    Of(new_, x).common && !Of(data, x).common
  }

  ghost function NotPopped(g: Graph, data: Marks): set<Oid> {
    set x | x in g && !Of(data, x).popped
  }

  lemma GrowsRefl(data: Marks)
    ensures Grows(data, data)
  {
  }

  lemma WaitingHas(data: Marks, x: Oid)
    requires Waits(Of(data, x))
    ensures |Waiting(data)| >= 1
  {
    assert x in Waiting(data);
  }

  lemma CoveredParents(c: Context, x: Oid)
    requires Closed(c.g, c.covered) && x in c.covered
    ensures ParentsCovered(c, x)
  {}

  ghost predicate AllSeen(g: Graph, tips: set<Oid>, data: Marks) {
    forall t :: t in tips && t in g ==> Of(data, t).seen
  }

  lemma StillSeen(g: Graph, tips: set<Oid>, data: Marks, new_: Marks)
    requires AllSeen(g, tips, data) && Grows(data, new_)
    ensures AllSeen(g, tips, new_)
  {
    forall t | t in tips && t in g ensures Of(new_, t).seen { assert GrowsAt(data, new_, t); }
  }

  lemma KnownParentsCovered(c: Context, known: set<Oid>, acked: set<Oid>, id: Oid)
    requires c.covered == Covered(c.g, known, acked) && id in known
    ensures ParentsCovered(c, id)
  {
    CoveredClosed(c.g, known, acked);
  }

  ghost predicate CommonStays(data: Marks, new_: Marks) {
    forall x :: Of(data, x).common ==> Of(new_, x).common
  }

  // ----- entering the queue

  ghost predicate EnteredAt(entered: multiset<Oid>, data: Marks, x: Oid) {
    entered[x] == if Of(data, x).seen then 1 else 0
  }

  /** Over the whole run so far, exactly the seen commits entered the queue, and each of them once. */
  ghost predicate EnteredOnce(entered: multiset<Oid>, data: Marks) {
    forall x :: EnteredAt(entered, data, x)
  }

  lemma EnterOne(entered: multiset<Oid>, data: Marks, id: Oid, f: Flags)
    requires EnteredOnce(entered, data) && !Of(data, id).seen && f.seen
    ensures EnteredOnce(entered + multiset{id}, SetFlags(data, id, f))
  {
    forall x ensures EnteredAt(entered + multiset{id}, SetFlags(data, id, f), x) {
      assert EnteredAt(entered, data, x);
    }
  }

  /** Changes that leave SEEN alone queue nothing. */
  lemma NoneEntered(entered: multiset<Oid>, data: Marks, new_: Marks)
    requires EnteredOnce(entered, data) && forall x :: Of(new_, x).seen == Of(data, x).seen
    ensures EnteredOnce(entered, new_)
  {
    forall x ensures EnteredAt(entered, new_, x) { assert EnteredAt(entered, data, x); }
  }

  /** With the same entries, the same commits are seen. */
  lemma SameSeen(entered: multiset<Oid>, data: Marks, new_: Marks, x: Oid)
    requires EnteredOnce(entered, data) && EnteredOnce(entered, new_)
    ensures Of(new_, x).seen == Of(data, x).seen
  {
    assert EnteredAt(entered, data, x) && EnteredAt(entered, new_, x);
  }
}
