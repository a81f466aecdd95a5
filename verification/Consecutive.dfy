/** Consecutive negotiation: announce commits one after another, newest first, until all that is left is
    known to be common with the remote. */
module Consecutive {
  import opened Digraph
  import opened History
  import opened Negotiation
  import opened Options

  /** The flags of `x` are truthful and agree with its place in the queue. */
  ghost predicate Truthful(c: Context, data: Marks, revs: multiset<Oid>, x: Oid) {
    var f := Of(data, x);
    && (f.common ==> x in c.covered)
    && (f.commonRef ==> f.seen && ParentsCovered(c, x))
    && (f.seen ==> x in c.scope)
    && (f.popped ==> f.seen)
    && revs[x] <= 1
    && (x in revs ==> f.seen && !f.popped)
    && (f.seen && !f.popped && !f.common ==> x in revs)
    && (f.popped && x !in c.announced ==> x in c.covered)
    && (x in c.announced ==> f.popped)
  }

  /** All flags are truthful and the counter is exact. */
  ghost predicate Consistent(c: Context, data: Marks, revs: multiset<Oid>, count: int) {
    && data.Keys <= c.g.Keys
    && Closed(c.g, c.covered) && Closed(c.g, c.scope)
    && (forall x :: Truthful(c, data, revs, x))
    && count == |Waiting(data)|
  }

  // ----- single changes of one commit

  /** It is enough to look at the commit whose flags changed. */
  lemma OneChange(c: Context, data: Marks, revs: multiset<Oid>, new_: Marks, newRevs: multiset<Oid>, id: Oid)
    requires forall x :: Truthful(c, data, revs, x)
    requires new_ == SetFlags(data, id, Of(new_, id)) && forall x :: x != id ==> newRevs[x] == revs[x]
    requires Truthful(c, data, revs, id) ==> Truthful(c, new_, newRevs, id) && GrowsAt(data, new_, id)
    ensures forall x :: Truthful(c, new_, newRevs, x)
    ensures Grows(data, new_)
  {
    assert Truthful(c, data, revs, id);
    forall x ensures Truthful(c, new_, newRevs, x) { assert Truthful(c, data, revs, x); }
    forall x ensures GrowsAt(data, new_, x) {}
  }

  /** Adding `mark` to a commit, queueing it unless it had one of the marks before. */
  lemma QueueOne(c: Context, data: Marks, revs: multiset<Oid>, count: int, id: Oid, mark: Flags)
    requires Consistent(c, data, revs, count) && id in c.scope && id in c.g
    requires mark == SEEN || (!Of(data, id).seen && (mark == Join(COMMON, SEEN) || mark == Join(COMMON_REF, SEEN)))
    requires mark.common ==> id in c.covered && !Of(data, id).common
    requires mark.commonRef ==> ParentsCovered(c, id)
    ensures var f := Of(data, id);
      var hasMark, new_ := Intersects(f, mark), SetFlags(data, id, Join(f, mark));
      && (hasMark <==> f.seen) && Grows(data, new_)
      && Consistent(c, new_, if hasMark then revs else revs + multiset{id},
                    if hasMark || Join(f, mark).common then count else count + 1)
  {
    var f := Of(data, id);
    var hasMark, new_ := Intersects(f, mark), SetFlags(data, id, Join(f, mark));
    var newRevs := if hasMark then revs else revs + multiset{id};
    assert Truthful(c, data, revs, id);
    OneChange(c, data, revs, new_, newRevs, id);
    WaitingAfter(data, id, Join(f, mark));
  }

  /** Learning that a commit is common takes it off the count if it was counted. */
  lemma CommonOne(c: Context, data: Marks, revs: multiset<Oid>, count: int, id: Oid)
    requires Consistent(c, data, revs, count) && id in c.covered && id in c.g && !Of(data, id).common
    ensures var f := Of(data, id);
      var new_ := SetFlags(data, id, f.(common := true));
      && Grows(data, new_)
      && Consistent(c, new_, revs, if f.seen && !f.popped then count - 1 else count)
  {
    var f := Of(data, id);
    var new_ := SetFlags(data, id, f.(common := true));
    OneChange(c, data, revs, new_, revs, id);
    WaitingAfter(data, id, f.(common := true));
  }

  /** Popping a commit announces it unless it is known to be common. */
  lemma PopOne(c: Context, data: Marks, revs: multiset<Oid>, count: int, id: Oid)
    requires Consistent(c, data, revs, count) && id in revs
    ensures var f := Of(data, id);
      var new_ := SetFlags(data, id, f.(popped := true));
      Consistent(if f.common then c else c.(announced := c.announced + {id}), new_, revs - multiset{id},
                 if f.common then count else count - 1)
    ensures id in data && id !in c.announced && !Of(data, id).popped
  {
    var f := Of(data, id);
    assert Truthful(c, data, revs, id);
    var new_ := SetFlags(data, id, f.(popped := true));
    var c' := if f.common then c else c.(announced := c.announced + {id});
    forall x ensures Truthful(c', new_, revs - multiset{id}, x) { assert Truthful(c, data, revs, x); }
    WaitingAfter(data, id, f.(popped := true));
  }

  /** Learning more keeps everything that was established. */
  lemma Widen(c: Context, c': Context, data: Marks, revs: multiset<Oid>, count: int)
    requires Consistent(c, data, revs, count)
    requires c'.g == c.g && c'.announced == c.announced && c.covered <= c'.covered && c.scope <= c'.scope
    requires Closed(c'.g, c'.covered) && Closed(c'.g, c'.scope)
    ensures Consistent(c', data, revs, count)
  {
    forall x ensures Truthful(c', data, revs, x) { assert Truthful(c, data, revs, x); }
  }

  /** Loading a commit without touching its flags changes nothing. */
  lemma LoadOne(c: Context, data: Marks, revs: multiset<Oid>, count: int, id: Oid)
    requires Consistent(c, data, revs, count) && id in c.g && id !in data
    ensures Consistent(c, data[id := NO_DATA], revs, count) && Grows(data, data[id := NO_DATA])
  {
    var new_ := data[id := NO_DATA];
    forall x ensures Truthful(c, new_, revs, x) { assert Truthful(c, data, revs, x); }
    assert Waiting(new_) == Waiting(data);
    forall x ensures GrowsAt(data, new_, x) {}
  }

  /** Only present commits whose parents are covered are followed when spreading COMMON. */
  ghost predicate Spreadable(c: Context, queue: multiset<(Oid, nat)>) {
    forall item :: item in queue ==> item.0 in c.g && item.0 in c.scope && ParentsCovered(c, item.0)
  }

  datatype Mark = AncestorsOnly | ThisCommitAndAncestors

  datatype Ancestors = DirectUnseen | AllUnseen

  // ----- how far COMMON spreads

  /** A commit reached after `k` steps: if it was seen its parents are common, unless it is too far away; otherwise it
      is seen now, so that it will hand on to its parents when it is popped. */
  ghost predicate Handled(g: Graph, all: bool, data: Marks, new_: Marks, x: Oid, k: nat) {
    if Of(data, x).seen then all || k < 2 ==> ParentsCommon(g, new_, x) else Of(new_, x).seen
  }

  ghost predicate SpreadingAt(g: Graph, all: bool, data: Marks, new_: Marks, queue: multiset<(Oid, nat)>,
                              steps: map<Oid, nat>, start: Oid, x: Oid) {
    && (x in steps <==> x == start || Newly(data, new_, x))
    && (x in steps ==> (x, steps[x]) in queue || Handled(g, all, data, new_, x, steps[x]))
    && (Of(new_, x).seen && !Of(data, x).seen ==> x in steps)
  }

  /** `steps` holds the start and all that became common, with their distance from the start. Each is queued or
      handled. */
  ghost predicate Spreading(g: Graph, all: bool, data: Marks, new_: Marks, queue: multiset<(Oid, nat)>,
                            steps: map<Oid, nat>, start: Oid) {
    && (forall x :: SpreadingAt(g, all, data, new_, queue, steps, start, x))
    && (forall item :: item in queue ==> item.0 in steps)
  }

  /** The parents of the start are one step away. */
  ghost predicate NearDone(g: Graph, data: Marks, new_: Marks, steps: map<Oid, nat>, start: Oid) {
    Of(data, start).seen ==>
      ParentsCommon(g, new_, start) && forall p :: Edge(g, start, p) ==> p !in steps || steps[p] <= 1
  }

  ghost function Recorded(data: Marks, new_: Marks, steps: map<Oid, nat>, k: nat): map<Oid, nat> {
    map x | x in steps.Keys + new_.Keys && (x in steps || Newly(data, new_, x)) :: if x in steps then steps[x] else k
  }

  ghost predicate RequeuedAt(data: Marks, new_: Marks, k: nat, rest: multiset<(Oid, nat)>, queue: multiset<(Oid, nat)>,
                             item: (Oid, nat)) {
    queue[item] == rest[item] + if item.1 == k && Newly(data, new_, item.0) then 1 else 0
  }

  /** `queue` holds `rest` and, once, what became common. */
  ghost predicate Requeued(data: Marks, new_: Marks, k: nat, rest: multiset<(Oid, nat)>, queue: multiset<(Oid, nat)>) {
    forall item :: RequeuedAt(data, new_, k, rest, queue, item)
  }

  /** Only parents of a seen commit become common, and none of one that is too far away. */
  ghost predicate FollowedAt(g: Graph, all: bool, data: Marks, new_: Marks, item: (Oid, nat), x: Oid) {
    Newly(data, new_, x) ==> Edge(g, item.0, x) && Of(data, item.0).seen && (all || item.1 < 2)
  }

  /** What one round does to the flags and to the queue. */
  ghost predicate Round(g: Graph, all: bool, data: Marks, new_: Marks, item: (Oid, nat), rest: multiset<(Oid, nat)>,
                        queue: multiset<(Oid, nat)>) {
    && Grows(data, new_) && Requeued(data, new_, item.1 + 1, rest, queue)
    && (forall x :: Of(new_, x).seen && !Of(data, x).seen ==> x == item.0)
    && Handled(g, all, data, new_, item.0, item.1)
    && (forall x :: FollowedAt(g, all, data, new_, item, x))
  }

  lemma HandledGrows(g: Graph, all: bool, data: Marks, mid: Marks, new_: Marks, x: Oid, k: nat)
    requires Handled(g, all, data, mid, x, k) && Grows(mid, new_)
    ensures Handled(g, all, data, new_, x, k)
  {
    assert GrowsAt(mid, new_, x);
    forall p | Edge(g, x, p) ensures Of(mid, p).common ==> Of(new_, p).common { assert GrowsAt(mid, new_, p); }
  }

  lemma SpreadRound(g: Graph, all: bool, data: Marks, mid: Marks, new_: Marks, before: multiset<(Oid, nat)>,
                    item: (Oid, nat), queue: multiset<(Oid, nat)>, steps: map<Oid, nat>, start: Oid)
    requires Grows(data, mid) && Spreading(g, all, data, mid, before, steps, start) && item in before
    requires Round(g, all, mid, new_, item, before - multiset{item}, queue)
    ensures Spreading(g, all, data, new_, queue, Recorded(mid, new_, steps, item.1 + 1), start)
  {
    var k, rest := item.1 + 1, before - multiset{item};
    var steps' := Recorded(mid, new_, steps, k);
    forall other | other in queue ensures other.0 in steps' {
      assert RequeuedAt(mid, new_, k, rest, queue, other);
    }
    forall x ensures SpreadingAt(g, all, data, new_, queue, steps', start, x) {
      assert SpreadingAt(g, all, data, mid, before, steps, start, x);
      assert GrowsAt(data, mid, x) && GrowsAt(mid, new_, x) && RequeuedAt(mid, new_, k, rest, queue, (x, k));
      if x in steps { assert RequeuedAt(mid, new_, k, rest, queue, (x, steps[x])); }
      if x in steps && (x, steps[x]) !in queue {
        if (x, steps[x]) == item {
          assert Handled(g, all, mid, new_, x, steps[x]);
        } else {
          HandledGrows(g, all, data, mid, new_, x, steps[x]);
        }
      }
    }
  }

  ghost predicate MarkedAt(g: Graph, parents: seq<Oid>, data: Marks, new_: Marks, x: Oid) {
    Of(new_, x) == if x in parents && x in g then Of(data, x).(common := true) else Of(data, x)
  }

  /** Exactly the present parents became common, and those that were not common before were queued. */
  ghost predicate Marked(g: Graph, parents: seq<Oid>, k: nat, data: Marks, new_: Marks, queue: multiset<(Oid, nat)>,
                         queue': multiset<(Oid, nat)>) {
    && (forall x :: MarkedAt(g, parents, data, new_, x))
    && Requeued(data, new_, k, queue, queue')
  }

  lemma MarkedNext(g: Graph, parents: seq<Oid>, i: nat, k: nat, data: Marks, mid: Marks, new_: Marks,
                   queue: multiset<(Oid, nat)>, before: multiset<(Oid, nat)>, queue': multiset<(Oid, nat)>)
    requires i < |parents| && Marked(g, parents[..i], k, data, mid, queue, before)
    requires var p := parents[i];
      if p in g && !Of(mid, p).common then
        new_ == SetFlags(mid, p, Of(mid, p).(common := true)) && queue' == before + multiset{(p, k)}
      else new_ == mid && queue' == before
    ensures Marked(g, parents[..i + 1], k, data, new_, queue, queue')
  {
    var upTo, p := parents[..i + 1], parents[i];
    forall x
      ensures MarkedAt(g, upTo, data, new_, x)
      ensures Newly(data, new_, x) <==> Newly(data, mid, x) || Newly(mid, new_, x)
    {
      assert MarkedAt(g, parents[..i], data, mid, x);
      assert x in upTo <==> x in parents[..i] || x == p;
    }
    forall item ensures RequeuedAt(data, new_, k, queue, queue', item) {
      assert RequeuedAt(data, mid, k, queue, before, item);
    }
  }

  /** Marking all parents is one round. */
  lemma MarkedIsRound(g: Graph, all: bool, data: Marks, new_: Marks, item: (Oid, nat), rest: multiset<(Oid, nat)>,
                      queue: multiset<(Oid, nat)>)
    requires Grows(data, new_) && item.0 in g && Of(data, item.0).seen && (all || item.1 < 2)
    requires Marked(g, g[item.0], item.1 + 1, data, new_, rest, queue)
    ensures Round(g, all, data, new_, item, rest, queue)
  {
    forall x ensures Of(new_, x).seen == Of(data, x).seen { assert MarkedAt(g, g[item.0], data, new_, x); }
    forall p | Edge(g, item.0, p) ensures Of(new_, p).common { assert MarkedAt(g, g[item.0], data, new_, p); }
    forall x ensures FollowedAt(g, all, data, new_, item, x) { assert MarkedAt(g, g[item.0], data, new_, x); }
  }

  /** Queueing an unseen commit is one round. */
  lemma SeenIsRound(g: Graph, all: bool, data: Marks, new_: Marks, item: (Oid, nat), rest: multiset<(Oid, nat)>)
    requires Grows(data, new_) && !Of(data, item.0).seen
    requires new_ == SetFlags(data, item.0, Of(data, item.0).(seen := true))
    ensures Round(g, all, data, new_, item, rest, rest) && NotCommon(g, new_) == NotCommon(g, data)
  {
    var k := item.1 + 1;
    forall other ensures RequeuedAt(data, new_, k, rest, rest, other) {}
    forall x ensures FollowedAt(g, all, data, new_, item, x) {}
  }

  /** A commit that is too far away ends the spreading there. */
  lemma NothingIsRound(g: Graph, data: Marks, item: (Oid, nat), rest: multiset<(Oid, nat)>)
    requires Of(data, item.0).seen && item.1 >= 2
    ensures Round(g, false, data, data, item, rest, rest)
  {
    var k := item.1 + 1;
    forall other ensures RequeuedAt(data, data, k, rest, rest, other) {}
  }

  /** What spreading has done: parents of the start are common if it was seen; so are the parents of everything that
      was seen and became common, or only of the parents of the start; whatever became common without having been seen
      is seen now, and nothing else; and nothing became common that was not reached. */
  ghost predicate SpreadFrom(g: Graph, all: bool, data: Marks, new_: Marks, start: Oid) {
    && Of(new_, start).seen && (Of(data, start).seen ==> ParentsCommon(g, new_, start))
    && (forall x :: SpreadTo(g, all, data, new_, start, x))
  }

  ghost predicate SpreadTo(g: Graph, all: bool, data: Marks, new_: Marks, start: Oid, x: Oid) {
    && (Newly(data, new_, x) && Of(data, x).seen && (all || (Of(data, start).seen && Edge(g, start, x))) ==>
          ParentsCommon(g, new_, x))
    && (Newly(data, new_, x) ==> Of(new_, x).seen)
    && (Of(new_, x).seen && !Of(data, x).seen ==> x == start || Newly(data, new_, x))
    && (Newly(data, new_, x) ==> x == start || Reached(g, all, data, start, x))
  }

  lemma SpreadEnds(g: Graph, all: bool, data: Marks, new_: Marks, steps: map<Oid, nat>, start: Oid)
    requires Grows(data, new_) && Spreading(g, all, data, new_, multiset{}, steps, start)
       && NearDone(g, data, new_, steps, start) && OnlyReached(g, all, data, new_, start)
    ensures SpreadFrom(g, all, data, new_, start)
  {
    assert SpreadingAt(g, all, data, new_, multiset{}, steps, start, start) && GrowsAt(data, new_, start);
    forall x ensures SpreadTo(g, all, data, new_, start, x) {
      assert SpreadingAt(g, all, data, new_, multiset{}, steps, start, x);
      assert GrowsAt(data, new_, x) && ReachedIfNew(g, all, data, new_, start, x);
    }
  }

  lemma SpreadStarts(g: Graph, all: bool, data: Marks, start: Oid)
    ensures Spreading(g, all, data, data, multiset{(start, 0)}, map[start := 0], start)
    ensures ItemsReached(g, all, data, data, multiset{(start, 0)}, map[start := 0], start)
    ensures OnlyReached(g, all, data, data, start)
  {
  }

  lemma NearNext(g: Graph, all: bool, data: Marks, mid: Marks, new_: Marks, item: (Oid, nat),
                 before: multiset<(Oid, nat)>, queue: multiset<(Oid, nat)>, steps: map<Oid, nat>, start: Oid,
                 first: bool)
    requires Grows(data, mid) && item in before && Round(g, all, mid, new_, item, before - multiset{item}, queue)
    requires first ==> before == multiset{(start, 0)} && mid == data && steps == map[start := 0]
    requires !first ==> NearDone(g, data, mid, steps, start)
    ensures NearDone(g, data, new_, Recorded(mid, new_, steps, item.1 + 1), start)
  {
    if first {
      assert item == (start, 0);
    } else {
      forall p | Edge(g, start, p) ensures Of(mid, p).common ==> Of(new_, p).common { assert GrowsAt(mid, new_, p); }
    }
  }

  // ----- how far COMMON spreads at most

  /** `x` is `k` steps below the start, and all commits on the way there were seen. */
  ghost predicate SeenWalk(g: Graph, data: Marks, start: Oid, x: Oid, k: nat)
    decreases k
  {
    if k == 0 then x == start
    else exists y :: SeenWalk(g, data, start, y, k - 1) && Of(data, y).seen && Edge(g, y, x)
  }

  /** `x` was reached: in one step or two unless there is no limit. */
  ghost predicate Reached(g: Graph, all: bool, data: Marks, start: Oid, x: Oid) {
    exists k: nat :: 0 < k && (all || k <= 2) && SeenWalk(g, data, start, x, k)
  }

  ghost predicate ReachedIfNew(g: Graph, all: bool, data: Marks, new_: Marks, start: Oid, x: Oid) {
    Newly(data, new_, x) ==> Reached(g, all, data, start, x)
  }

  /** Whatever became common was reached. */
  ghost predicate OnlyReached(g: Graph, all: bool, data: Marks, new_: Marks, start: Oid) {
    forall x :: ReachedIfNew(g, all, data, new_, start, x)
  }

  /** A queued item was reached in as many steps as it says; apart from the start it is queued once, and it was seen
      before if it is seen now. */
  ghost predicate ItemReached(g: Graph, all: bool, data: Marks, new_: Marks, queue: multiset<(Oid, nat)>,
                              steps: map<Oid, nat>, start: Oid, item: (Oid, nat)) {
    item in queue ==>
      && SeenWalk(g, data, start, item.0, item.1) && (all || item.1 <= 2)
      && (item.0 != start ==> queue[item] == 1 && item.0 in steps && item.1 == steps[item.0])
      && (Of(new_, item.0).seen ==> Of(data, item.0).seen)
  }

  ghost predicate ItemsReached(g: Graph, all: bool, data: Marks, new_: Marks, queue: multiset<(Oid, nat)>,
                               steps: map<Oid, nat>, start: Oid) {
    forall item :: ItemReached(g, all, data, new_, queue, steps, start, item)
  }

  /** What became common in a round is one step further. */
  lemma NewIsReached(g: Graph, all: bool, data: Marks, mid: Marks, new_: Marks, before: multiset<(Oid, nat)>,
                     item: (Oid, nat), queue: multiset<(Oid, nat)>, steps: map<Oid, nat>, start: Oid, x: Oid)
    requires ItemReached(g, all, data, mid, before, steps, start, item) && item in before && Newly(mid, new_, x)
    requires Round(g, all, mid, new_, item, before - multiset{item}, queue)
    ensures SeenWalk(g, data, start, x, item.1 + 1) && (all || item.1 + 1 <= 2)
  {
    assert FollowedAt(g, all, mid, new_, item, x);
  }

  lemma RoundReaches(g: Graph, all: bool, data: Marks, mid: Marks, new_: Marks, before: multiset<(Oid, nat)>,
                     item: (Oid, nat), queue: multiset<(Oid, nat)>, steps: map<Oid, nat>, start: Oid)
    requires ItemReached(g, all, data, mid, before, steps, start, item) && item in before
    requires OnlyReached(g, all, data, mid, start) && Round(g, all, mid, new_, item, before - multiset{item}, queue)
    ensures OnlyReached(g, all, data, new_, start)
  {
    var k: nat := item.1 + 1;
    forall x ensures ReachedIfNew(g, all, data, new_, start, x) {
      assert ReachedIfNew(g, all, data, mid, start, x);
      if Newly(mid, new_, x) {
        NewIsReached(g, all, data, mid, new_, before, item, queue, steps, start, x);
        assert 0 < k && SeenWalk(g, data, start, x, k);
      }
    }
  }

  lemma RoundReachesItem(g: Graph, all: bool, data: Marks, mid: Marks, new_: Marks, before: multiset<(Oid, nat)>,
                         item: (Oid, nat), queue: multiset<(Oid, nat)>, steps: map<Oid, nat>, start: Oid,
                         other: (Oid, nat))
    requires Grows(data, mid) && Spreading(g, all, data, mid, before, steps, start) && item in before
    requires ItemsReached(g, all, data, mid, before, steps, start) && other in queue
    requires Round(g, all, mid, new_, item, before - multiset{item}, queue)
    requires Of(data, start).seen || before == multiset{(start, 0)}
    ensures ItemReached(g, all, data, new_, queue, Recorded(mid, new_, steps, item.1 + 1), start, other)
  {
    var k, rest := item.1 + 1, before - multiset{item};
    assert RequeuedAt(mid, new_, k, rest, queue, other);
    assert SpreadingAt(g, all, data, mid, before, steps, start, other.0);
    assert ItemReached(g, all, data, mid, before, steps, start, item);
    assert ItemReached(g, all, data, mid, before, steps, start, other);
    assert GrowsAt(data, mid, other.0) && FollowedAt(g, all, mid, new_, item, other.0);
    if other !in rest {
      NewIsReached(g, all, data, mid, new_, before, item, queue, steps, start, other.0);
    }
  }

  /** Nothing follows from a start that was not seen. */
  lemma UnseenEnds(g: Graph, all: bool, data: Marks, new_: Marks, start: Oid, queue: multiset<(Oid, nat)>)
    requires !Of(data, start).seen && Round(g, all, data, new_, (start, 0), multiset{}, queue)
    ensures queue == multiset{}
  {
    forall other ensures queue[other] == 0 {
      assert RequeuedAt(data, new_, 1, multiset{}, queue, other) && FollowedAt(g, all, data, new_, (start, 0), other.0);
    }
  }

  lemma StillReached(g: Graph, all: bool, data: Marks, mid: Marks, new_: Marks, item: (Oid, nat),
                     before: multiset<(Oid, nat)>, queue: multiset<(Oid, nat)>, steps: map<Oid, nat>, start: Oid,
                     first: bool)
    requires Grows(data, mid) && Spreading(g, all, data, mid, before, steps, start) && item in before
    requires ItemsReached(g, all, data, mid, before, steps, start) && OnlyReached(g, all, data, mid, start)
    requires Round(g, all, mid, new_, item, before - multiset{item}, queue)
    requires first ==> before == multiset{(start, 0)} && mid == data
    requires Of(data, start).seen || first || before == multiset{}
    ensures ItemsReached(g, all, data, new_, queue, Recorded(mid, new_, steps, item.1 + 1), start)
    ensures OnlyReached(g, all, data, new_, start)
    ensures Of(data, start).seen || queue == multiset{}
  {
    var steps' := Recorded(mid, new_, steps, item.1 + 1);
    forall other ensures ItemReached(g, all, data, new_, queue, steps', start, other) {
      if other in queue { RoundReachesItem(g, all, data, mid, new_, before, item, queue, steps, start, other); }
    }
    assert ItemReached(g, all, data, mid, before, steps, start, item);
    RoundReaches(g, all, data, mid, new_, before, item, queue, steps, start);
    if !Of(data, start).seen {
      assert before - multiset{item} == multiset{};
      UnseenEnds(g, all, data, new_, start, queue);
    }
  }

  /** With more seen, nothing is lost. */
  lemma {:induction false} MoreSeenWalk(g: Graph, data: Marks, mid: Marks, start: Oid, x: Oid, k: nat)
    requires (forall y :: Of(data, y).seen ==> Of(mid, y).seen) && SeenWalk(g, data, start, x, k)
    ensures SeenWalk(g, mid, start, x, k)
    decreases k
  {
    if k > 0 {
      var y :| SeenWalk(g, data, start, y, k - 1) && Of(data, y).seen && Edge(g, y, x);
      MoreSeenWalk(g, data, mid, start, y, k - 1);
    }
  }

  /** A walk can begin one step earlier. */
  lemma {:induction false} LongerSeenWalk(g: Graph, data: Marks, child: Oid, start: Oid, x: Oid, k: nat)
    requires Of(data, child).seen && Edge(g, child, start) && SeenWalk(g, data, start, x, k)
    ensures SeenWalk(g, data, child, x, k + 1)
    decreases k
  {
    if k == 0 {
      assert SeenWalk(g, data, child, child, 0);
    } else {
      var y :| SeenWalk(g, data, start, y, k - 1) && Of(data, y).seen && Edge(g, y, x);
      LongerSeenWalk(g, data, child, start, y, k - 1);
      assert SeenWalk(g, data, child, y, k);
    }
  }

  /** Parents of a seen start, and parents of its seen parents. */
  ghost predicate Near(g: Graph, data: Marks, start: Oid, x: Oid) {
    && Of(data, start).seen
    && (Edge(g, start, x) || exists y :: Edge(g, start, y) && Of(data, y).seen && Edge(g, y, x))
  }

  lemma ReachedIsNear(g: Graph, data: Marks, start: Oid, x: Oid)
    ensures Reached(g, false, data, start, x) <==> Near(g, data, start, x)
  {
    OneStep(g, data, start);
    assert SeenWalk(g, data, start, x, 2) <==>
      exists y :: SeenWalk(g, data, start, y, 1) && Of(data, y).seen && Edge(g, y, x);
    if Reached(g, false, data, start, x) {
      var k: nat :| 0 < k && k <= 2 && SeenWalk(g, data, start, x, k);
      assert k == 1 || k == 2;
    }
  }

  lemma OneStep(g: Graph, data: Marks, start: Oid)
    ensures forall x :: SeenWalk(g, data, start, x, 1) <==> Of(data, start).seen && Edge(g, start, x)
  {
    forall x ensures SeenWalk(g, data, start, x, 1) <==> Of(data, start).seen && Edge(g, start, x) {
      assert SeenWalk(g, data, start, start, 0);
      assert forall y :: SeenWalk(g, data, start, y, 0) <==> y == start;
    }
  }

  ghost predicate SameFlags(data: Marks, new_: Marks) {
    forall x :: Of(new_, x) == Of(data, x)
  }

  /** Loading the start, or marking it as common as well, makes no difference to what spreading does. */
  lemma SpreadAfterMark(g: Graph, all: bool, data: Marks, mid: Marks, new_: Marks, start: Oid)
    requires SpreadFrom(g, all, mid, new_, start) && Grows(mid, new_)
    requires forall x :: x != start ==> Of(mid, x) == Of(data, x)
    requires Of(mid, start) == Of(data, start) || Of(mid, start) == Of(data, start).(common := true)
    ensures SpreadFrom(g, all, data, new_, start)
  {
    forall x ensures SpreadTo(g, all, data, new_, start, x) {
      assert SpreadTo(g, all, mid, new_, start, x) && GrowsAt(mid, new_, x);
      if Reached(g, all, mid, start, x) {
        var k: nat :| 0 < k && (all || k <= 2) && SeenWalk(g, mid, start, x, k);
        MoreSeenWalk(g, mid, data, start, x, k);
      }
    }
  }

  /** Whatever became common since `data` is the start or near to it. */
  ghost predicate OnlyNear(g: Graph, seen: Marks, data: Marks, new_: Marks, start: Oid) {
    forall x :: Newly(data, new_, x) ==> x == start || Near(g, seen, start, x)
  }

  lemma MarkedIsNear(g: Graph, queued: Marks, new_: Marks, start: Oid, data: Marks)
    requires SameFlags(queued, new_) || SpreadFrom(g, false, queued, new_, start)
    requires queued == data || queued == SetFlags(data, start, Join(Of(data, start), Join(COMMON_REF, SEEN)))
    ensures OnlyNear(g, queued, data, new_, start)
    ensures queued != data ==> OnlyNear(g, SetFlags(data, start, SEEN), data, new_, start)
  {
    forall x | Newly(data, new_, x) ensures x == start || Near(g, queued, start, x) {
      if !SameFlags(queued, new_) {
        assert SpreadTo(g, false, queued, new_, start, x);
        ReachedIsNear(g, queued, start, x);
      }
    }
  }

  /** Whatever is common was seen. While COMMON spreads, this does not hold for what is still to be followed. */
  ghost predicate CommonSeen(data: Marks) {
    forall x :: Of(data, x).common ==> Of(data, x).seen
  }

  lemma StillCommonSeen(g: Graph, all: bool, data: Marks, new_: Marks, start: Oid)
    requires CommonSeen(data) && Grows(data, new_)
    requires SameFlags(data, new_) || SpreadFrom(g, all, data, new_, start)
    ensures CommonSeen(new_)
  {
    forall x | Of(new_, x).common ensures Of(new_, x).seen {
      assert GrowsAt(data, new_, x);
      assert SpreadFrom(g, all, data, new_, start) ==> SpreadTo(g, all, data, new_, start, x);
    }
  }

  /** Everything a walk maintains besides what the flags of single commits mean: it goes on to all parents. */
  ghost predicate Walk(g: Graph, seeds: set<Oid>, data: Marks) {
    WalkContinues(g, data, {}) && AllSeen(g, seeds, data) && CommonSeen(data)
  }

  lemma WalkGrows(g: Graph, seeds: set<Oid>, data: Marks, new_: Marks)
    requires Walk(g, seeds, data) && Grows(data, new_) && CommonSeen(new_)
    ensures Walk(g, seeds, new_)
  {
    WalkStillContinues(g, data, new_, {});
    StillSeen(g, seeds, data, new_);
  }

  class Algorithm {
    const graph: CommitGraph<Metadata>
    var revs: multiset<Oid>
    var nonCommonRevs: nat

    // The history of the run: everything that was passed in, everything that was announced, and everything that was
    // ever queued.
    ghost var tips: set<Oid>
    ghost var known: set<Oid>
    ghost var acked: set<Oid>
    ghost var announced: set<Oid>
    ghost var entered: multiset<Oid>

    ghost function Run(): Context reads this {
      var g := graph.history.parents;
      Context(g, Covered(g, known, acked), ReachableFrom(g, tips + known + acked), announced)
    }

    ghost predicate Holds(c: Context) reads this, graph {
      && graph.Valid() && c.g == graph.history.parents && Consistent(c, graph.data, revs, nonCommonRevs)
      && EnteredOnce(entered, graph.data)
    }

    ghost predicate Valid() reads this, graph {
      Holds(Run()) && Walk(graph.history.parents, tips, graph.data)
    }

    constructor (graph: CommitGraph<Metadata>)
      requires graph.Valid() && Untouched(graph.data)
      ensures Valid() && this.graph == graph
      ensures revs == multiset{} && nonCommonRevs == 0
      ensures tips == {} && known == {} && acked == {} && announced == {} && entered == multiset{}
    {
      this.graph := graph;
      revs, nonCommonRevs := multiset{}, 0;
      tips, known, acked, announced, entered := {}, {}, {}, {}, multiset{};
      new;
      CoveredClosed(graph.history.parents, {}, {});
      ReachableFromClosed(graph.history.parents, {});
      Fresh(Run(), graph.data);
      assert tips + known + acked == {};
    }

    /** Adds `mark` to a commit and queues it if none of the marks were set before. */
    method AddToQueue(ghost c: Context, id: Oid, mark: Flags)
      requires Holds(c) && (id in c.g ==> id in c.scope)
      requires mark == SEEN || mark == Join(COMMON, SEEN) || mark == Join(COMMON_REF, SEEN)
      requires mark != SEEN ==> !Of(graph.data, id).seen
      requires id in c.g ==> (mark.common ==> id in c.covered) && (mark.commonRef ==> ParentsCovered(c, id))
      requires mark.common ==> !Of(graph.data, id).common
      modifies this`revs, this`nonCommonRevs, this`entered, graph`data
      ensures Holds(c) && Grows(old(graph.data), graph.data)
      ensures id in c.g ==> Of(graph.data, id).seen
      ensures graph.data ==
        if id in c.g then SetFlags(old(graph.data), id, Join(Of(old(graph.data), id), mark)) else old(graph.data)
      ensures var queued := if id in c.g && !Of(old(graph.data), id).seen then multiset{id} else multiset{};
        revs == old(revs) + queued && entered == old(entered) + queued
    {
      ghost var data := graph.data;
      var present := graph.GetOrInsert(id, NO_DATA);
      if present {
        QueueOne(c, data, revs, nonCommonRevs, id, mark);
        Loaded(data, id, graph.data, Join(Of(data, id), mark));
        var flags := graph.data[id].flags;
        graph.data := SetFlags(graph.data, id, Join(flags, mark));
        if !Intersects(flags, mark) {
          EnterOne(entered, data, id, Join(flags, mark));
          entered := entered + multiset{id};
          revs := revs + multiset{id};
          if !Join(flags, mark).common {
            nonCommonRevs := nonCommonRevs + 1;
          }
        } else {
          NoneEntered(entered, data, graph.data);
        }
      } else {
        forall x ensures GrowsAt(data, graph.data, x) {}
      }
    }

    /** Sets COMMON on a present commit and keeps the count exact; tells if this was news. */
    method SetCommon(ghost c: Context, id: Oid) returns (news: bool)
      requires Holds(c) && (id in c.g ==> id in c.covered)
      modifies this`nonCommonRevs, graph`data
      ensures Holds(c) && Grows(old(graph.data), graph.data)
      ensures news <==> id in c.g && !Of(old(graph.data), id).common
      ensures news ==> graph.data == SetFlags(old(graph.data), id, Of(old(graph.data), id).(common := true))
      ensures news ==> NotCommon(c.g, graph.data) < old(NotCommon(c.g, graph.data))
      ensures !news ==> graph.data == old(graph.data)
    {
      ghost var data := graph.data;
      var present := graph.GetOrInsert(id, NO_DATA);
      news := present && !graph.data[id].flags.common;
      if news {
        var prevFlags := graph.data[id].flags;
        CommonOne(c, data, revs, nonCommonRevs, id);
        graph.data := SetFlags(graph.data, id, prevFlags.(common := true));
        assert graph.data == SetFlags(data, id, prevFlags.(common := true));
        NoneEntered(entered, data, graph.data);
        if prevFlags.seen && !prevFlags.popped {
          WaitingHas(data, id);
          nonCommonRevs := nonCommonRevs - 1;
        }
        NotCommonShrinks(c.g, data, graph.data);
        assert id in NotCommon(c.g, data) && id !in NotCommon(c.g, graph.data);
      } else {
        GrowsRefl(data);
      }
    }

    /** Marks the present ones of `parents` as common and queues those that were not. */
    method SpreadToParents(ghost c: Context, parents: seq<Oid>, generation: nat, queue: multiset<(Oid, nat)>)
      returns (newQueue: multiset<(Oid, nat)>)
      requires Holds(c) && Spreadable(c, queue)
      requires forall p :: p in parents && p in c.g ==> p in c.covered && p in c.scope
      modifies this`nonCommonRevs, graph`data
      ensures Holds(c) && Grows(old(graph.data), graph.data) && Spreadable(c, newQueue)
      ensures NotCommon(c.g, graph.data) < old(NotCommon(c.g, graph.data))
           || (newQueue == queue && graph.data == old(graph.data))
      ensures Marked(c.g, parents, generation + 1, old(graph.data), graph.data, queue, newQueue)
    {
      newQueue := queue;
      GrowsRefl(graph.data);
      for i := 0 to |parents|
        invariant Holds(c) && Grows(old(graph.data), graph.data) && Spreadable(c, newQueue)
        invariant NotCommon(c.g, graph.data) < old(NotCommon(c.g, graph.data))
               || (newQueue == queue && graph.data == old(graph.data))
        invariant Marked(c.g, parents[..i], generation + 1, old(graph.data), graph.data, queue, newQueue)
      {
        ghost var data, before := graph.data, newQueue;
        var news := SetCommon(c, parents[i]);
        GrowsTrans(old(graph.data), data, graph.data);
        if news {
          CoveredParents(c, parents[i]);
          newQueue := newQueue + multiset{(parents[i], generation + 1)};
        }
        MarkedNext(c.g, parents, i, generation + 1, old(graph.data), data, graph.data, queue, before, newQueue);
      }
      assert parents[..|parents|] == parents;
    }

    /** Spreads COMMON from `id` towards its ancestors as far as they were seen; the first unseen ones are queued. */
    method MarkCommon(ghost c: Context, id: Oid, mode: Mark, ancestors: Ancestors)
      requires Holds(c) && (id in c.g ==> id in c.scope) && ParentsCovered(c, id)
      requires mode.ThisCommitAndAncestors? && id in c.g ==> id in c.covered
      modifies this`revs, this`nonCommonRevs, this`entered, graph`data
      ensures Holds(c) && Grows(old(graph.data), graph.data)
      ensures mode.ThisCommitAndAncestors? && id in c.g ==> Of(graph.data, id).common
      ensures id in c.g && !Of(old(graph.data), id).common ==>
        SpreadFrom(c.g, ancestors.AllUnseen?, old(graph.data), graph.data, id)
      ensures id !in c.g || Of(old(graph.data), id).common ==> SameFlags(old(graph.data), graph.data)
      ensures old(revs) <= revs
    {
      ghost var data := graph.data;
      GrowsRefl(data);
      Load(c, id);
      if id !in graph.data || graph.data[id].flags.common { return; }
      ghost var loaded := graph.data;
      if mode.ThisCommitAndAncestors? {
        var news := SetCommon(c, id);
        GrowsTrans(data, loaded, graph.data);
      }
      ghost var marked := graph.data;
      Spread(c, id, ancestors);
      GrowsTrans(data, marked, graph.data);
      assert GrowsAt(marked, graph.data, id);
      SpreadAfterMark(c.g, ancestors.AllUnseen?, data, marked, graph.data, id);
    }

    method Load(ghost c: Context, id: Oid)
      requires Holds(c)
      modifies graph`data
      ensures Holds(c) && Grows(old(graph.data), graph.data)
      ensures id in graph.data <==> id in c.g
      ensures SameFlags(old(graph.data), graph.data)
    {
      ghost var data := graph.data;
      if id in c.g && id !in data { LoadOne(c, data, revs, nonCommonRevs, id); } else { GrowsRefl(data); }
      var present := graph.GetOrInsert(id, NO_DATA);
      NoneEntered(entered, data, graph.data);
    }

    method Spread(ghost c: Context, start: Oid, ancestors: Ancestors)
      requires Holds(c) && start in c.g && start in c.scope && ParentsCovered(c, start)
      modifies this`revs, this`nonCommonRevs, this`entered, graph`data
      ensures Holds(c) && Grows(old(graph.data), graph.data)
      ensures SpreadFrom(c.g, ancestors.AllUnseen?, old(graph.data), graph.data, start)
      ensures old(revs) <= revs
    {
      ghost var all, data := ancestors.AllUnseen?, graph.data;
      ghost var steps: map<Oid, nat>, first := map[start := 0], true;
      var queue := multiset{(start, 0)};
      GrowsRefl(data);
      SpreadStarts(c.g, all, data, start);
      while queue != multiset{}
        invariant Holds(c) && Grows(data, graph.data) && Spreadable(c, queue) && old(revs) <= revs
        invariant Spreading(c.g, all, data, graph.data, queue, steps, start)
        invariant first ==> queue == multiset{(start, 0)} && graph.data == data && steps == map[start := 0]
        invariant !first ==> NearDone(c.g, data, graph.data, steps, start)
        invariant ItemsReached(c.g, all, data, graph.data, queue, steps, start)
        invariant OnlyReached(c.g, all, data, graph.data, start)
        invariant Of(data, start).seen || first || queue == multiset{}
        decreases NotCommon(c.g, graph.data), |queue|
      {
        ghost var before, mid := queue, graph.data;
        var item;
        item, queue := SpreadOne(c, queue, ancestors);
        SpreadRound(c.g, all, data, mid, graph.data, before, item, queue, steps, start);
        NearNext(c.g, all, data, mid, graph.data, item, before, queue, steps, start, first);
        StillReached(c.g, all, data, mid, graph.data, item, before, queue, steps, start, first);
        GrowsTrans(data, mid, graph.data);
        steps, first := Recorded(mid, graph.data, steps, item.1 + 1), false;
      }
      SpreadEnds(c.g, all, data, graph.data, steps, start);
    }

    /** One round of spreading: queues an unseen commit, or marks the parents of a seen one unless it is too far away.
        */
    method SpreadOne(ghost c: Context, queue: multiset<(Oid, nat)>, ancestors: Ancestors)
      returns (item: (Oid, nat), rest: multiset<(Oid, nat)>)
      requires Holds(c) && Spreadable(c, queue) && queue != multiset{}
      modifies this`revs, this`nonCommonRevs, this`entered, graph`data
      ensures Holds(c) && Spreadable(c, rest) && item in queue
      ensures Round(c.g, ancestors.AllUnseen?, old(graph.data), graph.data, item, queue - multiset{item}, rest)
      ensures NotCommon(c.g, graph.data) < old(NotCommon(c.g, graph.data))
           || (NotCommon(c.g, graph.data) == old(NotCommon(c.g, graph.data)) && |rest| < |queue|)
      ensures old(revs) <= revs
    {
      var h := graph.history;
      item, rest := PopTop(queue, (item: (Oid, nat)) => Key(h.time(item.0), 0));
      rest := Follow(c, item, rest, ancestors);
    }

    /** Follows a commit that was taken from the spreading queue. */
    method Follow(ghost c: Context, item: (Oid, nat), queue: multiset<(Oid, nat)>, ancestors: Ancestors)
      returns (newQueue: multiset<(Oid, nat)>)
      requires Holds(c) && Spreadable(c, queue) && item.0 in c.g && item.0 in c.scope && ParentsCovered(c, item.0)
      modifies this`revs, this`nonCommonRevs, this`entered, graph`data
      ensures Holds(c) && Spreadable(c, newQueue)
      ensures Round(c.g, ancestors.AllUnseen?, old(graph.data), graph.data, item, queue, newQueue)
      ensures NotCommon(c.g, graph.data) < old(NotCommon(c.g, graph.data))
           || (NotCommon(c.g, graph.data) == old(NotCommon(c.g, graph.data)) && newQueue == queue)
      ensures old(revs) <= revs
    {
      ghost var data := graph.data;
      var (id, generation) := item;
      newQueue := queue;
      if !Of(graph.data, id).seen {
        AddToQueue(c, id, SEEN);
        SeenIsRound(c.g, ancestors.AllUnseen?, data, graph.data, item, queue);
      } else if ancestors.AllUnseen? || generation < 2 {
        newQueue := SpreadToParents(c, graph.history.parents[id], generation, queue);
        MarkedIsRound(c.g, ancestors.AllUnseen?, data, graph.data, item, queue, newQueue);
      } else {
        NothingIsRound(c.g, data, item, queue);
      }
    }

    /** A tip to walk from; a missing one has no effect. */
    method AddTip(id: Oid)
      requires Valid()
      modifies this, graph
      ensures Valid()
      ensures tips == old(tips) + {id} && known == old(known) && acked == old(acked) && announced == old(announced)
      ensures var data := old(graph.data);
        graph.data == if id in graph.history.parents then SetFlags(data, id, Join(Of(data, id), SEEN)) else data
    {
      ghost var g, data := graph.history.parents, graph.data;
      ghost var c := Run();
      tips := tips + {id};
      Relearn(c, old(tips), known, acked, id);
      AddToQueue(Run(), id, SEEN);
      WalkGrows(g, old(tips), data, graph.data);
    }

    /** A commit the remote is known to have, typically the tip of a remote-tracking branch. */
    method KnownCommon(id: Oid)
      requires Valid()
      modifies this, graph
      ensures Valid()
      ensures known == old(known) + {id} && tips == old(tips) && acked == old(acked) && announced == old(announced)
      ensures Of(old(graph.data), id).seen ==> graph.data == old(graph.data)
      ensures id in graph.history.parents && !Of(old(graph.data), id).seen ==>
        && Of(graph.data, id).seen && Of(graph.data, id).commonRef
        && (!Of(old(graph.data), id).common ==> ParentsCommon(graph.history.parents, graph.data, id))
      ensures OnlyNear(graph.history.parents, SetFlags(old(graph.data), id, SEEN), old(graph.data), graph.data, id)
    {
      ghost var g, data := graph.history.parents, graph.data;
      ghost var c := Run();
      known := known + {id};
      Relearn(c, tips, old(known), acked, id);
      GrowsRefl(data);
      if !Of(graph.data, id).seen {
        CoveredClosed(g, known, acked);
        AddToQueue(Run(), id, Join(COMMON_REF, SEEN));
        ghost var queued := graph.data;
        MarkCommon(Run(), id, AncestorsOnly, DirectUnseen);
        GrowsTrans(data, queued, graph.data);
        assert GrowsAt(queued, graph.data, id);
        StillCommonSeen(g, false, queued, graph.data, id);
        MarkedIsNear(g, queued, graph.data, id, data);
      }
      WalkGrows(g, tips, data, graph.data);
    }

    /** The remote acknowledges that it has `id`; tells if that was known already. */
    method InCommonWithRemote(id: Oid) returns (wasKnown: bool)
      requires Valid()
      modifies this, graph
      ensures Valid()
      ensures acked == old(acked) + {id} && tips == old(tips) && known == old(known) && announced == old(announced)
      ensures wasKnown == Of(old(graph.data), id).common
      ensures id in graph.history.parents ==> Of(graph.data, id).common
      ensures id in graph.history.parents && !wasKnown ==>
        SpreadFrom(graph.history.parents, false, old(graph.data), graph.data, id)
      ensures wasKnown || id !in graph.history.parents ==> SameFlags(old(graph.data), graph.data)
      ensures OnlyNear(graph.history.parents, old(graph.data), old(graph.data), graph.data, id)
    {
      ghost var g, data := graph.history.parents, graph.data;
      ghost var c := Run();
      acked := acked + {id};
      Relearn(c, tips, known, old(acked), id);
      CoveredClosed(g, known, acked);
      wasKnown := Of(graph.data, id).common;
      MarkCommon(Run(), id, ThisCommitAndAncestors, DirectUnseen);
      MarkedIsNear(g, data, graph.data, id, data);
      StillCommonSeen(g, false, data, graph.data, id);
      WalkGrows(g, tips, data, graph.data);
    }

    /** After more was learned, the invariant holds for the wider context as well. */
    lemma Relearn(c: Context, oldTips: set<Oid>, oldKnown: set<Oid>, oldAcked: set<Oid>, id: Oid)
      requires Holds(c) && oldTips <= tips && oldKnown <= known && oldAcked <= acked
      requires c.covered == Covered(c.g, oldKnown, oldAcked) && c.announced == announced
      requires c.scope == ReachableFrom(c.g, oldTips + oldKnown + oldAcked)
      ensures Holds(Run())
      ensures id in tips + known + acked && id in c.g ==> id in Run().scope
    {
      CoveredClosed(c.g, known, acked);
      CoveredGrows(c.g, oldKnown, oldAcked, known, acked);
      ReachableFromClosed(c.g, tips + known + acked);
      ReachableFromGrows(c.g, oldTips + oldKnown + oldAcked, tips + known + acked);
      Widen(c, Run(), graph.data, revs, nonCommonRevs);
    }

    /** The next commit to announce: never one that was announced before. Without an answer, nothing is left
        that is not known to be common. */
    method NextHave() returns (r: Option<Oid>)
      requires Valid()
      modifies this, graph
      ensures Valid() && tips == old(tips) && known == old(known) && acked == old(acked)
      ensures r.Some? ==> r.value !in old(announced) && announced == old(announced) + {r.value}
      ensures r.Some? ==> !Of(old(graph.data), r.value).common && Newest(graph.history, old(revs), revs, r.value)
      ensures r.None? ==> announced == old(announced) && nonCommonRevs == 0
    {
      r := PopUntilNews(Run(), tips);
      if r.Some? {
        announced := announced + {r.value};
      }
    }

    /** Pops commits until one is not known to be common, or nothing is left to announce. */
    method PopUntilNews(ghost c: Context, ghost seeds: set<Oid>) returns (r: Option<Oid>)
      requires Holds(c) && Walk(c.g, seeds, graph.data)
      modifies this`revs, this`nonCommonRevs, this`entered, graph`data
      ensures Holds(if r.Some? then c.(announced := c.announced + {r.value}) else c)
      ensures Walk(c.g, seeds, graph.data)
      ensures if r.Some? then r.value !in c.announced && !Of(old(graph.data), r.value).common else nonCommonRevs == 0
      ensures r.Some? ==> Newest(graph.history, old(revs), revs, r.value)
    {
      while revs != multiset{}
        invariant Holds(c) && Walk(c.g, seeds, graph.data)
        invariant CommonStays(old(graph.data), graph.data) && StillQueued(old(revs), revs, graph.data)
        decreases NotPopped(c.g, graph.data)
      {
        ghost var queued, data := revs, graph.data;
        var id;
        id, revs := PopTop(revs, ByTime(graph.history));
        assert revs + multiset{id} == queued;
        if nonCommonRevs == 0 {
          DropOne(c, graph.data, queued, id);
          return None;
        }
        var announce := Visit(c, seeds, id);
        QueuedSince(c.g, old(revs), queued, data, id, revs, graph.data);
        if announce {
          QueuedNotPopped(c.(announced := c.announced + {id}), graph.data, revs, nonCommonRevs);
          NewestIsTop(graph.history, old(revs), queued, id, revs, graph.data);
          return Some(id);
        }
      }
      NothingWaits(c, graph.data, revs, nonCommonRevs);
      return None;
    }

    /** Marks a commit taken from the queue as popped, and hands the walk on to its parents. */
    method Visit(ghost c: Context, ghost seeds: set<Oid>, id: Oid) returns (announce: bool)
      requires graph.Valid() && c.g == graph.history.parents
      requires Consistent(c, graph.data, revs + multiset{id}, nonCommonRevs)
      requires Walk(c.g, seeds, graph.data) && EnteredOnce(entered, graph.data)
      modifies this`revs, this`nonCommonRevs, this`entered, graph`data
      ensures Holds(if announce then c.(announced := c.announced + {id}) else c)
      ensures Walk(c.g, seeds, graph.data)
      ensures announce ==> id !in c.announced
      ensures announce <==> !Of(old(graph.data), id).common
      ensures NotPopped(c.g, graph.data) < old(NotPopped(c.g, graph.data)) && id in c.g && Of(graph.data, id).popped
      ensures CommonStays(old(graph.data), graph.data)
      ensures Of(old(graph.data), id).common || Of(old(graph.data), id).commonRef ==>
        HandedCommon(c.g, old(graph.data), graph.data, id)
      ensures var f := Of(old(graph.data), id);
        OnlyHanded(c.g, f.common || f.commonRef, old(graph.data), graph.data, id)
      ensures old(revs) <= revs
    {
      ghost var data, queued := graph.data, revs + multiset{id};
      PopOne(c, data, queued, nonCommonRevs, id);
      assert queued - multiset{id} == revs;
      assert Truthful(c, data, queued, id);
      var flags := graph.data[id].flags;
      var handOn := flags.common || flags.commonRef;
      announce := !flags.common;
      if announce {
        WaitingHas(data, id);
        nonCommonRevs := nonCommonRevs - 1;
      } else {
        CoveredParents(c, id);
      }
      graph.data := SetFlags(graph.data, id, flags.(popped := true));
      ghost var popped := graph.data;
      NoneEntered(entered, data, popped);
      HandOn(if announce then c.(announced := c.announced + {id}) else c, id,
             if handOn then Join(COMMON, SEEN) else SEEN);
      Popped(c.g, seeds, data, id, graph.data, popped);
      SincePopped(c.g, data, id, popped, graph.data, handOn);
    }

    /** Queues the unseen parents of a popped commit, and spreads COMMON from them if they are common. */
    method HandOn(ghost c: Context, id: Oid, mark: Flags)
      requires Holds(c) && id in c.g && id in c.scope && CommonSeen(graph.data) && Of(graph.data, id).seen
      requires mark == SEEN || (mark == Join(COMMON, SEEN) && ParentsCovered(c, id))
      modifies this`revs, this`nonCommonRevs, this`entered, graph`data
      ensures Holds(c) && Grows(old(graph.data), graph.data) && ParentsSeen(c.g, graph.data, id)
      ensures mark.common ==> HandedCommon(c.g, old(graph.data), graph.data, id)
      ensures CommonSeen(graph.data) && old(revs) <= revs
      ensures OnlyHanded(c.g, mark.common, old(graph.data), graph.data, id)
    {
      ghost var start := graph.data;
      GrowsRefl(start);
      var parents := graph.history.parents[id];
      for i := 0 to |parents|
        invariant Holds(c) && Grows(start, graph.data) && CommonSeen(graph.data) && old(revs) <= revs
        invariant HandedOn(c.g, parents[..i], mark.common, start, graph.data)
        invariant OnlyHanded(c.g, mark.common, start, graph.data, id)
      {
        ghost var data := graph.data;
        assert GrowsAt(start, data, id);
        HandOnTo(c, id, parents[i], mark);
        GrowsTrans(start, data, graph.data);
        StillHanded(c.g, mark.common, start, data, graph.data, id);
        HandedOnNext(c.g, parents, i, mark.common, start, data, graph.data);
      }
      assert parents[..|parents|] == parents;
      HandedOnAll(c.g, id, mark.common, start, graph.data);
    }

    method HandOnTo(ghost c: Context, ghost id: Oid, parent: Oid, mark: Flags)
      requires Holds(c) && id in c.g && id in c.scope && parent in c.g[id] && CommonSeen(graph.data)
      requires Of(graph.data, id).seen
      requires mark == SEEN || (mark == Join(COMMON, SEEN) && ParentsCovered(c, id))
      modifies this`revs, this`nonCommonRevs, this`entered, graph`data
      ensures Holds(c) && Grows(old(graph.data), graph.data)
      ensures parent in c.g ==> HandedTo(c.g, mark.common, old(graph.data), graph.data, parent)
      ensures mark.common ==> NewlySeenIsCommon(old(graph.data), graph.data)
      ensures CommonSeen(graph.data) && old(revs) <= revs
      ensures OnlyHanded(c.g, mark.common, old(graph.data), graph.data, id)
    {
      ghost var data := graph.data;
      GrowsRefl(data);
      assert parent in c.g ==> Edge(c.g, id, parent);
      if !Of(graph.data, parent).seen {
        AddToQueue(c, parent, mark);
      }
      if mark.common {
        ghost var queued := graph.data;
        if parent in c.g { CoveredParents(c, parent); }
        MarkCommon(c, parent, AncestorsOnly, AllUnseen);
        GrowsTrans(data, queued, graph.data);
        assert GrowsAt(queued, graph.data, parent);
        SpreadHands(c.g, data, queued, graph.data, parent);
        StillCommonSeen(c.g, true, queued, graph.data, parent);
        HandedFromParent(c.g, data, queued, graph.data, id, parent);
      }
    }
  }

  ghost predicate NewlySeenIsCommon(data: Marks, new_: Marks) {
    forall x :: Of(new_, x).seen && !Of(data, x).seen ==> Of(new_, x).common
  }

  /** `p` is seen. If it was handed COMMON it is common, or was seen before and hands it on to its own parents. */
  ghost predicate HandedTo(g: Graph, common: bool, data: Marks, new_: Marks, p: Oid) {
    && Of(new_, p).seen
    && (common ==> Of(new_, p).common || (Of(data, p).seen && ParentsCommon(g, new_, p)))
  }

  /** All parents of a common commit were handed COMMON. */
  ghost predicate HandedCommon(g: Graph, data: Marks, new_: Marks, x: Oid) {
    forall p :: Edge(g, x, p) ==> HandedTo(g, true, data, new_, p)
  }

  ghost predicate HandedOn(g: Graph, parents: seq<Oid>, common: bool, data: Marks, new_: Marks) {
    && (forall p :: p in parents && p in g ==> HandedTo(g, common, data, new_, p))
    && (common ==> NewlySeenIsCommon(data, new_))
  }

  /** `x` lies below `id`, and all commits on the way there were seen. */
  ghost predicate SeenBelow(g: Graph, data: Marks, id: Oid, x: Oid) {
    exists k: nat :: 0 < k && SeenWalk(g, data, id, x, k)
  }

  /** If COMMON is handed on, it goes only to what lies below, and otherwise nowhere. */
  ghost predicate OnlyHanded(g: Graph, common: bool, data: Marks, new_: Marks, id: Oid) {
    forall x :: Newly(data, new_, x) ==> common && SeenBelow(g, new_, id, x)
  }

  lemma MoreSeenBelow(g: Graph, data: Marks, new_: Marks, id: Oid, x: Oid)
    requires Grows(data, new_) && SeenBelow(g, data, id, x)
    ensures SeenBelow(g, new_, id, x)
  {
    var k: nat :| 0 < k && SeenWalk(g, data, id, x, k);
    forall y | Of(data, y).seen ensures Of(new_, y).seen { assert GrowsAt(data, new_, y); }
    MoreSeenWalk(g, data, new_, id, x, k);
  }

  lemma StillHanded(g: Graph, common: bool, data: Marks, mid: Marks, new_: Marks, id: Oid)
    requires OnlyHanded(g, common, data, mid, id) && OnlyHanded(g, common, mid, new_, id) && Grows(mid, new_)
    ensures OnlyHanded(g, common, data, new_, id)
  {
    forall x | Newly(data, new_, x) ensures common && SeenBelow(g, new_, id, x) {
      assert Newly(data, mid, x) || Newly(mid, new_, x);
      if Newly(data, mid, x) { MoreSeenBelow(g, mid, new_, id, x); }
    }
  }

  lemma HandedFromParent(g: Graph, data: Marks, queued: Marks, new_: Marks, id: Oid, p: Oid)
    requires Grows(data, queued) && Grows(queued, new_) && Of(data, id).seen && (p in g ==> Edge(g, id, p))
    requires queued == data || queued == SetFlags(data, p, Join(Of(data, p), Join(COMMON, SEEN)))
    requires SameFlags(queued, new_) || SpreadFrom(g, true, queued, new_, p)
    requires p !in g ==> SameFlags(data, new_)
    ensures OnlyHanded(g, true, data, new_, id)
  {
    assert GrowsAt(data, queued, id);
    forall x | Newly(data, new_, x) ensures SeenBelow(g, queued, id, x) {
      if x == p {
        LongerSeenWalk(g, queued, id, p, p, 0);
      } else {
        assert SpreadTo(g, true, queued, new_, p, x);
        var k: nat :| 0 < k && SeenWalk(g, queued, p, x, k);
        LongerSeenWalk(g, queued, id, p, x, k);
      }
    }
    forall x | Newly(data, new_, x) ensures SeenBelow(g, new_, id, x) { MoreSeenBelow(g, queued, new_, id, x); }
  }

  lemma HandedOnNext(g: Graph, parents: seq<Oid>, i: nat, common: bool, data: Marks, mid: Marks, new_: Marks)
    requires i < |parents| && HandedOn(g, parents[..i], common, data, mid) && Grows(mid, new_)
    requires parents[i] in g ==> HandedTo(g, common, mid, new_, parents[i])
    requires common ==> NewlySeenIsCommon(mid, new_)
    ensures HandedOn(g, parents[..i + 1], common, data, new_)
  {
    forall x ensures GrowsAt(mid, new_, x) {}
    forall p | p in parents[..i + 1] && p in g ensures HandedTo(g, common, data, new_, p) {
      assert p in parents[..i] || p == parents[i];
      assert GrowsAt(mid, new_, p);
      if p in parents[..i] {
        assert HandedTo(g, common, data, mid, p);
        forall q | Edge(g, p, q) ensures Of(mid, q).common ==> Of(new_, q).common { assert GrowsAt(mid, new_, q); }
      }
    }
    forall x | common && Of(new_, x).seen && !Of(data, x).seen ensures Of(new_, x).common {
      assert GrowsAt(mid, new_, x);
    }
  }

  lemma HandedOnAll(g: Graph, x: Oid, common: bool, data: Marks, new_: Marks)
    requires x in g && HandedOn(g, g[x], common, data, new_)
    ensures ParentsSeen(g, new_, x) && (common ==> HandedCommon(g, data, new_, x))
  {
  }

  /** After queueing, spreading from a parent hands COMMON to it or past it. */
  lemma SpreadHands(g: Graph, data: Marks, queued: Marks, new_: Marks, p: Oid)
    requires Grows(data, queued) && Grows(queued, new_)
    requires Of(data, p).seen || p !in g ==> queued == data
    requires !Of(data, p).seen && p in g ==> queued == SetFlags(data, p, Join(Of(data, p), Join(COMMON, SEEN)))
    requires p in g && !Of(queued, p).common ==> SpreadFrom(g, true, queued, new_, p)
    requires p !in g || Of(queued, p).common ==> SameFlags(queued, new_)
    ensures p in g ==> HandedTo(g, true, data, new_, p)
    ensures NewlySeenIsCommon(data, new_)
  {
    assert GrowsAt(queued, new_, p);
    forall x | Of(new_, x).seen && !Of(data, x).seen ensures Of(new_, x).common {
      assert GrowsAt(queued, new_, x);
      if p in g && !Of(queued, p).common {
        assert SpreadTo(g, true, queued, new_, p, x);
      }
    }
  }

  lemma SincePopped(g: Graph, data: Marks, id: Oid, popped: Marks, new_: Marks, common: bool)
    requires popped == SetFlags(data, id, Of(data, id).(popped := true)) && Grows(popped, new_)
    ensures CommonStays(data, new_) && Of(new_, id).popped
    ensures HandedCommon(g, popped, new_, id) ==> HandedCommon(g, data, new_, id)
    ensures OnlyHanded(g, common, popped, new_, id) ==> OnlyHanded(g, common, data, new_, id)
  {
    assert forall x :: Newly(data, new_, x) ==> Newly(popped, new_, x);
    assert GrowsAt(popped, new_, id);
    forall x | Of(data, x).common ensures Of(new_, x).common { assert GrowsAt(popped, new_, x); }
    if HandedCommon(g, popped, new_, id) {
      forall p | Edge(g, id, p) ensures HandedTo(g, true, data, new_, p) {
        assert HandedTo(g, true, popped, new_, p);
      }
    }
  }

  /** Popping a commit and handing on to its parents keeps the walk going, and pops one commit more. */
  lemma Popped(g: Graph, tips: set<Oid>, data: Marks, id: Oid, new_: Marks, popped: Marks)
    requires Walk(g, tips, data) && CommonSeen(new_)
    requires id in data && id in g && !data[id].flags.popped
    requires popped == SetFlags(data, id, data[id].flags.(popped := true))
    requires Grows(popped, new_) && ParentsSeen(g, new_, id)
    ensures Walk(g, tips, new_)
    ensures NotPopped(g, new_) < NotPopped(g, data)
  {
    assert WalkContinues(g, popped, {id}) by {
      forall x | Of(popped, x).popped && x !in {id} ensures ParentsSeen(g, popped, x) {
        assert ParentsSeen(g, data, x);
      }
    }
    WalkStillContinues(g, popped, new_, {id});
    forall t | t in tips && t in g ensures Of(new_, t).seen {
      assert Of(data, t).seen;
      assert GrowsAt(popped, new_, t);
    }
    forall x ensures Of(new_, x).popped <==> Of(data, x).popped || x == id { assert GrowsAt(popped, new_, x); }
    assert id in NotPopped(g, data);
  }

  /** A commit that is dropped because the count is zero is common. */
  lemma DropOne(c: Context, data: Marks, revs: multiset<Oid>, id: Oid)
    requires Consistent(c, data, revs, 0) && id in revs
    ensures Consistent(c, data, revs - multiset{id}, 0)
  {
    assert Truthful(c, data, revs, id);
    assert id !in Waiting(data);
    forall x ensures Truthful(c, data, revs - multiset{id}, x) { assert Truthful(c, data, revs, x); }
  }

  lemma QueuedNotPopped(c: Context, data: Marks, revs: multiset<Oid>, count: int)
    requires Consistent(c, data, revs, count)
    ensures NonePopped(revs, data)
  {
    forall x | x in revs ensures !Of(data, x).popped { assert Truthful(c, data, revs, x); }
  }

  lemma NothingWaits(c: Context, data: Marks, revs: multiset<Oid>, count: int)
    requires Consistent(c, data, revs, count) && revs == multiset{}
    ensures count == 0
  {
    forall x ensures x !in Waiting(data) { assert Truthful(c, data, revs, x); }
    assert Waiting(data) == {};
  }

  lemma Fresh(c: Context, data: Marks)
    requires Untouched(data) && data.Keys <= c.g.Keys && c.announced == {}
    requires Closed(c.g, c.covered) && Closed(c.g, c.scope)
    ensures Consistent(c, data, multiset{}, 0) && Walk(c.g, {}, data) && EnteredOnce(multiset{}, data)
  {
  }

  // ----- whole runs

  /** Once nothing waits, a walk down from a seen commit meets only announced and covered commits. */
  lemma {:induction false} WalkCovers(c: Context, data: Marks, revs: multiset<Oid>, p: seq<Oid>)
    requires Consistent(c, data, revs, 0) && WalkContinues(c.g, data, {})
    requires IsPath(c.g, p) && Of(data, p[0]).seen
    ensures p[|p| - 1] in c.announced || p[|p| - 1] in c.covered
  {
    assert Truthful(c, data, revs, p[0]);
    assert p[0] !in Waiting(data);
    if p[0] in c.covered {
      ClosedContainsPath(c.g, c.covered, p);
    } else if |p| > 1 {
      assert ParentsSeen(c.g, data, p[0]) && Edge(c.g, p[0], p[1]);
      WalkCovers(c, data, revs, p[1..]);
    }
  }

  /** Completeness: when `NextHave` has no answer, every commit reachable from a tip was announced, or is an
      ancestor of something acknowledged or known to be common. */
  lemma Complete(a: Algorithm, t: Oid, x: Oid)
    requires a.Valid() && a.nonCommonRevs == 0
    requires t in a.tips && Reaches(a.graph.history.parents, t, x)
    ensures || x in a.announced
            || (exists k :: k in a.acked && Reaches(a.graph.history.parents, k, x))
            || (exists k :: k in a.known && StrictlyReaches(a.graph.history.parents, k, x))
  {
    var g := a.graph.history.parents;
    ReachesPresent(g, t, x);
    var p :| PathBetween(g, p, t, x);
    WalkCovers(a.Run(), a.graph.data, a.revs, p);
    assert x in a.announced || x in Covered(g, a.known, a.acked);
  }

  /** Soundness: what is flagged COMMON is an acknowledged commit, an ancestor of one, or a strict ancestor of a known
      one; nothing is announced that no input leads to; and over the whole run, exactly the seen commits entered the
      queue, and each of them once. */
  lemma Sound(a: Algorithm, x: Oid)
    requires a.Valid()
    ensures Of(a.graph.data, x).common ==>
              || (exists k :: k in a.acked && Reaches(a.graph.history.parents, k, x))
              || (exists k :: k in a.known && StrictlyReaches(a.graph.history.parents, k, x))
    ensures x in a.announced ==> exists s :: s in a.tips + a.known + a.acked && Reaches(a.graph.history.parents, s, x)
    ensures a.entered[x] <= 1 && (x in a.entered <==> Of(a.graph.data, x).seen)
    ensures a.revs[x] <= a.entered[x] && (x in a.announced ==> x in a.entered && x !in a.revs)
  {
    assert EnteredAt(a.entered, a.graph.data, x);
    assert Truthful(a.Run(), a.graph.data, a.revs, x);
    if Of(a.graph.data, x).common { assert x in Covered(a.graph.history.parents, a.known, a.acked); }
    if x in a.announced { assert x in ReachableFrom(a.graph.history.parents, a.tips + a.known + a.acked); }
  }

  /** If nothing turns out to be common, exactly the history of the tips is announced. */
  lemma AnnouncesWholeHistory(a: Algorithm)
    requires a.Valid() && a.nonCommonRevs == 0 && a.known == {} && a.acked == {}
    ensures a.announced == ReachableFrom(a.graph.history.parents, a.tips)
  {
    assert a.tips + a.known + a.acked == a.tips;
    forall x | x in a.announced ensures x in ReachableFrom(a.graph.history.parents, a.tips) {
      assert Truthful(a.Run(), a.graph.data, a.revs, x);
    }
    forall x | x in ReachableFrom(a.graph.history.parents, a.tips) ensures x in a.announced {
      var t :| t in a.tips && Reaches(a.graph.history.parents, t, x);
      Complete(a, t, x);
    }
  }
}
