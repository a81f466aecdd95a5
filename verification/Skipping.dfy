/** Skipping negotiation: announce commits at growing distances to find common ground quickly. */
module Skipping {
  import opened Digraph
  import opened History
  import opened Negotiation
  import opened Options
  import opened Ttl

  /** Every parent is present. The walk looks parents up without allowing for missing ones. */
  ghost predicate NothingMissing(g: Graph) {
    forall x, p :: x in g && p in g[x] ==> p in g
  }

  /** The flags of `x` are truthful and agree with its place in the queue. `late` commits were common before they
      were queued; `owed` commits became common but still have to be taken off the count. */
  ghost predicate Truthful(c: Context, late: set<Oid>, owed: set<Oid>, data: Marks, revs: multiset<Oid>, x: Oid) {
    var f := Of(data, x);
    && (f.common ==> x in c.covered)
    && (f.advertised ==> ParentsCovered(c, x))
    && (f.seen ==> x in c.scope)
    && (f.popped ==> f.seen)
    && revs[x] <= 1
    && (x in revs ==> f.seen && !f.popped)
    && (Waits(f) ==> x in revs)
    && (x in c.announced ==> f.popped)
    && (x in late ==> f.seen && f.common)
    && (x in owed ==> f.common)
  }

  /** All flags are truthful, and the counter exceeds the waiting commits by exactly the late ones and what is owed.
      */
  ghost predicate Consistent(c: Context, late: set<Oid>, owed: set<Oid>, data: Marks, revs: multiset<Oid>, count: int) {
    && data.Keys <= c.g.Keys
    && Closed(c.g, c.covered) && Closed(c.g, c.scope)
    && (forall x :: Truthful(c, late, owed, data, revs, x))
    && count == |Waiting(data)| + |late| + |owed|
  }

  /** Flags grow and the pace of no commit changes. */
  ghost predicate EvolvesAt(data: Marks, new_: Marks, x: Oid) {
    GrowsAt(data, new_, x) && PaceOf(new_, x) == PaceOf(data, x)
  }

  ghost predicate Evolves(data: Marks, new_: Marks) {
    forall x :: EvolvesAt(data, new_, x)
  }

  lemma EvolvesTrans(a: Marks, b: Marks, c: Marks)
    requires Evolves(a, b) && Evolves(b, c)
    ensures Evolves(a, c)
  {
    forall x ensures EvolvesAt(a, c, x) { assert EvolvesAt(a, b, x) && EvolvesAt(b, c, x); }
  }

  lemma EvolvesRefl(data: Marks)
    ensures Evolves(data, data)
  {
  }

  lemma EvolvesGrows(data: Marks, new_: Marks)
    requires Evolves(data, new_)
    ensures Grows(data, new_)
  {
    forall x ensures GrowsAt(data, new_, x) { assert EvolvesAt(data, new_, x); }
  }

  // ----- single changes of one commit

  lemma OneChange(c: Context, late: set<Oid>, owed: set<Oid>, data: Marks, revs: multiset<Oid>, id: Oid,
                  late': set<Oid>, owed': set<Oid>, new_: Marks, revs': multiset<Oid>)
    requires forall x :: Truthful(c, late, owed, data, revs, x)
    requires new_ == SetFlags(data, id, Of(new_, id))
    requires forall x :: x != id ==> revs'[x] == revs[x] && (x in late' <==> x in late) && (x in owed' <==> x in owed)
    requires Truthful(c, late, owed, data, revs, id) ==>
      Truthful(c, late', owed', new_, revs', id) && GrowsAt(data, new_, id)
    ensures forall x :: Truthful(c, late', owed', new_, revs', x)
    ensures Evolves(data, new_)
  {
    assert Truthful(c, late, owed, data, revs, id);
    forall x ensures Truthful(c, late', owed', new_, revs', x) { assert Truthful(c, late, owed, data, revs, x); }
    forall x ensures EvolvesAt(data, new_, x) {}
  }

  /** An unseen commit is queued and always counted, even if it is common already. */
  lemma QueueOne(c: Context, late: set<Oid>, data: Marks, revs: multiset<Oid>, count: int, id: Oid, mark: Flags)
    requires Consistent(c, late, {}, data, revs, count) && id in c.scope && id in c.g && !Of(data, id).seen
    requires mark == NO_FLAGS || (mark == ADVERTISED && ParentsCovered(c, id))
    ensures var f := Of(data, id);
      var new_ := SetFlags(data, id, Join(f, Join(mark, SEEN)));
      Evolves(data, new_) && Consistent(c, if f.common then late + {id} else late, {}, new_, revs + multiset{id},
              count + 1)
  {
    var f := Of(data, id);
    var new_, late' := SetFlags(data, id, Join(f, Join(mark, SEEN))), if f.common then late + {id} else late;
    assert Truthful(c, late, {}, data, revs, id);
    OneChange(c, late, {}, data, revs, id, late', {}, new_, revs + multiset{id});
    WaitingAfter(data, id, Join(f, Join(mark, SEEN)));
  }

  /** A queued commit turns out to be common: the counter is corrected later, when it is visited. */
  lemma CommonOne(c: Context, late: set<Oid>, owed: set<Oid>, data: Marks, revs: multiset<Oid>, count: int, id: Oid)
    requires Consistent(c, late, owed, data, revs, count) && id in c.covered && id in c.g
    ensures var f := Of(data, id);
      var new_ := SetFlags(data, id, f.(common := true));
      Evolves(data, new_) && Consistent(c, late, if Waits(f) then owed + {id} else owed, new_, revs, count)
  {
    var f := Of(data, id);
    var new_, owed' := SetFlags(data, id, f.(common := true)), if Waits(f) then owed + {id} else owed;
    assert Truthful(c, late, owed, data, revs, id);
    OneChange(c, late, owed, data, revs, id, late, owed', new_, revs);
    WaitingAfter(data, id, f.(common := true));
  }

  lemma Pay(c: Context, late: set<Oid>, owed: set<Oid>, data: Marks, revs: multiset<Oid>, count: int, id: Oid)
    requires Consistent(c, late, owed, data, revs, count) && id in owed
    ensures count >= 1 && Consistent(c, late, owed - {id}, data, revs, count - 1)
  {
    forall x ensures Truthful(c, late, owed - {id}, data, revs, x) { assert Truthful(c, late, owed, data, revs, x); }
  }

  lemma PopOne(c: Context, late: set<Oid>, data: Marks, revs: multiset<Oid>, count: int, id: Oid)
    requires Consistent(c, late, {}, data, revs, count) && id in revs
    ensures var f := Of(data, id);
      Consistent(c, late, {}, SetFlags(data, id, f.(popped := true)), revs - multiset{id},
                 if f.common then count else count - 1)
    ensures id in data && id !in c.announced && !Of(data, id).popped
    ensures !Of(data, id).common ==> count >= 1
  {
    var f := Of(data, id);
    assert Truthful(c, late, {}, data, revs, id);
    var new_ := SetFlags(data, id, f.(popped := true));
    forall x ensures Truthful(c, late, {}, new_, revs - multiset{id}, x) {
      assert Truthful(c, late, {}, data, revs, x);
    }
    WaitingAfter(data, id, f.(popped := true));
  }

  lemma DropOne(c: Context, late: set<Oid>, data: Marks, revs: multiset<Oid>, id: Oid)
    requires Consistent(c, late, {}, data, revs, 0) && id in revs
    ensures Consistent(c, late, {}, data, revs - multiset{id}, 0)
  {
    assert Truthful(c, late, {}, data, revs, id);
    assert id !in Waiting(data);
    forall x ensures Truthful(c, late, {}, data, revs - multiset{id}, x) {
      assert Truthful(c, late, {}, data, revs, x);
    }
  }

  lemma Widen(c: Context, c': Context, late: set<Oid>, data: Marks, revs: multiset<Oid>, count: int)
    requires Consistent(c, late, {}, data, revs, count)
    requires c'.g == c.g && c'.announced == c.announced && c.covered <= c'.covered && c.scope <= c'.scope
    requires Closed(c'.g, c'.covered) && Closed(c'.g, c'.scope)
    ensures Consistent(c', late, {}, data, revs, count)
  {
    forall x ensures Truthful(c', late, {}, data, revs, x) { assert Truthful(c, late, {}, data, revs, x); }
  }

  /** Setting the pace of a commit leaves its flags alone. */
  lemma PaceOne(c: Context, late: set<Oid>, data: Marks, revs: multiset<Oid>, count: int, id: Oid, pace: Pace)
    requires Consistent(c, late, {}, data, revs, count) && id in data
    ensures var new_ := data[id := data[id].(originalTtl := pace.originalTtl, ttl := pace.ttl)];
      Consistent(c, late, {}, new_, revs, count) && Grows(data, new_)
  {
    var new_ := data[id := data[id].(originalTtl := pace.originalTtl, ttl := pace.ttl)];
    assert forall x :: Of(new_, x) == Of(data, x);
    forall x ensures Truthful(c, late, {}, new_, revs, x) { assert Truthful(c, late, {}, data, revs, x); }
    assert Waiting(new_) == Waiting(data);
    forall x ensures GrowsAt(data, new_, x) {}
  }

  /** The commits queued while spreading COMMON are common, and the ones that were not popped are owed. */
  ghost predicate OwedAt(c: Context, data: Marks, queue: multiset<Oid>, owed: set<Oid>, x: Oid) {
    && queue[x] <= 1
    && (x in owed <==> x in queue && !Of(data, x).popped)
    && (x in queue ==> x in c.g && x in c.covered && Of(data, x).common)
  }

  ghost predicate Owes(c: Context, data: Marks, queue: multiset<Oid>, owed: set<Oid>) {
    forall x :: OwedAt(c, data, queue, owed, x)
  }

  lemma OwesMore(c: Context, data: Marks, queue: multiset<Oid>, owed: set<Oid>, id: Oid)
    requires Owes(c, data, queue, owed) && id in c.g && id in c.covered
    ensures var f := Of(data, id);
      var new_, joins := SetFlags(data, id, f.(common := true)), f.seen && !f.common;
      Owes(c, new_, if joins then queue + multiset{id} else queue, if Waits(f) then owed + {id} else owed)
  {
    var f := Of(data, id);
    var new_, joins := SetFlags(data, id, f.(common := true)), f.seen && !f.common;
    var queue', owed' := if joins then queue + multiset{id} else queue, if Waits(f) then owed + {id} else owed;
    assert OwedAt(c, data, queue, owed, id);
    forall x ensures OwedAt(c, new_, queue', owed', x) { assert OwedAt(c, data, queue, owed, x); }
  }

  ghost predicate HasParent(g: Graph, x: Oid) {
    exists y :: Edge(g, x, y)
  }

  /** A popped commit that is not common was announced, or the walk went on to a parent in its stead. */
  ghost predicate AnsweredAt(g: Graph, announced: set<Oid>, data: Marks, x: Oid) {
    Of(data, x).popped && !Of(data, x).common ==> x in announced || HasParent(g, x)
  }

  ghost predicate Answered(g: Graph, announced: set<Oid>, data: Marks) {
    forall x :: AnsweredAt(g, announced, data, x)
  }

  /** `y` was popped and handed its pace on to its parent `x`. */
  ghost predicate PacedBy(g: Graph, data: Marks, y: Oid, x: Oid) {
    Edge(g, y, x) && Of(data, y).popped && PaceOf(data, x) == NextPace(PaceOf(data, y))
  }

  /** The pace of `x` follows that of a popped child. If not, `x` has no pace yet, and if it was queued then because
      it was passed in or is common. */
  ghost predicate PaceComes(g: Graph, seeds: set<Oid>, data: Marks, x: Oid) {
    || (exists y :: PacedBy(g, data, y, x))
    || (PaceOf(data, x) == Pace(0, 0) && (Of(data, x).seen ==> x in seeds || Of(data, x).common))
  }

  /** The time to live never exceeds the stride it was drawn from, and every pace comes from a child. */
  ghost predicate Paced(g: Graph, seeds: set<Oid>, data: Marks) {
    && (forall x :: PaceComes(g, seeds, data, x))
    && (forall x :: PaceOf(data, x).ttl <= PaceOf(data, x).originalTtl)
  }

  lemma StillPaced(g: Graph, seeds: set<Oid>, data: Marks, seeds': set<Oid>, new_: Marks)
    requires Paced(g, seeds, data) && Evolves(data, new_) && seeds <= seeds'
    requires forall x :: Of(new_, x).seen && !Of(data, x).seen ==> x in seeds'
    ensures Paced(g, seeds', new_)
  {
    forall x ensures PaceComes(g, seeds', new_, x) && PaceOf(new_, x).ttl <= PaceOf(new_, x).originalTtl {
      assert PaceComes(g, seeds, data, x) && EvolvesAt(data, new_, x);
      if y :| PacedBy(g, data, y, x) {
        assert EvolvesAt(data, new_, y);
        assert PacedBy(g, new_, y, x);
      }
    }
  }

  /** `x` kept its pace, or is a parent of `id` and took on the pace that follows `pace`. */
  ghost predicate PacedAt(g: Graph, id: Oid, pace: Pace, data: Marks, new_: Marks, x: Oid) {
    || PaceOf(new_, x) == PaceOf(data, x)
    || (&& Edge(g, id, x) && !Of(data, x).popped
        && PaceOf(data, x).originalTtl < NextPace(pace).originalTtl && PaceOf(new_, x) == NextPace(pace))
  }

  /** Flags grow, and paces change only by handing `pace` on from `id` to its parents. */
  ghost predicate Pushes(g: Graph, id: Oid, pace: Pace, data: Marks, new_: Marks) {
    Grows(data, new_) && forall x :: PacedAt(g, id, pace, data, new_, x)
  }

  lemma PushesTrans(g: Graph, id: Oid, pace: Pace, a: Marks, b: Marks, c: Marks)
    requires Pushes(g, id, pace, a, b) && Pushes(g, id, pace, b, c)
    ensures Pushes(g, id, pace, a, c)
  {
    GrowsTrans(a, b, c);
    forall x ensures PacedAt(g, id, pace, a, c, x) {
      assert PacedAt(g, id, pace, a, b, x) && PacedAt(g, id, pace, b, c, x) && GrowsAt(a, b, x);
    }
  }

  lemma EvolvesPushes(g: Graph, id: Oid, pace: Pace, data: Marks, new_: Marks)
    requires Evolves(data, new_)
    ensures Pushes(g, id, pace, data, new_)
  {
    EvolvesGrows(data, new_);
    forall x ensures PacedAt(g, id, pace, data, new_, x) { assert EvolvesAt(data, new_, x); }
  }

  /** Everything a walk maintains besides the flags: it goes on to all parents, every pop is answered for, and
      paces are handed on. */
  ghost predicate Walk(g: Graph, seeds: set<Oid>, announced: set<Oid>, data: Marks) {
    && WalkContinues(g, data, {}) && AllSeen(g, seeds, data) && Answered(g, announced, data)
    && Paced(g, seeds, data)
  }

  lemma WalkEvolves(g: Graph, seeds: set<Oid>, announced: set<Oid>, data: Marks, seeds': set<Oid>, new_: Marks)
    requires Walk(g, seeds, announced, data) && Evolves(data, new_) && seeds <= seeds' && AllSeen(g, seeds', new_)
    requires forall x :: Of(new_, x).seen && !Of(data, x).seen ==> x in seeds'
    ensures Walk(g, seeds', announced, new_)
  {
    EvolvesGrows(data, new_);
    WalkStillContinues(g, data, new_, {});
    forall x ensures AnsweredAt(g, announced, new_, x) {
      assert AnsweredAt(g, announced, data, x) && GrowsAt(data, new_, x);
    }
    StillPaced(g, seeds, data, seeds', new_);
  }

  /** The flags after a present commit was queued. */
  ghost function Queued(g: Graph, data: Marks, id: Oid, mark: Flags): Marks {
    if id in g then SetFlags(data, id, Join(Of(data, id), Join(mark, SEEN))) else data
  }

  ghost function QueuedUnlessSeen(g: Graph, data: Marks, id: Oid, mark: Flags): Marks {
    if Of(data, id).seen then data else Queued(g, data, id, mark)
  }

  ghost function PopAt(data: Marks, id: Oid): Marks { SetFlags(data, id, Of(data, id).(popped := true)) }

  lemma CommonSincePop(data: Marks, id: Oid, new_: Marks)
    requires Grows(PopAt(data, id), new_)
    ensures CommonStays(data, new_) && (NoneNew(PopAt(data, id), new_) ==> NoneNew(data, new_))
  {
    assert forall x :: Newly(data, new_, x) ==> Newly(PopAt(data, id), new_, x);
    forall x | Of(data, x).common ensures Of(new_, x).common { assert GrowsAt(PopAt(data, id), new_, x); }
  }

  // ----- how far COMMON spreads

  ghost predicate LoadedParentsCommon(g: Graph, data: Marks, x: Oid) {
    forall p :: Edge(g, x, p) && p in data ==> Of(data, p).common
  }

  ghost predicate SpreadingAt(g: Graph, data: Marks, new_: Marks, queue: multiset<Oid>, x: Oid) {
    Newly(data, new_, x) && Of(data, x).seen ==> x in queue || LoadedParentsCommon(g, new_, x)
  }

  /** Whatever was seen and became common waits in the queue, or all its loaded parents are common. */
  ghost predicate Spreading(g: Graph, data: Marks, new_: Marks, queue: multiset<Oid>) {
    new_.Keys == data.Keys && forall x :: SpreadingAt(g, data, new_, queue, x)
  }

  ghost predicate MarkedAt(parents: seq<Oid>, data: Marks, new_: Marks, x: Oid) {
    Of(new_, x) == if x in parents && x in data then Of(data, x).(common := true) else Of(data, x)
  }

  ghost predicate FollowedAt(data: Marks, new_: Marks, queue: multiset<Oid>, queue': multiset<Oid>, x: Oid) {
    x in queue' <==> x in queue || (Newly(data, new_, x) && Of(data, x).seen)
  }

  /** Exactly the loaded parents became common, and exactly those that were seen before are followed. */
  ghost predicate Marked(parents: seq<Oid>, data: Marks, new_: Marks, queue: multiset<Oid>, queue': multiset<Oid>) {
    && new_.Keys == data.Keys && queue <= queue'
    && (forall x :: MarkedAt(parents, data, new_, x))
    && (forall x :: FollowedAt(data, new_, queue, queue', x))
  }

  lemma MarkedNext(parents: seq<Oid>, i: nat, data: Marks, mid: Marks, new_: Marks,
                   queue: multiset<Oid>, before: multiset<Oid>, queue': multiset<Oid>)
    requires i < |parents| && Marked(parents[..i], data, mid, queue, before)
    requires var p := parents[i];
      if p in mid then
        && new_ == SetFlags(mid, p, Of(mid, p).(common := true))
        && queue' == if Of(mid, p).seen && !Of(mid, p).common then before + multiset{p} else before
      else new_ == mid && queue' == before
    ensures Marked(parents[..i + 1], data, new_, queue, queue')
  {
    var upTo, p := parents[..i + 1], parents[i];
    forall x ensures MarkedAt(upTo, data, new_, x) && FollowedAt(data, new_, queue, queue', x) {
      assert MarkedAt(parents[..i], data, mid, x) && FollowedAt(data, mid, queue, before, x);
      assert x in upTo <==> x in parents[..i] || x == p;
    }
  }

  lemma SpreadRound(g: Graph, data: Marks, mid: Marks, new_: Marks, before: multiset<Oid>, id: Oid,
                    queue: multiset<Oid>)
    requires Spreading(g, data, mid, before) && id in g && Evolves(data, mid)
    requires Marked(g[id], mid, new_, before - multiset{id}, queue)
    ensures Spreading(g, data, new_, queue)
  {
    var rest := before - multiset{id};
    forall x ensures SpreadingAt(g, data, new_, queue, x) {
      assert SpreadingAt(g, data, mid, before, x) && MarkedAt(g[id], mid, new_, x);
      assert EvolvesAt(data, mid, x) && FollowedAt(mid, new_, rest, queue, x);
      forall p | Edge(g, x, p) && p in new_ ensures x == id || Of(mid, p).common ==> Of(new_, p).common {
        assert MarkedAt(g[id], mid, new_, p);
      }
    }
  }

  /** Apart from the start, a loaded commit becomes common because a child of it does that was seen. */
  ghost predicate CausedAt(g: Graph, data: Marks, new_: Marks, start: Oid, x: Oid) {
    Newly(data, new_, x) ==>
      x in data && (x == start || exists y :: Edge(g, y, x) && Newly(data, new_, y) && Of(data, y).seen)
  }

  ghost predicate Caused(g: Graph, data: Marks, new_: Marks, start: Oid) {
    forall x :: CausedAt(g, data, new_, start, x)
  }

  /** Only what was seen and became common is followed. */
  ghost predicate QueueCaused(data: Marks, new_: Marks, queue: multiset<Oid>) {
    forall x :: x in queue ==> Newly(data, new_, x) && Of(data, x).seen
  }

  lemma StillCaused(g: Graph, data: Marks, mid: Marks, new_: Marks, before: multiset<Oid>, id: Oid,
                    queue: multiset<Oid>, start: Oid)
    requires Caused(g, data, mid, start) && QueueCaused(data, mid, before) && id in before && id in g
    requires Evolves(data, mid) && mid.Keys == data.Keys && data.Keys <= g.Keys
    requires forall x :: Of(mid, x).seen == Of(data, x).seen
    requires Marked(g[id], mid, new_, before - multiset{id}, queue)
    ensures Caused(g, data, new_, start) && QueueCaused(data, new_, queue)
  {
    var rest := before - multiset{id};
    forall x ensures Newly(data, mid, x) ==> Newly(data, new_, x) { assert MarkedAt(g[id], mid, new_, x); }
    forall x ensures CausedAt(g, data, new_, start, x) {
      assert CausedAt(g, data, mid, start, x) && MarkedAt(g[id], mid, new_, x) && EvolvesAt(data, mid, x);
      if Newly(mid, new_, x) { assert Edge(g, id, x) && Newly(data, new_, id) && Of(data, id).seen; }
    }
    forall x | x in queue ensures Newly(data, new_, x) && Of(data, x).seen {
      assert FollowedAt(mid, new_, rest, queue, x) && EvolvesAt(data, mid, x);
    }
  }

  /** COMMON has spread: all loaded parents of whatever was seen and became common are common. */
  ghost predicate SpreadThrough(g: Graph, data: Marks, new_: Marks) {
    forall x :: Newly(data, new_, x) && Of(data, x).seen ==> LoadedParentsCommon(g, new_, x)
  }

  lemma SpreadEnds(g: Graph, data: Marks, new_: Marks)
    requires Spreading(g, data, new_, multiset{})
    ensures SpreadThrough(g, data, new_)
  {
    forall x | Newly(data, new_, x) && Of(data, x).seen ensures LoadedParentsCommon(g, new_, x) {
      assert SpreadingAt(g, data, new_, multiset{}, x);
    }
  }

  /** A popped commit with metadata `entry` has been handed on to `p`: COMMON, or at least the pace that follows. */
  ghost predicate HandedTo(entry: Metadata, data: Marks, p: Oid) {
    if entry.flags.common || entry.flags.advertised then Of(data, p).common
    else PaceOf(data, p).originalTtl >= NextPace(Pace(entry.originalTtl, entry.ttl)).originalTtl
  }

  lemma StillHanded(g: Graph, id: Oid, entry: Metadata, data: Marks, new_: Marks, p: Oid)
    requires Pushes(g, id, Pace(entry.originalTtl, entry.ttl), data, new_) && HandedTo(entry, data, p)
    ensures HandedTo(entry, new_, p)
  {
    assert GrowsAt(data, new_, p) && PacedAt(g, id, Pace(entry.originalTtl, entry.ttl), data, new_, p);
  }

  ghost predicate FoundAt(g: Graph, id: Oid, entry: Metadata, data: Marks, new_: Marks, x: Oid) {
    Of(new_, x).seen && !Of(data, x).seen ==> Edge(g, id, x) && HandedTo(entry, new_, x)
  }

  /** Only parents of `id` were found, and they have been handed on to. */
  ghost predicate Finds(g: Graph, id: Oid, entry: Metadata, data: Marks, new_: Marks) {
    forall x :: FoundAt(g, id, entry, data, new_, x)
  }

  lemma FindsTrans(g: Graph, id: Oid, entry: Metadata, a: Marks, b: Marks, c: Marks)
    requires Finds(g, id, entry, a, b) && Finds(g, id, entry, b, c)
    requires Pushes(g, id, Pace(entry.originalTtl, entry.ttl), b, c)
    ensures Finds(g, id, entry, a, c)
  {
    forall x ensures FoundAt(g, id, entry, a, c, x) {
      assert FoundAt(g, id, entry, a, b, x) && FoundAt(g, id, entry, b, c, x);
      if Of(b, x).seen && !Of(a, x).seen { StillHanded(g, id, entry, b, c, x); }
    }
  }

  /** Nothing became common. */
  ghost predicate NoneNew(data: Marks, new_: Marks) {
    forall x :: !Newly(data, new_, x)
  }

  lemma NoneNewTrans(a: Marks, b: Marks, c: Marks)
    requires NoneNew(a, b) && NoneNew(b, c)
    ensures NoneNew(a, c)
  {
    forall x ensures !Newly(a, c, x) { assert !Newly(a, b, x) && !Newly(b, c, x); }
  }

  lemma QueuedNotNew(g: Graph, data: Marks, id: Oid)
    ensures NoneNew(data, QueuedUnlessSeen(g, data, id, NO_FLAGS))
  {
  }

  ghost predicate AllPopped(g: Graph, data: Marks, id: Oid) {
    forall p :: Edge(g, id, p) ==> Of(data, p).popped
  }

  /** All parents that were still to be popped have been handed on to. */
  ghost predicate HandedOn(g: Graph, id: Oid, entry: Metadata, data: Marks, new_: Marks) {
    forall p :: Edge(g, id, p) && !Of(data, p).popped ==> HandedTo(entry, new_, p)
  }

  /** What was handed on to the first parents, and whether any of them was still to be popped. */
  ghost predicate HandedUpTo(parents: seq<Oid>, entry: Metadata, data: Marks, new_: Marks, pushed: bool) {
    && (forall p :: p in parents ==> Of(new_, p).seen && (Of(data, p).popped || HandedTo(entry, new_, p)))
    && (pushed <==> exists p :: p in parents && !Of(data, p).popped)
  }

  lemma HandedNext(g: Graph, id: Oid, parents: seq<Oid>, i: nat, entry: Metadata, data: Marks, mid: Marks, new_: Marks,
                   before: bool, pushed: bool)
    requires i < |parents| && HandedUpTo(parents[..i], entry, data, mid, before)
    requires Grows(data, mid) && Pushes(g, id, Pace(entry.originalTtl, entry.ttl), mid, new_)
    requires var p := parents[i];
      && Of(new_, p).seen && (Of(mid, p).popped || HandedTo(entry, new_, p))
      && (pushed <==> before || !Of(mid, p).popped)
    ensures HandedUpTo(parents[..i + 1], entry, data, new_, pushed)
  {
    var upTo, p := parents[..i + 1], parents[i];
    forall x ensures x in upTo <==> x in parents[..i] || x == p {}
    assert GrowsAt(data, mid, p);
    forall x | x in upTo ensures Of(new_, x).seen && (Of(data, x).popped || HandedTo(entry, new_, x)) {
      assert GrowsAt(mid, new_, x);
      if x in parents[..i] && !Of(data, x).popped {
        StillHanded(g, id, entry, mid, new_, x);
      }
    }
  }

  lemma HandedAll(g: Graph, id: Oid, entry: Metadata, data: Marks, new_: Marks, pushed: bool)
    requires id in g && NothingMissing(g) && HandedUpTo(g[id], entry, data, new_, pushed)
    ensures ParentsSeen(g, new_, id) && HandedOn(g, id, entry, data, new_) && (pushed <==> !AllPopped(g, data, id))
  {
  }

  /** The metadata right after popping hands on the same as before. */
  lemma HandedSincePop(g: Graph, id: Oid, before: Metadata, entry: Metadata, data: Marks, new_: Marks)
    requires entry == before.(flags := before.flags.(popped := true)) && HandedOn(g, id, entry, data, new_)
    ensures HandedOn(g, id, before, data, new_)
  {
  }

  class Algorithm {
    const graph: CommitGraph<Metadata>
    var revs: multiset<Oid>
    var nonCommonRevs: nat

    // The history of the run: everything that was passed in, everything that was announced, what was counted
    // although it was common already, and everything that was ever queued.
    ghost var tips: set<Oid>
    ghost var known: set<Oid>
    ghost var acked: set<Oid>
    ghost var announced: set<Oid>
    ghost var late: set<Oid>
    ghost var entered: multiset<Oid>

    ghost function Run(): Context reads this {
      var g := graph.history.parents;
      Context(g, Covered(g, known, acked), ReachableFrom(g, tips + known + acked), announced)
    }

    ghost predicate Holds(c: Context, owed: set<Oid>) reads this, graph {
      && graph.Valid() && c.g == graph.history.parents
      && Consistent(c, late, owed, graph.data, revs, nonCommonRevs) && EnteredOnce(entered, graph.data)
    }

    ghost predicate Valid() reads this, graph {
      Holds(Run(), {}) && NothingMissing(graph.history.parents) && Walk(graph.history.parents, tips + known,
            announced, graph.data)
    }

    constructor (graph: CommitGraph<Metadata>)
      requires graph.Valid() && Untouched(graph.data) && NothingMissing(graph.history.parents)
      ensures Valid() && this.graph == graph
      ensures revs == multiset{} && nonCommonRevs == 0
      ensures tips == {} && known == {} && acked == {} && announced == {} && late == {}
      ensures entered == multiset{}
    {
      this.graph := graph;
      revs, nonCommonRevs := multiset{}, 0;
      tips, known, acked, announced, late, entered := {}, {}, {}, {}, {}, multiset{};
      new;
      CoveredClosed(graph.history.parents, {}, {});
      ReachableFromClosed(graph.history.parents, {});
      assert tips + known + acked == {} && tips + known == {};
      Fresh(Run(), graph.data);
    }

    /** Queues an unseen commit. */
    method AddToQueue(ghost c: Context, id: Oid, mark: Flags)
      requires Holds(c, {}) && (id in c.g ==> id in c.scope) && !Of(graph.data, id).seen
      requires mark == NO_FLAGS || (mark == ADVERTISED && ParentsCovered(c, id))
      modifies this`revs, this`nonCommonRevs, this`late, this`entered, graph`data
      ensures Holds(c, {}) && Evolves(old(graph.data), graph.data)
      ensures graph.data == Queued(c.g, old(graph.data), id, mark)
      ensures revs == if id in c.g then old(revs) + multiset{id} else old(revs)
      ensures entered == if id in c.g then old(entered) + multiset{id} else old(entered)
    {
      ghost var data := graph.data;
      var present := graph.GetOrInsert(id, NO_DATA);
      if present {
        QueueOne(c, late, data, revs, nonCommonRevs, id, mark);
        EnterOne(entered, data, id, Join(Of(data, id), Join(mark, SEEN)));
        Loaded(data, id, graph.data, Join(Of(data, id), Join(mark, SEEN)));
        var flags := graph.data[id].flags;
        if flags.common { late := late + {id}; }
        graph.data := SetFlags(graph.data, id, Join(flags, Join(mark, SEEN)));
        revs := revs + multiset{id};
        entered := entered + multiset{id};
        nonCommonRevs := nonCommonRevs + 1;
      } else {
        NoneEntered(entered, data, graph.data);
        EvolvesRefl(data);
      }
    }

    /** Sets COMMON on a loaded commit; tells if it has to be followed because it was queued but not common. */
    method SetCommon(ghost c: Context, ghost queue: multiset<Oid>, ghost owed: set<Oid>,
                     id: Oid) returns (follow: bool, ghost owed': set<Oid>)
      requires Holds(c, owed) && Owes(c, graph.data, queue, owed) && id in graph.data && id in c.covered
      modifies graph`data
      ensures Holds(c, owed') && Evolves(old(graph.data), graph.data)
      ensures Owes(c, graph.data, if follow then queue + multiset{id} else queue, owed')
      ensures graph.data == SetFlags(old(graph.data), id, Of(old(graph.data), id).(common := true))
      ensures follow <==> Of(old(graph.data), id).seen && !Of(old(graph.data), id).common
      ensures NotCommon(c.g, graph.data) <= old(NotCommon(c.g, graph.data))
      ensures follow ==> NotCommon(c.g, graph.data) < old(NotCommon(c.g, graph.data))
    {
      ghost var data := graph.data;
      var flags := graph.data[id].flags;
      CommonOne(c, late, owed, data, revs, nonCommonRevs, id);
      OwesMore(c, data, queue, owed, id);
      follow := flags.seen && !flags.common;
      owed' := if Waits(flags) then owed + {id} else owed;
      graph.data := SetFlags(graph.data, id, flags.(common := true));
      NoneEntered(entered, data, graph.data);
      EvolvesGrows(data, graph.data);
      NotCommonShrinks(c.g, data, graph.data);
      assert follow ==> id in NotCommon(c.g, data) && id !in NotCommon(c.g, graph.data);
    }

    /** Marks all loaded parents as common and queues those that were queued before as not common. */
    method SpreadToParents(ghost c: Context, id: Oid, queue: multiset<Oid>, ghost owed: set<Oid>)
      returns (newQueue: multiset<Oid>, ghost newOwed: set<Oid>)
      requires Holds(c, owed) && Owes(c, graph.data, queue, owed) && id in c.g && ParentsCovered(c, id)
      modifies graph`data
      ensures Holds(c, newOwed) && Evolves(old(graph.data), graph.data) && Owes(c, graph.data, newQueue, newOwed)
      ensures NotCommon(c.g, graph.data) < old(NotCommon(c.g, graph.data))
           || (newQueue == queue && NotCommon(c.g, graph.data) == old(NotCommon(c.g, graph.data)))
      ensures Marked(c.g[id], old(graph.data), graph.data, queue, newQueue)
    {
      newQueue, newOwed := queue, owed;
      var parents := graph.history.parents[id];
      EvolvesRefl(graph.data);
      for i := 0 to |parents|
        invariant Holds(c, newOwed) && Evolves(old(graph.data), graph.data) && Owes(c, graph.data, newQueue, newOwed)
        invariant NotCommon(c.g, graph.data) < old(NotCommon(c.g, graph.data))
               || (newQueue == queue && NotCommon(c.g, graph.data) <= old(NotCommon(c.g, graph.data)))
        invariant Marked(parents[..i], old(graph.data), graph.data, queue, newQueue)
      {
        ghost var data, before := graph.data, newQueue;
        if parents[i] in graph.data {
          assert Edge(c.g, id, parents[i]);
          var follow;
          follow, newOwed := SetCommon(c, newQueue, newOwed, parents[i]);
          EvolvesTrans(old(graph.data), data, graph.data);
          if follow { newQueue := newQueue + multiset{parents[i]}; }
        }
        MarkedNext(parents, i, old(graph.data), data, graph.data, queue, before, newQueue);
      }
      assert parents[..|parents|] == parents;
    }

    /** Spreads COMMON from a queued commit through everything that was queued below it. */
    method MarkCommon(ghost c: Context, id: Oid)
      requires Holds(c, {}) && id in graph.data && id in c.covered && graph.data[id].flags.seen
      modifies this`nonCommonRevs, graph`data
      ensures Holds(c, {}) && Evolves(old(graph.data), graph.data) && Of(graph.data, id).common
      ensures SpreadThrough(c.g, old(graph.data), graph.data) && Caused(c.g, old(graph.data), graph.data, id)
    {
      ghost var data := graph.data;
      forall x ensures OwedAt(c, graph.data, multiset{}, {}, x) {}
      var follow; ghost var owed;
      follow, owed := SetCommon(c, multiset{}, {}, id);
      assert multiset{} + multiset{id} == multiset{id};
      ghost var marked := graph.data;
      var start := if follow then multiset{id} else multiset{};
      forall x ensures SpreadingAt(c.g, data, marked, start, x) && CausedAt(c.g, data, marked, id, x) {}
      Spread(c, data, start, owed, id);
      assert EvolvesAt(marked, graph.data, id);
    }

    /** Follows queued commits until COMMON has spread as far as it should since `data`. */
    method Spread(ghost c: Context, ghost data: Marks, start: multiset<Oid>, ghost startOwed: set<Oid>, ghost from: Oid)
      requires Holds(c, startOwed) && Owes(c, graph.data, start, startOwed)
      requires Evolves(data, graph.data) && Spreading(c.g, data, graph.data, start) && EnteredOnce(entered, data)
      requires Caused(c.g, data, graph.data, from) && QueueCaused(data, graph.data, start)
      modifies this`nonCommonRevs, graph`data
      ensures Holds(c, {}) && Evolves(old(graph.data), graph.data) && Evolves(data, graph.data)
      ensures SpreadThrough(c.g, data, graph.data) && Caused(c.g, data, graph.data, from)
    {
      EvolvesRefl(graph.data);
      var queue := start;
      ghost var owed := startOwed;
      while queue != multiset{}
        invariant Holds(c, owed) && Evolves(old(graph.data), graph.data) && Owes(c, graph.data, queue, owed)
        invariant Evolves(data, graph.data) && Spreading(c.g, data, graph.data, queue)
        invariant Caused(c.g, data, graph.data, from) && QueueCaused(data, graph.data, queue)
        decreases NotCommon(c.g, graph.data), |queue|
      {
        ghost var mid, before := graph.data, queue;
        ghost var id;
        queue, owed, id := SpreadOne(c, queue, owed);
        SpreadRound(c.g, data, mid, graph.data, before, id, queue);
        forall x ensures Of(mid, x).seen == Of(data, x).seen { SameSeen(entered, data, mid, x); }
        StillCaused(c.g, data, mid, graph.data, before, id, queue, from);
        EvolvesTrans(old(graph.data), mid, graph.data);
        EvolvesTrans(data, mid, graph.data);
      }
      forall x ensures x !in owed { assert OwedAt(c, graph.data, queue, owed, x); }
      assert owed == {};
      SpreadEnds(c.g, data, graph.data);
    }

    /** One round of spreading: takes a commit that became common off the count and marks its parents. */
    method SpreadOne(ghost c: Context, queue: multiset<Oid>, ghost owed: set<Oid>)
      returns (rest: multiset<Oid>, ghost owed': set<Oid>, ghost id: Oid)
      requires Holds(c, owed) && Owes(c, graph.data, queue, owed) && queue != multiset{}
      modifies this`nonCommonRevs, graph`data
      ensures Holds(c, owed') && Evolves(old(graph.data), graph.data) && Owes(c, graph.data, rest, owed')
      ensures id in queue && id in c.g && Marked(c.g[id], old(graph.data), graph.data, queue - multiset{id}, rest)
      ensures NotCommon(c.g, graph.data) < old(NotCommon(c.g, graph.data))
           || (NotCommon(c.g, graph.data) == old(NotCommon(c.g, graph.data)) && |rest| < |queue|)
    {
      ghost var data := graph.data;
      var top;
      top, rest := PopTop(queue, ByTime(graph.history));
      id, owed' := top, owed;
      assert OwedAt(c, data, queue, owed, top);
      OwesLess(c, data, queue, owed, top);
      if !graph.data[top].flags.popped {
        Pay(c, late, owed, data, revs, nonCommonRevs, top);
        nonCommonRevs := nonCommonRevs - 1;
        owed' := owed - {top};
      } else {
        assert owed - {top} == owed;
      }
      CoveredParents(c, top);
      rest, owed' := SpreadToParents(c, top, rest, owed');
    }

    /** Hands the walk on to one parent of a popped commit; tells if the parent was still to be popped. */
    method PushParent(ghost c: Context, ghost id: Oid, entry: Metadata, parent: Oid) returns (pushed: bool)
      requires Holds(c, {}) && id in c.scope && Edge(c.g, id, parent)
      requires entry.flags.common || entry.flags.advertised ==> ParentsCovered(c, id)
      modifies this`revs, this`nonCommonRevs, this`late, this`entered, graph`data
      ensures Holds(c, {}) && Of(graph.data, parent).seen
      ensures Pushes(c.g, id, Pace(entry.originalTtl, entry.ttl), old(graph.data), graph.data)
      ensures pushed <==> !Of(old(graph.data), parent).popped
      ensures pushed ==> HandedTo(entry, graph.data, parent)
      ensures Finds(c.g, id, entry, old(graph.data), graph.data)
      ensures !entry.flags.common && !entry.flags.advertised ==> NoneNew(old(graph.data), graph.data)
      ensures old(revs) <= revs
    {
      ghost var data, pace := graph.data, Pace(entry.originalTtl, entry.ttl);
      EvolvesRefl(data);
      EvolvesPushes(c.g, id, pace, data, data);
      assert Truthful(c, late, {}, data, revs, parent);
      if Of(graph.data, parent).seen {
        if graph.data[parent].flags.popped { return false; }
      } else {
        AddToQueue(c, parent, NO_FLAGS);
        EvolvesPushes(c.g, id, pace, data, graph.data);
      }
      ghost var queued := graph.data;
      QueuedNotNew(c.g, data, parent);
      if entry.flags.common || entry.flags.advertised {
        MarkCommon(c, parent);
        EvolvesPushes(c.g, id, pace, queued, graph.data);
      } else {
        SetPace(c, id, entry, parent);
        NoneNewTrans(data, queued, graph.data);
      }
      PushesTrans(c.g, id, pace, data, queued, graph.data);
      assert GrowsAt(queued, graph.data, parent);
      forall x ensures FoundAt(c.g, id, entry, data, graph.data, x) { SameSeen(entered, queued, graph.data, x); }
      return true;
    }

    /** Sets the pace of a pushed parent unless it has a longer stride already. */
    method SetPace(ghost c: Context, ghost id: Oid, entry: Metadata, parent: Oid)
      requires Holds(c, {}) && parent in graph.data && Edge(c.g, id, parent) && !Of(graph.data, parent).popped
      modifies graph`data
      ensures Holds(c, {}) && Pushes(c.g, id, Pace(entry.originalTtl, entry.ttl), old(graph.data), graph.data)
      ensures PaceOf(graph.data, parent).originalTtl >= NextPace(Pace(entry.originalTtl, entry.ttl)).originalTtl
      ensures NoneNew(old(graph.data), graph.data)
    {
      ghost var data := graph.data;
      var pace := Pace(entry.originalTtl, entry.ttl);
      var next := NextPace(pace);
      PaceOne(c, late, data, revs, nonCommonRevs, parent, next);
      if graph.data[parent].originalTtl < next.originalTtl {
        graph.data := graph.data[parent := graph.data[parent].(originalTtl := next.originalTtl, ttl := next.ttl)];
      } else {
        GrowsRefl(data);
      }
      forall x ensures PacedAt(c.g, id, pace, data, graph.data, x) {}
      NoneEntered(entered, data, graph.data);
    }

    /** Hands the walk on to all parents of a popped commit; tells if any was still to be popped. */
    method PushParents(ghost c: Context, id: Oid, entry: Metadata) returns (pushed: bool)
      requires Holds(c, {}) && id in c.g && id in c.scope && NothingMissing(c.g)
      requires entry.flags.common || entry.flags.advertised ==> ParentsCovered(c, id)
      modifies this`revs, this`nonCommonRevs, this`late, this`entered, graph`data
      ensures Holds(c, {}) && ParentsSeen(c.g, graph.data, id)
      ensures Pushes(c.g, id, Pace(entry.originalTtl, entry.ttl), old(graph.data), graph.data)
      ensures pushed <==> !AllPopped(c.g, old(graph.data), id)
      ensures HandedOn(c.g, id, entry, old(graph.data), graph.data)
      ensures Finds(c.g, id, entry, old(graph.data), graph.data)
      ensures !entry.flags.common && !entry.flags.advertised ==> NoneNew(old(graph.data), graph.data)
      ensures old(revs) <= revs
    {
      ghost var start, pace := graph.data, Pace(entry.originalTtl, entry.ttl);
      EvolvesRefl(start);
      EvolvesPushes(c.g, id, pace, start, start);
      pushed := false;
      var parents := graph.history.parents[id];
      for i := 0 to |parents|
        invariant Holds(c, {}) && Pushes(c.g, id, pace, start, graph.data) && old(revs) <= revs
        invariant HandedUpTo(parents[..i], entry, start, graph.data, pushed)
        invariant Finds(c.g, id, entry, start, graph.data)
        invariant !entry.flags.common && !entry.flags.advertised ==> NoneNew(start, graph.data)
      {
        ghost var data, before := graph.data, pushed;
        assert Edge(c.g, id, parents[i]);
        var one := PushParent(c, id, entry, parents[i]);
        pushed := pushed || one;
        HandedNext(c.g, id, parents, i, entry, start, data, graph.data, before, pushed);
        PushesTrans(c.g, id, pace, start, data, graph.data);
        FindsTrans(c.g, id, entry, start, data, graph.data);
        if !entry.flags.common && !entry.flags.advertised { NoneNewTrans(start, data, graph.data); }
      }
      assert parents[..|parents|] == parents;
      HandedAll(c.g, id, entry, start, graph.data, pushed);
    }

    /** Pops one commit, hands the walk on, and decides whether to announce it: if its time to live is used up, or if
        no parent is left to be announced in its stead. */
    method Visit(ghost c: Context, ghost seeds: set<Oid>, id: Oid) returns (toSend: bool)
      requires graph.Valid() && c.g == graph.history.parents && NothingMissing(c.g)
      requires Consistent(c, late, {}, graph.data, revs + multiset{id}, nonCommonRevs)
      requires Walk(c.g, seeds, c.announced, graph.data) && EnteredOnce(entered, graph.data)
      modifies this`revs, this`nonCommonRevs, this`late, this`entered, graph`data
      ensures Holds(Announce(c, id, toSend), {}) && Walk(c.g, seeds, Announce(c, id, toSend).announced, graph.data)
      ensures toSend ==> id !in c.announced
      ensures var data := old(graph.data);
        toSend <==> !Of(data, id).common && (PaceOf(data, id).ttl == 0 || AllPopped(c.g, PopAt(data, id), id))
      ensures id in old(graph.data) && HandedOn(c.g, id, old(graph.data)[id], PopAt(old(graph.data), id), graph.data)
      ensures CommonStays(old(graph.data), graph.data)
      ensures var f := Of(old(graph.data), id); !f.common && !f.advertised ==> NoneNew(old(graph.data), graph.data)
      ensures NotPopped(c.g, graph.data) < old(NotPopped(c.g, graph.data)) && id in c.g && Of(graph.data, id).popped
      ensures old(revs) <= revs
    {
      ghost var data, queued := graph.data, revs + multiset{id};
      PopOne(c, late, data, queued, nonCommonRevs, id);
      assert queued - multiset{id} == revs;
      assert Truthful(c, late, {}, data, queued, id);
      var flags := graph.data[id].flags;
      graph.data := SetFlags(graph.data, id, flags.(popped := true));
      NoneEntered(entered, data, graph.data);
      if flags.common { CoveredParents(c, id); } else { nonCommonRevs := nonCommonRevs - 1; }
      var entry := graph.data[id];
      ghost var popped := graph.data;
      toSend := !entry.flags.common && entry.ttl == 0;
      var pushed := PushParents(c, id, entry);
      if !entry.flags.common && !pushed {
        toSend := true;
      }
      assert GrowsAt(popped, graph.data, id);
      assert pushed ==> HasParent(c.g, id);
      HandedSincePop(c.g, id, data[id], entry, popped, graph.data);
      CommonSincePop(data, id, graph.data);
      AnnounceOne(c, late, graph.data, revs, nonCommonRevs, id, toSend);
      Popped(c.g, seeds, c.announced, data, id, entry, popped, graph.data, Announce(c, id, toSend).announced);
    }

    /** Pops commits until one is to be announced, or nothing is left that could be. */
    method PopUntilNews(ghost c: Context, ghost seeds: set<Oid>) returns (r: Option<Oid>)
      requires Holds(c, {}) && NothingMissing(c.g) && Walk(c.g, seeds, c.announced, graph.data)
      modifies this`revs, this`nonCommonRevs, this`late, this`entered, graph`data
      ensures var c' := if r.Some? then Announce(c, r.value, true) else c;
        Holds(c', {}) && Walk(c.g, seeds, c'.announced, graph.data)
      ensures r.Some? ==> r.value !in c.announced && !Of(old(graph.data), r.value).common
      ensures r.None? ==> Waiting(graph.data) == {}
      ensures r.Some? ==> Newest(graph.history, old(revs), revs, r.value)
    {
      while revs != multiset{}
        invariant Holds(c, {}) && Walk(c.g, seeds, c.announced, graph.data)
        invariant CommonStays(old(graph.data), graph.data) && StillQueued(old(revs), revs, graph.data)
        decreases NotPopped(c.g, graph.data)
      {
        ghost var queued, data := revs, graph.data;
        var id;
        id, revs := PopTop(revs, ByTime(graph.history));
        assert revs + multiset{id} == queued;
        if nonCommonRevs == 0 {
          DropOne(c, late, graph.data, queued, id);
          return None;
        }
        var toSend := Visit(c, seeds, id);
        QueuedSince(c.g, old(revs), queued, data, id, revs, graph.data);
        if toSend {
          QueuedNotPopped(Announce(c, id, true), late, graph.data, revs, nonCommonRevs);
          NewestIsTop(graph.history, old(revs), queued, id, revs, graph.data);
          return Some(id);
        }
      }
      NothingWaits(c, late, graph.data, revs, nonCommonRevs);
      return None;
    }

    /** The next commit to announce: never one that was announced before. Without an answer, nothing is left in the
        queue that is not known to be common. */
    method NextHave() returns (r: Option<Oid>)
      requires Valid()
      modifies this, graph
      ensures Valid() && tips == old(tips) && known == old(known) && acked == old(acked)
      ensures r.Some? ==> r.value !in old(announced) && announced == old(announced) + {r.value}
      ensures r.Some? ==> !Of(old(graph.data), r.value).common && Newest(graph.history, old(revs), revs, r.value)
      ensures r.None? ==> announced == old(announced) && Waiting(graph.data) == {}
    {
      r := PopUntilNews(Run(), tips + known);
      if r.Some? {
        announced := announced + {r.value};
      }
    }

    /** A tip to walk from; ignored if it was queued before. */
    method AddTip(id: Oid)
      requires Valid()
      modifies this, graph
      ensures Valid()
      ensures tips == old(tips) + {id} && known == old(known) && acked == old(acked) && announced == old(announced)
      ensures graph.data == QueuedUnlessSeen(graph.history.parents, old(graph.data), id, NO_FLAGS)
    {
      ghost var c := Run();
      tips := tips + {id};
      Relearn(c, old(tips), known, acked, id);
      assert tips + known == old(tips) + known + {id};
      QueueUnlessSeen(Run(), old(tips) + known, id, NO_FLAGS);
    }

    method QueueUnlessSeen(ghost c: Context, ghost seeds: set<Oid>, id: Oid, mark: Flags)
      requires Holds(c, {}) && (id in c.g ==> id in c.scope) && Walk(c.g, seeds, c.announced, graph.data)
      requires mark == NO_FLAGS || (mark == ADVERTISED && ParentsCovered(c, id))
      modifies this`revs, this`nonCommonRevs, this`late, this`entered, graph`data
      ensures Holds(c, {}) && Walk(c.g, seeds + {id}, c.announced, graph.data)
      ensures graph.data == QueuedUnlessSeen(c.g, old(graph.data), id, mark)
    {
      ghost var data := graph.data;
      EvolvesRefl(data);
      if !Of(graph.data, id).seen {
        AddToQueue(c, id, mark);
      }
      EvolvesGrows(data, graph.data);
      StillSeen(c.g, seeds, data, graph.data);
      WalkEvolves(c.g, seeds, c.announced, data, seeds + {id}, graph.data);
    }

    method Acknowledge(ghost c: Context, ghost seeds: set<Oid>, id: Oid)
      requires Holds(c, {}) && id in graph.data && id in c.covered && graph.data[id].flags.seen
      requires Walk(c.g, seeds, c.announced, graph.data)
      modifies this`nonCommonRevs, graph`data
      ensures Holds(c, {}) && Walk(c.g, seeds, c.announced, graph.data) && Of(graph.data, id).common
      ensures SpreadThrough(c.g, old(graph.data), graph.data) && Caused(c.g, old(graph.data), graph.data, id)
    {
      ghost var data := graph.data;
      MarkCommon(c, id);
      EvolvesGrows(data, graph.data);
      StillSeen(c.g, seeds, data, graph.data);
      forall x ensures Of(graph.data, x).seen == Of(data, x).seen { SameSeen(entered, data, graph.data, x); }
      WalkEvolves(c.g, seeds, c.announced, data, seeds, graph.data);
    }

    /** A commit the remote is known to have; ignored if it was queued before. */
    method KnownCommon(id: Oid)
      requires Valid()
      modifies this, graph
      ensures Valid()
      ensures known == old(known) + {id} && tips == old(tips) && acked == old(acked) && announced == old(announced)
      ensures graph.data == QueuedUnlessSeen(graph.history.parents, old(graph.data), id, ADVERTISED)
    {
      ghost var c := Run();
      known := known + {id};
      Relearn(c, tips, old(known), acked, id);
      KnownParentsCovered(Run(), known, acked, id);
      assert tips + known == tips + old(known) + {id};
      QueueUnlessSeen(Run(), tips + old(known), id, ADVERTISED);
    }

    /** The remote acknowledges an announced commit; tells if it was known to be common already. Acknowledging a
        commit that was never queued is an error of the caller. */
    method InCommonWithRemote(id: Oid) returns (wasKnown: bool)
      requires Valid() && Of(graph.data, id).seen
      modifies this, graph
      ensures Valid()
      ensures acked == old(acked) + {id} && tips == old(tips) && known == old(known) && announced == old(announced)
      ensures wasKnown == Of(old(graph.data), id).common && Of(graph.data, id).common
      ensures SpreadThrough(graph.history.parents, old(graph.data), graph.data)
      ensures Caused(graph.history.parents, old(graph.data), graph.data, id)
    {
      ghost var c, seeds := Run(), tips + known;
      wasKnown := graph.data[id].flags.common;
      acked := acked + {id};
      Relearn(c, tips, known, old(acked), id);
      ghost var c' := Run();
      Acknowledge(c', seeds, id);
      assert Run() == c';
    }

    lemma Relearn(c: Context, oldTips: set<Oid>, oldKnown: set<Oid>, oldAcked: set<Oid>, id: Oid)
      requires Holds(c, {}) && oldTips <= tips && oldKnown <= known && oldAcked <= acked
      requires c.covered == Covered(c.g, oldKnown, oldAcked) && c.announced == announced
      requires c.scope == ReachableFrom(c.g, oldTips + oldKnown + oldAcked)
      ensures Holds(Run(), {})
      ensures id in tips + known + acked && id in c.g ==> id in Run().scope
      ensures id in acked && id in c.g ==> id in Run().covered
    {
      CoveredClosed(c.g, known, acked);
      CoveredGrows(c.g, oldKnown, oldAcked, known, acked);
      ReachableFromClosed(c.g, tips + known + acked);
      ReachableFromGrows(c.g, oldTips + oldKnown + oldAcked, tips + known + acked);
      Widen(c, Run(), late, graph.data, revs, nonCommonRevs);
    }
  }

  ghost function Announce(c: Context, id: Oid, really: bool): Context {
    if really then c.(announced := c.announced + {id}) else c
  }

  lemma AnnounceOne(c: Context, late: set<Oid>, data: Marks, revs: multiset<Oid>, count: int, id: Oid, really: bool)
    requires Consistent(c, late, {}, data, revs, count) && Of(data, id).popped
    ensures Consistent(Announce(c, id, really), late, {}, data, revs, count)
  {
    forall x ensures Truthful(Announce(c, id, really), late, {}, data, revs, x) {
      assert Truthful(c, late, {}, data, revs, x);
    }
  }

  /** Popping a commit and handing on to its parents keeps the walk going, and pops one commit more. */
  lemma Popped(g: Graph, seeds: set<Oid>, announced: set<Oid>, data: Marks, id: Oid, entry: Metadata, popped: Marks,
               new_: Marks, announced': set<Oid>)
    requires Walk(g, seeds, announced, data) && announced <= announced'
    requires id in data && id in g && !data[id].flags.popped
    requires popped == SetFlags(data, id, data[id].flags.(popped := true))
    requires Pushes(g, id, PaceOf(data, id), popped, new_) && ParentsSeen(g, new_, id)
    requires entry == popped[id] && Finds(g, id, entry, popped, new_)
    requires data[id].flags.common || id in announced' || HasParent(g, id)
    ensures Walk(g, seeds, announced', new_)
    ensures NotPopped(g, new_) < NotPopped(g, data)
  {
    forall x | Of(popped, x).popped && x !in {id} ensures ParentsSeen(g, popped, x) {
      assert ParentsSeen(g, data, x);
    }
    WalkStillContinues(g, popped, new_, {id});
    forall t | t in seeds && t in g ensures Of(new_, t).seen {
      assert Of(data, t).seen;
      assert GrowsAt(popped, new_, t);
    }
    forall x ensures AnsweredAt(g, announced', new_, x) {
      assert AnsweredAt(g, announced, data, x) && GrowsAt(popped, new_, x);
    }
    PacedAfterPop(g, seeds, data, id, popped, new_);
    forall x ensures Of(new_, x).popped <==> Of(data, x).popped || x == id { assert GrowsAt(popped, new_, x); }
    assert id in NotPopped(g, data);
  }

  lemma PacedAfterPop(g: Graph, seeds: set<Oid>, data: Marks, id: Oid, popped: Marks, new_: Marks)
    requires Paced(g, seeds, data) && id in data && popped == SetFlags(data, id, data[id].flags.(popped := true))
    requires Pushes(g, id, PaceOf(data, id), popped, new_) && Finds(g, id, popped[id], popped, new_)
    ensures Paced(g, seeds, new_)
  {
    var pace := PaceOf(data, id);
    assert PacedAt(g, id, pace, popped, new_, id) && GrowsAt(popped, new_, id);
    forall x ensures PaceComes(g, seeds, new_, x) && PaceOf(new_, x).ttl <= PaceOf(new_, x).originalTtl {
      assert PaceComes(g, seeds, data, x) && PacedAt(g, id, pace, popped, new_, x);
      assert GrowsAt(popped, new_, x) && FoundAt(g, id, popped[id], popped, new_, x);
      if PaceOf(new_, x) != PaceOf(data, x) {
        assert PacedBy(g, new_, id, x);
      } else if y :| PacedBy(g, data, y, x) {
        assert PacedAt(g, id, pace, popped, new_, y) && GrowsAt(popped, new_, y);
        assert PacedBy(g, new_, y, x);
      }
    }
  }

  lemma QueuedNotPopped(c: Context, late: set<Oid>, data: Marks, revs: multiset<Oid>, count: int)
    requires Consistent(c, late, {}, data, revs, count)
    ensures NonePopped(revs, data)
  {
    forall x | x in revs ensures !Of(data, x).popped { assert Truthful(c, late, {}, data, revs, x); }
  }

  lemma NothingWaits(c: Context, late: set<Oid>, data: Marks, revs: multiset<Oid>, count: int)
    requires Consistent(c, late, {}, data, revs, count) && revs == multiset{}
    ensures Waiting(data) == {}
  {
    forall x ensures x !in Waiting(data) { assert Truthful(c, late, {}, data, revs, x); }
  }

  lemma Fresh(c: Context, data: Marks)
    requires Untouched(data) && data.Keys <= c.g.Keys && c.announced == {}
    requires Closed(c.g, c.covered) && Closed(c.g, c.scope)
    ensures Consistent(c, {}, {}, data, multiset{}, 0) && Walk(c.g, {}, {}, data) && EnteredOnce(multiset{}, data)
  {
    forall x ensures Truthful(c, {}, {}, data, multiset{}, x) {}
    assert Waiting(data) == {};
    forall x ensures EnteredAt(multiset{}, data, x) {}
    forall x ensures AnsweredAt(c.g, {}, data, x) {}
    forall x ensures PaceComes(c.g, {}, data, x) {}
  }

  lemma OwesLess(c: Context, data: Marks, queue: multiset<Oid>, owed: set<Oid>, id: Oid)
    requires Owes(c, data, queue, owed) && id in queue
    ensures Owes(c, data, queue - multiset{id}, owed - {id})
  {
    forall x ensures OwedAt(c, data, queue - multiset{id}, owed - {id}, x) { assert OwedAt(c, data, queue, owed, x); }
  }

  // ----- whole runs

  /** Once nothing waits, a walk down from a seen commit meets seen commits until it meets a common one. */
  lemma {:induction false} WalkSeesAll(c: Context, late: set<Oid>, data: Marks, revs: multiset<Oid>,
                                       p: seq<Oid>) returns (common: Option<Oid>)
    requires Consistent(c, late, {}, data, revs, |late|) && WalkContinues(c.g, data, {})
    requires IsPath(c.g, p) && Of(data, p[0]).seen
    ensures if common.Some? then Of(data, common.value).common && Reaches(c.g, common.value, p[|p| - 1])
            else Of(data, p[|p| - 1]).seen
  {
    assert Truthful(c, late, {}, data, revs, p[0]);
    assert p[0] !in Waiting(data);
    if |p| == 1 { return None; }
    if Of(data, p[0]).common {
      assert PathBetween(c.g, p, p[0], p[|p| - 1]);
      return Some(p[0]);
    }
    assert ParentsSeen(c.g, data, p[0]) && Edge(c.g, p[0], p[1]);
    common := WalkSeesAll(c, late, data, revs, p[1..]);
  }

  /** Once nothing waits, every seen commit leads down to one that was announced or is common. */
  lemma SeenIsAnswered(c: Context, late: set<Oid>, data: Marks, revs: multiset<Oid>, x: Oid) returns (y: Oid)
    requires Acyclic(c.g) && Consistent(c, late, {}, data, revs, |late|)
    requires WalkContinues(c.g, data, {}) && Answered(c.g, c.announced, data) && Of(data, x).seen
    ensures Reaches(c.g, x, y) && (y in c.announced || Of(data, y).common)
    decreases Reachable(c.g, x)
  {
    assert Truthful(c, late, {}, data, revs, x);
    assert x in c.g && x !in Waiting(data);
    assert AnsweredAt(c.g, c.announced, data, x);
    if Of(data, x).common || x in c.announced {
      ReachesRefl(c.g, x);
      return x;
    }
    var p :| Edge(c.g, x, p);
    assert ParentsSeen(c.g, data, x);
    ReachesRefl(c.g, p);
    StrictReachableShrinks(c.g, x, p);
    y := SeenIsAnswered(c, late, data, revs, p);
    ReachesEdge(c.g, x, p);
    ReachesTrans(c.g, x, p, y);
  }

  ghost predicate BelowCommon(g: Graph, data: Marks, x: Oid) {
    exists y :: Of(data, y).common && Reaches(g, y, x)
  }

  ghost predicate LeadsToAnswer(g: Graph, announced: set<Oid>, data: Marks, x: Oid) {
    exists y :: (y in announced || Of(data, y).common) && Reaches(g, x, y)
  }

  /** Coverage: when `NextHave` has no answer, every commit reachable from a tip or a known commit lies at or below a
      common commit, or has an ancestor, possibly itself, that was announced or is common. */
  lemma Coverage(a: Algorithm, t: Oid, x: Oid)
    requires a.Valid() && Acyclic(a.graph.history.parents) && Waiting(a.graph.data) == {}
    requires t in a.tips + a.known && Reaches(a.graph.history.parents, t, x)
    ensures BelowCommon(a.graph.history.parents, a.graph.data, x)
         || LeadsToAnswer(a.graph.history.parents, a.announced, a.graph.data, x)
  {
    var g, c := a.graph.history.parents, a.Run();
    ReachesPresent(g, t, x);
    var p :| PathBetween(g, p, t, x);
    var common := WalkSeesAll(c, a.late, a.graph.data, a.revs, p);
    if common.None? {
      var y := SeenIsAnswered(c, a.late, a.graph.data, a.revs, x);
    }
  }

  /** Soundness: what is flagged COMMON is an acknowledged commit, an ancestor of one, or a strict ancestor of a known
      one; over the whole run, exactly the seen commits entered the queue, and each of them once. */
  lemma Sound(a: Algorithm, x: Oid)
    requires a.Valid()
    ensures Of(a.graph.data, x).common ==>
              || (exists k :: k in a.acked && Reaches(a.graph.history.parents, k, x))
              || (exists k :: k in a.known && StrictlyReaches(a.graph.history.parents, k, x))
    ensures x in a.announced ==> exists s :: s in a.tips + a.known + a.acked && Reaches(a.graph.history.parents, s, x)
    ensures a.entered[x] <= 1 && (x in a.entered <==> Of(a.graph.data, x).seen)
    ensures a.revs[x] <= a.entered[x] && (x in a.announced ==> x in a.entered && x !in a.revs)
  {
    assert EnteredAt(a.entered, a.graph.data, x);
    assert Truthful(a.Run(), a.late, {}, a.graph.data, a.revs, x);
    if Of(a.graph.data, x).common { assert x in Covered(a.graph.history.parents, a.known, a.acked); }
    if x in a.announced { assert x in ReachableFrom(a.graph.history.parents, a.tips + a.known + a.acked); }
  }

  /** The counter never falls short of the waiting commits; the surplus is made of queued commits that are common. */
  lemma CounterIsUpperBound(a: Algorithm)
    requires a.Valid()
    ensures a.nonCommonRevs == |Waiting(a.graph.data)| + |a.late|
    ensures forall x :: x in a.late ==> Of(a.graph.data, x).seen && Of(a.graph.data, x).common
  {
    forall x | x in a.late ensures Of(a.graph.data, x).seen && Of(a.graph.data, x).common {
      assert Truthful(a.Run(), a.late, {}, a.graph.data, a.revs, x);
    }
  }

  /** In any history the time to live never exceeds the stride it was drawn from, and a pace is the one that follows
      the pace of a popped child. */
  lemma PaceIsHandedOn(a: Algorithm, x: Oid)
    requires a.Valid() && x in a.graph.data
    ensures a.graph.data[x].ttl <= a.graph.data[x].originalTtl
    ensures || (exists y :: PacedBy(a.graph.history.parents, a.graph.data, y, x))
            || PaceOf(a.graph.data, x) == Pace(0, 0)
    ensures var f := Of(a.graph.data, x);
      f.seen && !f.common && x !in a.tips + a.known ==>
        exists y :: PacedBy(a.graph.history.parents, a.graph.data, y, x)
  {
    assert PaceComes(a.graph.history.parents, a.tips + a.known, a.graph.data, x);
    assert PaceOf(a.graph.data, x).ttl <= PaceOf(a.graph.data, x).originalTtl;
  }

  /** Going up from child to child, `below` leads back down. */
  lemma PaceFromAbove(g: Graph, seeds: set<Oid>, data: Marks, x: Oid, below: seq<Oid>)
    requires ShortChains(g) && Paced(g, seeds, data) && IsPath(g, below) && below[0] == x
    ensures PaceSound(g, PaceOf(data, x), x)
    decreases SAFE_COMMITS - |below|
  {
    assert PaceComes(g, seeds, data, x);
    if y :| PacedBy(g, data, y, x) {
      var longer := [y] + below;
      assert longer[1..] == below;
      PaceFromAbove(g, seeds, data, y, longer);
      PaceHandedOn(g, PaceOf(data, y), y, x);
    } else {
      InitialPaceSound(g, x);
    }
  }

  /** Unless a chain of commits is very long, strides follow the fixed sequence, and a commit has come to a stride and
      used up part of it only with enough commits in a chain above it. */
  lemma PaceIsEarned(a: Algorithm, x: Oid) returns (k: nat, above: seq<Oid>)
    requires a.Valid() && ShortChains(a.graph.history.parents) && x in a.graph.data
    ensures a.graph.data[x].originalTtl == Stride(k)
    ensures IsPath(a.graph.history.parents, above) && above[|above| - 1] == x
    ensures |above| - 1 >= Depth(k) + Stride(k) - a.graph.data[x].ttl
  {
    var g := a.graph.history.parents;
    PaceFromAbove(g, a.tips + a.known, a.graph.data, x, [x]);
    k, above :| Earned(g, PaceOf(a.graph.data, x), x, k, above);
  }

  // ----- a line of commits

  /** Each of `n` commits is the parent of the next one. */
  function Line(n: nat): Graph {
    map x: nat | x < n :: ParentsOnLine(x)
  }

  function ParentsOnLine(x: nat): seq<nat> {
    if x == 0 then [] else [x - 1]
  }

  ghost predicate OnLine(a: Algorithm, n: nat) reads a, a.graph {
    && n > 0 && a.Valid() && a.graph.history.parents == Line(n)
    && a.tips == {n - 1} && a.known == {} && a.acked == {}
  }

  lemma NothingCommon(a: Algorithm, n: nat, x: Oid)
    requires OnLine(a, n)
    ensures !Of(a.graph.data, x).common && (Of(a.graph.data, x).popped ==> Of(a.graph.data, x).seen)
  {
    assert Truthful(a.Run(), a.late, {}, a.graph.data, a.revs, x);
  }

  lemma {:induction false} PaceOnLine(a: Algorithm, n: nat, x: nat)
    requires OnLine(a, n) && x < n && Of(a.graph.data, x).seen
    ensures PaceOf(a.graph.data, x) == PaceAfter(n - 1 - x)
    decreases n - x
  {
    NothingCommon(a, n, x);
    assert PaceComes(Line(n), a.tips + a.known, a.graph.data, x);
    if y :| PacedBy(Line(n), a.graph.data, y, x) {
      assert y == x + 1;
      NothingCommon(a, n, y);
      PaceOnLine(a, n, y);
    }
  }

  lemma {:induction false} AllPoppedOnLine(a: Algorithm, n: nat, x: nat)
    requires OnLine(a, n) && x < n && Waiting(a.graph.data) == {}
    ensures Of(a.graph.data, x).seen && Of(a.graph.data, x).popped
    decreases n - x
  {
    NothingCommon(a, n, x);
    if x < n - 1 {
      AllPoppedOnLine(a, n, x + 1);
      assert ParentsSeen(Line(n), a.graph.data, x + 1) && Edge(Line(n), x + 1, x);
    }
    assert x !in Waiting(a.graph.data);
  }

  lemma AnnouncedPresent(a: Algorithm, x: Oid)
    requires a.Valid() && x in a.announced
    ensures x in a.graph.history.parents
  {
    assert Truthful(a.Run(), a.late, {}, a.graph.data, a.revs, x);
  }

  /** Announces commits until none is left, while the remote acknowledges none of them. */
  method AnnounceAll(a: Algorithm)
    requires a.Valid()
    modifies a, a.graph
    ensures a.Valid() && a.tips == old(a.tips) && a.known == old(a.known) && a.acked == old(a.acked)
    ensures Waiting(a.graph.data) == {}
  {
    var more := true;
    while more
      invariant a.Valid() && a.tips == old(a.tips) && a.known == old(a.known) && a.acked == old(a.acked)
      invariant more || Waiting(a.graph.data) == {}
      decreases a.graph.history.parents.Keys - a.announced, more
    {
      var r := a.NextHave();
      more := r.Some?;
      if more { AnnouncedPresent(a, r.value); }
    }
  }

  lemma LineIsComplete(n: nat)
    ensures NothingMissing(Line(n))
  {
  }

  method Begin(h: History) returns (a: Algorithm)
    requires NothingMissing(h.parents)
    ensures a.Valid() && a.graph.history == h && fresh(a) && fresh(a.graph)
    ensures a.tips == {} && a.known == {} && a.acked == {}
  {
    var graph := new CommitGraph<Metadata>(h);
    a := new Algorithm(graph);
  }

  method BeginLine(h: History, n: nat) returns (a: Algorithm)
    requires n > 0 && h.parents == Line(n)
    ensures OnLine(a, n) && fresh(a) && fresh(a.graph)
  {
    LineIsComplete(n);
    a := Begin(h);
    a.AddTip(n - 1);
    assert a.tips == {n - 1};
  }

  ghost predicate LineVisited(data: Marks, n: nat) {
    forall x: nat :: x < n ==> Of(data, x).popped && PaceOf(data, x) == PaceAfter(n - 1 - x)
  }

  lemma LineDone(a: Algorithm, n: nat)
    requires OnLine(a, n) && Waiting(a.graph.data) == {}
    ensures LineVisited(a.graph.data, n)
  {
    forall x: nat | x < n ensures Of(a.graph.data, x).popped && PaceOf(a.graph.data, x) == PaceAfter(n - 1 - x) {
      AllPoppedOnLine(a, n, x);
      PaceOnLine(a, n, x);
    }
  }

  /** A whole negotiation over a line of commits in which nothing is common: all are visited, and their paces follow
      the sequence. */
  method NegotiateLine(h: History, n: nat) returns (a: Algorithm)
    requires n > 0 && h.parents == Line(n)
    ensures OnLine(a, n) && LineVisited(a.graph.data, n)
  {
    a := BeginLine(h, n);
    AnnounceAll(a);
    LineDone(a, n);
  }

  /** One commit more than the safe number makes a stride overflow, so that the oldest commit gets a shorter one. */
  method StrideWraps(h: History, n: nat) returns (a: Algorithm)
    requires n == SAFE_COMMITS + 1 && h.parents == Line(n)
    ensures OnLine(a, n) && 0 in a.graph.data && 1 in a.graph.data && a.graph.data[1].flags.popped
    ensures a.graph.data[1].ttl == 0 && a.graph.data[1].originalTtl * 3 >= 0x1_0000
    ensures a.graph.data[0].originalTtl < a.graph.data[1].originalTtl
  {
    a := NegotiateLine(h, n);
    PaceOverflows(n - 2);
    assert Of(a.graph.data, 0).popped && Of(a.graph.data, 1).popped;
  }
}
