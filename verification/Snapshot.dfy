/** A shared snapshot of a file behind a read-write lock, refreshed when the file is found to be newer. Every
    interleaving of calls and of replacements of the file is a run of the state machine below. */
module Snapshot {
  import opened History
  import opened Options

  /** The file as a count of its replacements. Version 0 means that it does not exist yet. It is never deleted, and
      each version has a later modification time than the one before it, so versions stand for times as well. */
  type Version = nat

  /** The version whose time was read first, and the version that was opened then. */
  datatype Cached = Cached(stamp: Version, content: Version)

  /** Why a call wants to write. */
  datatype Why = Clear | Stale | Load | Force

  /** Where a call is. Each remembers the version of the file when it began. */
  datatype Call =
    | Started(start: Version)
    | Reading(start: Version)
    | Compared(start: Version, recent: Version)
    | WantWrite(start: Version, why: Why)
    | Writing(start: Version, why: Why)
    | Stamped(start: Version, stamp: Version)
    | Opened(start: Version, stamp: Version, content: Version)
    | Stored(start: Version)
    | Done(start: Version, result: Version)
    | Failed(start: Version)

  predicate HoldsRead(c: Call) { c.Reading? || c.Compared? }

  predicate HoldsWrite(c: Call) { c.Writing? || c.Stamped? || c.Opened? || c.Stored? }

  /** Calls are numbered; a number is used once. */
  datatype State = State(file: Version, cache: Option<Cached>, calls: map<nat, Call>)

  /** The version that a copy of the cache shows, or 0 if it is empty. */
  function Shown(cache: Option<Cached>): Version {
    match cache
    case None => 0
    case Some(cached) => cached.content
  }

  /** The file is created or replaced, a call for a recent snapshot or a forced refresh begins, or a call makes its
      next step. Only opening the file can fail. */
  datatype Action = Replace | Begin(id: nat) | BeginRefresh(id: nat) | Step(id: nat, ok: bool)

  /** Another call does not keep `c` from making its next step. */
  predicate Lets(c: Call, other: Call) {
    match c
    case Started(_) => !HoldsWrite(other)
    case WantWrite(_, _) => !HoldsWrite(other) && !HoldsRead(other)
    case _ => true
  }

  predicate Enabled(s: State, a: Action) {
    match a
    case Replace => true
    case Begin(id) => id !in s.calls
    case BeginRefresh(id) => id !in s.calls
    case Step(id, _) =>
      && id in s.calls && !s.calls[id].Done? && !s.calls[id].Failed?
      && forall other :: other in s.calls ==> Lets(s.calls[id], s.calls[other])
  }

  /** What a call does with the cache and the time it read under the read lock. */
  function Decided(cache: Option<Cached>, start: Version, recent: Version): Call {
    match cache
    case None => if recent == 0 then Done(start, 0) else WantWrite(start, Load)
    case Some(cached) =>
      if recent == 0 then WantWrite(start, Clear)
      else if cached.stamp < recent then WantWrite(start, Stale)
      else Done(start, cached.content)
  }

  /** What a call does once it has the write lock: it looks at the cache and the time again before it opens the file.
      */
  function Rechecked(file: Version, cache: Option<Cached>, start: Version, why: Why): Call {
    match why
    case Clear => Stored(start)
    case Stale => if cache.Some? && file > 0 then Stamped(start, file) else Stored(start)
    case Load => if cache.None? && file > 0 then Stamped(start, file) else Stored(start)
    case Force => Stamped(start, file)
  }

  function Moved(file: Version, cache: Option<Cached>, c: Call, ok: bool): Call {
    match c
    case Started(start) => Reading(start)
    case Reading(start) => Compared(start, file)
    case Compared(start, recent) => Decided(cache, start, recent)
    case WantWrite(start, why) => Writing(start, why)
    case Writing(start, why) => Rechecked(file, cache, start, why)
    case Stamped(start, stamp) => if ok then Opened(start, stamp, file) else Failed(start)
    case Opened(start, _, _) => Stored(start)
    case Stored(start) => Done(start, Shown(cache))
    case _ => c
  }

  function CacheAfter(cache: Option<Cached>, c: Call): Option<Cached> {
    match c
    case Writing(_, Clear) => None
    case Opened(_, stamp, content) => if stamp == 0 || content == 0 then None else Some(Cached(stamp, content))
    case _ => cache
  }

  function Next(s: State, a: Action): State
    requires Enabled(s, a)
  {
    match a
    case Replace => s.(file := s.file + 1)
    case Begin(id) => s.(calls := s.calls[id := Started(s.file)])
    case BeginRefresh(id) => s.(calls := s.calls[id := WantWrite(s.file, Force)])
    case Step(id, ok) =>
      var c := s.calls[id];
      State(s.file, CacheAfter(s.cache, c), s.calls[id := Moved(s.file, s.cache, c, ok)])
  }

  /** What holds of one call at any time. */
  ghost predicate CallOk(file: Version, cache: Option<Cached>, c: Call) {
    c.start <= file &&
    match c
    case Started(_) => true
    case Reading(_) => true
    case Compared(start, recent) => start <= recent <= file && (cache.Some? ==> recent > 0)
    case WantWrite(start, why) => WriteOk(cache, start, why)
    case Writing(start, why) => WriteOk(cache, start, why)
    case Stamped(start, stamp) => start <= stamp <= file && (cache.Some? ==> stamp > 0)
    case Opened(start, stamp, content) => start <= stamp <= content <= file && (cache.Some? ==> stamp > 0)
    case Stored(start) => start <= Shown(cache)
    case Done(start, result) => start <= result <= file
    case Failed(_) => true
  }

  /** A call that wants to load found an empty cache, so all that was stored since is recent enough for it. */
  ghost predicate WriteOk(cache: Option<Cached>, start: Version, why: Why) {
    match why
    case Clear => false
    case Stale => cache.Some?
    case Load => cache.Some? ==> start <= Shown(cache)
    case Force => true
  }

  ghost predicate CacheOk(file: Version, cache: Option<Cached>) {
    cache.Some? ==> 0 < cache.value.stamp <= cache.value.content <= file
  }

  /** What holds of two calls: the write lock excludes, and what one has opened is recent enough for a waiting one. */
  ghost predicate PairOk(c: Call, d: Call) {
    && (HoldsWrite(c) ==> !HoldsWrite(d) && !HoldsRead(d))
    && (c.Opened? && d.WantWrite? && d.why.Load? ==> d.start <= c.content)
  }

  ghost predicate Inv(s: State) {
    && CacheOk(s.file, s.cache)
    && (forall id :: id in s.calls ==> CallOk(s.file, s.cache, s.calls[id]))
    && (forall id, other :: id in s.calls && other in s.calls && id != other ==> PairOk(s.calls[id], s.calls[other]))
  }

  lemma CallMoves(file: Version, cache: Option<Cached>, c: Call, ok: bool)
    requires CacheOk(file, cache) && CallOk(file, cache, c)
    ensures CacheOk(file, CacheAfter(cache, c)) && CallOk(file, CacheAfter(cache, c), Moved(file, cache, c, ok))
  {
  }

  lemma OtherStays(file: Version, cache: Option<Cached>, c: Call, ok: bool, other: Call)
    requires CacheOk(file, cache) && CallOk(file, cache, c) && CallOk(file, cache, other)
    requires PairOk(c, other) && PairOk(other, c) && Lets(c, other)
    ensures CallOk(file, CacheAfter(cache, c), other)
    ensures PairOk(Moved(file, cache, c, ok), other) && PairOk(other, Moved(file, cache, c, ok))
  {
  }

  /** Every step keeps the invariant. */
  lemma InvKept(s: State, a: Action)
    requires Inv(s) && Enabled(s, a)
    ensures Inv(Next(s, a))
  {
    var t := Next(s, a);
    if a.Step? {
      var c := s.calls[a.id];
      CallMoves(s.file, s.cache, c, a.ok);
      forall other | other in s.calls && other != a.id
        ensures CallOk(t.file, t.cache, t.calls[other])
        ensures PairOk(t.calls[a.id], t.calls[other]) && PairOk(t.calls[other], t.calls[a.id])
      {
        OtherStays(s.file, s.cache, c, a.ok, s.calls[other]);
      }
    }
  }

  // ----- runs

  ghost predicate Run(s: State, actions: seq<Action>, t: State)
    decreases |actions|
  {
    if actions == [] then s == t else Enabled(s, actions[0]) && Run(Next(s, actions[0]), actions[1..], t)
  }

  function Initial(file: Version): State { State(file, None, map[]) }

  lemma {:induction false} RunKeepsInv(s: State, actions: seq<Action>, t: State)
    requires Inv(s) && Run(s, actions, t)
    ensures Inv(t)
    decreases |actions|
  {
    if actions != [] {
      InvKept(s, actions[0]);
      RunKeepsInv(Next(s, actions[0]), actions[1..], t);
    }
  }

  /** In every run, what a call returns is no older than the file was when the call began. */
  lemma ResultsAreRecent(file: Version, actions: seq<Action>, t: State, id: nat)
    requires Run(Initial(file), actions, t) && id in t.calls && t.calls[id].Done?
    ensures t.calls[id].start <= t.calls[id].result <= t.file
  {
    RunKeepsInv(Initial(file), actions, t);
    assert CallOk(t.file, t.cache, t.calls[id]);
  }

  /** What is stored was opened after its stamp was read. */
  lemma StoredIsStamped(file: Version, actions: seq<Action>, t: State)
    requires Run(Initial(file), actions, t) && t.cache.Some?
    ensures 0 < t.cache.value.stamp <= t.cache.value.content <= t.file
  {
    RunKeepsInv(Initial(file), actions, t);
  }

  /** Calls remember when they began, and finished calls stay as they are. */
  lemma {:induction false} RunKeepsCalls(s: State, actions: seq<Action>, t: State, id: nat)
    requires Run(s, actions, t) && id in t.calls
    ensures s.file <= t.file
    ensures id !in s.calls ==> s.file <= t.calls[id].start
    ensures id in s.calls ==> t.calls[id].start == s.calls[id].start
    ensures id in s.calls && s.calls[id].Done? ==> t.calls[id] == s.calls[id]
    decreases |actions|
  {
    if actions != [] {
      RunKeepsCalls(Next(s, actions[0]), actions[1..], t, id);
    }
  }

  /** Of two calls that do not overlap, the later one never returns something older. */
  lemma ResultsNeverGoBack(file: Version, before: seq<Action>, s: State, after: seq<Action>, t: State, id: nat,
                           later: nat)
    requires Run(Initial(file), before, s) && Run(s, after, t)
    requires id in s.calls && s.calls[id].Done? && later !in s.calls && later in t.calls && t.calls[later].Done?
    ensures s.calls[id].result <= t.calls[later].result
  {
    RunKeepsInv(Initial(file), before, s);
    RunKeepsInv(s, after, t);
    RunKeepsCalls(s, after, t, later);
    assert CallOk(s.file, s.cache, s.calls[id]) && CallOk(t.file, t.cache, t.calls[later]);
  }

  // ----- a call that runs alone

  predicate Finished(c: Call) { c.Done? || c.Failed? }

  /** All other calls have finished. */
  ghost predicate Alone(s: State, id: nat) {
    id in s.calls && forall other :: other in s.calls && other != id ==> Finished(s.calls[other])
  }

  /** Whatever a call has found out so far is true of the file as it is. */
  ghost predicate UpToDate(file: Version, cache: Option<Cached>, c: Call) {
    match c
    case Started(_) => true
    case Reading(_) => true
    case Compared(_, recent) => recent == file
    case WantWrite(_, why) => Wants(file, cache, why)
    case Writing(_, why) => Wants(file, cache, why)
    case Stamped(_, stamp) => stamp == file
    case Opened(_, stamp, content) => stamp == content == file
    case Stored(_) => Shown(cache) == file
    case Done(_, result) => result == file
    case Failed(_) => false
  }

  ghost predicate Wants(file: Version, cache: Option<Cached>, why: Why) {
    match why
    case Clear => false
    case Stale => cache.Some? && file > 0
    case Load => cache.None? && file > 0
    case Force => true
  }

  /** How many steps are left at most. */
  function StepsLeft(c: Call): nat {
    match c
    case Started(_) => 8
    case Reading(_) => 7
    case Compared(_, _) => 6
    case WantWrite(_, _) => 5
    case Writing(_, _) => 4
    case Stamped(_, _) => 3
    case Opened(_, _, _) => 2
    case Stored(_) => 1
    case Done(_, _) => 0
    case Failed(_) => 0
  }

  lemma StepStaysUpToDate(file: Version, cache: Option<Cached>, c: Call)
    requires CacheOk(file, cache) && (cache.Some? ==> file > 0) && UpToDate(file, cache, c) && !c.Done?
    ensures UpToDate(file, CacheAfter(cache, c), Moved(file, cache, c, true))
    ensures StepsLeft(Moved(file, cache, c, true)) < StepsLeft(c) && Moved(file, cache, c, true).start == c.start
  {
  }

  /** If nothing else happens and the file can be opened, a call ends with the content of the file. */
  lemma {:induction false} EndsAlone(s: State, id: nat) returns (actions: seq<Action>, t: State)
    requires Inv(s) && Alone(s, id) && UpToDate(s.file, s.cache, s.calls[id])
    ensures Run(s, actions, t) && |actions| <= StepsLeft(s.calls[id])
    ensures forall a :: a in actions ==> a == Step(id, true)
    ensures t.calls == s.calls[id := Done(s.calls[id].start, s.file)] && t.file == s.file
    decreases StepsLeft(s.calls[id])
  {
    var c := s.calls[id];
    if c.Done? {
      assert s.calls == s.calls[id := c];
      return [], s;
    }
    assert Enabled(s, Step(id, true));
    var next := Next(s, Step(id, true));
    StepStaysUpToDate(s.file, s.cache, c);
    InvKept(s, Step(id, true));
    actions, t := EndsAlone(next, id);
    var all := [Step(id, true)] + actions;
    assert all[1..] == actions;
    actions := all;
  }

  /** A call that begins when all others have finished, and is not disturbed, returns the content of the file. */
  lemma CallAlone(s: State, id: nat, begin: Action) returns (actions: seq<Action>, t: State)
    requires Inv(s) && id !in s.calls && (begin == Begin(id) || begin == BeginRefresh(id))
    requires forall other :: other in s.calls ==> Finished(s.calls[other])
    ensures Run(s, [begin] + actions, t) && |actions| <= 8 && forall a :: a in actions ==> a == Step(id, true)
    ensures id in t.calls && t.calls[id] == Done(s.file, s.file)
  {
    var next := Next(s, begin);
    InvKept(s, begin);
    actions, t := EndsAlone(next, id);
    assert ([begin] + actions)[1..] == actions;
  }

  /** If what is stored is as recent as the file, it is returned without the write lock and stays stored. */
  lemma FreshIsRead(s: State, id: nat) returns (t: State)
    requires Inv(s) && id !in s.calls && forall other :: other in s.calls ==> Finished(s.calls[other])
    requires s.cache.Some? && s.cache.value.stamp == s.file
    ensures Run(s, [Begin(id), Step(id, true), Step(id, true), Step(id, true)], t)
    ensures t == State(s.file, s.cache, s.calls[id := Done(s.file, s.cache.value.content)])
  {
    var begun := Next(s, Begin(id));
    var reading := Next(begun, Step(id, true));
    var compared := Next(reading, Step(id, true));
    t := Next(compared, Step(id, true));
    var actions := [Begin(id), Step(id, true), Step(id, true), Step(id, true)];
    assert actions[1..] == [Step(id, true), Step(id, true), Step(id, true)];
    assert actions[1..][1..] == [Step(id, true), Step(id, true)] && actions[1..][1..][1..] == [Step(id, true)];
    assert Run(t, [], t) && Run(compared, [Step(id, true)], t) by { assert [Step(id, true)][1..] == []; }
    assert Run(reading, [Step(id, true), Step(id, true)], t);
    assert Run(begun, actions[1..], t);
  }
}
