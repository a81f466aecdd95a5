/** The commit history that revision walks run on: the object database seen through
    `gix_revwalk::Graph`, and the priority queue that orders the walks. */
module History {
  import opened Digraph
  import opened Options

  type Oid = Node

  /** Generation reported for commits outside of any commit-graph file. */
  const GENERATION_NUMBER_INFINITY: nat := 0xffff_ffff

  /** All commits of an object database. A parent that is not a key of `parents` is missing,
      as in a shallow clone. */
  datatype History = History(parents: Graph, time: Oid -> int, generation: Oid -> Option<nat>)

  /** The first of `ids` that is present. */
  function FirstPresent(g: Graph, ids: seq<Oid>): (r: Option<Oid>)
    ensures r.Some? ==> r.value in g && r.value in ids
    ensures r.None? ==> forall x :: x in ids ==> x !in g
  {
    if ids == [] then None else if ids[0] in g then Some(ids[0]) else FirstPresent(g, ids[1..])
  }

  /** Nothing before it is present. */
  lemma {:induction false} FirstPresentIsFirst(g: Graph, ids: seq<Oid>, i: nat)
    requires i < |ids| && ids[i] in g && forall k :: 0 <= k < i ==> ids[k] !in g
    ensures FirstPresent(g, ids) == Some(ids[i])
  {
    if i > 0 { FirstPresentIsFirst(g, ids[1..], i - 1); }
  }

  /** The same history with only the first present parent of every commit. */
  ghost function FirstParents(g: Graph): Graph {
    map x | x in g :: var p := FirstPresent(g, g[x]); if p.Some? then [p.value] else []
  }

  lemma FirstParentsReach(g: Graph, x: Oid, y: Oid)
    requires Reaches(FirstParents(g), x, y)
    ensures Reaches(g, x, y)
  {
    var p :| PathBetween(FirstParents(g), p, x, y);
    FirstParentsPath(g, p);
    assert PathBetween(g, p, x, y);
  }

  lemma {:induction false} FirstParentsPath(g: Graph, p: seq<Oid>)
    requires IsPath(FirstParents(g), p)
    ensures IsPath(g, p)
  {
    if |p| > 1 { FirstParentsPath(g, p[1..]); }
  }

  /** A queue priority; keys compare by `major`, then by `minor`. */
  datatype Key = Key(major: int, minor: int)

  predicate AtMost(a: Key, b: Key) {
    a.major < b.major || (a.major == b.major && a.minor <= b.minor)
  }

  predicate Below(a: Key, b: Key) {
    AtMost(a, b) && a != b
  }

  /** The commits a walk has loaded so far, each with its algorithm-specific data. */
  class CommitGraph<T> {
    const history: History
    var data: map<Oid, T>

    ghost predicate Valid() reads this {
      data.Keys <= history.parents.Keys
    }

    constructor (history: History)
      ensures Valid() && this.history == history && data == map[]
    {
      this.history := history;
      data := map[];
    }

    /** Loads `id` with `default` data unless it is loaded already; missing commits are skipped. */
    method GetOrInsert(id: Oid, default: T) returns (present: bool)
      requires Valid()
      modifies this`data
      ensures Valid()
      ensures present <==> id in history.parents
      ensures data == if present && id !in old(data) then old(data)[id := default] else old(data)
    {
      present := id in history.parents;
      if present && id !in data {
        data := data[id := default];
      }
    }

    method Clear(empty: T)
      requires Valid()
      modifies this`data
      ensures Valid() && data.Keys == old(data.Keys)
      ensures forall x :: x in data ==> data[x] == empty
    {
      data := map x | x in data :: empty;
    }
  }

  ghost predicate IsTop<T>(q: multiset<T>, key: T -> Key, top: T) {
    top in q && forall x :: x in q ==> AtMost(key(x), key(top))
  }

  lemma TopExists<T>(q: multiset<T>, key: T -> Key) returns (top: T)
    requires q != multiset{}
    ensures IsTop(q, key, top)
  {
    top :| top in q;
    var rest := q - multiset{top};
    if rest != multiset{} {
      var other := TopExists(rest, key);
      assert forall x :: x in q ==> x == top || x in rest;
      if !AtMost(key(other), key(top)) { top := other; }
    } else {
      assert q == multiset{top} + rest;
    }
  }

  /** Removes some item of highest priority: ties are broken arbitrarily, as a binary heap may. */
  method PopTop<T(==)>(q: multiset<T>, key: T -> Key) returns (top: T, rest: multiset<T>)
    requires q != multiset{}
    ensures IsTop(q, key, top)
    ensures rest == q - multiset{top}
  {
    ghost var highest := TopExists(q, key);
    assert IsTop(q, key, highest);
    top :| top in q && forall x :: x in q ==> AtMost(key(x), key(top));
    rest := q - multiset{top};
  }

  ghost predicate SortedBy(s: seq<Oid>, key: Oid -> Key) {
    forall i, j :: 0 <= i < j < |s| ==> AtMost(key(s[i]), key(s[j]))
  }

  /** Stable insertion of `x` before everything with a larger key. */
  function InsertSorted(s: seq<Oid>, x: Oid, key: Oid -> Key): (r: seq<Oid>)
    ensures multiset(r) == multiset(s) + multiset{x}
  {
    if s == [] || AtMost(key(s[|s| - 1]), key(x)) then
      s + [x]
    else
      assert s == s[..|s| - 1] + [s[|s| - 1]];
      InsertSorted(s[..|s| - 1], x, key) + [s[|s| - 1]]
  }

  lemma {:induction false} InsertSortedSorts(s: seq<Oid>, x: Oid, key: Oid -> Key)
    requires SortedBy(s, key)
    ensures SortedBy(InsertSorted(s, x, key), key)
  {
    if s != [] && !AtMost(key(s[|s| - 1]), key(x)) {
      var front, last := s[..|s| - 1], s[|s| - 1];
      InsertSortedSorts(front, x, key);
      var r := InsertSorted(front, x, key);
      forall i | 0 <= i < |r| ensures AtMost(key(r[i]), key(last)) {
        assert r[i] in multiset(front) + multiset{x};
        if r[i] != x { assert r[i] in front; }
      }
    }
  }

  /** Sorts by ascending key, keeping the order of equal keys. */
  method Sort(s: seq<Oid>, key: Oid -> Key) returns (r: seq<Oid>)
    ensures multiset(r) == multiset(s) && forall x :: x in r <==> x in s
    ensures SortedBy(r, key)
  {
    r := [];
    for i := 0 to |s|
      invariant multiset(r) == multiset(s[..i])
      invariant SortedBy(r, key)
    {
      InsertSortedSorts(r, s[i], key);
      r := InsertSorted(r, s[i], key);
      assert s[..i + 1] == s[..i] + [s[i]];
    }
    assert s[..|s|] == s;
    forall x ensures x in r <==> x in s {
      assert x in r <==> x in multiset(r);
      assert x in s <==> x in multiset(s);
    }
  }
}
