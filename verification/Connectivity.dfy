/** The connectivity check: a walk over trees and blobs that reports each missing object once. */
module Connectivity {
  import opened History

  datatype Kind = CommitKind | TreeKind | BlobKind

  /** What a tree entry refers to; blobs include executables and symbolic links. */
  datatype EntryKind = TreeEntry | BlobEntry | SubmoduleEntry

  datatype Entry = Entry(kind: EntryKind, oid: Oid)

  datatype Object = Commit(tree: Oid) | Tree(entries: seq<Entry>) | Blob

  /** The objects present in the database. */
  type Store = map<Oid, Object>

  predicate HasCommit(db: Store, x: Oid) { x in db && db[x].Commit? }

  predicate HasTree(db: Store, x: Oid) { x in db && db[x].Tree? }

  ghost predicate Refers(db: Store, x: Oid, y: Oid) {
    x in db && match db[x]
      case Commit(tree) => y == tree
      case Tree(entries) => RefersFirst(entries, |entries|, y)
      case Blob => false
  }

  /** One of the first `n` entries refers to `y`; entries of submodules refer to other repositories. */
  ghost predicate RefersFirst(entries: seq<Entry>, n: nat, y: Oid)
    requires n <= |entries|
  {
    exists i :: 0 <= i < n && !entries[i].kind.SubmoduleEntry? && entries[i].oid == y
  }

  /** `x` is reachable from `roots` over at most `n` references. */
  ghost predicate Within(db: Store, roots: set<Oid>, x: Oid, n: nat)
    decreases n
  {
    x in roots || (n > 0 && exists w :: Refers(db, w, x) && Within(db, roots, w, n - 1))
  }

  ghost predicate ReachableFrom(db: Store, roots: set<Oid>, x: Oid) {
    exists n: nat :: Within(db, roots, x, n)
  }

  /** All ids that objects refer to. */
  ghost function Mentioned(db: Store): set<Oid> {
    set x, y | x in db && y in Targets(db[x]) :: y
  }

  ghost function Targets(o: Object): set<Oid> {
    match o
    case Commit(tree) => {tree}
    case Tree(entries) => set e | e in entries :: e.oid
    case Blob => {}
  }

  /** All that is reachable from some roots. */
  ghost function Scope(db: Store, roots: set<Oid>): set<Oid> {
    set x | x in roots + Mentioned(db) && ReachableFrom(db, roots, x)
  }

  lemma ScopeIsReachable(db: Store, roots: set<Oid>, x: Oid)
    ensures x in Scope(db, roots) <==> ReachableFrom(db, roots, x)
  {
    forall n: nat | Within(db, roots, x, n) ensures x in roots + Mentioned(db) {
      if x !in roots {
        var w :| Refers(db, w, x) && Within(db, roots, w, n - 1);
        ReferredIsMentioned(db, w, x);
      }
    }
  }

  lemma ReferredIsMentioned(db: Store, x: Oid, y: Oid)
    requires Refers(db, x, y)
    ensures y in Mentioned(db)
  {
    assert y in Targets(db[x]);
  }

  lemma RootsInScope(db: Store, roots: set<Oid>)
    ensures roots <= Scope(db, roots)
  {
    forall root | root in roots ensures root in Scope(db, roots) {
      assert Within(db, roots, root, 0);
    }
  }

  lemma {:induction false} WithinGrows(db: Store, roots: set<Oid>, more: set<Oid>, x: Oid, n: nat)
    requires roots <= more && Within(db, roots, x, n)
    ensures Within(db, more, x, n)
    decreases n
  {
    if x !in roots {
      var w :| Refers(db, w, x) && Within(db, roots, w, n - 1);
      WithinGrows(db, roots, more, w, n - 1);
    }
  }

  lemma ScopeGrows(db: Store, roots: set<Oid>, more: set<Oid>)
    requires roots <= more
    ensures Scope(db, roots) <= Scope(db, more)
  {
    forall x | x in Scope(db, roots) ensures x in Scope(db, more) {
      var n: nat :| Within(db, roots, x, n);
      WithinGrows(db, roots, more, x, n);
    }
  }

  lemma ScopeClosed(db: Store, roots: set<Oid>, x: Oid, y: Oid)
    requires x in Scope(db, roots) && Refers(db, x, y)
    ensures y in Scope(db, roots)
  {
    var n: nat :| Within(db, roots, x, n);
    var m := n + 1;
    assert Within(db, roots, y, m);
    ReferredIsMentioned(db, x, y);
  }

  /** All that members of `s` refer to is in `s`. */
  ghost predicate Closed(db: Store, s: set<Oid>) {
    forall x :: x in s ==> Passed(db, s, [], x)
  }

  /** A closed set contains all that is reachable from its members. */
  lemma {:induction false} ClosedContains(db: Store, roots: set<Oid>, s: set<Oid>, x: Oid, n: nat)
    requires Closed(db, s) && roots <= s && Within(db, roots, x, n)
    ensures x in s
    decreases n
  {
    if x !in roots {
      var w :| Refers(db, w, x) && Within(db, roots, w, n - 1);
      ClosedContains(db, roots, s, w, n - 1);
      assert Passed(db, s, [], w);
    }
  }

  /** Every object has the kind its id is used for. */
  ghost predicate WellTyped(db: Store, kind: Oid -> Kind) {
    forall x :: x in db ==> ObjectTyped(db[x], kind, x)
  }

  ghost predicate ObjectTyped(o: Object, kind: Oid -> Kind, x: Oid) {
    match o
    case Commit(tree) => kind(x) == CommitKind && kind(tree) == TreeKind
    case Tree(entries) => kind(x) == TreeKind && forall e :: e in entries ==> EntryTyped(e, kind)
    case Blob => kind(x) == BlobKind
  }

  ghost predicate EntryTyped(e: Entry, kind: Oid -> Kind) {
    match e.kind
    case TreeEntry => kind(e.oid) == TreeKind
    case BlobEntry => kind(e.oid) == BlobKind
    case SubmoduleEntry => true
  }

  /** A tree or blob that the database does not have. */
  ghost predicate Missing(db: Store, kind: Oid -> Kind, x: Oid) {
    kind(x) != CommitKind && x !in db
  }

  type Report = seq<(Oid, Kind)>

  /** All that `x` refers to was seen or waits in the queue. */
  ghost predicate Passed(db: Store, seen: set<Oid>, queue: seq<Oid>, x: Oid) {
    forall y :: Refers(db, x, y) ==> y in seen || y in queue
  }

  /** What the walk keeps. `scope` is what it may see and `queue` the trees still to be looked at. All objects outside
      `unfinished` that were seen have handed on what they refer to. */
  ghost predicate Walking(db: Store, kind: Oid -> Kind, scope: set<Oid>, seen: set<Oid>, queue: seq<Oid>,
                          unfinished: set<Oid>) {
    && seen <= scope
    && (forall x :: x in queue ==> Waits(kind, scope, x))
    && (forall x :: x in seen && x !in unfinished ==> Passed(db, seen, queue, x))
  }

  ghost predicate Waits(kind: Oid -> Kind, scope: set<Oid>, x: Oid) {
    x in scope && kind(x) == TreeKind
  }

  ghost predicate RightlyReported(db: Store, kind: Oid -> Kind, seen: set<Oid>, r: (Oid, Kind)) {
    r.0 in seen && Missing(db, kind, r.0) && r.1 == kind(r.0)
  }

  ghost predicate ReportedIfMissing(db: Store, kind: Oid -> Kind, reports: Report, x: Oid) {
    Missing(db, kind, x) ==> (x, kind(x)) in reports
  }

  ghost predicate Distinct(reports: Report) {
    forall i, j :: 0 <= i < j < |reports| ==> reports[i] != reports[j]
  }

  /** Exactly the missing objects of `seen` have been reported, each once and with its kind. */
  ghost predicate Reported(db: Store, kind: Oid -> Kind, seen: set<Oid>, reports: Report) {
    && (forall r :: r in reports ==> RightlyReported(db, kind, seen, r))
    && (forall x :: x in seen ==> ReportedIfMissing(db, kind, reports, x))
    && Distinct(reports)
  }

  /** When nothing is left to be looked at, exactly what is reachable was seen. */
  lemma SeenIsScope(db: Store, kind: Oid -> Kind, roots: set<Oid>, seen: set<Oid>)
    requires roots <= seen && Walking(db, kind, Scope(db, roots), seen, [], {})
    ensures seen == Scope(db, roots)
  {
    forall x | x in Scope(db, roots) ensures x in seen {
      var n: nat :| Within(db, roots, x, n);
      ClosedContains(db, roots, seen, x, n);
    }
  }

  /** Over whole runs: what was reported is exactly what is missing below the commits given so far. */
  lemma ReportsAreExact(db: Store, kind: Oid -> Kind, roots: set<Oid>, seen: set<Oid>, reports: Report, x: Oid, k: Kind)
    requires roots <= seen && Walking(db, kind, Scope(db, roots), seen, [], {}) && Reported(db, kind, seen, reports)
    ensures (x, k) in reports <==> ReachableFrom(db, roots, x) && Missing(db, kind, x) && k == kind(x)
  {
    SeenIsScope(db, kind, roots, seen);
    ScopeIsReachable(db, roots, x);
    assert (x, k) in reports ==> RightlyReported(db, kind, seen, (x, k));
  }

  lemma ReportNext(db: Store, kind: Oid -> Kind, seen: set<Oid>, reports: Report, x: Oid)
    requires Reported(db, kind, seen, reports) && x !in seen
    ensures Reported(db, kind, seen + {x}, if Missing(db, kind, x) then reports + [(x, kind(x))] else reports)
  {
    var next := reports + [(x, kind(x))];
    assert (x, kind(x)) !in reports;
    forall y, k ensures (y, k) in next <==> (y, k) in reports || (y, k) == (x, kind(x)) {
      assert next[|reports|] == (x, kind(x));
    }
  }

  // ----- steps of the walk

  /** A new root that was never seen before has not handed on its tree yet. */
  lemma AddRoot(db: Store, kind: Oid -> Kind, roots: set<Oid>, seen: set<Oid>, root: Oid)
    requires Walking(db, kind, Scope(db, roots), seen, [], {})
    ensures Walking(db, kind, Scope(db, roots + {root}), seen + {root}, [], {root} - seen)
    ensures ScopedBy(db, Scope(db, roots + {root}))
  {
    var scope := Scope(db, roots + {root});
    RootsInScope(db, roots + {root});
    ScopeGrows(db, roots, roots + {root});
    forall x | x in seen ensures Passed(db, seen + {root}, [], x) {
      assert Passed(db, seen, [], x);
    }
    forall x, y | x in scope && Refers(db, x, y) ensures y in scope {
      ScopeClosed(db, roots + {root}, x, y);
    }
  }

  /** The root hands on what it refers to, which is a tree or nothing. */
  lemma HandOnTree(db: Store, kind: Oid -> Kind, scope: set<Oid>, seen: set<Oid>, root: Oid)
    requires WellTyped(db, kind) && kind(root) == CommitKind && root in seen && ScopedBy(db, scope)
    requires Walking(db, kind, scope, seen, [], {root})
    ensures if HasCommit(db, root) then Walking(db, kind, scope, seen, [db[root].tree], {})
            else Walking(db, kind, scope, seen, [], {})
  {
  }

  /** The first tree of the queue is looked at, unless it was seen before. */
  lemma PopTree(db: Store, kind: Oid -> Kind, scope: set<Oid>, seen: set<Oid>, queue: seq<Oid>)
    requires Walking(db, kind, scope, seen, queue, {}) && queue != []
    ensures kind(queue[0]) == TreeKind
    ensures Walking(db, kind, scope, seen + {queue[0]}, queue[1..], {queue[0]} - seen)
    ensures forall x :: x in queue[1..] ==> x in queue
  {
    var first, rest := queue[0], queue[1..];
    assert first in queue && Waits(kind, scope, first);
    assert queue == [first] + rest;
    forall x | x in seen ensures Passed(db, seen + {first}, rest, x) {
      assert Passed(db, seen, queue, x);
    }
  }

  lemma PushTree(db: Store, kind: Oid -> Kind, scope: set<Oid>, seen: set<Oid>, queue: seq<Oid>, tree: Oid, x: Oid)
    requires ScopedBy(db, scope) && tree in seen && Refers(db, tree, x) && kind(x) == TreeKind
    requires Walking(db, kind, scope, seen, queue, {tree})
    ensures Walking(db, kind, scope, seen, queue + [x], {tree})
  {
  }

  lemma SeeBlob(db: Store, kind: Oid -> Kind, scope: set<Oid>, seen: set<Oid>, queue: seq<Oid>, tree: Oid, x: Oid)
    requires WellTyped(db, kind) && kind(x) == BlobKind
    requires ScopedBy(db, scope) && tree in seen && Refers(db, tree, x)
    requires Walking(db, kind, scope, seen, queue, {tree})
    ensures Walking(db, kind, scope, seen + {x}, queue, {tree})
  {
  }

  ghost predicate ScopedBy(db: Store, scope: set<Oid>) {
    forall x, y :: x in scope && Refers(db, x, y) ==> y in scope
  }

  /** A tree whose entries have all been handed on is finished. */
  lemma FinishTree(db: Store, kind: Oid -> Kind, scope: set<Oid>, seen: set<Oid>, queue: seq<Oid>, tree: Oid)
    requires Walking(db, kind, scope, seen, queue, {tree})
    requires HasTree(db, tree) && HandedOn(db[tree].entries, |db[tree].entries|, seen, queue)
    ensures Walking(db, kind, scope, seen, queue, {})
  {
  }

  lemma MissingTree(db: Store, kind: Oid -> Kind, scope: set<Oid>, seen: set<Oid>, queue: seq<Oid>, tree: Oid)
    requires Walking(db, kind, scope, seen, queue, {tree})
    requires WellTyped(db, kind) && kind(tree) == TreeKind && !HasTree(db, tree)
    ensures Walking(db, kind, scope, seen, queue, {}) && Missing(db, kind, tree)
  {
  }

  /** The first `n` entries of a tree have been handed on. */
  ghost predicate HandedOn(entries: seq<Entry>, n: nat, seen: set<Oid>, queue: seq<Oid>)
    requires n <= |entries|
  {
    forall y :: RefersFirst(entries, n, y) ==> y in seen || y in queue
  }

  lemma HandedOnNext(entries: seq<Entry>, n: nat, seen: set<Oid>, queue: seq<Oid>, seen': set<Oid>, queue': seq<Oid>)
    requires n < |entries| && HandedOn(entries, n, seen, queue) && seen <= seen' && queue <= queue'
    requires !entries[n].kind.SubmoduleEntry? ==> entries[n].oid in seen' || entries[n].oid in queue'
    ensures HandedOn(entries, n + 1, seen', queue')
  {
  }

  lemma EntryOfTree(db: Store, kind: Oid -> Kind, tree: Oid, i: nat)
    requires WellTyped(db, kind) && HasTree(db, tree) && i < |db[tree].entries|
    ensures EntryTyped(db[tree].entries[i], kind) && db[tree].entries[i].oid in Mentioned(db)
    ensures !db[tree].entries[i].kind.SubmoduleEntry? ==> Refers(db, tree, db[tree].entries[i].oid)
  {
    var e := db[tree].entries[i];
    assert ObjectTyped(db[tree], kind, tree) && e in db[tree].entries;
    assert e.oid in Targets(db[tree]);
  }

  datatype Outcome = Checked | CommitNotFound

  class Checker {
    const db: Store
    ghost const kind: Oid -> Kind
    var seen: set<Oid>
    /** The calls made to report a missing object, in order. */
    var reports: Report
    /** All commits the check was asked for. */
    ghost var roots: set<Oid>

    /** Between calls. */
    ghost predicate Valid()
      reads this
    {
      && WellTyped(db, kind) && roots <= seen
      && Walking(db, kind, Scope(db, roots), seen, [], {})
      && Reported(db, kind, seen, reports)
    }

    constructor (db: Store, ghost kind: Oid -> Kind)
      requires WellTyped(db, kind)
      ensures Valid() && this.db == db && this.kind == kind && roots == {} && reports == []
    {
      this.db, this.kind := db, kind;
      seen, reports, roots := {}, [], {};
    }

    /** Marks an object as seen and reports it if it is missing, which the caller has found out. */
    method Report(x: Oid, k: Kind, missing: bool)
      requires x !in seen && k == kind(x) && missing == Missing(db, kind, x)
      requires Reported(db, kind, seen, reports)
      modifies this`seen, this`reports
      ensures seen == old(seen) + {x}
      ensures Reported(db, kind, seen, reports) && old(reports) <= reports
    {
      ReportNext(db, kind, seen, reports, x);
      seen := seen + {x};
      if missing { reports := reports + [(x, k)]; }
    }

    /** Looks at one tree: its blobs are checked right away, its trees are queued. */
    method CheckTree(tree: Oid, queue: seq<Oid>, ghost scope: set<Oid>) returns (rest: seq<Oid>)
      requires WellTyped(db, kind) && kind(tree) == TreeKind && tree !in seen && ScopedBy(db, scope)
      requires Reported(db, kind, seen, reports)
      requires Walking(db, kind, scope, seen + {tree}, queue, {tree})
      modifies this`seen, this`reports
      ensures Walking(db, kind, scope, seen, rest, {}) && Reported(db, kind, seen, reports)
      ensures old(seen) + {tree} <= seen && old(reports) <= reports
      ensures forall x :: x in rest ==> x in queue || x in Mentioned(db)
    {
      rest := queue;
      if !HasTree(db, tree) {
        MissingTree(db, kind, scope, seen + {tree}, queue, tree);
        Report(tree, TreeKind, true);
        return;
      }
      Report(tree, TreeKind, false);
      var entries := db[tree].entries;
      assert ObjectTyped(db[tree], kind, tree);
      for i := 0 to |entries|
        invariant Walking(db, kind, scope, seen, rest, {tree}) && Reported(db, kind, seen, reports)
        invariant old(seen) + {tree} <= seen && old(reports) <= reports
        invariant HandedOn(entries, i, seen, rest)
        invariant forall x :: x in rest ==> x in queue || x in Mentioned(db)
      {
        ghost var before, queued := seen, rest;
        rest := CheckEntry(tree, i, rest, scope);
        HandedOnNext(entries, i, before, queued, seen, rest);
      }
      FinishTree(db, kind, scope, seen, rest, tree);
    }

    method CheckEntry(tree: Oid, i: nat, queue: seq<Oid>, ghost scope: set<Oid>) returns (rest: seq<Oid>)
      requires WellTyped(db, kind) && ScopedBy(db, scope) && tree in seen
      requires HasTree(db, tree) && i < |db[tree].entries|
      requires Walking(db, kind, scope, seen, queue, {tree}) && Reported(db, kind, seen, reports)
      modifies this`seen, this`reports
      ensures Walking(db, kind, scope, seen, rest, {tree}) && Reported(db, kind, seen, reports)
      ensures old(seen) <= seen && old(reports) <= reports
      ensures queue <= rest && forall x :: x in rest ==> x in queue || x in Mentioned(db)
      ensures var e := db[tree].entries[i]; !e.kind.SubmoduleEntry? ==> e.oid in seen || e.oid in rest
    {
      var e := db[tree].entries[i];
      rest := queue;
      EntryOfTree(db, kind, tree, i);
      match e.kind {
        case TreeEntry =>
          PushTree(db, kind, scope, seen, rest, tree, e.oid);
          rest := rest + [e.oid];
        case BlobEntry =>
          if e.oid !in seen {
            SeeBlob(db, kind, scope, seen, rest, tree, e.oid);
            Report(e.oid, BlobKind, e.oid !in db);
          }
        case SubmoduleEntry =>
      }
    }

    /** Looks at all queued trees and the trees below them. */
    method WalkTrees(tree: Oid, ghost scope: set<Oid>)
      requires WellTyped(db, kind) && Reported(db, kind, seen, reports) && tree in Mentioned(db) && ScopedBy(db, scope)
      requires Walking(db, kind, scope, seen, [tree], {})
      modifies this`seen, this`reports
      ensures Walking(db, kind, scope, seen, [], {}) && Reported(db, kind, seen, reports)
      ensures old(seen) <= seen && old(reports) <= reports
    {
      var queue := [tree];
      while queue != []
        invariant Walking(db, kind, scope, seen, queue, {}) && Reported(db, kind, seen, reports)
        invariant old(seen) <= seen && old(reports) <= reports
        invariant forall x :: x in queue ==> x in Mentioned(db)
        decreases Mentioned(db) - seen, |queue|
      {
        var tree := queue[0];
        PopTree(db, kind, scope, seen, queue);
        queue := queue[1..];
        if tree !in seen {
          assert {tree} - seen == {tree};
          queue := CheckTree(tree, queue, scope);
        } else {
          assert {tree} - seen == {} && seen + {tree} == seen;
        }
      }
    }

    /** Looks at a commit that was not seen before, and all that is below it. */
    method CheckNew(oid: Oid, ghost scope: set<Oid>) returns (outcome: Outcome)
      requires WellTyped(db, kind) && kind(oid) == CommitKind && oid !in seen && ScopedBy(db, scope)
      requires Walking(db, kind, scope, seen + {oid}, [], {oid}) && Reported(db, kind, seen, reports)
      modifies this`seen, this`reports
      ensures Walking(db, kind, scope, seen, [], {}) && Reported(db, kind, seen, reports)
      ensures outcome == CommitNotFound <==> !HasCommit(db, oid)
      ensures old(seen) + {oid} <= seen && old(reports) <= reports
    {
      Report(oid, CommitKind, false);
      HandOnTree(db, kind, scope, seen, oid);
      if !HasCommit(db, oid) { return CommitNotFound; }
      assert Refers(db, oid, db[oid].tree);
      ReferredIsMentioned(db, oid, db[oid].tree);
      WalkTrees(db[oid].tree, scope);
      return Checked;
    }

    /** Checks a commit. It fails exactly if the commit is new and cannot be found. */
    method CheckCommit(oid: Oid) returns (outcome: Outcome)
      requires Valid() && kind(oid) == CommitKind
      modifies this
      ensures Valid() && roots == old(roots) + {oid}
      ensures outcome == CommitNotFound <==> oid !in old(seen) && !HasCommit(db, oid)
      ensures old(seen) <= seen && old(reports) <= reports
    {
      AddRoot(db, kind, roots, seen, oid);
      roots := roots + {oid};
      if oid in seen {
        assert {oid} - seen == {} && seen + {oid} == seen;
        return Checked;
      }
      assert {oid} - seen == {oid};
      outcome := CheckNew(oid, Scope(db, roots));
    }
  }
}
