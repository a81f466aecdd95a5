/** Chains of commit-graph files: position lookups and the verification of generation numbers. */
module CommitGraphFiles {
  import opened Digraph
  import opened History
  import opened Options

  const GENERATION_NUMBER_MAX: nat := 0x3fff_ffff
  const MAX_FILES: nat := 256
  const NULL_ID: Oid := 0

  /** A stored commit. Parents are positions in the whole chain; reading them may end with an error. */
  datatype Record = Record(id: Oid, rootTree: Oid, generation: nat, parents: seq<nat>, parentsCorrupt: bool)

  /** One file of a chain. The fan counts commits by the first byte of their id. The checksum may differ from that of
      the content, and the name of the file may be that of another checksum. */
  datatype File = File(commits: seq<Record>, fan: seq<nat>, baseGraphCount: nat, baseGraphIds: seq<Oid>, checksum: Oid,
                       contentChecksum: Oid, checksumInName: Option<Oid>)

  /** A file whose name holds no checksum is not checked for it. */
  predicate NameRight(f: File) { f.checksumInName.None? || f.checksumInName.value == f.checksum }

  predicate Intact(f: File) { f.contentChecksum == f.checksum && NameRight(f) }

  /** All commits of a chain by position. */
  ghost function All(files: seq<File>): seq<Record> {
    if files == [] then [] else All(files[..|files| - 1]) + files[|files| - 1].commits
  }

  lemma {:induction false} AllSplit(files: seq<File>, i: nat)
    requires i <= |files|
    ensures All(files) == All(files[..i]) + All(files[i..])
    decreases |files|
  {
    if i == |files| {
      assert files[..i] == files && files[i..] == [];
    } else {
      var front, last := files[..|files| - 1], files[|files| - 1].commits;
      AllSplit(front, i);
      assert front[..i] == files[..i];
      assert All(files[i..]) == All(front[i..]) + last by {
        assert files[i..][..|files| - i - 1] == front[i..];
      }
      assert All(front[..i]) + All(front[i..]) + last == All(front[..i]) + (All(front[i..]) + last);
    }
  }

  lemma AllNext(files: seq<File>, i: nat)
    requires i < |files|
    ensures All(files[..i + 1]) == All(files[..i]) + files[i].commits
    ensures |All(files[..i + 1])| <= |All(files)| && All(files[..i + 1]) == All(files)[..|All(files[..i + 1])|]
    ensures i + 1 == |files| ==> All(files[..i + 1]) == All(files)
  {
    assert files[..i + 1][..i] == files[..i];
    AllSplit(files, i + 1);
  }

  // ----- lookups

  /** Finds the commit at a position by walking over the files; positions past the end are an error of the caller. */
  method LookupByPos(files: seq<File>, pos: nat) returns (fileIndex: nat, local: nat)
    requires pos < |All(files)|
    ensures fileIndex < |files| && local < |files[fileIndex].commits|
    ensures files[fileIndex].commits[local] == All(files)[pos] && |All(files[..fileIndex])| + local == pos
  {
    fileIndex, local := 0, pos;
    while local >= |files[fileIndex].commits|
      invariant fileIndex < |files| && |All(files[..fileIndex])| + local == pos
      decreases |files| - fileIndex
    {
      AllNext(files, fileIndex);
      local, fileIndex := local - |files[fileIndex].commits|, fileIndex + 1;
    }
    AllNext(files, fileIndex);
  }

  ghost predicate SortedIds(commits: seq<Record>) {
    forall i, j :: 0 <= i < j < |commits| ==> commits[i].id < commits[j].id
  }

  /** Ids have 20 bytes; this is the weight of the first one. */
  const FIRST_BYTE: nat := 0x1_0000_0000_0000_0000_0000_0000_0000_0000_0000_00

  function FirstByte(id: Oid): nat { id / FIRST_BYTE }

  /** Entry `b` of the fan is the number of commits whose id starts with `b` or less. */
  ghost predicate FanRight(commits: seq<Record>, fan: seq<nat>) {
    && |fan| == 256
    && forall b :: 0 <= b < 256 ==> CountsUpTo(commits, fan[b], b)
  }

  ghost predicate CountsUpTo(commits: seq<Record>, n: nat, b: nat) {
    n <= |commits| && forall i :: 0 <= i < |commits| ==> (i < n <==> FirstByte(commits[i].id) <= b)
  }

  ghost predicate Indexed(f: File) {
    SortedIds(f.commits) && FanRight(f.commits, f.fan)
  }

  /** The fan entry for the first byte of `id` stays within the file. Otherwise the search may look past the end. */
  predicate FanInBounds(f: File, id: Oid) {
    FirstByte(id) < 256 && |f.fan| == 256 && f.fan[FirstByte(id)] <= |f.commits|
  }

  /** The positions that the fan gives for the first byte of `id`. */
  predicate InFan(f: File, id: Oid, i: nat)
    requires FanInBounds(f, id)
  {
    var first := FirstByte(id);
    (first != 0 ==> f.fan[first - 1] <= i) && i < f.fan[first]
  }

  ghost predicate HasId(f: File, id: Oid) {
    exists i :: 0 <= i < |f.commits| && f.commits[i].id == id
  }

  /** Binary search in one file, among the commits with the same first byte according to the fan. */
  method LookupInFile(f: File, id: Oid) returns (pos: Option<nat>)
    requires FanInBounds(f, id)
    ensures pos.Some? ==> InFan(f, id, pos.value) && f.commits[pos.value].id == id
    ensures SortedIds(f.commits) && pos.None? ==>
      forall i :: 0 <= i < |f.commits| && InFan(f, id, i) ==> f.commits[i].id != id
    ensures Indexed(f) ==> (pos.Some? <==> HasId(f, id))
  {
    var first := FirstByte(id);
    var lower, upper := 0, f.fan[first];
    if first != 0 {
      lower := f.fan[first - 1];
    }
    while lower < upper
      invariant 0 <= lower && (first != 0 ==> f.fan[first - 1] <= lower) && upper <= f.fan[first]
      invariant SortedIds(f.commits) ==>
        forall i :: 0 <= i < |f.commits| && InFan(f, id, i) && f.commits[i].id == id ==> lower <= i < upper
    {
      var mid := (lower + upper) / 2;
      if id < f.commits[mid].id {
        upper := mid;
      } else if id == f.commits[mid].id {
        return Some(mid);
      } else {
        lower := mid + 1;
      }
    }
    if Indexed(f) { RightFanHolds(f, id); }
    return None;
  }

  /** A right fan leads to every commit. */
  lemma RightFanHolds(f: File, id: Oid)
    requires FanRight(f.commits, f.fan) && FanInBounds(f, id)
    ensures forall i :: 0 <= i < |f.commits| && f.commits[i].id == id ==> InFan(f, id, i)
  {
    var first := FirstByte(id);
    assert CountsUpTo(f.commits, f.fan[first], first);
    if first != 0 { assert CountsUpTo(f.commits, f.fan[first - 1], first - 1); }
  }

  ghost predicate AllIndexed(files: seq<File>) {
    forall f :: f in files ==> Indexed(f)
  }

  ghost predicate UniqueIds(all: seq<Record>) {
    forall i, j :: 0 <= i < j < |all| ==> all[i].id != all[j].id
  }

  /** Finds a commit by id in the first file that has it. If all files are sorted and have the right fan, every commit
      is found, and with unique ids this is the inverse of reading the id at a position. */
  method LookupById(files: seq<File>, id: Oid) returns (pos: Option<nat>)
    requires forall f :: f in files ==> FanInBounds(f, id)
    ensures pos.Some? ==> pos.value < |All(files)| && All(files)[pos.value].id == id
    ensures AllIndexed(files) && pos.None? ==> forall i :: 0 <= i < |All(files)| ==> All(files)[i].id != id
    ensures AllIndexed(files) && UniqueIds(All(files)) ==>
      forall i :: 0 <= i < |All(files)| ==> (All(files)[i].id == id <==> pos == Some(i))
  {
    var start := 0;
    for i := 0 to |files|
      invariant start == |All(files[..i])|
      invariant AllIndexed(files) ==> forall k :: 0 <= k < start ==> All(files[..i])[k].id != id
    {
      AllNext(files, i);
      var local := LookupInFile(files[i], id);
      if local.Some? {
        assert All(files)[start + local.value].id == id;
        return Some(start + local.value);
      }
      assert files[i] in files;
      start := start + |files[i].commits|;
    }
    assert files[..|files|] == files;
    return None;
  }

  // ----- verification

  /** The parent edges of a chain as a graph over positions. */
  ghost function Edges(all: seq<Record>): Graph {
    map pos | 0 <= pos < |all| :: all[pos].parents
  }

  ghost predicate InRange(parents: seq<nat>, limit: nat) {
    forall i :: 0 <= i < |parents| ==> parents[i] < limit
  }

  function Max(a: nat, b: nat): nat { if a < b then b else a }

  function Min(a: nat, b: nat): nat { if a < b then a else b }

  /** The largest generation among parents. */
  ghost function MaxGeneration(all: seq<Record>, parents: seq<nat>): (m: nat)
    requires InRange(parents, |all|)
    ensures forall i :: 0 <= i < |parents| ==> all[parents[i]].generation <= m
    ensures m == 0 || exists i :: 0 <= i < |parents| && all[parents[i]].generation == m
  {
    if parents == [] then 0
    else
      var last := parents[|parents| - 1];
      var front := MaxGeneration(all, parents[..|parents| - 1]);
      Max(front, all[last].generation)
  }

  lemma MaxGenerationNext(all: seq<Record>, limit: nat, parents: seq<nat>, i: nat)
    requires i < |parents| && InRange(parents[..i], limit) && parents[i] < limit <= |all|
    ensures InRange(parents[..i + 1], limit)
    ensures MaxGeneration(all, parents[..i + 1]) == Max(MaxGeneration(all, parents[..i]), all[parents[i]].generation)
  {
    var next := parents[..i + 1];
    assert next[i] == parents[i] && next[..i] == parents[..i];
    assert forall k :: 0 <= k < |next| ==> next[k] < limit;
  }

  /** The generation of a commit is one more than that of its parents, as far as it can be represented, and all
      parents are in the same file or a file before it. */
  ghost predicate RecordVerified(all: seq<Record>, limit: nat, r: Record) {
    && limit <= |all| && !r.parentsCorrupt && InRange(r.parents, limit)
    && r.generation == Min(MaxGeneration(all, r.parents) + 1, GENERATION_NUMBER_MAX)
  }

  ghost predicate RecordsVerified(all: seq<Record>, limit: nat, commits: seq<Record>) {
    forall r :: r in commits ==> RecordVerified(all, limit, r) && r.rootTree != NULL_ID && r.id > NULL_ID
  }

  /** The files before file `i` are the ones it was written on top of. */
  ghost predicate BasesMatch(files: seq<File>, i: nat)
    requires i < |files|
  {
    && files[i].baseGraphCount == i
    && forall k :: 0 <= k < i && k < |files[i].baseGraphIds| ==> files[i].baseGraphIds[k] == files[k].checksum
  }

  ghost predicate FileVerified(files: seq<File>, i: nat)
    requires i < |files|
  {
    && BasesMatch(files, i) && Intact(files[i]) && SortedIds(files[i].commits)
    && RecordsVerified(All(files), |All(files[..i])| + |files[i].commits|, files[i].commits)
  }

  ghost predicate Verified(files: seq<File>) {
    |files| <= MAX_FILES && forall i :: 0 <= i < |files| ==> FileVerified(files, i)
  }

  ghost predicate Accepted(accepts: Record -> bool, commits: seq<Record>) {
    forall r :: r in commits ==> accepts(r)
  }

  /** `n` bounds all generations and is one of them, or is 0 if there are none. */
  ghost predicate IsMaxGeneration(commits: seq<Record>, n: nat) {
    && (forall r :: r in commits ==> r.generation <= n)
    && (n == 0 || exists r :: r in commits && r.generation == n)
  }

  function ParentCounts(commits: seq<Record>): seq<nat> {
    seq(|commits|, i requires 0 <= i < |commits| => |commits[i].parents|)
  }

  /** The largest generation and the parent counts of some commits. */
  ghost predicate Counted(commits: seq<Record>, maxGeneration: nat, parentCounts: multiset<nat>) {
    IsMaxGeneration(commits, maxGeneration) && parentCounts == multiset(ParentCounts(commits))
  }

  lemma CountedTogether(a: seq<Record>, m: nat, ca: multiset<nat>, b: seq<Record>, n: nat, cb: multiset<nat>)
    requires Counted(a, m, ca) && Counted(b, n, cb)
    ensures Counted(a + b, Max(m, n), ca + cb)
  {
    assert ParentCounts(a + b) == ParentCounts(a) + ParentCounts(b);
    forall r | r in a + b ensures r.generation <= Max(m, n) {
      assert r in a || r in b;
    }
    assert forall r :: r in a || r in b ==> r in a + b;
  }

  lemma CountedNext(commits: seq<Record>, i: nat, m: nat, counts: multiset<nat>)
    requires i < |commits| && Counted(commits[..i], m, counts)
    ensures Counted(commits[..i + 1], Max(m, commits[i].generation), counts + multiset{|commits[i].parents|})
  {
    assert commits[..i + 1] == commits[..i] + [commits[i]];
    assert Counted([commits[i]], commits[i].generation, multiset{|commits[i].parents|});
    CountedTogether(commits[..i], m, counts, [commits[i]], commits[i].generation, multiset{|commits[i].parents|});
  }

  datatype Error =
    | TooManyFiles | BaseGraphCount | BaseGraphId | Mismatch | Filename | CommitId | CommitsOutOfOrder | RootTreeId
    | GenerationTooLarge | CorruptParents | ParentOutOfRange | Generation | Processor

  datatype Result<T> = Ok(value: T) | Err(error: Error)

  /** The first check of the parents and the generation that a commit fails. */
  ghost function RecordVerdict(all: seq<Record>, limit: nat, r: Record, accepts: Record -> bool): (error: Option<Error>)
    requires limit <= |all|
    ensures error.None? <==> RecordVerified(all, limit, r) && accepts(r)
  {
    if !InRange(r.parents, limit) then Some(ParentOutOfRange)
    else if r.parentsCorrupt then Some(CorruptParents)
    else if r.generation != Min(MaxGeneration(all, r.parents) + 1, GENERATION_NUMBER_MAX) then Some(Generation)
    else if !accepts(r) then Some(Processor)
    else None
  }

  /** The first check that a commit fails which comes after the id `prev`. */
  ghost function Verdict(all: seq<Record>, limit: nat, prev: Oid, r: Record,
                         accepts: Record -> bool): (error: Option<Error>)
    requires limit <= |all|
    ensures error.None? <==> RecordVerified(all, limit, r) && accepts(r) && r.id > prev && r.rootTree != NULL_ID
  {
    if r.id <= prev then Some(if r.id == NULL_ID then CommitId else CommitsOutOfOrder)
    else if r.rootTree == NULL_ID then Some(RootTreeId)
    else if r.generation > GENERATION_NUMBER_MAX then Some(GenerationTooLarge)
    else RecordVerdict(all, limit, r, accepts)
  }

  /** Checks the parents and the generation of one commit of a file that ends at position `limit`. */
  method CheckCommit(files: seq<File>, limit: nat, r: Record, accepts: Record -> bool) returns (error: Option<Error>)
    requires limit <= |All(files)|
    ensures error == RecordVerdict(All(files), limit, r, accepts)
  {
    var maxParentGeneration: nat := 0;
    for i := 0 to |r.parents|
      invariant InRange(r.parents[..i], limit)
      invariant maxParentGeneration == MaxGeneration(All(files), r.parents[..i])
    {
      if r.parents[i] >= limit {
        assert !InRange(r.parents, limit);
        return Some(ParentOutOfRange);
      }
      var f, local := LookupByPos(files, r.parents[i]);
      MaxGenerationNext(All(files), limit, r.parents, i);
      maxParentGeneration := Max(maxParentGeneration, files[f].commits[local].generation);
    }
    assert r.parents[..|r.parents|] == r.parents;
    if r.parentsCorrupt { return Some(CorruptParents); }
    if r.generation != Min(maxParentGeneration + 1, GENERATION_NUMBER_MAX) { return Some(Generation); }
    if !accepts(r) { return Some(Processor); }
    return None;
  }

  /** What the checks of a file establish for its first `i` commits. */
  ghost predicate Checked(all: seq<Record>, limit: nat, commits: seq<Record>, accepts: Record -> bool) {
    SortedIds(commits) && RecordsVerified(all, limit, commits) && Accepted(accepts, commits)
  }

  lemma SortedNext(commits: seq<Record>, r: Record)
    requires SortedIds(commits)
    ensures SortedIds(commits + [r]) <==> (commits != [] ==> commits[|commits| - 1].id < r.id)
  {
    var next, n := commits + [r], |commits|;
    assert next[n] == r && (n > 0 ==> next[n - 1] == commits[n - 1]);
    if n > 0 && commits[n - 1].id < r.id {
      assert forall i :: 0 <= i < n ==> commits[i].id <= commits[n - 1].id;
    }
  }

  ghost function PrevId(commits: seq<Record>, i: nat): Oid
    requires i <= |commits|
  {
    if i == 0 then NULL_ID else commits[i - 1].id
  }

  /** One more commit passes the checks exactly if it is above the last one and passes them by itself. */
  lemma CheckedNext(all: seq<Record>, limit: nat, commits: seq<Record>, i: nat, prev: Oid, accepts: Record -> bool)
    requires i < |commits| && Checked(all, limit, commits[..i], accepts)
    requires prev == PrevId(commits, i)
    ensures Checked(all, limit, commits[..i + 1], accepts) <==>
      RecordVerified(all, limit,
                     commits[i]) && accepts(commits[i]) && commits[i].id > prev && commits[i].rootTree != NULL_ID
    ensures !Checked(all, limit, commits[..i + 1], accepts) ==> !Checked(all, limit, commits, accepts)
    ensures commits[..i + 1] == commits[..i] + [commits[i]]
  {
    var next := commits[..i + 1];
    assert next == commits[..i] + [commits[i]];
    assert next[i] in next;
    assert i > 0 ==> commits[..i][i - 1] in commits[..i];
    SortedNext(commits[..i], commits[i]);
    assert forall r :: r in next ==> r in commits;
  }

  /** `error` is what the first commit that does not pass is rejected for. */
  ghost predicate FirstFailure(all: seq<Record>, limit: nat, commits: seq<Record>, accepts: Record -> bool,
                               error: Error) {
    limit <= |all| && exists i :: 0 <= i < |commits| && FailsAt(all, limit, commits, accepts, i, error)
  }

  ghost predicate FailsAt(all: seq<Record>, limit: nat, commits: seq<Record>, accepts: Record -> bool, i: nat,
                          error: Error)
    requires limit <= |all| && i < |commits|
  {
    && Checked(all, limit, commits[..i], accepts)
    && Verdict(all, limit, PrevId(commits, i), commits[i], accepts) == Some(error)
  }

  /** What each error says about the commit it was given for. */
  ghost predicate ErrorMeans(all: seq<Record>, limit: nat, commits: seq<Record>, accepts: Record -> bool, i: nat,
                             error: Error)
    requires i < |commits|
  {
    var r := commits[i];
    match error
    case CommitId => r.id == 0
    case CommitsOutOfOrder => i > 0 && r.id <= commits[i - 1].id
    case RootTreeId => r.rootTree == 0
    case GenerationTooLarge => r.generation > 0x3fff_ffff
    case ParentOutOfRange => exists k :: 0 <= k < |r.parents| && r.parents[k] >= limit
    case CorruptParents => r.parentsCorrupt
    case Generation => WrongGeneration(all, r)
    case Processor => !accepts(r)
    case _ => false
  }

  /** The generation is one without parents, or one more than the largest one of the parents, or the largest that can be
      represented. */
  ghost predicate RightGeneration(all: seq<Record>, r: Record)
    requires forall k :: 0 <= k < |r.parents| ==> r.parents[k] < |all|
  {
    if r.parents == [] then r.generation == 1 else exists k :: 0 <= k < |r.parents| && FollowsParent(all, r, k)
  }

  ghost predicate FollowsParent(all: seq<Record>, r: Record, k: nat)
    requires k < |r.parents| && forall k :: 0 <= k < |r.parents| ==> r.parents[k] < |all|
  {
    var top := all[r.parents[k]].generation;
    && (forall j :: 0 <= j < |r.parents| ==> all[r.parents[j]].generation <= top)
    && r.generation == if top + 1 < 0x3fff_ffff then top + 1 else 0x3fff_ffff
  }

  ghost predicate WrongGeneration(all: seq<Record>, r: Record) {
    (forall k :: 0 <= k < |r.parents| ==> r.parents[k] < |all|) && !RightGeneration(all, r)
  }

  /** That is what verification computes. */
  lemma GenerationIsRight(all: seq<Record>, r: Record)
    requires InRange(r.parents, |all|)
    ensures RightGeneration(all, r) <==> r.generation == Min(MaxGeneration(all, r.parents) + 1, GENERATION_NUMBER_MAX)
  {
    var m := MaxGeneration(all, r.parents);
    if r.parents != [] {
      var k := 0;
      if m > 0 { k :| 0 <= k < |r.parents| && all[r.parents[k]].generation == m; }
      assert all[r.parents[k]].generation == m;
      assert FollowsParent(all, r, k) <==> r.generation == Min(m + 1, GENERATION_NUMBER_MAX);
      forall j | 0 <= j < |r.parents| && FollowsParent(all, r, j) ensures FollowsParent(all, r, k) {}
    }
  }

  lemma ErrorsTell(all: seq<Record>, limit: nat, commits: seq<Record>, accepts: Record -> bool, i: nat, error: Error)
    requires limit <= |all| && i < |commits| && FailsAt(all, limit, commits, accepts, i, error)
    ensures ErrorMeans(all, limit, commits, accepts, i, error)
  {
    if InRange(commits[i].parents, limit) { GenerationIsRight(all, commits[i]); }
  }

  /** Continues the check of a file at commit `i`, `prev` being the id before it: it passes exactly if the checked
      part of the file can be extended by it. */
  method CheckInOrder(files: seq<File>, limit: nat, commits: seq<Record>, i: nat, prev: Oid, accepts: Record -> bool)
    returns (error: Option<Error>)
    requires limit <= |All(files)| && i < |commits| && prev == PrevId(commits, i)
    requires Checked(All(files), limit, commits[..i], accepts)
    ensures error.None? <==> Checked(All(files), limit, commits[..i + 1], accepts)
    ensures error.Some? ==>
      && !Checked(All(files), limit, commits, accepts)
      && FirstFailure(All(files), limit, commits, accepts, error.value)
      && ErrorMeans(All(files), limit, commits, accepts, i, error.value)
  {
    CheckedNext(All(files), limit, commits, i, prev, accepts);
    var r := commits[i];
    if r.id <= prev {
      error := Some(if r.id == NULL_ID then CommitId else CommitsOutOfOrder);
    } else if r.rootTree == NULL_ID {
      error := Some(RootTreeId);
    } else if r.generation > GENERATION_NUMBER_MAX {
      error := Some(GenerationTooLarge);
    } else {
      error := CheckCommit(files, limit, r, accepts);
    }
    if error.Some? {
      assert FailsAt(All(files), limit, commits, accepts, i, error.value);
      ErrorsTell(All(files), limit, commits, accepts, i, error.value);
    }
  }

  /** `error` is what the content of a file is rejected for. */
  ghost predicate ContentFails(all: seq<Record>, limit: nat, f: File, accepts: Record -> bool, error: Error) {
    if f.contentChecksum != f.checksum then error == Mismatch
    else if !NameRight(f) then error == Filename
    else FirstFailure(all, limit, f.commits, accepts, error)
  }

  /** Checks all commits of a file in order. */
  method Traverse(files: seq<File>, limit: nat, f: File, accepts: Record -> bool)
    returns (result: Result<nat>, parentCounts: multiset<nat>)
    requires limit <= |All(files)|
    ensures result.Ok? <==> Intact(f) && Checked(All(files), limit, f.commits, accepts)
    ensures result.Ok? ==> Counted(f.commits, result.value, parentCounts)
    ensures result.Err? ==> ContentFails(All(files), limit, f, accepts, result.error)
  {
    parentCounts := multiset{};
    if f.contentChecksum != f.checksum { return Err(Mismatch), parentCounts; }
    if !NameRight(f) { return Err(Filename), parentCounts; }
    var commits := f.commits;
    var maxGeneration: nat, prev := 0, NULL_ID;
    for i := 0 to |commits|
      invariant prev == PrevId(commits, i)
      invariant Checked(All(files), limit, commits[..i], accepts)
      invariant Counted(commits[..i], maxGeneration, parentCounts)
    {
      var r := commits[i];
      var error := CheckInOrder(files, limit, commits, i, prev, accepts);
      if error.Some? { return Err(error.value), parentCounts; }
      CountedNext(commits, i, maxGeneration, parentCounts);
      maxGeneration := Max(maxGeneration, r.generation);
      parentCounts := parentCounts + multiset{|r.parents|};
      prev := r.id;
    }
    assert commits[..|commits|] == commits;
    return Ok(maxGeneration), parentCounts;
  }

  method CheckBases(files: seq<File>, i: nat) returns (error: Option<Error>)
    requires i < |files|
    ensures error.None? <==> BasesMatch(files, i)
    ensures error.Some? ==> error.value == if files[i].baseGraphCount != i then BaseGraphCount else BaseGraphId
  {
    if files[i].baseGraphCount != i { return Some(BaseGraphCount); }
    var k := 0;
    while k < i && k < |files[i].baseGraphIds|
      invariant 0 <= k <= i && k <= |files[i].baseGraphIds|
      invariant forall j :: 0 <= j < k ==> files[i].baseGraphIds[j] == files[j].checksum
    {
      if files[i].baseGraphIds[k] != files[k].checksum { return Some(BaseGraphId); }
      k := k + 1;
    }
    return None;
  }

  datatype Outcome = Outcome(longestPathLength: Option<nat>, numCommits: nat, parentCounts: multiset<nat>)

  lemma AcceptedTogether(accepts: Record -> bool, a: seq<Record>, b: seq<Record>)
    ensures Accepted(accepts, a + b) <==> Accepted(accepts, a) && Accepted(accepts, b)
  {
  }

  /** `error` is what file `i` is rejected for. */
  ghost predicate FileFails(files: seq<File>, i: nat, accepts: Record -> bool, error: Error)
    requires i < |files|
  {
    if files[i].baseGraphCount != i then error == BaseGraphCount
    else if !BasesMatch(files, i) then error == BaseGraphId
    else ContentFails(All(files), |All(files[..i])| + |files[i].commits|, files[i], accepts, error)
  }

  /** Checks file `i` and all its commits. */
  method CheckFile(files: seq<File>, i: nat, start: nat, accepts: Record -> bool)
    returns (result: Result<nat>, parentCounts: multiset<nat>)
    requires i < |files| && start == |All(files[..i])|
    ensures result.Ok? <==> FileVerified(files, i) && Accepted(accepts, files[i].commits)
    ensures result.Ok? ==> Counted(files[i].commits, result.value, parentCounts)
    ensures result.Err? ==> FileFails(files, i, accepts, result.error)
  {
    var error := CheckBases(files, i);
    if error.Some? { return Err(error.value), multiset{}; }
    AllNext(files, i);
    var limit := start + |files[i].commits|;
    result, parentCounts := Traverse(files, limit, files[i], accepts);
  }

  /** The first files are verified and their commits accepted. */
  ghost predicate VerifiedUpTo(files: seq<File>, n: nat, accepts: Record -> bool)
    requires n <= |files|
  {
    (forall i :: 0 <= i < n ==> FileVerified(files, i)) && Accepted(accepts, All(files[..n]))
  }

  lemma VerifiedNext(files: seq<File>, i: nat, accepts: Record -> bool)
    requires i < |files| && VerifiedUpTo(files, i, accepts)
    ensures VerifiedUpTo(files, i + 1, accepts) <==> FileVerified(files, i) && Accepted(accepts, files[i].commits)
    ensures !VerifiedUpTo(files, i + 1, accepts) ==> !VerifiedUpTo(files, |files|, accepts)
  {
    AllNext(files, i);
    AcceptedTogether(accepts, All(files[..i]), files[i].commits);
    assert files[..|files|] == files;
    AllSplit(files, i + 1);
    AcceptedTogether(accepts, All(files[..i + 1]), All(files[i + 1..]));
  }

  /** Verifies a chain of files. It succeeds exactly if all files are verified and the caller accepts all commits. On
      success the longest path is left open exactly if some generation could not be represented. */
  method VerifyIntegrity(files: seq<File>, accepts: Record -> bool) returns (result: Result<Outcome>)
    ensures result.Ok? <==> Verified(files) && Accepted(accepts, All(files))
    ensures result.Err? ==>
      if |files| > 256 then result.error == TooManyFiles
      else exists i :: 0 <= i < |files| && VerifiedUpTo(files, i, accepts) && FileFails(files, i, accepts, result.error)
    ensures result.Ok? ==> result.value.numCommits == |All(files)|
    ensures result.Ok? ==> result.value.parentCounts == multiset(ParentCounts(All(files)))
    ensures result.Ok? ==>
      (result.value.longestPathLength.None? <==> exists r :: r in All(files) && r.generation == 0x3fff_ffff)
    ensures result.Ok? && result.value.longestPathLength.Some? ==>
      Acyclic(Edges(All(files))) && IsLongestPath(Edges(All(files)), result.value.longestPathLength.value)
  {
    if |files| > MAX_FILES { return Err(TooManyFiles); }
    var maxGeneration: nat, start, parentCounts := 0, 0, multiset{};
    for i := 0 to |files|
      invariant start == |All(files[..i])| && VerifiedUpTo(files, i, accepts)
      invariant Counted(All(files[..i]), maxGeneration, parentCounts)
    {
      VerifiedNext(files, i, accepts);
      AllNext(files, i);
      var inFile, counts := CheckFile(files, i, start, accepts);
      if inFile.Err? {
        assert files[..|files|] == files;
        return Err(inFile.error);
      }
      CountedTogether(All(files[..i]), maxGeneration, parentCounts, files[i].commits, inFile.value, counts);
      maxGeneration := Max(maxGeneration, inFile.value);
      parentCounts := parentCounts + counts;
      start := start + |files[i].commits|;
    }
    assert files[..|files|] == files;
    FilesToRecords(files);
    if maxGeneration < GENERATION_NUMBER_MAX {
      LongestPath(All(files), maxGeneration);
      return Ok(Outcome(Some(if maxGeneration == 0 then 0 else maxGeneration - 1), start, parentCounts));
    }
    return Ok(Outcome(None, start, parentCounts));
  }

  // ----- what verified generations mean

  /** All commits pass verification by themselves. */
  ghost predicate GenerationsRight(all: seq<Record>) {
    forall i :: 0 <= i < |all| ==> RecordVerified(all, |all|, all[i])
  }

  lemma FilesToRecords(files: seq<File>)
    requires Verified(files)
    ensures GenerationsRight(All(files))
  {
    var all := All(files);
    forall pos | 0 <= pos < |all| ensures RecordVerified(all, |all|, all[pos]) {
      var i, local := FileOf(files, pos);
      AllNext(files, i);
      assert FileVerified(files, i);
      assert files[i].commits[local] in files[i].commits;
    }
  }

  lemma {:induction false} FileOf(files: seq<File>, pos: nat) returns (i: nat, local: nat)
    requires pos < |All(files)|
    ensures i < |files| && local < |files[i].commits| && files[i].commits[local] == All(files)[pos]
    decreases |files|
  {
    var front := files[..|files| - 1];
    if pos < |All(front)| {
      i, local := FileOf(front, pos);
    } else {
      i, local := |files| - 1, pos - |All(front)|;
    }
  }

  /** No path has more than `n` edges and some path has `n` edges, unless there are no nodes. */
  ghost predicate IsLongestPath(g: Graph, n: nat) {
    && (forall p :: IsPath(g, p) ==> |p| - 1 <= n)
    && (if |g| == 0 then n == 0 else exists p :: IsPath(g, p) && |p| - 1 == n)
  }

  ghost predicate Representable(all: seq<Record>) {
    forall r :: r in all ==> r.generation < GENERATION_NUMBER_MAX
  }

  /** A path is never longer than the generation of its start. */
  lemma {:induction false} PathBounded(all: seq<Record>, p: seq<Node>)
    requires GenerationsRight(all) && Representable(all) && IsPath(Edges(all), p)
    ensures |p| <= all[p[0]].generation
    decreases |p|
  {
    var r := all[p[0]];
    assert r in all && RecordVerified(all, |all|, r);
    if |p| > 1 {
      PathBounded(all, p[1..]);
      EdgeFalls(all, p[0], p[1]);
    }
  }

  /** There is a path exactly as long as the generation of its start. */
  lemma {:induction false} PathExists(all: seq<Record>, pos: nat) returns (p: seq<Node>)
    requires GenerationsRight(all) && Representable(all) && pos < |all|
    ensures IsPath(Edges(all), p) && p[0] == pos && |p| == all[pos].generation
    decreases all[pos].generation
  {
    var r := all[pos];
    assert r in all && RecordVerified(all, |all|, r);
    var m := MaxGeneration(all, r.parents);
    if m == 0 {
      p := [pos];
    } else {
      var i :| 0 <= i < |r.parents| && all[r.parents[i]].generation == m;
      var rest := PathExists(all, r.parents[i]);
      p := [pos] + rest;
      assert p[1..] == rest;
    }
  }

  lemma LongestPath(all: seq<Record>, maxGeneration: nat)
    requires GenerationsRight(all) && IsMaxGeneration(all, maxGeneration) && maxGeneration < GENERATION_NUMBER_MAX
    ensures Acyclic(Edges(all))
    ensures IsLongestPath(Edges(all), if maxGeneration == 0 then 0 else maxGeneration - 1)
  {
    var g := Edges(all);
    forall p | IsPath(g, p) ensures |p| <= maxGeneration {
      PathBounded(all, p);
      assert all[p[0]] in all;
    }
    if |all| > 0 {
      assert 0 in g;
      var p := LongestExists(all, maxGeneration);
    } else {
      assert g == map[];
    }
    NoCycles(all);
  }

  lemma LongestExists(all: seq<Record>, maxGeneration: nat) returns (p: seq<Node>)
    requires GenerationsRight(all) && Representable(all) && IsMaxGeneration(all, maxGeneration) && |all| > 0
    ensures maxGeneration > 0 && IsPath(Edges(all), p) && |p| == maxGeneration
  {
    assert all[0] in all && RecordVerified(all, |all|, all[0]);
    var r :| r in all && r.generation == maxGeneration;
    var pos: nat :| pos < |all| && all[pos] == r;
    p := PathExists(all, pos);
  }

  lemma NoCycles(all: seq<Record>)
    requires GenerationsRight(all) && Representable(all)
    ensures Acyclic(Edges(all))
  {
    var g := Edges(all);
    forall x: nat, y: nat | Edge(g, x, y) ensures !Reaches(g, y, x) {
      EdgeFalls(all, x, y);
      ReachFalls(all, y, x);
    }
  }

  lemma ReachFalls(all: seq<Record>, x: nat, y: nat)
    requires GenerationsRight(all) && Representable(all) && x < |all| && y < |all|
    ensures Reaches(Edges(all), x, y) ==> all[y].generation <= all[x].generation
  {
    forall p | PathBetween(Edges(all), p, x, y) ensures all[y].generation <= all[x].generation {
      GenerationsFall(all, p);
    }
  }

  lemma EdgeFalls(all: seq<Record>, x: nat, y: nat)
    requires GenerationsRight(all) && Representable(all) && Edge(Edges(all), x, y)
    ensures all[y].generation < all[x].generation
  {
    var r := all[x];
    assert r in all && RecordVerified(all, |all|, r);
    var i :| 0 <= i < |r.parents| && r.parents[i] == y;
  }

  lemma {:induction false} GenerationsFall(all: seq<Record>, p: seq<Node>)
    requires GenerationsRight(all) && Representable(all) && IsPath(Edges(all), p)
    ensures p[|p| - 1] < |all| && all[p[|p| - 1]].generation <= all[p[0]].generation
    decreases |p|
  {
    if |p| > 1 {
      GenerationsFall(all, p[1..]);
      EdgeFalls(all, p[0], p[1]);
    }
  }
}
