/** A stack of path components that tells a delegate which directories are entered and left. */
module PathStack {
  datatype Component = Normal(name: string) | RootDir | CurrentDir | ParentDir

  type Path = seq<Component>

  /** Records what a stack tells it. */
  class Delegate {
    /** The directories that were pushed and not popped yet. */
    var directories: seq<Path>
    /** The components that were pushed, and whether they were the last of their path. */
    var pushed: seq<(Path, bool)>

    constructor ()
      ensures directories == [] && pushed == []
    {
      directories, pushed := [], [];
    }

    method PushDirectory(path: Path)
      modifies this`directories
      ensures directories == old(directories) + [path]
    {
      directories := directories + [path];
    }

    method Push(path: Path, isLast: bool)
      modifies this`pushed
      ensures pushed == old(pushed) + [(path, isLast)]
    {
      pushed := pushed + [(path, isLast)];
    }

    method PopDirectory()
      requires directories != []
      modifies this`directories
      ensures directories == old(directories[..|directories| - 1])
    {
      directories := directories[..|directories| - 1];
    }
  }

  /** The root, `times` times, then the proper prefixes of `relative`, then its whole path if that is a directory. */
  ghost function Mirror(root: Path, times: nat, relative: Path, isDirectory: bool): seq<Path> {
    var n := if isDirectory || relative == [] then |relative| else |relative| - 1;
    seq(times, i => root) + seq(n, i requires 0 <= i < n => root + relative[..i + 1])
  }

  lemma MirrorShrinks(root: Path, times: nat, relative: Path)
    requires relative != []
    ensures var parent := relative[..|relative| - 1];
      && Mirror(root, times, relative, false) == Mirror(root, times, parent, true)
      && Mirror(root, times, relative, true) == Mirror(root, times, parent, true) + [root + relative]
  {
    var n := |relative| - 1;
    var parent := relative[..n];
    forall j | 0 <= j <= n ensures relative[..j] == parent[..j] {}
    assert relative[..n + 1] == relative;
  }

  lemma MirrorAgain(root: Path, times: nat)
    ensures Mirror(root, times + 1, [], true) == Mirror(root, times, [], true) + [root]
  {
  }

  /** The pushes for all components of `path` from `from` on. */
  ghost function Pushes(root: Path, path: Path, from: nat, to: nat): seq<(Path, bool)>
    requires from <= to <= |path|
  {
    seq(to - from, i requires 0 <= i < to - from => (root + path[..from + i + 1], from + i + 1 == |path|))
  }

  /** The length of the longest common prefix. */
  ghost function Common(a: Path, b: Path): (n: nat)
    ensures n <= |a| && n <= |b| && a[..n] == b[..n]
    ensures n < |a| && n < |b| ==> a[n] != b[n]
  {
    if a == [] || b == [] || a[0] != b[0] then 0 else
      var n := Common(a[1..], b[1..]);
      assert a[..n + 1] == [a[0]] + a[1..][..n] && b[..n + 1] == [b[0]] + b[1..][..n];
      1 + n
  }

  lemma CommonUnique(a: Path, b: Path, n: nat)
    requires n <= |a| && n <= |b| && a[..n] == b[..n]
    requires n < |a| && n < |b| ==> a[n] != b[n]
    ensures n == Common(a, b)
  {
  }

  predicate AllNormal(path: Path) {
    forall i :: 0 <= i < |path| ==> path[i].Normal?
  }

  /** What entering the component at `i` adds. */
  lemma EnterNext(root: Path, times: nat, path: Path, from: nat, i: nat)
    requires from <= i < |path|
    ensures path[..i + 1] == path[..i] + [path[i]] && root + path[..i] + [path[i]] == root + path[..i + 1]
    ensures Mirror(root, times, path[..i + 1], false) == Mirror(root, times, path[..i], true)
    ensures Mirror(root, times, path[..i + 1], true) == Mirror(root, times, path[..i], true) + [root + path[..i + 1]]
    ensures Pushes(root, path, from, i + 1) == Pushes(root, path, from, i) + [(root + path[..i + 1], i + 1 == |path|)]
  {
    var next := path[..i + 1];
    assert next[..i] == path[..i];
    MirrorShrinks(root, times, next);
  }

  /** A path that was taken for a file turns out to be a directory. */
  lemma EnterLate(root: Path, times: nat, path: Path)
    requires path != []
    ensures Mirror(root, times, path, true) == Mirror(root, times, path, false) + [root + path]
    ensures Mirror(root, times, path, true) != Mirror(root, times, path, false)
  {
    MirrorShrinks(root, times, path);
  }

  /** The current path is not a directory so far, and the new path continues it with a component that is not normal.
      */
  predicate Strays(current: Path, isDirectory: bool, relative: Path) {
    !isDirectory && current < relative && !relative[|current|].Normal?
  }

  datatype Outcome = Ok | EmptyInput | NotNormal

  class Stack {
    const root: Path
    var current: Path
    var currentRelative: Path
    var validComponents: nat
    var currentIsDirectory: bool
    /** How often the root was pushed. */
    ghost var rootPushes: nat

    /** Between calls, as far as the stack itself is concerned. */
    ghost predicate Valid()
      reads this
    {
      && validComponents == |currentRelative| && current == root + currentRelative
      && AllNormal(currentRelative) && (currentRelative == [] ==> currentIsDirectory)
    }

    /** The delegate knows the directories that lead to the current path. */
    ghost predicate Mirrored(delegate: Delegate)
      reads this, delegate
    {
      delegate.directories == Mirror(root, rootPushes, currentRelative, currentIsDirectory)
    }

    constructor (root: Path)
      ensures Valid() && this.root == root && currentRelative == [] && rootPushes == 0
    {
      this.root, current, currentRelative := root, root, [];
      validComponents, currentIsDirectory, rootPushes := 0, true, 0;
    }

    /** Counts the components that the current and the new path share. */
    method CountMatching(relative: Path) returns (matching: nat)
      ensures matching == Common(currentRelative, relative)
    {
      matching := 0;
      while matching < |currentRelative| && matching < |relative| && currentRelative[matching] == relative[matching]
        invariant matching <= |currentRelative| && matching <= |relative|
        invariant currentRelative[..matching] == relative[..matching]
      {
        matching := matching + 1;
      }
      CommonUnique(currentRelative, relative, matching);
    }

    /** Leaves components until `matching` of them remain. */
    method PopTo(matching: nat, delegate: Delegate)
      requires Valid() && Mirrored(delegate) && matching <= validComponents
      modifies this`current, this`currentRelative, this`currentIsDirectory, this`validComponents, delegate`directories
      ensures Valid() && Mirrored(delegate) && currentRelative == old(currentRelative)[..matching]
      ensures currentIsDirectory == (old(currentIsDirectory) || matching < old(validComponents))
    {
      ghost var before := currentRelative;
      for i := 0 to validComponents - matching
        invariant validComponents == |before| && i <= |before| - matching
        invariant currentRelative == before[..|before| - i] && current == root + currentRelative
        invariant currentIsDirectory == (old(currentIsDirectory) || i > 0)
        invariant Mirrored(delegate)
      {
        MirrorShrinks(root, rootPushes, currentRelative);
        current := current[..|current| - 1];
        currentRelative := currentRelative[..|currentRelative| - 1];
        if currentIsDirectory {
          delegate.PopDirectory();
        }
        currentIsDirectory := true;
      }
      validComponents := matching;
    }

    /** The directories that lead to the current path and the current path itself. */
    ghost predicate Entered(delegate: Delegate)
      reads this, delegate
    {
      delegate.directories == Mirror(root, rootPushes, currentRelative, true)
    }

    /** Enters the components of `relative` that are not entered yet, up to the first that is not a normal one. */
    method PushFrom(relative: Path, delegate: Delegate) returns (outcome: Outcome)
      requires Valid() && currentRelative <= relative
      requires if currentRelative == relative then Mirrored(delegate) else Entered(delegate)
      modifies this`current, this`currentRelative, this`currentIsDirectory, this`validComponents, delegate
      ensures Valid() && old(currentRelative) <= currentRelative <= relative
      ensures delegate.pushed ==
        old(delegate.pushed) + Pushes(root, relative, |old(currentRelative)|, |currentRelative|)
      ensures outcome == if AllNormal(relative) then Ok else NotNormal
      ensures outcome == Ok ==> currentRelative == relative && Mirrored(delegate)
      ensures outcome == Ok ==> currentIsDirectory == (old(currentRelative) == relative && old(currentIsDirectory))
      ensures outcome == NotNormal ==>
        Entered(delegate) && |currentRelative| < |relative| && !relative[|currentRelative|].Normal?
      ensures outcome == NotNormal ==>
        currentIsDirectory == (old(currentIsDirectory) || old(currentRelative) < currentRelative)
    {
      ghost var from := |currentRelative|;
      assert relative[..from] == currentRelative;
      for i := validComponents to |relative|
        invariant Valid() && currentRelative == relative[..i]
        invariant if i == |relative| then Mirrored(delegate) else Entered(delegate)
        invariant currentIsDirectory == if from < i then i < |relative| else old(currentIsDirectory)
        invariant delegate.pushed == old(delegate.pushed) + Pushes(root, relative, from, i)
      {
        if !relative[i].Normal? { return NotNormal; }
        var isLast := i + 1 == |relative|;
        EnterNext(root, rootPushes, relative, from, i);
        currentIsDirectory := !isLast;
        current := current + [relative[i]];
        currentRelative := currentRelative + [relative[i]];
        validComponents := validComponents + 1;
        delegate.Push(current, isLast);
        if currentIsDirectory {
          delegate.PushDirectory(current);
        }
      }
      return Ok;
    }

    /** Makes `relative` the current path. The delegate keeps knowing the directories that lead there unless the new
        path strays. */
    method MakeRelativePathCurrent(relative: Path, delegate: Delegate) returns (outcome: Outcome)
      requires Valid() && Mirrored(delegate)
      modifies this`current, this`currentRelative, this`currentIsDirectory, this`validComponents, this`rootPushes
      modifies delegate
      ensures Valid()
      ensures Mirrored(delegate) <==> !Strays(old(currentRelative), old(currentIsDirectory), relative)
      ensures outcome == EmptyInput <==> relative == [] && old(currentRelative) != []
      ensures outcome == EmptyInput ==> unchanged(this) && unchanged(delegate)
      ensures outcome != EmptyInput ==> outcome == if AllNormal(relative) then Ok else NotNormal
      ensures outcome != EmptyInput ==> rootPushes == old(rootPushes) + if old(currentRelative) == [] then 1 else 0
      ensures outcome != EmptyInput ==>
        && Common(old(currentRelative), relative) <= |currentRelative| <= |relative|
        && delegate.pushed == old(delegate.pushed) +
             Pushes(root, relative, Common(old(currentRelative), relative), |currentRelative|)
      ensures outcome == Ok ==> currentRelative == relative
      ensures outcome == Ok ==>
        var before := old(currentRelative);
        currentIsDirectory == (relative < before || (relative == before && old(currentIsDirectory)))
      ensures outcome == NotNormal ==>
        Entered(delegate) && currentRelative < relative && !relative[|currentRelative|].Normal?
    {
      if validComponents != 0 && relative == [] { return EmptyInput; }
      if validComponents == 0 {
        assert currentRelative == [] && current == root;
        MirrorAgain(root, rootPushes);
        delegate.PushDirectory(current);
        rootPushes := rootPushes + 1;
      }
      var matching := CountMatching(relative);
      PopTo(matching, delegate);
      if !currentIsDirectory && matching < |relative| {
        EnterLate(root, rootPushes, currentRelative);
        delegate.PushDirectory(current);
      }
      outcome := PushFrom(relative, delegate);
    }
  }

  /** Every run over paths that are not empty and have only normal components succeeds. After it, the directories
      known to the delegate are the root, once, the proper prefixes of the last path, and that path if it became a
      directory. */
  method VisitAll(root: Path, paths: seq<Path>) returns (stack: Stack, delegate: Delegate)
    requires forall path :: path in paths ==> path != [] && AllNormal(path)
    ensures fresh(stack) && fresh(delegate) && stack.root == root && stack.Valid()
    ensures paths == [] ==> delegate.directories == []
    ensures paths != [] ==>
      var last := paths[|paths| - 1];
      && stack.current == root + last
      && delegate.directories == Mirror(root, 1, last, stack.currentIsDirectory)
  {
    stack := new Stack(root);
    delegate := new Delegate();
    for i := 0 to |paths|
      invariant stack.root == root && stack.Valid() && stack.Mirrored(delegate) && fresh(stack) && fresh(delegate)
      invariant if i == 0 then stack.currentRelative == [] && stack.rootPushes == 0
                else stack.currentRelative == paths[i - 1] && stack.rootPushes == 1
    {
      assert paths[i] in paths;
      var outcome := stack.MakeRelativePathCurrent(paths[i], delegate);
    }
  }

  /** After a file `a`, the path `a/..` is refused, but only after the delegate was told that `a` is a directory. The
      stack still takes `a` for a file, and will not tell the delegate when it leaves it. */
  method Stray(root: Path) returns (stack: Stack, delegate: Delegate)
    ensures fresh(stack) && fresh(delegate) && stack.root == root && stack.Valid()
    ensures stack.currentRelative == [Normal("a")] && !stack.currentIsDirectory && !stack.Mirrored(delegate)
    ensures delegate.directories == [root, root + [Normal("a")]]
  {
    stack := new Stack(root);
    delegate := new Delegate();
    var file, parent := [Normal("a")], [Normal("a"), ParentDir];
    var outcome := stack.MakeRelativePathCurrent(file, delegate);
    assert AllNormal(file) && outcome == Ok && file == parent[..1];
    outcome := stack.MakeRelativePathCurrent(parent, delegate);
    assert !AllNormal(parent) && outcome == NotNormal;
    assert stack.currentRelative == file;
  }
}
