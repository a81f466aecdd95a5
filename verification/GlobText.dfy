/** What patterns mean, told on the text they are written as, and that the matcher finds exactly that. */
module GlobText {
  import opened GlobMatching
  import opened GlobPattern

  function Char(c: char): Byte {
    if c as int < 256 then c as int as Byte else 0
  }

  function Text(s: string): Bytes {
    seq(|s|, i requires 0 <= i < |s| => Char(s[i]))
  }

  function Stars(n: nat): Bytes { seq(n, i => Char('*')) }

  /** Text without special characters. */
  predicate Plain(s: Bytes) {
    forall i :: 0 <= i < |s| ==> s[i] != Char('*') && s[i] != Char('?') && s[i] != Char('[') && s[i] != Char('\\')
  }

  predicate WithoutSlash(s: Bytes) {
    forall i :: 0 <= i < |s| ==> s[i] != Char('/')
  }

  /** Whole directories, or none. */
  predicate WholeDirectories(s: Bytes) {
    s == [] || s[|s| - 1] == Char('/')
  }

  /** The special characters. */
  lemma Characters()
    ensures STAR == Char('*') && QUESTION == Char('?') && BRACKET_OPEN == Char('[') && BACKSLASH == Char('\\')
    ensures SLASH == Char('/') && EXCLAMATION == Char('!') && HASH == Char('#')
    ensures forall c :: IsGlobCharacter(c) <==> c == Char('*') || c == Char('?') || c == Char('[') || c == Char('\\')
    ensures forall c :: IsWhitespace(c) <==>
      c == Char(' ') || c == Char('\t') || c == Char('\n') || c == Char('\r') || c == 0x0c
  {
  }

  // ----- steps over literal parts

  lemma {:induction false} LiteralStart(path: bool, p: Bytes, i: nat, n: nat, t: Bytes, j: nat)
    requires i + n <= |p| && j <= |t| && Literal(p, i, i + n)
    ensures Glob(path, p, i, t, j) <==>
      j + n <= |t| && p[i..i + n] == t[j..j + n] && Glob(path, p, i + n, t, j + n)
    decreases n
  {
    if n > 0 && j < |t| {
      LiteralStart(path, p, i + 1, n - 1, t, j + 1);
      assert p[i..i + n] == [p[i]] + p[i + 1..i + n];
      assert j + n <= |t| ==> t[j..j + n] == [t[j]] + t[j + 1..j + n];
    }
  }

  lemma {:induction false} LiteralStartCost(path: bool, p: Bytes, i: nat, n: nat)
    requires i + n <= |p| && Literal(p, i, i + n)
    ensures Cost(path, p, i) == Cost(path, p, i + n) && NoBrackets(p, i) == NoBrackets(p, i + n)
    decreases n
  {
    if n > 0 { LiteralStartCost(path, p, i + 1, n - 1); }
  }

  /** Stars after the literal `a` and before the rest of the pattern from `e` on. */
  lemma StarsBehind(path: bool, p: Bytes, a: Bytes, e: nat, t: Bytes)
    requires Plain(a) && |a| < e <= |p| && a <= p && (forall k :: |a| <= k < e ==> p[k] == Char('*'))
    requires e == |p| || p[e] != Char('*')
    ensures RunEnd(p, |a|) == e
    ensures Glob(path, p, 0, t, 0) <==> a <= t && Glob(path, p, |a|, t, |a|)
  {
    assert Literal(p, 0, |a|) by { assert forall k :: 0 <= k < |a| ==> p[k] == a[k]; }
    LiteralStart(path, p, 0, |a|, t, 0);
    assert p[..|a|] == a;
  }

  /** The text begins with `a`, and what comes from `k` on is `b`. */
  predicate Leaves(a: Bytes, k: nat, b: Bytes, t: Bytes) {
    |a| <= k <= |t| && a <= t && t[k..] == b
  }

  lemma LeavesMiddle(a: Bytes, k: nat, b: Bytes, t: Bytes)
    requires Leaves(a, k, b, t)
    ensures t == a + t[|a|..k] + b && (NoSlash(t, |a|, k) ==> WithoutSlash(t[|a|..k]))
  {
  }

  lemma MiddleLeaves(a: Bytes, m: Bytes, b: Bytes, t: Bytes)
    requires t == a + m + b
    ensures Leaves(a, |a| + |m|, b, t) && (WithoutSlash(m) ==> NoSlash(t, |a|, |a| + |m|))
  {
    assert forall x :: |a| <= x < |a| + |m| ==> t[x] == m[x - |a|];
  }

  /** Stars reach `k`, and what is left is the rest of the pattern. */
  ghost predicate ReachesAt(wide: bool, a: Bytes, k: nat, b: Bytes, t: Bytes) {
    Leaves(a, k, b, t) && (wide || NoSlash(t, |a|, k))
  }

  lemma StarsReach(path: bool, p: Bytes, a: Bytes, e: nat, b: Bytes, t: Bytes)
    requires Plain(a) && Plain(b) && |a| < e <= |p| && a <= p && (forall k :: |a| <= k < e ==> p[k] == Char('*'))
    requires p[e..] == b
    ensures RunEnd(p, |a|) == e
    ensures Glob(path, p, 0, t, 0) <==>
      || (exists k: nat :: ReachesAt(Wide(path, p, |a|), a, k, b, t))
      || (MayVanish(path, p, |a|) && a <= t && t[|a|..] == b[1..])
  {
    assert forall k :: e <= k < |p| ==> p[k] == b[k - e];
    StarsBehind(path, p, a, e, t);
    if a <= t {
      StarMeaning(path, p, |a|, t, |a|);
      StarsLeave(path, p, a, e, b, Wide(path, p, |a|), t);
      if e < |p| { StarsVanish(path, p, a, e, b, t); }
    }
  }

  lemma StarsVanish(path: bool, p: Bytes, a: Bytes, e: nat, b: Bytes, t: Bytes)
    requires e < |p| && p[e..] == b && Literal(p, e, |p|) && a <= t
    ensures Glob(path, p, e + 1, t, |a|) <==> t[|a|..] == b[1..]
  {
    LiteralTail(path, p, e + 1, t, |a|);
    assert p[e + 1..] == b[1..];
  }

  lemma StarsLeave(path: bool, p: Bytes, a: Bytes, e: nat, b: Bytes, wide: bool, t: Bytes)
    requires e <= |p| && p[e..] == b && Literal(p, e, |p|) && a <= t
    ensures StarReaches(path, p, e, wide, t, |a|) <==> exists k: nat :: ReachesAt(wide, a, k, b, t)
  {
    if StarReaches(path, p, e, wide, t, |a|) {
      var k :| |a| <= k <= |t| && (wide || NoSlash(t, |a|, k)) && Glob(path, p, e, t, k);
      LiteralTail(path, p, e, t, k);
      assert ReachesAt(wide, a, k, b, t);
    }
    if k: nat :| ReachesAt(wide, a, k, b, t) {
      LiteralTail(path, p, e, t, k);
    }
  }

  lemma StarsPattern(a: Bytes, n: nat, b: Bytes)
    ensures var p, e := a + Stars(n) + b, |a| + n;
      && |p| == e + |b| && a <= p && p[e..] == b && (forall k :: |a| <= k < e ==> p[k] == Char('*'))
      && (a != [] ==> p[|a| - 1] == a[|a| - 1]) && (b != [] ==> p[e] == b[0])
  {
  }

  /** A single run of stars costs one nested call at most, so the matcher answers by the meaning of the pattern. */
  lemma FoundByMeaning(brackets: Brackets, path: bool, p: Bytes, a: Bytes, e: nat, b: Bytes, t: Bytes)
    requires Plain(a) && Plain(b) && |a| < e <= |p| && a <= p && (forall k :: |a| <= k < e ==> p[k] == Char('*'))
    requires p[e..] == b
    ensures Found(brackets, p, t, Mode(path, false)) <==> Glob(path, p, 0, t, 0)
  {
    assert forall k :: 0 <= k < |a| ==> p[k] == a[k];
    assert forall k :: e <= k < |p| ==> p[k] == b[k - e];
    StarsBehind(path, p, a, e, t);
    LiteralCost(path, p, e);
    if e < |p| { LiteralCost(path, p, e + 1); }
    StarsPlain(p, |a|, e);
    LiteralStartCost(path, p, 0, |a|);
    FoundIffMatches(brackets, p, t, Mode(path, false));
  }

  lemma {:induction false} StarsPlain(p: Bytes, i: nat, e: nat)
    requires i <= e <= |p| && (forall k :: i <= k < e ==> p[k] == Char('*')) && NoBrackets(p, e)
    ensures NoBrackets(p, i)
    decreases e - i
  {
    if i < e { StarsPlain(p, i + 1, e); }
  }

  /** What the matcher finds for a single run of stars. */
  lemma StarsFind(brackets: Brackets, path: bool, a: Bytes, n: nat, b: Bytes, t: Bytes)
    requires Plain(a) && Plain(b) && n >= 1
    ensures var p := a + Stars(n) + b;
      Found(brackets, p, t, Mode(path, false)) <==>
        || (exists k: nat :: ReachesAt(Wide(path, p, |a|), a, k, b, t))
        || (MayVanish(path, p, |a|) && a <= t && t[|a|..] == b[1..])
  {
    var p, e := a + Stars(n) + b, |a| + n;
    StarsPattern(a, n, b);
    FoundByMeaning(brackets, path, p, a, e, b, t);
    StarsReach(path, p, a, e, b, t);
  }

  /** Where stars may cover slashes, on the text around them. */
  lemma WideOnText(path: bool, a: Bytes, n: nat, b: Bytes)
    requires Plain(a) && Plain(b) && n >= 1
    ensures var p := a + Stars(n) + b;
      var between := n >= 2 && (a == [] || a[|a| - 1] == Char('/')) && (b == [] || b[0] == Char('/'));
      && (Wide(path, p, |a|) <==> !path || between)
      && (MayVanish(path, p, |a|) <==> path && between && b != [])
  {
    var p, e := a + Stars(n) + b, |a| + n;
    StarsPattern(a, n, b);
    assert RunEnd(p, |a|) == e by { assert e < |p| ==> p[e] == b[0]; }
  }

  // ----- stars

  /** Without path rules, stars cover any text. */
  lemma StarsCoverAll(brackets: Brackets, a: Bytes, n: nat, b: Bytes, t: Bytes)
    requires Plain(a) && Plain(b) && n >= 1
    ensures Found(brackets, a + Stars(n) + b, t, Mode(false, false)) <==> exists m :: t == a + m + b
  {
    StarsFind(brackets, false, a, n, b, t);
    WideOnText(false, a, n, b);
    if k: nat :| ReachesAt(true, a, k, b, t) {
      LeavesMiddle(a, k, b, t);
    }
    if m :| t == a + m + b {
      MiddleLeaves(a, m, b, t);
      assert ReachesAt(true, a, |a| + |m|, b, t);
    }
  }

  /** With path rules, a single star, or stars next to anything but slashes and ends, cover text without slashes. */
  lemma NarrowStars(brackets: Brackets, a: Bytes, n: nat, b: Bytes, t: Bytes)
    requires Plain(a) && Plain(b) && n >= 1
    requires n == 1 || (a != [] && a[|a| - 1] != Char('/')) || (b != [] && b[0] != Char('/'))
    ensures Found(brackets, a + Stars(n) + b, t, Mode(true, false)) <==> exists m :: WithoutSlash(m) && t == a + m + b
  {
    StarsFind(brackets, true, a, n, b, t);
    WideOnText(true, a, n, b);
    if k: nat :| ReachesAt(false, a, k, b, t) {
      LeavesMiddle(a, k, b, t);
    }
    if m :| WithoutSlash(m) && t == a + m + b {
      MiddleLeaves(a, m, b, t);
      assert ReachesAt(false, a, |a| + |m|, b, t);
    }
  }

  /** With path rules, two or more stars at the end of a directory match all that is in it. */
  lemma DoubleStarAtEnd(brackets: Brackets, a: Bytes, n: nat, t: Bytes)
    requires Plain(a) && n >= 2
    ensures Found(brackets, a + Text("/") + Stars(n), t, Mode(true, false)) <==> a + Text("/") <= t
  {
    var start := a + Text("/");
    assert start + Stars(n) + [] == start + Stars(n) && start[|a|] == SLASH;
    StarsFind(brackets, true, start, n, [], t);
    WideOnText(true, start, n, []);
    if start <= t { assert ReachesAt(true, start, |t|, [], t); }
  }

  /** Two or more stars alone match everything. */
  lemma DoubleStarAlone(brackets: Brackets, n: nat, t: Bytes)
    requires n >= 2
    ensures Found(brackets, Stars(n), t, Mode(true, false))
  {
    assert [] + Stars(n) + [] == Stars(n);
    StarsFind(brackets, true, [], n, [], t);
    WideOnText(true, [], n, []);
    assert ReachesAt(true, [], |t|, [], t);
  }

  /** Two or more stars between slashes, or between the start and a slash, stand for whole directories, or none. */
  lemma DoubleStarBetween(brackets: Brackets, a: Bytes, n: nat, b: Bytes, t: Bytes)
    requires Plain(a) && Plain(b) && n >= 2 && (a == [] || a[|a| - 1] == Char('/'))
    ensures Found(brackets, a + Stars(n) + Text("/") + b, t, Mode(true, false)) <==>
      exists dirs :: WholeDirectories(dirs) && t == a + dirs + b
  {
    var end := Text("/") + b;
    SlashFirst(a, n, b);
    StarsFind(brackets, true, a, n, end, t);
    WideOnText(true, a, n, end);
    DirectoriesBetween(a, b, t);
  }

  lemma SlashFirst(a: Bytes, n: nat, b: Bytes)
    requires Plain(b)
    ensures var end := Text("/") + b;
      && a + Stars(n) + end == a + Stars(n) + Text("/") + b
      && Plain(end) && end[0] == Char('/') && end[1..] == b
  {
  }

  lemma DirectoriesBetween(a: Bytes, b: Bytes, t: Bytes)
    ensures var end := Text("/") + b;
      (exists k: nat :: ReachesAt(true, a, k, end, t)) || (a <= t && t[|a|..] == b)
      <==> exists dirs :: WholeDirectories(dirs) && t == a + dirs + b
  {
    var end := Text("/") + b;
    if k: nat :| ReachesAt(true, a, k, end, t) {
      EndIsDirectory(a, k, b, t);
    }
    if a <= t && t[|a|..] == b {
      assert WholeDirectories([]) && t == a + [] + b;
    }
    if dirs :| WholeDirectories(dirs) && t == a + dirs + b {
      DirectoriesEnd(a, dirs, b, t);
      if dirs != [] { assert ReachesAt(true, a, |a| + |dirs| - 1, end, t); }
    }
  }

  lemma DirectoriesEnd(a: Bytes, dirs: Bytes, b: Bytes, t: Bytes)
    requires WholeDirectories(dirs) && t == a + dirs + b
    ensures a <= t && (dirs == [] ==> t[|a|..] == b)
    ensures dirs != [] ==> t[|a| + |dirs| - 1..] == Text("/") + b
  {
    if dirs != [] { assert t[|a| + |dirs| - 1] == SLASH; }
  }

  lemma EndIsDirectory(a: Bytes, k: nat, b: Bytes, t: Bytes)
    requires Leaves(a, k, Text("/") + b, t)
    ensures k < |t| && WholeDirectories(t[|a|..k + 1]) && t == a + t[|a|..k + 1] + b
  {
    assert t[k..][0] == SLASH && t[k + 1..] == t[k..][1..] == b;
    assert t == a + t[|a|..k + 1] + t[k + 1..];
  }

  /** An escaped slash bounds the stars as well, but does not vanish with them. */
  lemma DoubleStarEscaped(brackets: Brackets, a: Bytes, n: nat, b: Bytes, t: Bytes)
    requires Plain(a) && Plain(b) && n >= 2 && (a == [] || a[|a| - 1] == Char('/'))
    ensures Found(brackets, a + Stars(n) + Text("\\/") + b, t, Mode(true, false)) <==>
      exists m :: t == a + m + Text("/") + b
  {
    var p, e, end := a + Stars(n) + Text("\\/") + b, |a| + n, Text("/") + b;
    EscapedPattern(a, n, b);
    EscapedFound(brackets, p, a, e, t);
    EscapedReach(p, a, e, b, t);
    if k: nat :| ReachesAt(true, a, k, end, t) {
      LeavesMiddle(a, k, end, t);
      assert t == a + t[|a|..k] + Text("/") + b;
    }
    if m :| t == a + m + Text("/") + b {
      assert t == a + m + end;
      MiddleLeaves(a, m, end, t);
      assert ReachesAt(true, a, |a| + |m|, end, t);
    }
  }

  lemma EscapedPattern(a: Bytes, n: nat, b: Bytes)
    ensures var p, e := a + Stars(n) + Text("\\/") + b, |a| + n;
      && |p| == e + 2 + |b| && a <= p && p[e + 2..] == b && p[e] == BACKSLASH && p[e + 1] == SLASH
      && (forall k :: |a| <= k < e ==> p[k] == Char('*')) && (a != [] ==> p[|a| - 1] == a[|a| - 1])
  {
  }

  lemma EscapedFound(brackets: Brackets, p: Bytes, a: Bytes, e: nat, t: Bytes)
    requires Plain(a) && |a| < e && e + 2 <= |p| && a <= p && (forall k :: |a| <= k < e ==> p[k] == Char('*'))
    requires p[e] == BACKSLASH && p[e + 1] == SLASH && Plain(p[e + 2..])
    ensures Found(brackets, p, t, Mode(true, false)) <==> Glob(true, p, 0, t, 0)
  {
    assert forall k :: 0 <= k < |a| ==> p[k] == a[k];
    assert forall k :: e + 2 <= k < |p| ==> p[k] == p[e + 2..][k - e - 2];
    StarsBehind(true, p, a, e, t);
    LiteralCost(true, p, e + 2);
    StarsPlain(p, |a|, e);
    LiteralStartCost(true, p, 0, |a|);
    FoundIffMatches(brackets, p, t, Mode(true, false));
  }

  lemma EscapedReach(p: Bytes, a: Bytes, e: nat, b: Bytes, t: Bytes)
    requires Plain(a) && Plain(b) && |a| + 2 <= e && e + 2 <= |p| && a <= p && p[e + 2..] == b
    requires (forall k :: |a| <= k < e ==> p[k] == Char('*')) && p[e] == BACKSLASH && p[e + 1] == SLASH
    requires a == [] || p[|a| - 1] == Char('/')
    ensures Glob(true, p, 0, t, 0) <==> exists k: nat :: ReachesAt(true, a, k, Text("/") + b, t)
  {
    StarsBehind(true, p, a, e, t);
    if a <= t {
      StarMeaning(true, p, |a|, t, |a|);
      assert Wide(true, p, |a|) && !MayVanish(true, p, |a|);
      forall k | |a| <= k <= |t| ensures Glob(true, p, e, t, k) <==> t[k..] == Text("/") + b {
        EscapedTail(p, e, b, t, k);
      }
      if k :| |a| <= k <= |t| && Glob(true, p, e, t, k) { assert ReachesAt(true, a, k, Text("/") + b, t); }
    }
  }

  lemma EscapedTail(p: Bytes, e: nat, b: Bytes, t: Bytes, k: nat)
    requires Plain(b) && e + 2 <= |p| && p[e + 2..] == b && p[e] == BACKSLASH && p[e + 1] == SLASH && k <= |t|
    ensures Glob(true, p, e, t, k) <==> t[k..] == Text("/") + b
  {
    assert forall x :: e + 2 <= x < |p| ==> p[x] == b[x - e - 2];
    if k < |t| {
      LiteralTail(true, p, e + 2, t, k + 1);
      assert t[k..] == [t[k]] + t[k + 1..];
    }
  }

  // ----- single bytes

  /** A question mark stands for one byte, with path rules for any but a slash. */
  lemma QuestionMark(brackets: Brackets, path: bool, a: Bytes, b: Bytes, t: Bytes)
    requires Plain(a) && Plain(b)
    ensures Found(brackets, a + Text("?") + b, t, Mode(path, false)) <==>
      exists c :: (path ==> c != Char('/')) && t == a + [c] + b
  {
    var p := a + Text("?") + b;
    assert p[|a|] == QUESTION;
    OneBehind(brackets, path, p, a, |a| + 1, t);
    assert p[|a| + 1..] == b;
    forall c | t == a + [c] + b ensures a <= t && |a| < |t| && t[|a|] == c && t[|a| + 1..] == b {}
    if a <= t && |a| < |t| && t[|a| + 1..] == b { assert t == a + [t[|a|]] + b; }
  }

  /** An escaped byte stands for itself. */
  lemma EscapedByte(brackets: Brackets, path: bool, a: Bytes, c: Byte, b: Bytes, t: Bytes)
    requires Plain(a) && Plain(b)
    ensures Found(brackets, a + Text("\\") + [c] + b, t, Mode(path, false)) <==> t == a + [c] + b
  {
    var p := a + Text("\\") + [c] + b;
    assert p[|a|] == BACKSLASH && p[|a| + 1] == c;
    OneBehind(brackets, path, p, a, |a| + 2, t);
    assert p[|a| + 2..] == b;
    if a <= t && |a| < |t| && t[|a| + 1..] == b { assert t == a + [t[|a|]] + b; }
  }

  /** One byte after the literal `a`, given by the pattern up to `e`, and then only literal bytes. */
  lemma OneBehind(brackets: Brackets, path: bool, p: Bytes, a: Bytes, e: nat, t: Bytes)
    requires Plain(a) && a <= p && |a| < e <= |p| && Literal(p, e, |p|) && p[|a|] != STAR
    requires p[|a|] != BRACKET_OPEN
    requires e == if p[|a|] == BACKSLASH then |a| + 2 else |a| + 1
    ensures Found(brackets, p, t, Mode(path, false)) <==>
      && a <= t && |a| < |t| && t[|a| + 1..] == p[e..]
      && if p[|a|] == BACKSLASH then t[|a|] == p[|a| + 1] else One(path, p[|a|], t[|a|])
  {
    assert forall k :: 0 <= k < |a| ==> p[k] == a[k];
    LiteralCost(path, p, e);
    LiteralStartCost(path, p, 0, |a|);
    FoundIffMatches(brackets, p, t, Mode(path, false));
    LiteralStart(path, p, 0, |a|, t, 0);
    assert p[..|a|] == a;
    if a <= t && |a| < |t| { LiteralTail(path, p, e, t, |a| + 1); }
  }

  // ----- letters

  /** The same byte, or the same ASCII letter in upper and lower case. */
  predicate SameLetter(x: Byte, y: Byte) {
    || x == y
    || (Char('A') <= x <= Char('Z') && y as int == x as int + 32)
    || (Char('A') <= y <= Char('Z') && x as int == y as int + 32)
  }

  lemma LowerMeaning(x: Byte, y: Byte)
    ensures ToLower(x) == ToLower(y) <==> SameLetter(x, y)
  {
  }

  /** Text without special characters matches itself, or the same text in other case if case is ignored. */
  lemma PlainText(brackets: Brackets, a: Bytes, t: Bytes, mode: Mode)
    requires Plain(a)
    ensures Found(brackets, a, t, mode) <==>
      |t| == |a| && forall i :: 0 <= i < |a| ==> if mode.ignoreCase then SameLetter(a[i], t[i]) else a[i] == t[i]
  {
    var p, v := Fold(mode.ignoreCase, a), Fold(mode.ignoreCase, t);
    LiteralCost(mode.noMatchSlash, a, 0);
    FoundIffMatches(brackets, a, t, mode);
    FoldKeepsWildcards(mode.ignoreCase, a);
    LiteralTail(mode.noMatchSlash, p, 0, v, 0);
    assert p[0..] == p && v[0..] == v;
    forall i | 0 <= i < |a| && i < |t|
      ensures p[i] == v[i] <==> if mode.ignoreCase then SameLetter(a[i], t[i]) else a[i] == t[i]
    {
      LowerMeaning(a[i], t[i]);
    }
  }
}
