/** Glob matching: a declarative meaning of patterns, and the backtracking matcher with its abort codes. */
module GlobMatching {
  import opened Options

  newtype Byte = b: int | 0 <= b < 256

  type Bytes = seq<Byte>

  const STAR: Byte := 42
  const QUESTION: Byte := 63
  const BACKSLASH: Byte := 92
  const SLASH: Byte := 47
  const BRACKET_OPEN: Byte := 91
  const RECURSION_LIMIT: nat := 64

  // ----- the meaning of patterns

  /** The index after the run of stars that covers `i`. */
  function RunEnd(p: Bytes, i: nat): (e: nat)
    requires i <= |p|
    ensures i <= e <= |p| && (e < |p| ==> p[e] != STAR) && forall k :: i <= k < e ==> p[k] == STAR
    decreases |p| - i
  {
    if i < |p| && p[i] == STAR then RunEnd(p, i + 1) else i
  }

  /** Whether two or more stars stand between slashes or the ends of the pattern. */
  predicate BetweenSlashes(p: Bytes, i: nat)
    requires i < |p|
  {
    var e := RunEnd(p, i);
    && e >= i + 2
    && (i == 0 || p[i - 1] == SLASH)
    && (e == |p| || p[e] == SLASH || (p[e] == BACKSLASH && e + 1 < |p| && p[e + 1] == SLASH))
  }

  /** Whether the stars at `i` may cover slashes. */
  predicate Wide(path: bool, p: Bytes, i: nat)
    requires i < |p|
  {
    !path || BetweenSlashes(p, i)
  }

  /** Whether the stars at `i` may vanish together with the slash that follows: no directory at all. */
  predicate MayVanish(path: bool, p: Bytes, i: nat)
    requires i < |p|
  {
    path && BetweenSlashes(p, i) && RunEnd(p, i) < |p| && p[RunEnd(p, i)] == SLASH
  }

  predicate NoSlash(t: Bytes, j: nat, k: nat)
    requires k <= |t|
  {
    forall x :: j <= x < k ==> t[x] != SLASH
  }

  /** The pattern from index `i` matches all of the text from index `j`. With `path`, a question mark matches anything
      but a slash and stars cover no slash unless they are wide. */
  ghost predicate Glob(path: bool, p: Bytes, i: nat, t: Bytes, j: nat)
    requires i <= |p| && j <= |t|
    decreases |p| - i
  {
    if i == |p| then
      j == |t|
    else if p[i] == STAR then
      var e := RunEnd(p, i);
      || (exists k :: j <= k <= |t| && (Wide(path, p, i) || NoSlash(t, j, k)) && Glob(path, p, e, t, k))
      || (MayVanish(path, p, i) && Glob(path, p, e + 1, t, j))
    else if j == |t| then
      false
    else if p[i] == BACKSLASH then
      i + 1 < |p| && p[i + 1] == t[j] && Glob(path, p, i + 2, t, j + 1)
    else
      One(path, p[i], t[j]) && Glob(path, p, i + 1, t, j + 1)
  }

  /** A pattern byte other than star and backslash matches a text byte. */
  predicate One(path: bool, pattern: Byte, text: Byte) {
    if pattern == QUESTION then !(path && text == SLASH) else pattern == text
  }

  /** How many runs of stars from `i` on make the matcher call itself: all but a trailing run, and but narrow ones
      before a slash. */
  function Cost(path: bool, p: Bytes, i: nat): nat
    requires i <= |p|
    decreases |p| - i
  {
    if i == |p| then
      0
    else if p[i] == STAR then
      var e := RunEnd(p, i);
      if e == |p| then 0 else if !Wide(path, p, i) && p[e] == SLASH then Cost(path, p, e + 1) else 1 + Cost(path, p, e)
    else if p[i] == BACKSLASH then
      if i + 1 == |p| then 0 else Cost(path, p, i + 2)
    else
      Cost(path, p, i + 1)
  }

  /** From `i` on, no opening bracket stands in the pattern unless it is escaped. */
  predicate NoBrackets(p: Bytes, i: nat)
    requires i <= |p|
    decreases |p| - i
  {
    if i == |p| then true
    else if p[i] == BACKSLASH then i + 1 == |p| || NoBrackets(p, i + 2)
    else p[i] != BRACKET_OPEN && NoBrackets(p, i + 1)
  }

  lemma {:induction false} NoBracketsBehindStars(p: Bytes, i: nat)
    requires i <= |p| && NoBrackets(p, i)
    ensures NoBrackets(p, RunEnd(p, i))
    decreases |p| - i
  {
    if i < |p| && p[i] == STAR { NoBracketsBehindStars(p, i + 1); }
  }

  // ----- what the matcher's answers mean

  datatype Answer = Match | NoMatch | AbortAll | AbortToStarStar | RecursionLimitReached

  ghost predicate AnyLater(path: bool, p: Bytes, i: nat, t: Bytes, j: nat)
    requires i <= |p| && j <= |t|
  {
    exists k :: j <= k <= |t| && Glob(path, p, i, t, k)
  }

  ghost predicate AnyBeforeSlash(path: bool, p: Bytes, i: nat, t: Bytes, j: nat)
    requires i <= |p| && j <= |t|
  {
    exists k :: j <= k <= |t| && NoSlash(t, j, k) && Glob(path, p, i, t, k)
  }

  /** The answer is right: an abort rules out later positions as well, all of them or those up to the next slash. */
  ghost predicate Right(path: bool, p: Bytes, s: nat, t: Bytes, j: nat, r: Answer)
    requires s <= |p| && j <= |t|
  {
    match r
    case Match => Glob(path, p, s, t, j)
    case NoMatch => !Glob(path, p, s, t, j)
    case AbortAll => !Glob(path, p, s, t, j) && (s < |p| && p[s] != STAR ==> !AnyLater(path, p, s, t, j))
    case AbortToStarStar => path && !AnyBeforeSlash(path, p, s, t, j)
    case RecursionLimitReached => false
  }

  /** A slash in the pattern before `i` was matched by a slash in the text before `k`. */
  predicate Preceded(p: Bytes, s: nat, i: nat, t: Bytes, k: nat)
    requires i <= |p| && k <= |t|
  {
    i > s && p[i - 1] == SLASH ==> k > 0 && t[k - 1] == SLASH
  }

  ghost predicate SomeLater(path: bool, p: Bytes, s: nat, i: nat, t: Bytes, j: nat)
    requires i <= |p| && j <= |t|
  {
    exists k :: j <= k <= |t| && Preceded(p, s, i, t, k) && Glob(path, p, i, t, k)
  }

  /** Matching from `s` and `j0` comes down to matching from `i` and `j`, at this position and at later ones. */
  ghost predicate Tracks(path: bool, p: Bytes, s: nat, t: Bytes, j0: nat, i: nat, j: nat)
    requires s <= i <= |p| && j0 <= j <= |t|
  {
    && (Glob(path, p, s, t, j0) <==> Glob(path, p, i, t, j))
    && Preceded(p, s, i, t, j)
    && (AnyLater(path, p, s, t, j0) ==> SomeLater(path, p, s, i, t, j))
    && (path && AnyBeforeSlash(path, p, s, t, j0) ==> AnyBeforeSlash(path, p, i, t, j))
  }

  /** Consuming one pattern byte with one text byte. */
  lemma TokenStep(path: bool, p: Bytes, s: nat, t: Bytes, j0: nat, i: nat, j: nat)
    requires s <= i < |p| && j0 <= j < |t| && Tracks(path, p, s, t, j0, i, j)
    requires p[i] != STAR && p[i] != BACKSLASH && One(path, p[i], t[j])
    ensures Tracks(path, p, s, t, j0, i + 1, j + 1)
  {
    if SomeLater(path, p, s, i, t, j) {
      var k :| j <= k <= |t| && Preceded(p, s, i, t, k) && Glob(path, p, i, t, k);
      assert Preceded(p, s, i + 1, t, k + 1) && Glob(path, p, i + 1, t, k + 1);
    }
    if path && AnyBeforeSlash(path, p, i, t, j) {
      var k :| j <= k <= |t| && NoSlash(t, j, k) && Glob(path, p, i, t, k);
      assert NoSlash(t, j + 1, k + 1) && Glob(path, p, i + 1, t, k + 1);
    }
  }

  /** Consuming an escaped byte. */
  lemma EscapeStep(path: bool, p: Bytes, s: nat, t: Bytes, j0: nat, i: nat, j: nat)
    requires s <= i && i + 1 < |p| && j0 <= j < |t| && Tracks(path, p, s, t, j0, i, j)
    requires p[i] == BACKSLASH && p[i + 1] == t[j]
    ensures Tracks(path, p, s, t, j0, i + 2, j + 1)
  {
    if SomeLater(path, p, s, i, t, j) {
      var k :| j <= k <= |t| && Preceded(p, s, i, t, k) && Glob(path, p, i, t, k);
      assert Preceded(p, s, i + 2, t, k + 1) && Glob(path, p, i + 2, t, k + 1);
    }
    if path && AnyBeforeSlash(path, p, i, t, j) {
      var k :| j <= k <= |t| && NoSlash(t, j, k) && Glob(path, p, i, t, k);
      assert NoSlash(t, j + 1, k + 1) && Glob(path, p, i + 2, t, k + 1);
    }
  }

  /** Narrow stars before a slash match only if what follows matches behind a slash, which is the first one at `q` if
      no slash comes before. */
  lemma BeyondSlash(path: bool, p: Bytes, i: nat, t: Bytes, j: nat, q: nat, k: nat) returns (x: nat)
    requires i < |p| && p[i] == STAR && !Wide(path, p, i) && RunEnd(p, i) < |p| && p[RunEnd(p, i)] == SLASH
    requires j <= q < |t| && NoSlash(t, j, q) && t[q] == SLASH && j <= k <= |t| && Glob(path, p, i, t, k)
    ensures q < x <= |t| && t[x - 1] == SLASH && Glob(path, p, RunEnd(p, i) + 1, t, x)
    ensures NoSlash(t, j, k) ==> x == q + 1
  {
    var y :| k <= y <= |t| && NoSlash(t, k, y) && Glob(path, p, RunEnd(p, i), t, y);
    x := y + 1;
  }

  /** Narrow stars before a slash cover everything up to the next slash of the text. */
  lemma SlashStep(path: bool, p: Bytes, s: nat, t: Bytes, j0: nat, i: nat, j: nat, q: nat)
    requires s <= i < |p| && j0 <= j <= q < |t| && Tracks(path, p, s, t, j0, i, j)
    requires p[i] == STAR && !Wide(path, p, i) && RunEnd(p, i) < |p| && p[RunEnd(p, i)] == SLASH
    requires NoSlash(t, j, q) && t[q] == SLASH
    ensures Tracks(path, p, s, t, j0, RunEnd(p, i) + 1, q + 1)
  {
    var e := RunEnd(p, i);
    if Glob(path, p, i, t, j) {
      var x := BeyondSlash(path, p, i, t, j, q, j);
    }
    if Glob(path, p, e + 1, t, q + 1) {
      assert Glob(path, p, e, t, q);
    }
    if SomeLater(path, p, s, i, t, j) {
      var k :| j <= k <= |t| && Preceded(p, s, i, t, k) && Glob(path, p, i, t, k);
      var x := BeyondSlash(path, p, i, t, j, q, k);
      assert Preceded(p, s, e + 1, t, x);
    }
    if AnyBeforeSlash(path, p, i, t, j) {
      var k :| j <= k <= |t| && NoSlash(t, j, k) && Glob(path, p, i, t, k);
      var x := BeyondSlash(path, p, i, t, j, q, k);
    }
  }

  // ----- the answers of the matcher

  /** What happens at an opening bracket: matching goes on behind the closing one, with the base that positions are
      counted from, or fails. */
  datatype BracketStep = Goes(position: nat, base: nat) | Fails(abort: bool)

  /** A bracket step as a function of where the pattern of this call starts, the base that positions are counted from,
      the position of the bracket, and the text byte. */
  type Brackets = (nat, nat, nat, Byte) -> BracketStep

  predicate IsGlobCharacter(c: Byte) {
    c == STAR || c == QUESTION || c == BRACKET_OPEN || c == BACKSLASH
  }

  function ByteAt(t: Bytes, k: nat): Byte { if k < |t| then t[k] else 0 }

  function Clamp(n: nat, low: nat, high: nat): (r: nat)
    requires low <= high
    ensures low <= r <= high
  {
    if n < low then low else if n > high then high else n
  }

  function FirstSlash(t: Bytes, j: nat): (q: nat)
    requires j <= |t|
    ensures j <= q <= |t| && NoSlash(t, j, q) && (q < |t| ==> t[q] == SLASH)
    decreases |t| - j
  {
    if j == |t| || t[j] == SLASH then j else FirstSlash(t, j + 1)
  }

  predicate Stops(c: Byte, wide: bool, ch: Byte) { (!wide && ch == SLASH) || ch == c }

  /** The next position where a literal pattern byte could match. */
  function SkipTo(c: Byte, wide: bool, t: Bytes, k: nat): (x: nat)
    requires k <= |t|
    ensures k <= x <= |t| && (k < |t| ==> x < |t|)
    ensures forall y :: k <= y < x ==> t[y] != c && (wide || t[y] != SLASH)
    ensures Stops(c, wide, ByteAt(t, x)) || x + 1 >= |t|
    decreases |t| - k
  {
    if Stops(c, wide, ByteAt(t, k)) || k + 1 >= |t| then k else SkipTo(c, wide, t, k + 1)
  }

  /** The answer for the pattern from `s` on and the text from `j` on. */
  function AnswerFrom(b: Brackets, path: bool, p: Bytes, s: nat, t: Bytes, j: nat, depth: nat): Answer
    requires s <= |p| && j <= |t| && depth <= RECURSION_LIMIT
    decreases RECURSION_LIMIT - depth, 3, 0
  {
    if depth == RECURSION_LIMIT then RecursionLimitReached else AnswerIn(b, path, p, s, s, s, t, j, depth)
  }

  /** The answer of a call for the pattern from `s` on once it has come to `i` and `j`, if positions are counted from
      `base`. */
  function AnswerIn(b: Brackets, path: bool, p: Bytes, s: nat, base: nat, i: nat, t: Bytes, j: nat, depth: nat): Answer
    requires s <= base <= i <= |p| && j <= |t| && depth < RECURSION_LIMIT
    decreases RECURSION_LIMIT - depth, 2, |t| - j
  {
    if i == |p| then
      if j == |t| then Match else NoMatch
    else if p[i] == STAR then
      var answer, q := AnswerAtStars(b, path, p, s, base, i, t, j, depth), FirstSlash(t, j);
      if answer.Some? then answer.value
      else if q == |t| || RunEnd(p, i) == |p| then NoMatch
      else AnswerIn(b, path, p, s, base, RunEnd(p, i) + 1, t, q + 1, depth)
    else if j == |t| then
      AbortAll
    else if p[i] == BACKSLASH then
      if i + 1 == |p| || p[i + 1] != t[j] then NoMatch else AnswerIn(b, path, p, s, base, i + 2, t, j + 1, depth)
    else if p[i] == BRACKET_OPEN then
      match b(s, base, i, t[j])
      case Fails(abort) => if abort then AbortAll else NoMatch
      case Goes(position, newBase) =>
        var next := Clamp(position, s, |p|);
        AnswerIn(b, path, p, s, Clamp(newBase, s, next), next, t, j + 1, depth)
    else
      if !One(path, p[i], t[j]) then NoMatch else AnswerIn(b, path, p, s, base, i + 1, t, j + 1, depth)
  }

  /** Whether a run of stars up to `e` stands between slashes, as positions counted from `base` tell. */
  predicate LooksBetween(p: Bytes, s: nat, base: nat, i: nat, e: nat)
    requires s <= base <= i <= e <= |p|
  {
    && e >= i + 2
    && (i == base || p[s + i - base - 1] == SLASH)
    && (e == |p| || p[e] == SLASH || (p[e] == BACKSLASH && e + 1 < |p| && p[e + 1] == SLASH))
  }

  /** The answer after the stars at `i`. There is none yet if they are narrow and a slash follows. */
  function AnswerAtStars(b: Brackets, path: bool, p: Bytes, s: nat, base: nat, i: nat, t: Bytes, j: nat, depth: nat):
    (answer: Option<Answer>)
    requires s <= base <= i < |p| && p[i] == STAR && j <= |t| && depth < RECURSION_LIMIT
    decreases RECURSION_LIMIT - depth, 1, 0
  {
    var e := RunEnd(p, i);
    var between := path && LooksBetween(p, s, base, i, e);
    var wide := !path || between;
    if between && e < |p| && AnswerFrom(b, path, p, s + e - base + 1, t, j, depth + 1) == Match then Some(Match)
    else if e == |p| then Some(if !wide && !NoSlash(t, j, |t|) then NoMatch else Match)
    else if !wide && p[e] == SLASH then None
    else Some(AnswerOfLoop(b, path, p, s + e - base, p[e], wide, t, j, depth))
  }

  /** The answer of the loop that tries the pattern from `n` on at `k` and at later positions. */
  function AnswerOfLoop(b: Brackets, path: bool, p: Bytes, n: nat, c: Byte, wide: bool, t: Bytes, k: nat,
                        depth: nat): Answer
    requires n <= |p| && k <= |t| && depth < RECURSION_LIMIT
    decreases RECURSION_LIMIT - depth, 0, |t| - k, 1
  {
    var x := if IsGlobCharacter(c) then k else SkipTo(c, wide, t, k);
    if !IsGlobCharacter(c) && ByteAt(t, x) != c then NoMatch else AnswerOfTry(b, path, p, n, c, wide, t, x, depth)
  }

  /** The answer of the loop once it tries the pattern at `x`. */
  function AnswerOfTry(b: Brackets, path: bool, p: Bytes, n: nat, c: Byte, wide: bool, t: Bytes, x: nat,
                       depth: nat): Answer
    requires n <= |p| && x <= |t| && depth < RECURSION_LIMIT
    decreases RECURSION_LIMIT - depth, 0, |t| - x, 0
  {
    var res := AnswerFrom(b, path, p, n, t, x, depth + 1);
    if res != NoMatch && (!wide || res != AbortToStarStar) then res
    else if res == NoMatch && !wide && ByteAt(t, x) == SLASH then AbortToStarStar
    else if x + 1 >= |t| then AbortAll
    else AnswerOfLoop(b, path, p, n, c, wide, t, x + 1, depth)
  }

  // ----- what stars reach

  /** Some position from `j` on that stars may reach, and from which the rest of the pattern matches. */
  ghost predicate StarReaches(path: bool, p: Bytes, e: nat, wide: bool, t: Bytes, j: nat)
    requires e <= |p| && j <= |t|
  {
    exists k :: j <= k <= |t| && (wide || NoSlash(t, j, k)) && Glob(path, p, e, t, k)
  }

  /** The answer of the loop that tries the rest of the pattern at ever later positions. */
  ghost predicate LoopRight(path: bool, p: Bytes, e: nat, wide: bool, t: Bytes, j: nat, r: Answer)
    requires e <= |p| && j <= |t|
  {
    match r
    case Match => StarReaches(path, p, e, wide, t, j)
    case NoMatch => !StarReaches(path, p, e, wide, t, j)
    case AbortAll => !AnyLater(path, p, e, t, j)
    case AbortToStarStar => path && !wide && !AnyBeforeSlash(path, p, e, t, j)
    case RecursionLimitReached => false
  }

  /** All positions from `j` up to `k` were tried in vain. */
  ghost predicate Tried(path: bool, p: Bytes, e: nat, wide: bool, t: Bytes, j: nat, k: nat)
    requires e <= |p| && j <= k <= |t|
  {
    (wide || NoSlash(t, j, k)) && forall x :: j <= x < k ==> !Glob(path, p, e, t, x)
  }

  /** Positions at which a literal byte does not occur are tried in vain. */
  lemma SkippedInVain(path: bool, p: Bytes, e: nat, wide: bool, t: Bytes, j: nat, k: nat, x: nat)
    requires e < |p| && j <= k <= x <= |t| && Tried(path, p, e, wide, t, j, k) && !IsGlobCharacter(p[e])
    requires forall y :: k <= y < x ==> t[y] != p[e] && (wide || t[y] != SLASH)
    ensures Tried(path, p, e, wide, t, j, x)
  {}

  /** If the literal byte is not found before the end or the next slash, the stars reach no match. */
  lemma NotFound(path: bool, p: Bytes, e: nat, wide: bool, t: Bytes, j: nat, x: nat)
    requires e < |p| && j <= x <= |t| && Tried(path, p, e, wide, t, j, x) && !IsGlobCharacter(p[e])
    requires (x < |t| && t[x] != p[e]) || x == |t|
    requires x + 1 >= |t| || (!wide && t[x] == SLASH)
    ensures !StarReaches(path, p, e, wide, t, j)
  {
  }

  /** A definite answer at position `k` is the answer of the loop. */
  lemma LoopReturns(path: bool, p: Bytes, e: nat, wide: bool, t: Bytes, j: nat, k: nat, r: Answer)
    requires e < |p| && p[e] != STAR && j <= k <= |t| && Tried(path, p, e, wide, t, j, k) && Right(path, p, e, t, k, r)
    requires r != NoMatch && (wide ==> r != AbortToStarStar)
    ensures LoopRight(path, p, e, wide, t, j, r)
  {
  }

  lemma StoppedAtSlash(path: bool, p: Bytes, e: nat, t: Bytes, j: nat, k: nat)
    requires path && e <= |p| && j <= k < |t| && Tried(path, p, e, false, t, j, k)
    requires t[k] == SLASH && !Glob(path, p, e, t, k)
    ensures !AnyBeforeSlash(path, p, e, t, j)
  {
  }

  /** Stars match if they reach a match of the rest, or vanish with the slash after them. */
  lemma StarMeaning(path: bool, p: Bytes, i: nat, t: Bytes, j: nat)
    requires i < |p| && j <= |t| && p[i] == STAR
    ensures Glob(path, p, i, t, j)
      <==> || StarReaches(path, p, RunEnd(p, i), Wide(path, p, i), t, j)
           || (MayVanish(path, p, i) && Glob(path, p, RunEnd(p, i) + 1, t, j))
  {}

  /** The answer `r` given at `i` and `j` is right for the frame that started at `s`. */
  ghost predicate RightAt(path: bool, p: Bytes, s: nat, i: nat, t: Bytes, j: nat, r: Answer)
    requires s <= i <= |p| && j <= |t|
  {
    match r
    case Match => Glob(path, p, i, t, j)
    case NoMatch => !Glob(path, p, i, t, j)
    case AbortAll => !Glob(path, p, i, t, j) && (s < i ==> !SomeLater(path, p, s, i, t, j))
    case AbortToStarStar => path && !AnyBeforeSlash(path, p, i, t, j)
    case RecursionLimitReached => false
  }

  lemma RightForFrame(path: bool, p: Bytes, s: nat, t: Bytes, j0: nat, i: nat, j: nat, r: Answer)
    requires s <= i < |p| && j0 <= j <= |t| && Tracks(path, p, s, t, j0, i, j)
    requires RightAt(path, p, s, i, t, j, r) && (p[i] == STAR || (s == i ==> !r.AbortAll?))
    ensures Right(path, p, s, t, j0, r)
  {}

  /** The answer of the loop after stars at `i` is right there. */
  lemma LoopConcludes(path: bool, p: Bytes, s: nat, i: nat, t: Bytes, j: nat, r: Answer)
    requires s <= i < |p| && j <= |t| && p[i] == STAR && RunEnd(p, i) < |p|
    requires LoopRight(path, p, RunEnd(p, i), Wide(path, p, i), t, j, r)
    requires MayVanish(path, p, i) ==> !Glob(path, p, RunEnd(p, i) + 1, t, j)
    ensures RightAt(path, p, s, i, t, j, r)
  {
    StarMeaning(path, p, i, t, j);
    match r {
      case Match =>
      case NoMatch =>
      case AbortAll =>
        if s < i { NothingLater(path, p, s, i, t, j); }
      case AbortToStarStar => NothingBeforeSlash(path, p, i, t, j);
    }
  }

  lemma NothingBeforeSlash(path: bool, p: Bytes, i: nat, t: Bytes, j: nat)
    requires i < |p| && j <= |t| && p[i] == STAR && !Wide(path, p, i) && !AnyBeforeSlash(path, p, RunEnd(p, i), t, j)
    ensures !AnyBeforeSlash(path, p, i, t, j)
  {
  }

  lemma NothingLater(path: bool, p: Bytes, s: nat, i: nat, t: Bytes, j: nat)
    requires s < i < |p| && j <= |t| && p[i] == STAR && RunEnd(p, i) < |p|
    requires !AnyLater(path, p, RunEnd(p, i), t, j)
    requires MayVanish(path, p, i) ==> !Glob(path, p, RunEnd(p, i) + 1, t, j)
    ensures !SomeLater(path, p, s, i, t, j)
  {
    var e := RunEnd(p, i);
    forall k | j <= k <= |t| && Preceded(p, s, i, t, k) ensures !Glob(path, p, i, t, k) {
      StarMeaning(path, p, i, t, k);
      if k > j && MayVanish(path, p, i) { SlashBack(path, p, e, t, k); }
    }
  }

  lemma SlashBack(path: bool, p: Bytes, e: nat, t: Bytes, k: nat)
    requires e < |p| && p[e] == SLASH && 0 < k <= |t| && t[k - 1] == SLASH
    ensures Glob(path, p, e + 1, t, k) ==> Glob(path, p, e, t, k - 1)
  {}

  lemma AnswerMeansNo(path: bool, p: Bytes, s: nat, t: Bytes, j: nat, r: Answer)
    requires s <= |p| && j <= |t| && Right(path, p, s, t, j, r) && r != Match
    ensures !Glob(path, p, s, t, j)
  {
  }

  /** Trying the pattern without the stars and what follows them first is a shortcut for one of the ways to match. */
  lemma VanishMatches(path: bool, p: Bytes, i: nat, t: Bytes, j: nat)
    requires i < |p| && j <= |t| && p[i] == STAR && path && BetweenSlashes(p, i) && RunEnd(p, i) < |p|
    requires Glob(path, p, RunEnd(p, i) + 1, t, j)
    ensures Glob(path, p, i, t, j)
  {
    var e := RunEnd(p, i);
    if p[e] == BACKSLASH {
      assert Glob(path, p, e, t, j);
    }
  }

  lemma TrailingStars(path: bool, p: Bytes, i: nat, t: Bytes, j: nat)
    requires i < |p| && j <= |t| && p[i] == STAR && RunEnd(p, i) == |p|
    ensures Glob(path, p, i, t, j) <==> Wide(path, p, i) || NoSlash(t, j, |t|)
  {
    if Wide(path, p, i) || NoSlash(t, j, |t|) { assert Glob(path, p, |p|, t, |t|); }
  }

  lemma NoSlashLeft(path: bool, p: Bytes, i: nat, t: Bytes, j: nat)
    requires i < |p| && j <= |t| && p[i] == STAR && !Wide(path, p, i) && RunEnd(p, i) < |p| && p[RunEnd(p, i)] == SLASH
    requires NoSlash(t, j, |t|)
    ensures !Glob(path, p, i, t, j)
  {}

  // ----- the answers are right

  /** The pattern of a call starts with the whole pattern, behind a slash, or not with stars. */
  predicate Anchored(p: Bytes, s: nat)
    requires s <= |p|
  {
    s == 0 || s == |p| || p[s] != STAR || p[s - 1] == SLASH
  }

  /** Without brackets: a match is one and costs no more calls than there is room for, and if there is room for what
      the rest of the pattern costs, the answer is right. */
  lemma {:induction false} RightFrom(b: Brackets, path: bool, p: Bytes, s: nat, t: Bytes, j: nat, depth: nat)
    requires s <= |p| && NoBrackets(p, s) && Anchored(p, s) && j <= |t| && depth <= RECURSION_LIMIT
    ensures var r := AnswerFrom(b, path, p, s, t, j, depth);
      && (r.Match? ==> Glob(path, p, s, t, j) && depth + Cost(path, p, s) < RECURSION_LIMIT)
      && (depth + Cost(path, p, s) < RECURSION_LIMIT ==> Right(path, p, s, t, j, r))
    decreases RECURSION_LIMIT - depth, 3, 0
  {
    if depth < RECURSION_LIMIT {
      RightIn(b, path, p, s, s, t, j, j, depth);
    }
  }

  lemma {:induction false} RightIn(b: Brackets, path: bool, p: Bytes, s: nat, i: nat, t: Bytes, j0: nat, j: nat,
                                   depth: nat)
    requires s <= i <= |p| && NoBrackets(p, i) && Anchored(p, s) && j0 <= j <= |t| && depth < RECURSION_LIMIT
    requires Tracks(path, p, s, t, j0, i, j)
    ensures var r := AnswerIn(b, path, p, s, s, i, t, j, depth);
      && (r.Match? ==> Glob(path, p, s, t, j0) && depth + Cost(path, p, i) < RECURSION_LIMIT)
      && (depth + Cost(path, p, i) < RECURSION_LIMIT ==> Right(path, p, s, t, j0, r))
    decreases RECURSION_LIMIT - depth, 2, |t| - j
  {
    if i < |p| {
      if p[i] == STAR {
        RightAfterStars(b, path, p, s, i, t, j0, j, depth);
      } else if j < |t| {
        if p[i] == BACKSLASH {
          if i + 1 < |p| && p[i + 1] == t[j] {
            EscapeStep(path, p, s, t, j0, i, j);
            RightIn(b, path, p, s, i + 2, t, j0, j + 1, depth);
          }
        } else if One(path, p[i], t[j]) {
          TokenStep(path, p, s, t, j0, i, j);
          RightIn(b, path, p, s, i + 1, t, j0, j + 1, depth);
        }
      }
    }
  }

  lemma {:induction false} RightAfterStars(b: Brackets, path: bool, p: Bytes, s: nat, i: nat, t: Bytes, j0: nat, j: nat,
                                           depth: nat)
    requires s <= i < |p| && NoBrackets(p, i) && p[i] == STAR && Anchored(p, s) && j0 <= j <= |t|
    requires depth < RECURSION_LIMIT
    requires Tracks(path, p, s, t, j0, i, j)
    ensures var r := AnswerIn(b, path, p, s, s, i, t, j, depth);
      && (r.Match? ==> Glob(path, p, s, t, j0) && depth + Cost(path, p, i) < RECURSION_LIMIT)
      && (depth + Cost(path, p, i) < RECURSION_LIMIT ==> Right(path, p, s, t, j0, r))
    decreases RECURSION_LIMIT - depth, 2, |t| - j, 0
  {
    var answer, q := AnswerAtStars(b, path, p, s, s, i, t, j, depth), FirstSlash(t, j);
    RightAtStars(b, path, p, s, i, t, j, depth);
    if answer.Some? {
      if depth + Cost(path, p, i) < RECURSION_LIMIT { RightForFrame(path, p, s, t, j0, i, j, answer.value); }
    } else if q == |t| {
      NoSlashLeft(path, p, i, t, j);
    } else {
      SlashStep(path, p, s, t, j0, i, j, q);
      NoBracketsBehindStars(p, i);
      RightIn(b, path, p, s, RunEnd(p, i) + 1, t, j0, q + 1, depth);
    }
  }

  lemma {:induction false} RightAtStars(b: Brackets, path: bool, p: Bytes, s: nat, i: nat, t: Bytes, j: nat, depth: nat)
    requires s <= i < |p| && NoBrackets(p, i) && p[i] == STAR && Anchored(p, s) && j <= |t|
    requires depth < RECURSION_LIMIT
    ensures var answer := AnswerAtStars(b, path, p, s, s, i, t, j, depth);
      && (answer.None? ==> !Wide(path, p, i) && RunEnd(p, i) < |p| && p[RunEnd(p, i)] == SLASH)
      && (answer == Some(Match) ==> Glob(path, p, i, t, j) && depth + Cost(path, p, i) < RECURSION_LIMIT)
      && (answer.Some? && depth + Cost(path, p, i) < RECURSION_LIMIT ==> RightAt(path, p, s, i, t, j, answer.value))
    decreases RECURSION_LIMIT - depth, 1, 0
  {
    var e := RunEnd(p, i);
    assert LooksBetween(p, s, s, i, e) == BetweenSlashes(p, i);
    NoBracketsBehindStars(p, i);
    if e == |p| {
      TrailingStars(path, p, i, t, j);
    } else {
      if path && BetweenSlashes(p, i) {
        RightFrom(b, path, p, e + 1, t, j, depth + 1);
        assert Cost(path, p, e + 1) == Cost(path, p, e);
        var skipped := AnswerFrom(b, path, p, e + 1, t, j, depth + 1);
        if skipped == Match {
          VanishMatches(path, p, i, t, j);
        } else if depth + Cost(path, p, i) < RECURSION_LIMIT {
          AnswerMeansNo(path, p, e + 1, t, j, skipped);
        }
      }
      if Wide(path, p, i) || p[e] != SLASH {
        RightLoop(b, path, p, e, Wide(path, p, i), t, j, j, depth);
        StarMeaning(path, p, i, t, j);
        var r := AnswerOfLoop(b, path, p, e, p[e], Wide(path, p, i), t, j, depth);
        if depth + Cost(path, p, i) < RECURSION_LIMIT && !(MayVanish(path, p, i) && Glob(path, p, e + 1, t, j)) {
          LoopConcludes(path, p, s, i, t, j, r);
        }
      }
    }
  }

  lemma {:induction false} RightLoop(b: Brackets, path: bool, p: Bytes, e: nat, wide: bool, t: Bytes, j: nat, k: nat,
                                     depth: nat)
    requires e < |p| && NoBrackets(p, e) && p[e] != STAR && j <= k <= |t| && depth < RECURSION_LIMIT
    requires (wide || NoSlash(t, j, k)) && (!wide ==> path && p[e] != SLASH)
    ensures var r := AnswerOfLoop(b, path, p, e, p[e], wide, t, k, depth);
      && (r.Match? ==> StarReaches(path, p, e, wide, t, j) && depth + 1 + Cost(path, p, e) < RECURSION_LIMIT)
      && (depth + 1 + Cost(path, p, e) < RECURSION_LIMIT && Tried(path, p, e, wide, t, j, k) ==>
            LoopRight(path, p, e, wide, t, j, r))
    decreases RECURSION_LIMIT - depth, 0, |t| - k, 1
  {
    var c := p[e];
    if IsGlobCharacter(c) {
      RightTry(b, path, p, e, wide, t, j, k, depth);
    } else {
      var x := SkipTo(c, wide, t, k);
      if Tried(path, p, e, wide, t, j, k) {
        SkippedInVain(path, p, e, wide, t, j, k, x);
        if ByteAt(t, x) != c { NotFound(path, p, e, wide, t, j, x); }
      }
      if ByteAt(t, x) == c { RightTry(b, path, p, e, wide, t, j, x, depth); }
    }
  }

  lemma {:induction false} RightTry(b: Brackets, path: bool, p: Bytes, e: nat, wide: bool, t: Bytes, j: nat, x: nat,
                                    depth: nat)
    requires e < |p| && NoBrackets(p, e) && p[e] != STAR && j <= x <= |t| && depth < RECURSION_LIMIT
    requires (wide || NoSlash(t, j, x)) && (!wide ==> path && p[e] != SLASH)
    requires IsGlobCharacter(p[e]) || ByteAt(t, x) == p[e]
    ensures var r := AnswerOfTry(b, path, p, e, p[e], wide, t, x, depth);
      && (r.Match? ==> StarReaches(path, p, e, wide, t, j) && depth + 1 + Cost(path, p, e) < RECURSION_LIMIT)
      && (depth + 1 + Cost(path, p, e) < RECURSION_LIMIT && Tried(path, p, e, wide, t, j, x) ==>
            LoopRight(path, p, e, wide, t, j, r))
    decreases RECURSION_LIMIT - depth, 0, |t| - x, 0
  {
    var enough := depth + 1 + Cost(path, p, e) < RECURSION_LIMIT && Tried(path, p, e, wide, t, j, x);
    RightFrom(b, path, p, e, t, x, depth + 1);
    var res := AnswerFrom(b, path, p, e, t, x, depth + 1);
    if res != NoMatch && (!wide || res != AbortToStarStar) {
      if enough { LoopReturns(path, p, e, wide, t, j, x, res); }
    } else if res == NoMatch && !wide && ByteAt(t, x) == SLASH {
      if enough { StoppedAtSlash(path, p, e, t, j, x); }
    } else {
      if enough { AnswerMeansNo(path, p, e, t, x, res); }
      if x + 1 < |t| {
        RightLoop(b, path, p, e, wide, t, j, x + 1, depth);
      }
    }
  }

  // ----- the matcher

  method Skip(c: Byte, wide: bool, t: Bytes, k: nat) returns (x: nat, ch: Byte)
    requires k <= |t|
    ensures x == SkipTo(c, wide, t, k) && ch == ByteAt(t, x)
  {
    x, ch := k, ByteAt(t, k);
    while !Stops(c, wide, ch) && x + 1 < |t|
      invariant k <= x <= |t| && ch == ByteAt(t, x) && SkipTo(c, wide, t, x) == SkipTo(c, wide, t, k)
      decreases |t| - x
    {
      x := x + 1;
      ch := t[x];
    }
  }

  method FindSlash(t: Bytes, j: nat) returns (q: nat)
    requires j <= |t|
    ensures q == FirstSlash(t, j)
  {
    q := j;
    while q < |t| && t[q] != SLASH
      invariant j <= q <= |t| && FirstSlash(t, q) == FirstSlash(t, j)
    {
      q := q + 1;
    }
  }

  method SkipStars(p: Bytes, i: nat) returns (e: nat)
    requires i < |p| && p[i] == STAR
    ensures e == RunEnd(p, i)
  {
    e := i + 1;
    while e < |p| && p[e] == STAR
      invariant i < e <= |p| && RunEnd(p, e) == RunEnd(p, i)
    {
      e := e + 1;
    }
  }

  /** Tries the pattern from `n` on at `j` and at later positions, up to the next slash if the stars before it are
      narrow. */
  method StarLoop(b: Brackets, path: bool, p: Bytes, n: nat, c: Byte, wide: bool, t: Bytes, j: nat, depth: nat)
    returns (r: Answer)
    requires n <= |p| && j <= |t| && depth < RECURSION_LIMIT
    ensures r == AnswerOfLoop(b, path, p, n, c, wide, t, j, depth)
    decreases RECURSION_LIMIT - depth, 0
  {
    var k := j;
    while true
      invariant j <= k <= |t|
      invariant AnswerOfLoop(b, path, p, n, c, wide, t, k, depth) == AnswerOfLoop(b, path, p, n, c, wide, t, j, depth)
      decreases |t| - k
    {
      var ch := ByteAt(t, k);
      if !IsGlobCharacter(c) {
        k, ch := Skip(c, wide, t, k);
        if ch != c { return NoMatch; }
      }
      var res := MatchRecursive(b, path, p, n, t, k, depth + 1);
      if res != NoMatch {
        if !wide || res != AbortToStarStar { return res; }
      } else if !wide && ch == SLASH {
        return AbortToStarStar;
      }
      if k + 1 >= |t| { return AbortAll; }
      k := k + 1;
    }
  }

  /** Matches from the stars at `i`, except that there is no answer yet if they are narrow and a slash follows. */
  method MatchStars(b: Brackets, path: bool, p: Bytes, s: nat, base: nat, i: nat, t: Bytes, j: nat, depth: nat)
    returns (e: nat, answer: Option<Answer>)
    requires s <= base <= i < |p| && p[i] == STAR && j <= |t| && depth < RECURSION_LIMIT
    ensures e == RunEnd(p, i) && answer == AnswerAtStars(b, path, p, s, base, i, t, j, depth)
    decreases RECURSION_LIMIT - depth, 1, 0
  {
    e := SkipStars(p, i);
    var wide := !path;
    if path && LooksBetween(p, s, base, i, e) {
      if e < |p| {
        var skipped := MatchRecursive(b, path, p, s + e - base + 1, t, j, depth + 1);
        if skipped == Match { return e, Some(Match); }
      }
      wide := true;
    }
    if e == |p| {
      return e, Some(if !wide && !NoSlash(t, j, |t|) then NoMatch else Match);
    }
    if !wide && p[e] == SLASH { return e, None; }
    var r := StarLoop(b, path, p, s + e - base, p[e], wide, t, j, depth);
    return e, Some(r);
  }

  /** Matches the pattern from `s` on against the text from `j0` on. */
  method MatchRecursive(b: Brackets, path: bool, p: Bytes, s: nat, t: Bytes, j0: nat, depth: nat) returns (r: Answer)
    requires s <= |p| && j0 <= |t| && depth <= RECURSION_LIMIT
    ensures r == AnswerFrom(b, path, p, s, t, j0, depth)
    decreases RECURSION_LIMIT - depth, 1
  {
    if depth == RECURSION_LIMIT { return RecursionLimitReached; }
    var base, i, j := s, s, j0;
    while i < |p|
      invariant s <= base <= i <= |p| && j0 <= j <= |t|
      invariant AnswerIn(b, path, p, s, base, i, t, j, depth) == AnswerIn(b, path, p, s, s, s, t, j0, depth)
      decreases |t| - j
    {
      var ch := p[i];
      if j == |t| && ch != STAR { return AbortAll; }
      if ch == BACKSLASH {
        if i + 1 == |p| || p[i + 1] != t[j] { return NoMatch; }
        i, j := i + 2, j + 1;
      } else if ch == BRACKET_OPEN {
        match b(s, base, i, t[j]) {
          case Fails(abort) => return if abort then AbortAll else NoMatch;
          case Goes(position, newBase) =>
            i, j := Clamp(position, s, |p|), j + 1;
            base := Clamp(newBase, s, i);
        }
      } else if ch != STAR {
        if !One(path, ch, t[j]) { return NoMatch; }
        i, j := i + 1, j + 1;
      } else {
        var e, answer := MatchStars(b, path, p, s, base, i, t, j, depth);
        if answer.Some? { return answer.value; }
        var q := FindSlash(t, j);
        if q == |t| { return NoMatch; }
        i, j := e + 1, q + 1;
      }
    }
    return if j == |t| then Match else NoMatch;
  }

  // ----- matching with modes

  datatype Mode = Mode(noMatchSlash: bool, ignoreCase: bool)

  function ToLower(c: Byte): Byte {
    if 65 <= c <= 90 then c + 32 else c
  }

  /** Folds ASCII letters to lower case if case is ignored. */
  function Fold(ignoreCase: bool, s: Bytes): (r: Bytes)
    ensures |r| == |s| && forall i :: 0 <= i < |s| ==> r[i] == if ignoreCase then ToLower(s[i]) else s[i]
  {
    if ignoreCase then seq(|s|, i requires 0 <= i < |s| => ToLower(s[i])) else s
  }

  /** The value matches the pattern in the given mode. */
  ghost predicate Matches(pattern: Bytes, value: Bytes, mode: Mode) {
    Glob(mode.noMatchSlash, Fold(mode.ignoreCase, pattern), 0, Fold(mode.ignoreCase, value), 0)
  }

  lemma FoldKeepsRunEnd(ignoreCase: bool, p: Bytes, i: nat)
    requires i <= |p|
    ensures RunEnd(Fold(ignoreCase, p), i) == RunEnd(p, i)
    decreases |p| - i
  {
  }

  lemma {:induction false} FoldKeepsCost(ignoreCase: bool, path: bool, p: Bytes, i: nat)
    requires i <= |p|
    ensures Cost(path, Fold(ignoreCase, p), i) == Cost(path, p, i)
    decreases |p| - i
  {
    if i < |p| {
      var e := RunEnd(p, i);
      FoldKeepsRunEnd(ignoreCase, p, i);
      if p[i] == STAR {
        assert Wide(path, Fold(ignoreCase, p), i) == Wide(path, p, i);
        FoldKeepsCost(ignoreCase, path, p, e);
        if e < |p| { FoldKeepsCost(ignoreCase, path, p, e + 1); }
      } else if p[i] == BACKSLASH && i + 1 < |p| {
        FoldKeepsCost(ignoreCase, path, p, i + 2);
      } else {
        FoldKeepsCost(ignoreCase, path, p, i + 1);
      }
    }
  }

  lemma {:induction false} FoldKeepsBrackets(ignoreCase: bool, p: Bytes, i: nat)
    requires i <= |p|
    ensures NoBrackets(Fold(ignoreCase, p), i) == NoBrackets(p, i)
    decreases |p| - i
  {
    if i + 1 < |p| { FoldKeepsBrackets(ignoreCase, p, i + 2); }
    if i < |p| { FoldKeepsBrackets(ignoreCase, p, i + 1); }
  }

  /** Whether the matcher finds a match. */
  predicate Found(b: Brackets, pattern: Bytes, value: Bytes, mode: Mode) {
    AnswerFrom(b, mode.noMatchSlash, Fold(mode.ignoreCase, pattern), 0, Fold(mode.ignoreCase, value), 0, 0) == Match
  }

  /** Without brackets, the matcher finds a match exactly if there is one and the pattern does not cost too many
      calls. */
  lemma FoundIffMatches(b: Brackets, pattern: Bytes, value: Bytes, mode: Mode)
    requires NoBrackets(pattern, 0)
    ensures Found(b, pattern, value, mode)
      <==> Matches(pattern, value, mode) && Cost(mode.noMatchSlash, pattern, 0) < 64
  {
    var p, t := Fold(mode.ignoreCase, pattern), Fold(mode.ignoreCase, value);
    FoldKeepsCost(mode.ignoreCase, mode.noMatchSlash, pattern, 0);
    FoldKeepsBrackets(mode.ignoreCase, pattern, 0);
    RightFrom(b, mode.noMatchSlash, p, 0, t, 0, 0);
    var r := AnswerFrom(b, mode.noMatchSlash, p, 0, t, 0, 0);
    if r != Match && Cost(mode.noMatchSlash, p, 0) < RECURSION_LIMIT {
      AnswerMeansNo(mode.noMatchSlash, p, 0, t, 0, r);
    }
  }

  /** Tells if the value matches. Without brackets it never reports a match that is none, and misses one exactly if
      the pattern costs too many calls. */
  method Wildmatch(b: Brackets, pattern: Bytes, value: Bytes, mode: Mode) returns (matched: bool)
    ensures matched == Found(b, pattern, value, mode)
    ensures NoBrackets(pattern, 0) ==>
      (matched <==> Matches(pattern, value, mode) && Cost(mode.noMatchSlash, pattern, 0) < 64)
  {
    var p, t := Fold(mode.ignoreCase, pattern), Fold(mode.ignoreCase, value);
    var answer := MatchRecursive(b, mode.noMatchSlash, p, 0, t, 0, 0);
    matched := answer == Match;
    if NoBrackets(pattern, 0) { FoundIffMatches(b, pattern, value, mode); }
  }

  // ----- a pattern that costs too much

  const LETTER: Byte := 97

  /** A star and a letter, `n` times. */
  function StarLetters(n: nat): Bytes { seq(2 * n, i => if i % 2 == 0 then STAR else LETTER) }

  function Letters(n: nat): Bytes { seq(n, i => LETTER) }

  lemma {:induction false} StarLettersMatch(path: bool, n: nat, k: nat)
    requires k <= n
    ensures Cost(path, StarLetters(n), 2 * k) == n - k
    ensures Glob(path, StarLetters(n), 2 * k, Letters(n), k)
    decreases n - k
  {
    if k < n {
      var p, t, e := StarLetters(n), Letters(n), 2 * k + 1;
      StarLettersMatch(path, n, k + 1);
      assert p[2 * k] == STAR && p[e] == LETTER && RunEnd(p, 2 * k) == e;
      assert t[k] == LETTER && Glob(path, p, e, t, k) && NoSlash(t, k, k);
    }
  }

  lemma {:induction false} StarLettersPlain(n: nat, i: nat)
    requires i <= 2 * n
    ensures NoBrackets(StarLetters(n), i)
    decreases 2 * n - i
  {
    if i < 2 * n { StarLettersPlain(n, i + 1); }
  }

  /** A star and a letter, `n` times, matches `n` letters, but the matcher finds that out only for less than 64. */
  lemma TooManyStars(b: Brackets, noMatchSlash: bool, n: nat)
    ensures var mode := Mode(noMatchSlash, false);
      && Matches(StarLetters(n), Letters(n), mode)
      && (Found(b, StarLetters(n), Letters(n), mode) <==> n < 64)
  {
    StarLettersMatch(noMatchSlash, n, 0);
    StarLettersPlain(n, 0);
    FoundIffMatches(b, StarLetters(n), Letters(n), Mode(noMatchSlash, false));
  }

  // ----- matching as dividing the text

  /** What a part of a pattern stands for: a byte, any byte, any text, with or without slashes; directories, or none;
      or nothing at all. */
  datatype Token = Exactly(byte: Byte) | Single(slash: bool) | Any(slash: bool) | Directories | Never

  predicate Fits(token: Token, piece: Bytes) {
    match token
    case Exactly(byte) => piece == [byte]
    case Single(slash) => |piece| == 1 && (slash || piece[0] != SLASH)
    case Any(slash) => slash || NoSlash(piece, 0, |piece|)
    case Directories => piece == [] || piece[|piece| - 1] == SLASH
    case Never => false
  }

  function Tokens(path: bool, p: Bytes, i: nat): seq<Token>
    requires i <= |p|
    decreases |p| - i
  {
    if i == |p| then
      []
    else if p[i] == STAR then
      if MayVanish(path, p, i) then [Directories] + Tokens(path, p, RunEnd(p, i) + 1)
      else [Any(Wide(path, p, i))] + Tokens(path, p, RunEnd(p, i))
    else if p[i] == BACKSLASH then
      if i + 1 == |p| then [Never] else [Exactly(p[i + 1])] + Tokens(path, p, i + 2)
    else
      [if p[i] == QUESTION then Single(!path) else Exactly(p[i])] + Tokens(path, p, i + 1)
  }

  ghost function Concat(pieces: seq<Bytes>): Bytes {
    if pieces == [] then [] else pieces[0] + Concat(pieces[1..])
  }

  ghost predicate Division(tokens: seq<Token>, pieces: seq<Bytes>, t: Bytes) {
    |pieces| == |tokens| && Concat(pieces) == t && forall x :: 0 <= x < |tokens| ==> Fits(tokens[x], pieces[x])
  }

  /** The text can be divided into one piece for each token. */
  ghost predicate Divides(tokens: seq<Token>, t: Bytes) {
    exists pieces :: Division(tokens, pieces, t)
  }

  /** The first token takes the text from `j` to `k`, and the others what is left. */
  ghost predicate DividesAt(token: Token, tokens: seq<Token>, t: Bytes, j: nat, k: nat)
    requires j <= k <= |t|
  {
    Fits(token, t[j..k]) && Divides(tokens, t[k..])
  }

  lemma DividesFirst(token: Token, tokens: seq<Token>, t: Bytes, j: nat)
    requires j <= |t|
    ensures Divides([token] + tokens, t[j..]) <==> exists k :: j <= k <= |t| && DividesAt(token, tokens, t, j, k)
  {
    forall pieces | Division([token] + tokens, pieces, t[j..])
      ensures exists k :: j <= k <= |t| && DividesAt(token, tokens, t, j, k)
    {
      var k := TakeFirst(token, tokens, pieces, t, j);
    }
    forall k | j <= k <= |t| && DividesAt(token, tokens, t, j, k) ensures Divides([token] + tokens, t[j..]) {
      var rest :| Division(tokens, rest, t[k..]);
      PutFirst(token, tokens, rest, t, j, k);
    }
  }

  lemma TakeFirst(token: Token, tokens: seq<Token>, pieces: seq<Bytes>, t: Bytes, j: nat) returns (k: nat)
    requires j <= |t| && Division([token] + tokens, pieces, t[j..])
    ensures j <= k <= |t| && DividesAt(token, tokens, t, j, k)
  {
    var all, rest := [token] + tokens, pieces[1..];
    k := j + |pieces[0]|;
    assert t[j..k] == t[j..][..k - j] == pieces[0] && t[k..] == t[j..][k - j..] == Concat(rest);
    assert Fits(all[0], pieces[0]);
    forall x | 0 <= x < |tokens| ensures Fits(tokens[x], rest[x]) { assert Fits(all[x + 1], pieces[x + 1]); }
    assert Division(tokens, rest, t[k..]);
  }

  lemma PutFirst(token: Token, tokens: seq<Token>, rest: seq<Bytes>, t: Bytes, j: nat, k: nat)
    requires j <= k <= |t| && Fits(token, t[j..k]) && Division(tokens, rest, t[k..])
    ensures Divides([token] + tokens, t[j..])
  {
    var pieces := [t[j..k]] + rest;
    assert pieces[1..] == rest && t[j..] == t[j..k] + t[k..];
    assert Division([token] + tokens, pieces, t[j..]);
  }

  lemma DividesNothing(t: Bytes)
    ensures Divides([], t) <==> t == []
  {
    assert Division([], [], []);
  }

  /** The meaning of patterns, told independently: a text matches if and only if it can be divided into pieces that
      fit the tokens of the pattern. */
  lemma {:induction false} MatchIsDivision(path: bool, p: Bytes, i: nat, t: Bytes, j: nat)
    requires i <= |p| && j <= |t|
    ensures Glob(path, p, i, t, j) <==> Divides(Tokens(path, p, i), t[j..])
    decreases |p| - i
  {
    if i == |p| {
      DividesNothing(t[j..]);
    } else if p[i] == STAR {
      StarsDivide(path, p, i, t, j);
    } else if p[i] == BACKSLASH && i + 1 == |p| {
      DividesFirst(Never, [], t, j);
      assert [Never] + [] == [Never];
    } else {
      ByteDivides(path, p, i, t, j, if p[i] == BACKSLASH then i + 2 else i + 1);
    }
  }

  lemma {:induction false} ByteDivides(path: bool, p: Bytes, i: nat, t: Bytes, j: nat, n: nat)
    requires i < |p| && p[i] != STAR && j <= |t| && n == (if p[i] == BACKSLASH then i + 2 else i + 1) <= |p|
    ensures Glob(path, p, i, t, j) <==> Divides(Tokens(path, p, i), t[j..])
    decreases |p| - i, 0
  {
    var token, rest := Tokens(path, p, i)[0], Tokens(path, p, n);
    assert Tokens(path, p, i) == [token] + rest;
    DividesFirst(token, rest, t, j);
    forall k | j <= k <= |t| && DividesAt(token, rest, t, j, k) ensures k == j + 1 {}
    if j < |t| {
      MatchIsDivision(path, p, n, t, j + 1);
      assert t[j..j + 1] == [t[j]];
      assert DividesAt(token, rest, t, j, j + 1) <==> Glob(path, p, i, t, j);
    }
  }

  lemma {:induction false} StarsDivide(path: bool, p: Bytes, i: nat, t: Bytes, j: nat)
    requires i < |p| && j <= |t| && p[i] == STAR
    ensures Glob(path, p, i, t, j) <==> Divides(Tokens(path, p, i), t[j..])
    decreases |p| - i, 0
  {
    var e := RunEnd(p, i);
    if MayVanish(path, p, i) {
      forall k | j <= k <= |t|
        ensures Glob(path, p, e + 1, t, k) <==> Divides(Tokens(path, p, e + 1), t[k..])
      {
        MatchIsDivision(path, p, e + 1, t, k);
      }
      DirectoriesDivide(path, p, i, e + 1, t, j);
    } else {
      forall k | j <= k <= |t| ensures Glob(path, p, e, t, k) <==> Divides(Tokens(path, p, e), t[k..]) {
        MatchIsDivision(path, p, e, t, k);
      }
      AnyDivides(path, p, i, e, t, j);
    }
  }

  lemma DirectoriesDivide(path: bool, p: Bytes, i: nat, n: nat, t: Bytes, j: nat)
    requires i < |p| && j <= |t| && p[i] == STAR && MayVanish(path, p, i) && n == RunEnd(p, i) + 1
    requires forall k :: j <= k <= |t| ==> (Glob(path, p, n, t, k) <==> Divides(Tokens(path, p, n), t[k..]))
    ensures Glob(path, p, i, t, j) <==> Divides(Tokens(path, p, i), t[j..])
  {
    var rest := Tokens(path, p, n);
    DividesFirst(Directories, rest, t, j);
    forall k | j <= k <= |t|
      ensures DividesAt(Directories, rest, t, j, k) <==> BehindDirectories(path, p, n, t, j, k)
    {}
    DirectoriesMeaning(path, p, i, n, t, j);
  }

  lemma AnyDivides(path: bool, p: Bytes, i: nat, e: nat, t: Bytes, j: nat)
    requires i < |p| && j <= |t| && p[i] == STAR && !MayVanish(path, p, i) && e == RunEnd(p, i)
    requires forall k :: j <= k <= |t| ==> (Glob(path, p, e, t, k) <==> Divides(Tokens(path, p, e), t[k..]))
    ensures Glob(path, p, i, t, j) <==> Divides(Tokens(path, p, i), t[j..])
  {
    var wide, rest := Wide(path, p, i), Tokens(path, p, e);
    DividesFirst(Any(wide), rest, t, j);
    forall k | j <= k <= |t| ensures DividesAt(Any(wide), rest, t, j, k) <==> BehindStars(path, p, e, wide, t, j, k) {
      SameSlashes(t, j, k);
    }
    StarsMeaning(path, p, i, t, j);
  }

  lemma SameSlashes(t: Bytes, j: nat, k: nat)
    requires j <= k <= |t|
    ensures NoSlash(t[j..k], 0, k - j) <==> NoSlash(t, j, k)
  {
    assert forall x :: j <= x < k ==> t[x] == t[j..k][x - j];
  }

  ghost predicate BehindStars(path: bool, p: Bytes, e: nat, wide: bool, t: Bytes, j: nat, k: nat)
    requires e <= |p| && j <= k <= |t|
  {
    (wide || NoSlash(t, j, k)) && Glob(path, p, e, t, k)
  }

  ghost predicate BehindDirectories(path: bool, p: Bytes, n: nat, t: Bytes, j: nat, k: nat)
    requires n <= |p| && j <= k <= |t|
  {
    (k == j || t[k - 1] == SLASH) && Glob(path, p, n, t, k)
  }

  lemma StarsMeaning(path: bool, p: Bytes, i: nat, t: Bytes, j: nat)
    requires i < |p| && j <= |t| && p[i] == STAR && !MayVanish(path, p, i)
    ensures var e, wide := RunEnd(p, i), Wide(path, p, i);
      Glob(path, p, i, t, j) <==> exists k :: j <= k <= |t| && BehindStars(path, p, e, wide, t, j, k)
  {
    var e, wide := RunEnd(p, i), Wide(path, p, i);
    StarMeaning(path, p, i, t, j);
    if StarReaches(path, p, e, wide, t, j) {
      var k :| j <= k <= |t| && (wide || NoSlash(t, j, k)) && Glob(path, p, e, t, k);
      assert BehindStars(path, p, e, wide, t, j, k);
    }
  }

  /** Wide stars and a slash cover whole directories, or nothing. */
  lemma DirectoriesMeaning(path: bool, p: Bytes, i: nat, n: nat, t: Bytes, j: nat)
    requires i < |p| && j <= |t| && p[i] == STAR && MayVanish(path, p, i) && n == RunEnd(p, i) + 1
    ensures Glob(path, p, i, t, j) <==> exists k :: j <= k <= |t| && BehindDirectories(path, p, n, t, j, k)
  {
    var e := RunEnd(p, i);
    StarMeaning(path, p, i, t, j);
    if Glob(path, p, i, t, j) {
      if Glob(path, p, n, t, j) {
        assert BehindDirectories(path, p, n, t, j, j);
      } else {
        var k :| j <= k <= |t| && Glob(path, p, e, t, k);
        assert BehindDirectories(path, p, n, t, j, k + 1);
      }
    }
    forall k | j <= k <= |t| && BehindDirectories(path, p, n, t, j, k) ensures Glob(path, p, i, t, j) {
      if k > j {
        var m := k - 1;
        assert Glob(path, p, e, t, m);
      }
    }
  }
}
