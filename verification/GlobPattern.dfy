/** Parsed glob patterns and the shortcuts taken before falling back to full matching. */
module GlobPattern {
  import opened GlobMatching
  import opened Options

  const EXCLAMATION: Byte := 33
  const HASH: Byte := 35

  datatype PatternMode = PatternMode(noSubDir: bool, endsWith: bool, mustBeDir: bool, negative: bool, absolute: bool)

  datatype Pattern = Pattern(text: Bytes, mode: PatternMode, firstWildcardPos: Option<nat>)

  /** No wildcard stands between `a` and `b`. */
  predicate Literal(s: Bytes, a: nat, b: nat)
    requires b <= |s|
  {
    forall x :: a <= x < b ==> !IsGlobCharacter(s[x])
  }

  /** The parsed facts that the shortcuts rely on. */
  predicate WellParsed(p: Pattern) {
    && match p.firstWildcardPos {
         case Some(pos) => pos < |p.text| && IsGlobCharacter(p.text[pos]) && Literal(p.text, 0, pos)
         case None => Literal(p.text, 0, |p.text|)
       }
    && (p.mode.endsWith <==> |p.text| > 0 && p.text[0] == STAR && Literal(p.text, 1, |p.text|))
    && (p.mode.noSubDir <==> SLASH !in p.text)
  }

  /** The pattern as it would be written. */
  function Display(p: Pattern): Bytes {
    (if p.mode.negative then [EXCLAMATION] else []) + (if p.mode.absolute then [SLASH] else [])
    + p.text + (if p.mode.mustBeDir then [SLASH] else [])
  }

  method FirstWildcardPos(s: Bytes, start: nat) returns (pos: Option<nat>)
    requires start <= |s|
    ensures match pos {
      case Some(i) => start <= i < |s| && IsGlobCharacter(s[i]) && Literal(s, start, i)
      case None => Literal(s, start, |s|)
    }
  {
    for i := start to |s|
      invariant Literal(s, start, i)
    {
      if IsGlobCharacter(s[i]) { return Some(i); }
    }
    return None;
  }

  predicate IsWhitespace(c: Byte) {
    c == 32 || c == 9 || c == 10 || c == 12 || c == 13
  }

  predicate Blank(s: Bytes) {
    forall i :: 0 <= i < |s| ==> IsWhitespace(s[i])
  }

  /** The pattern that is left after an escape of a leading `!` or `#` was taken off. */
  function Unescaped(pat: Bytes, mayAlter: bool): Bytes {
    if mayAlter && |pat| >= 2 && pat[0] == BACKSLASH && (pat[1] == EXCLAMATION || pat[1] == HASH) then pat[1..] else pat
  }

  function AfterNegation(pat: Bytes, mayAlter: bool): Bytes {
    if mayAlter && |pat| > 0 && pat[0] == EXCLAMATION then pat[1..] else Unescaped(pat, mayAlter)
  }

  /** Parses a pattern. Nothing is lost: apart from an escaped first character, displaying it gives back the input. */
  method Parse(pat: Bytes, mayAlter: bool) returns (r: Option<Pattern>)
    ensures r.None? <==> pat == [] || Blank(AfterNegation(pat, mayAlter))
    ensures r.Some? ==> WellParsed(r.value)
    ensures r.Some? ==>
      var escaped := mayAlter && |pat| >= 2 && pat[0] == BACKSLASH && (pat[1] == EXCLAMATION || pat[1] == HASH);
      Display(r.value) == if escaped then pat[1..] else pat
    ensures r.Some? ==> (r.value.mode.negative <==> mayAlter && pat[0] == EXCLAMATION)
    ensures r.Some? ==>
      var rest, mode := AfterNegation(pat, mayAlter), r.value.mode;
      && rest != [] && (mode.absolute <==> rest[0] == SLASH)
      && (mode.mustBeDir <==> rest[|rest| - 1] == SLASH && rest != [SLASH])
  {
    if pat == [] { return None; }
    var negative, rest := TakeNegation(pat, mayAlter);
    if Blank(rest) { return None; }
    var absolute, mustBeDir, text := TakeSlashes(rest);
    var p := Classify(text, mustBeDir, negative, absolute);
    r := Some(p);
    Regroup(if negative then [EXCLAMATION] else [], if absolute then [SLASH] else [], text,
            if mustBeDir then [SLASH] else []);
  }

  method Classify(text: Bytes, mustBeDir: bool, negative: bool, absolute: bool) returns (p: Pattern)
    ensures WellParsed(p) && p.text == text
    ensures p.mode.mustBeDir == mustBeDir && p.mode.negative == negative && p.mode.absolute == absolute
  {
    var endsWith := false;
    if |text| > 0 && text[0] == STAR {
      var later := FirstWildcardPos(text, 1);
      endsWith := later.None?;
    }
    var pos := FirstWildcardPos(text, 0);
    p := Pattern(text, PatternMode(SLASH !in text, endsWith, mustBeDir, negative, absolute), pos);
  }

  lemma Regroup(a: Bytes, b: Bytes, c: Bytes, d: Bytes)
    ensures a + b + c + d == a + (b + c + d)
  {}

  method TakeNegation(pat: Bytes, mayAlter: bool) returns (negative: bool, rest: Bytes)
    requires pat != []
    ensures negative <==> mayAlter && pat[0] == EXCLAMATION
    ensures rest == AfterNegation(pat, mayAlter)
       && (if negative then [EXCLAMATION] else []) + rest == Unescaped(pat, mayAlter)
  {
    negative, rest := false, pat;
    if mayAlter {
      if pat[0] == EXCLAMATION {
        negative, rest := true, pat[1..];
      } else if pat[0] == BACKSLASH && |pat| > 1 && (pat[1] == EXCLAMATION || pat[1] == HASH) {
        rest := pat[1..];
      }
    }
  }

  method TakeSlashes(pat: Bytes) returns (absolute: bool, mustBeDir: bool, text: Bytes)
    requires pat != []
    ensures (if absolute then [SLASH] else []) + text + (if mustBeDir then [SLASH] else []) == pat
    ensures absolute <==> pat[0] == SLASH
    ensures mustBeDir <==> pat[|pat| - 1] == SLASH && pat != [SLASH]
  {
    absolute, mustBeDir, text := false, false, pat;
    if pat[0] == SLASH {
      absolute, text := true, pat[1..];
    }
    if |text| > 0 && text[|text| - 1] == SLASH {
      mustBeDir, text := true, text[..|text| - 1];
    }
  }

  // ----- shortcuts

  /** A pattern without wildcards matches exactly itself. */
  lemma {:induction false} LiteralTail(path: bool, p: Bytes, i: nat, t: Bytes, j: nat)
    requires i <= |p| && j <= |t| && Literal(p, i, |p|)
    ensures Glob(path, p, i, t, j) <==> p[i..] == t[j..]
    decreases |p| - i
  {
    if i < |p| && j < |t| {
      LiteralTail(path, p, i + 1, t, j + 1);
      assert p[i..] == [p[i]] + p[i + 1..] && t[j..] == [t[j]] + t[j + 1..];
    }
  }

  /** Literal bytes cost no calls, and there is no bracket among them. */
  lemma {:induction false} LiteralCost(path: bool, p: Bytes, i: nat)
    requires i <= |p| && Literal(p, i, |p|)
    ensures Cost(path, p, i) == 0 && NoBrackets(p, i)
    decreases |p| - i
  {
    if i < |p| {
      LiteralCost(path, p, i + 1);
    }
  }

  /** Whatever brackets do, the matcher finds a match only if the text begins with the literal bytes before the first
      wildcard. */
  lemma {:induction false} LiteralPrefix(b: Brackets, path: bool, p: Bytes, i: nat, pos: nat, t: Bytes, j: nat)
    requires i <= pos <= |p| && j <= |t| && Literal(p, i, pos)
    requires AnswerIn(b, path, p, 0, 0, i, t, j, 0) == Match
    ensures j + pos - i <= |t| && p[i..pos] == t[j..j + pos - i]
    decreases pos - i
  {
    if i < pos {
      assert j < |t| && p[i] == t[j];
      LiteralPrefix(b, path, p, i + 1, pos, t, j + 1);
      assert p[i..pos] == [p[i]] + p[i + 1..pos];
      assert t[j..j + pos - i] == [t[j]] + t[j + 1..j + pos - i];
    }
  }

  /** A star before a literal matches what ends with the literal, if the star may cover all before it. */
  lemma StarThenLiteral(path: bool, p: Bytes, t: Bytes)
    requires |p| > 0 && p[0] == STAR && Literal(p, 1, |p|) && (path ==> SLASH !in t)
    ensures Glob(path, p, 0, t, 0) <==> |t| >= |p| - 1 && t[|t| - (|p| - 1)..] == p[1..]
  {
    assert RunEnd(p, 0) == 1;
    forall k | 0 <= k <= |t|
      ensures (Wide(path, p, 0) || NoSlash(t, 0, k)) && (Glob(path, p, 1, t, k) <==> p[1..] == t[k..])
    {
      LiteralTail(path, p, 1, t, k);
      if path { assert forall x :: 0 <= x < |t| ==> t[x] in t; }
    }
    StarMeaning(path, p, 0, t, 0);
    if |t| >= |p| - 1 && t[|t| - (|p| - 1)..] == p[1..] {
      assert Glob(path, p, 1, t, |t| - (|p| - 1));
    }
  }

  lemma FoldSlice(ignoreCase: bool, s: Bytes, a: nat, b: nat)
    requires a <= b <= |s|
    ensures Fold(ignoreCase, s)[a..b] == Fold(ignoreCase, s[a..b])
  {}

  lemma FoldKeepsWildcards(ignoreCase: bool, s: Bytes)
    ensures forall i :: 0 <= i < |s| ==> (IsGlobCharacter(Fold(ignoreCase, s)[i]) <==> IsGlobCharacter(s[i]))
    ensures forall i :: 0 <= i < |s| ==> (Fold(ignoreCase, s)[i] == STAR <==> s[i] == STAR)
    ensures SLASH in Fold(ignoreCase, s) <==> SLASH in s
  {
  }

  /** For every parsed pattern, the shortcuts for suffixes, literal prefixes and plain text give the same answer as
      the matcher, whatever brackets mean. */
  method MatchValue(b: Brackets, p: Pattern, value: Bytes, mode: Mode) returns (matched: bool)
    requires WellParsed(p)
    ensures matched == Found(b, p.text, value, mode)
    ensures NoBrackets(p.text, 0) ==>
      (matched <==> Matches(p.text, value, mode) && Cost(mode.noMatchSlash, p.text, 0) < 64)
  {
    AgreesWithMeaning(b, p.text, value, mode);
    match p.firstWildcardPos {
      case Some(pos) =>
        if p.mode.endsWith && (!mode.noMatchSlash || SLASH !in value) {
          var suffix := p.text[pos + 1..];
          matched := |value| >= |suffix|
            && Fold(mode.ignoreCase, value[|value| - |suffix|..]) == Fold(mode.ignoreCase, suffix);
          EndsWithRight(b, p, value, mode, pos);
        } else {
          if |value| < pos || Fold(mode.ignoreCase, value[..pos]) != Fold(mode.ignoreCase, p.text[..pos]) {
            PrefixFound(b, p, value, mode, pos);
            return false;
          }
          matched := Wildmatch(b, p.text, value, mode);
        }
      case None =>
        matched := Fold(mode.ignoreCase, value) == Fold(mode.ignoreCase, p.text);
        PlainRight(b, p, value, mode);
    }
  }

  lemma AgreesWithMeaning(b: Brackets, text: Bytes, value: Bytes, mode: Mode)
    ensures NoBrackets(text, 0) ==>
      (Found(b, text, value, mode) <==> Matches(text, value, mode) && Cost(mode.noMatchSlash, text, 0) < 64)
  {
    if NoBrackets(text, 0) { FoundIffMatches(b, text, value, mode); }
  }

  lemma PlainRight(b: Brackets, p: Pattern, value: Bytes, mode: Mode)
    requires WellParsed(p) && p.firstWildcardPos.None?
    ensures Found(b, p.text, value, mode) <==> Fold(mode.ignoreCase, value) == Fold(mode.ignoreCase, p.text)
  {
    var text, val := Fold(mode.ignoreCase, p.text), Fold(mode.ignoreCase, value);
    FoldKeepsWildcards(mode.ignoreCase, p.text);
    LiteralCost(mode.noMatchSlash, p.text, 0);
    FoundIffMatches(b, p.text, value, mode);
    LiteralTail(mode.noMatchSlash, text, 0, val, 0);
    assert text[0..] == text && val[0..] == val;
  }

  lemma EndsWithRight(b: Brackets, p: Pattern, value: Bytes, mode: Mode, pos: nat)
    requires WellParsed(p) && p.mode.endsWith && p.firstWildcardPos == Some(pos)
    requires mode.noMatchSlash ==> SLASH !in value
    ensures pos == 0
    ensures var suffix := p.text[1..];
      Found(b, p.text, value, mode)
      <==> |value| >= |suffix| && Fold(mode.ignoreCase, value[|value| - |suffix|..]) == Fold(mode.ignoreCase, suffix)
  {
    assert IsGlobCharacter(p.text[0]);
    SuffixFound(b, p.text, value, mode);
    SuffixMatches(p.text, value, mode);
  }

  lemma SuffixFound(b: Brackets, text: Bytes, value: Bytes, mode: Mode)
    requires |text| > 0 && text[0] == STAR && Literal(text, 1, |text|)
    ensures Found(b, text, value, mode) <==> Matches(text, value, mode)
  {
    LiteralCost(mode.noMatchSlash, text, 1);
    FoundIffMatches(b, text, value, mode);
    assert RunEnd(text, 0) == 1;
  }

  lemma SuffixMatches(text: Bytes, value: Bytes, mode: Mode)
    requires |text| > 0 && text[0] == STAR && Literal(text, 1, |text|) && (mode.noMatchSlash ==> SLASH !in value)
    ensures var suffix := text[1..];
      Matches(text, value, mode)
      <==> |value| >= |suffix| && Fold(mode.ignoreCase, value[|value| - |suffix|..]) == Fold(mode.ignoreCase, suffix)
  {
    var p, val, suffix := Fold(mode.ignoreCase, text), Fold(mode.ignoreCase, value), text[1..];
    FoldKeepsWildcards(mode.ignoreCase, text);
    FoldKeepsWildcards(mode.ignoreCase, value);
    FoldSlice(mode.ignoreCase, text, 1, |text|);
    assert text[1..|text|] == suffix && p[1..|p|] == p[1..];
    StarThenLiteral(mode.noMatchSlash, p, val);
    if |value| >= |suffix| {
      FoldSlice(mode.ignoreCase, value, |value| - |suffix|, |value|);
      assert value[|value| - |suffix|..|value|] == value[|value| - |suffix|..];
      assert val[|val| - |suffix|..|val|] == val[|val| - |suffix|..];
    }
  }

  lemma PrefixFound(b: Brackets, p: Pattern, value: Bytes, mode: Mode, pos: nat)
    requires WellParsed(p) && p.firstWildcardPos == Some(pos)
    ensures Found(b, p.text, value, mode) ==>
      |value| >= pos && Fold(mode.ignoreCase, value[..pos]) == Fold(mode.ignoreCase, p.text[..pos])
  {
    var text, val := Fold(mode.ignoreCase, p.text), Fold(mode.ignoreCase, value);
    FoldKeepsWildcards(mode.ignoreCase, p.text);
    if Found(b, p.text, value, mode) {
      LiteralPrefix(b, mode.noMatchSlash, text, 0, pos, val, 0);
      FoldSlice(mode.ignoreCase, p.text, 0, pos);
      FoldSlice(mode.ignoreCase, value, 0, pos);
    }
  }
}
