/** What the keywords of a path specification mean, told on its text. */
module PathspecText {
  import opened Attributes
  import opened Options
  import opened Pathspec

  // ----- short keywords

  predicate AddsShort(c: char) { c == '/' || c == '^' || c == '!' }

  predicate Unsupported(c: char) { c in ['"', '#', '%', '&', '\'', '-', ',', ';', '<', '=', '>', '@', '_', '`', '~'] }

  /** All characters from `i` up to `stop` are short keywords, and the one at `stop` is not. */
  ghost predicate StopsAt(input: string, i: nat, stop: nat) {
    && i <= stop <= |input|
    && (forall k :: i <= k < stop ==> AddsShort(input[k]))
    && (stop < |input| ==> !AddsShort(input[stop]))
  }

  lemma StopsOnce(input: string, i: nat, a: nat, b: nat)
    requires StopsAt(input, i, a) && StopsAt(input, i, b)
    ensures a == b
  {
  }

  /** What short keywords up to `stop` add to a signature, and where they end. */
  ghost predicate ShortMeans(input: string, i: nat, signature: Signature, stop: nat, r: Result<(Signature, nat)>) {
    && StopsAt(input, i, stop)
    && (r.Err? <==> stop < |input| && Unsupported(input[stop]))
    && (r.Err? ==> r.error == Unimplemented(input[stop]))
    && (r.Ok? ==>
          && r.value.1 == (if stop < |input| && input[stop] == ':' then stop + 1 else stop)
          && (r.value.0.top <==> signature.top || '/' in input[i..stop])
          && (r.value.0.exclude <==> signature.exclude || '^' in input[i..stop] || '!' in input[i..stop])
          && r.value.0.icase == signature.icase && r.value.0.mustBeDir == signature.mustBeDir)
  }

  lemma {:induction false} ShortKeywordsMeaning(input: string, i: nat, signature: Signature) returns (stop: nat)
    requires i <= |input|
    ensures ShortMeans(input, i, signature, stop, ShortKeywords(input, i, signature))
    decreases |input| - i
  {
    if i == |input| || !AddsShort(input[i]) {
      stop := i;
    } else {
      var next := if input[i] == '/' then signature.(top := true) else signature.(exclude := true);
      assert ShortKeywords(input, i, signature) == ShortKeywords(input, i + 1, next);
      stop := ShortKeywordsMeaning(input, i + 1, next);
      assert input[i..stop] == [input[i]] + input[i + 1..stop];
    }
  }

  // ----- values of attributes

  /** A backslash before every character. */
  function EscapeAll(v: string): string {
    if v == [] then "" else ['\\', v[0]] + EscapeAll(v[1..])
  }

  /** A backslash makes no difference to the character behind it: it must be one that values may hold. */
  lemma {:induction false} EscapesVanish(v: string)
    ensures UnescapeValue(EscapeAll(v)) == UnescapeValue(if '\\' in v then EscapeAll(v) else v)
    ensures UnescapeValue(EscapeAll(v)).Ok? <==> IsValue(v)
    ensures IsValue(v) ==> UnescapeValue(EscapeAll(v)) == Ok(v)
  {
    if v != [] {
      EscapesVanish(v[1..]);
      var text := EscapeAll(v);
      assert text[0] == '\\' && text[1] == v[0] && text[2..] == EscapeAll(v[1..]) && |text| > 1;
      assert v == [v[0]] + v[1..];
    }
  }

  // ----- long keywords

  function Parts(body: string): seq<string> {
    if body == [] then [] else Keywords(body, 0, 1)
  }

  /** The parts are what commas divide the text into. */
  lemma {:induction false} PartsJoined(s: string, last: nat, i: nat)
    requires last <= i && last <= |s| && 1 <= i
    ensures Join(Keywords(s, last, i), ',') == s[last..]
    decreases |s| - i
  {
    if i < |s| {
      if s[i - 1] != '\\' && s[i] == ',' {
        PartsJoined(s, i + 1, i + 1);
        var rest := Keywords(s, i + 1, i + 1);
        assert ([s[last..i]] + rest)[1..] == rest;
        assert s[last..] == s[last..i] + [','] + s[i + 1..];
      } else {
        PartsJoined(s, last, i + 1);
      }
    }
  }

  predicate Known(keyword: string) {
    || keyword == "attr" || keyword == "top" || keyword == "icase" || keyword == "exclude"
    || keyword == "literal" || keyword == "glob" || "attr:" <= keyword
  }

  /** A list of attributes that was parsed is kept, unless it is empty. */
  ghost predicate AttributesKept(part: string, q: Pattern) {
    "attr:" <= part ==> var r := ParseAttributes(part[5..]); r.Ok? && (r.value == [] || r.value == q.attributes)
  }

  ghost predicate AttributesMean(parts: seq<string>, q: Pattern) {
    forall part :: part in parts ==> AttributesKept(part, q)
  }

  /** What long keywords make of the attributes of a pattern. */
  ghost predicate ListMeans(p: Pattern, parts: seq<string>, q: Pattern) {
    && AttributesMean(parts, q) && (p.attributes != [] ==> q.attributes == p.attributes)
    && ((forall part :: part in parts ==> !("attr:" <= part)) ==> q.attributes == p.attributes)
  }

  /** What long keywords make of the signature. */
  ghost predicate SignatureMeans(p: Pattern, parts: seq<string>, q: Pattern) {
    && (q.signature.top <==> p.signature.top || "top" in parts)
    && (q.signature.exclude <==> p.signature.exclude || "exclude" in parts)
    && (q.signature.icase <==> p.signature.icase || "icase" in parts)
    && q.signature.mustBeDir == p.signature.mustBeDir
  }

  /** What long keywords make of the search mode. They must not contradict each other. */
  ghost predicate ModeMeans(p: Pattern, parts: seq<string>, q: Pattern) {
    && q.searchMode == (if "literal" in parts then Literal else if "glob" in parts then PathAwareGlob else p.searchMode)
    && ("literal" in parts ==> "glob" !in parts && !p.searchMode.PathAwareGlob?)
    && ("glob" in parts ==> !p.searchMode.Literal?)
  }

  ghost predicate AllKnown(parts: seq<string>) {
    forall part :: part in parts ==> Known(part)
  }

  ghost predicate KeywordsMean(p: Pattern, parts: seq<string>, q: Pattern) {
    SignatureMeans(p, parts, q) && ModeMeans(p, parts, q) && AllKnown(parts) && ListMeans(p, parts, q)
  }

  /** `parts` begins with `part` and goes on with `rest`. */
  ghost predicate Begins(parts: seq<string>, part: string, rest: seq<string>) {
    forall x :: x in parts <==> x == part || x in rest
  }

  lemma {:induction false} KeywordsMeaning(p: Pattern, parts: seq<string>)
    requires ApplyAll(p, parts).Ok?
    ensures KeywordsMean(p, parts, ApplyAll(p, parts).value)
    decreases |parts|
  {
    if parts != [] {
      var m, rest, q := Apply(p, parts[0]).value, parts[1..], ApplyAll(p, parts).value;
      KeywordsMeaning(m, rest);
      assert Begins(parts, parts[0], rest);
      FirstKeyword(p, parts, parts[0], rest, q);
    }
  }

  lemma FirstKeyword(p: Pattern, parts: seq<string>, keyword: string, rest: seq<string>, q: Pattern)
    requires Begins(parts, keyword, rest) && Apply(p, keyword).Ok? && KeywordsMean(Apply(p, keyword).value, rest, q)
    ensures KeywordsMean(p, parts, q)
  {
    Differ(keyword);
    FirstSignature(p, Apply(p, keyword).value, parts, keyword, rest, q);
    FirstMode(p, Apply(p, keyword).value, parts, keyword, rest, q);
    FirstList(p, Apply(p, keyword).value, parts, keyword, rest, q);
  }

  /** Why long keywords fail: because of one that is not known, or because they contradict each other. Everything else
      is wrong within a list of attributes, or is a second one. */
  ghost predicate FailMeans(p: Pattern, parts: seq<string>, e: Error) {
    && (e.InvalidKeyword? ==> e.keyword in parts && !Known(e.keyword))
    && (e.IncompatibleSearchModes? ==>
          || ("literal" in parts && ("glob" in parts || p.searchMode.PathAwareGlob?))
          || ("glob" in parts && p.searchMode.Literal?))
    && (e.InvalidKeyword? || e.IncompatibleSearchModes? || exists part :: part in parts && "attr:" <= part)
  }

  lemma {:induction false} KeywordsFailing(p: Pattern, parts: seq<string>)
    requires ApplyAll(p, parts).Err?
    ensures FailMeans(p, parts, ApplyAll(p, parts).error)
    decreases |parts|
  {
    var keyword, rest := parts[0], parts[1..];
    assert Begins(parts, keyword, rest);
    Differ(keyword);
    if Apply(p, keyword).Ok? {
      KeywordsFailing(Apply(p, keyword).value, rest);
      StillFailing(p, Apply(p, keyword).value, parts, keyword, rest, ApplyAll(p, parts).error);
    } else {
      assert keyword in parts;
      FirstFails(p, parts, keyword);
    }
  }

  lemma FirstFails(p: Pattern, parts: seq<string>, keyword: string)
    requires Apply(p, keyword).Err? && keyword in parts
    ensures FailMeans(p, parts, Apply(p, keyword).error)
  {
    Differ(keyword);
    if "attr:" <= keyword {
      if p.attributes == [] { ListFails(keyword[5..]); }
    } else {
      assert keyword == "literal" || keyword == "glob" || !Known(keyword);
    }
  }

  /** Within a list of attributes, other things go wrong. */
  lemma ListFails(input: string)
    requires ParseAttributes(input).Err?
    ensures !ParseAttributes(input).error.InvalidKeyword? && !ParseAttributes(input).error.IncompatibleSearchModes?
  {
    if input != [] {
      if '=' !in input {
        FieldsFail(Fields(input));
      } else if UnescapeAll(SplitSpaces(input)).Err? {
        UnescapeFails(SplitSpaces(input));
      } else {
        FieldsFail(Fields(UnescapeAll(SplitSpaces(input)).value));
      }
    }
  }

  lemma {:induction false} FieldsFail(fields: seq<string>)
    ensures ParseFields(fields).Err? ==> ParseFields(fields).error.InvalidAttribute?
    decreases |fields|
  {
    if fields != [] { FieldsFail(fields[1..]); }
  }

  lemma {:induction false} UnescapeFails(parts: seq<string>)
    ensures UnescapeAll(parts).Err? ==>
      UnescapeAll(parts).error.InvalidAttributeValue? || UnescapeAll(parts).error.TrailingEscapeCharacter?
    decreases |parts|
  {
    if parts != [] {
      UnescapeFails(parts[1..]);
      ValueFails(parts[0][ValueStart(parts[0])..]);
    }
  }

  lemma {:induction false} ValueFails(v: string)
    ensures UnescapeValue(v).Err? ==>
      UnescapeValue(v).error.InvalidAttributeValue? || UnescapeValue(v).error.TrailingEscapeCharacter?
    decreases |v|
  {
    if |v| > 0 {
      ValueFails(v[1..]);
      if |v| > 1 { ValueFails(v[2..]); }
    }
  }

  lemma StillFailing(p: Pattern, m: Pattern, parts: seq<string>, keyword: string, rest: seq<string>, e: Error)
    requires Begins(parts, keyword, rest) && FailMeans(m, rest, e)
    requires m.searchMode ==
      if keyword == "literal" then Literal else if keyword == "glob" then PathAwareGlob else p.searchMode
    ensures FailMeans(p, parts, e)
  {
    assert forall part :: part in rest ==> part in parts;
    assert "literal" in parts <==> "literal" == keyword || "literal" in rest;
    assert "glob" in parts <==> "glob" == keyword || "glob" in rest;
  }

  /** Keywords are different from each other. */
  lemma Differ(keyword: string)
    ensures keyword == "top" ==> keyword != "exclude" && keyword != "icase"
    ensures keyword == "exclude" ==> keyword != "icase"
    ensures keyword == "literal" ==> keyword != "glob"
    ensures keyword == "top" || keyword == "exclude" || keyword == "icase" ==> keyword != "literal" && keyword != "glob"
    ensures "attr:" <= keyword || keyword == "attr" ==>
      keyword != "top" && keyword != "icase" && keyword != "exclude" && keyword != "literal" && keyword != "glob"
    ensures "attr:" <= keyword ==> keyword != "attr"
  {
    if "attr:" <= keyword || keyword == "attr" { assert keyword[0] == 'a'; }
  }

  lemma FirstSignature(p: Pattern, m: Pattern, parts: seq<string>, keyword: string, rest: seq<string>, q: Pattern)
    requires Begins(parts, keyword, rest) && SignatureMeans(m, rest, q)
    requires m.signature.mustBeDir == p.signature.mustBeDir
    requires m.signature.top == (p.signature.top || keyword == "top")
    requires m.signature.exclude == (p.signature.exclude || keyword == "exclude")
    requires m.signature.icase == (p.signature.icase || keyword == "icase")
    ensures SignatureMeans(p, parts, q)
  {
    assert "top" in parts <==> "top" == keyword || "top" in rest;
    assert "exclude" in parts <==> "exclude" == keyword || "exclude" in rest;
    assert "icase" in parts <==> "icase" == keyword || "icase" in rest;
  }

  lemma FirstMode(p: Pattern, m: Pattern, parts: seq<string>, keyword: string, rest: seq<string>, q: Pattern)
    requires Begins(parts, keyword, rest) && ModeMeans(m, rest, q) && !(keyword == "literal" && keyword == "glob")
    requires m.searchMode ==
      if keyword == "literal" then Literal else if keyword == "glob" then PathAwareGlob else p.searchMode
    requires (keyword == "literal" ==> !p.searchMode.PathAwareGlob?) && (keyword == "glob" ==> !p.searchMode.Literal?)
    ensures ModeMeans(p, parts, q)
  {
    assert "literal" in parts <==> "literal" == keyword || "literal" in rest;
    assert "glob" in parts <==> "glob" == keyword || "glob" in rest;
  }

  lemma FirstList(p: Pattern, m: Pattern, parts: seq<string>, keyword: string, rest: seq<string>, q: Pattern)
    requires Begins(parts, keyword, rest) && ListMeans(m, rest, q)
    requires if "attr:" <= keyword then ParseAttributes(keyword[5..]) == Ok(m.attributes) && p.attributes == []
             else m.attributes == p.attributes
    ensures ListMeans(p, parts, q)
  {
    assert keyword in parts;
    forall part | part in parts ensures AttributesKept(part, q) {
      if part != keyword { assert part in rest; }
    }
    if forall part :: part in parts ==> !("attr:" <= part) {
      assert forall part :: part in rest ==> part in parts;
    }
  }

  // ----- whole path specifications

  /** What the parts of the text say about a pattern. */
  ghost predicate Says(defaults: Defaults, shorts: string, parts: seq<string>, path: string, q: Pattern) {
    && (q.signature.top <==> defaults.signature.top || '/' in shorts || "top" in parts)
    && (q.signature.exclude <==> defaults.signature.exclude || '^' in shorts || '!' in shorts || "exclude" in parts)
    && (q.signature.icase <==> defaults.signature.icase || "icase" in parts)
    && (q.signature.mustBeDir <==> defaults.signature.mustBeDir || (path != [] && path[|path| - 1] == '/'))
    && q.path == (if path != [] && path[|path| - 1] == '/' then path[..|path| - 1] else path)
    && q.searchMode ==
         (if "literal" in parts then Literal else if "glob" in parts then PathAwareGlob else defaults.searchMode)
    && AllKnown(parts) && AttributesMean(parts, q)
    && ((forall part :: part in parts ==> !("attr:" <= part)) ==> q.attributes == [])
  }

  /** The first closing parenthesis is at `end`, behind `cursor`. */
  ghost predicate ClosesAt(input: string, cursor: nat, end: nat) {
    cursor < end < |input| && input[end] == ')' && forall k :: 0 <= k < end ==> input[k] != ')'
  }

  /** Where the short keywords end, with the colon that may end them. */
  function Cursor(input: string, stop: nat): nat {
    if stop < |input| && input[stop] == ':' then stop + 1 else stop
  }

  /** Short keywords behind the first colon, and then the path. */
  ghost predicate SaysShort(input: string, defaults: Defaults, stop: nat, q: Pattern) {
    && 1 <= stop <= |input| && (Cursor(input, stop) == |input| || input[Cursor(input, stop)] != '(')
    && Says(defaults, input[1..stop], [], input[Cursor(input, stop)..], q)
  }

  /** Short keywords behind the first colon, long ones in parentheses, and then the path. */
  ghost predicate SaysLong(input: string, defaults: Defaults, stop: nat, end: nat, q: Pattern) {
    && 1 <= stop && Cursor(input, stop) < |input| && input[Cursor(input, stop)] == '('
    && ClosesAt(input, Cursor(input, stop), end)
    && Says(defaults, input[1..stop], Parts(input[Cursor(input, stop) + 1..end]), input[end + 1..], q)
  }

  /** The pattern is what the text says: all of it is the path unless it begins with a colon. */
  ghost predicate Understood(input: string, defaults: Defaults, q: Pattern) {
    if input != [] && input[0] == ':' then
      exists stop: nat :: StopsAt(input, 1, stop) && (stop < |input| ==> !Unsupported(input[stop]))
        && (SaysShort(input, defaults, stop, q) || exists end: nat :: SaysLong(input, defaults, stop, end, q))
    else Says(defaults, "", [], input, q)
  }

  /** Whatever is understood and not taken literally is what the text says. */
  lemma ParsedIsUnderstood(input: string, defaults: Defaults)
    requires !defaults.literal && input != ":" && Parse(input, defaults).Ok?
    ensures Understood(input, defaults, Parse(input, defaults).value)
  {
    var q := Parse(input, defaults).value;
    if input[0] != ':' {
      assert input[0..] == input;
      assert Says(defaults, "", [], input, q);
    } else {
      var stop := ShortKeywordsMeaning(input, 1, defaults.signature);
      var cursor := Cursor(input, stop);
      if cursor == |input| || input[cursor] != '(' {
        ParsedShort(input, defaults, stop);
      } else {
        ParsedLong(input, defaults, stop, IndexOf(input, ')'));
      }
    }
  }

  lemma ParsedShort(input: string, defaults: Defaults, stop: nat)
    requires !defaults.literal && |input| > 1 && input[0] == ':' && Parse(input, defaults).Ok?
    requires ShortMeans(input, 1, defaults.signature, stop, ShortKeywords(input, 1, defaults.signature))
    requires Cursor(input, stop) == |input| || input[Cursor(input, stop)] != '('
    ensures SaysShort(input, defaults, stop, Parse(input, defaults).value)
  {
  }

  lemma ParsedLong(input: string, defaults: Defaults, stop: nat, end: nat)
    requires !defaults.literal && |input| > 1 && input[0] == ':' && Parse(input, defaults).Ok?
    requires ShortMeans(input, 1, defaults.signature, stop, ShortKeywords(input, 1, defaults.signature))
    requires Cursor(input, stop) < |input| && input[Cursor(input, stop)] == '(' && end == IndexOf(input, ')')
    ensures SaysLong(input, defaults, stop, end, Parse(input, defaults).value)
  {
    var p, path := EMPTY.(signature := ShortKeywords(input, 1, defaults.signature).value.0), input[end + 1..];
    LongIsParsed(input, defaults, p, stop, end);
    var parts := Parts(input[Cursor(input, stop) + 1..end]);
    KeywordsMeaning(p, parts);
    SaysAll(defaults, input[1..stop], p, parts, ApplyAll(p, parts).value, path);
  }

  /** How the pattern is put together from its keywords and the path. */
  lemma LongIsParsed(input: string, defaults: Defaults, p: Pattern, stop: nat, end: nat)
    requires !defaults.literal && |input| > 1 && input[0] == ':' && Parse(input, defaults).Ok?
    requires ShortMeans(input, 1, defaults.signature, stop, ShortKeywords(input, 1, defaults.signature))
    requires p == EMPTY.(signature := ShortKeywords(input, 1, defaults.signature).value.0)
    requires Cursor(input, stop) < |input| && input[Cursor(input, stop)] == '(' && end == IndexOf(input, ')')
    ensures ClosesAt(input, Cursor(input, stop), end)
    ensures var long := ApplyAll(p, Parts(input[Cursor(input, stop) + 1..end]));
      && long.Ok?
      && var mode := if long.value.searchMode.ShellGlob? then defaults.searchMode else long.value.searchMode;
         Parse(input, defaults).value == WithPath(long.value.(searchMode := mode), input[end + 1..])
  {
    var body := input[Cursor(input, stop) + 1..end];
    assert LongKeywords(p, body) == ApplyAll(p, Parts(body));
  }

  lemma SaysAll(defaults: Defaults, shorts: string, p: Pattern, parts: seq<string>, m: Pattern, path: string)
    requires KeywordsMean(p, parts, m) && p.searchMode.ShellGlob? && p.attributes == []
    requires p.signature.top <==> defaults.signature.top || '/' in shorts
    requires p.signature.exclude <==> defaults.signature.exclude || '^' in shorts || '!' in shorts
    requires p.signature.icase == defaults.signature.icase && p.signature.mustBeDir == defaults.signature.mustBeDir
    ensures var mode := if m.searchMode.ShellGlob? then defaults.searchMode else m.searchMode;
      Says(defaults, shorts, parts, path, WithPath(m.(searchMode := mode), path))
  {
    var q := WithPath(m, path);
    assert q.attributes == m.attributes;
    forall part | part in parts ensures AttributesKept(part, q) { assert AttributesKept(part, m); }
  }

  lemma LongMeaning(p: Pattern, body: string)
    ensures var r := LongKeywords(p, body);
      if r.Ok? then KeywordsMean(p, Parts(body), r.value) else FailMeans(p, Parts(body), r.error)
    ensures Join(Parts(body), ',') == body
  {
    assert LongKeywords(p, body) == ApplyAll(p, Parts(body));
    if LongKeywords(p, body).Ok? { KeywordsMeaning(p, Parts(body)); } else { KeywordsFailing(p, Parts(body)); }
    if body != [] {
      PartsJoined(body, 0, 1);
      assert body[0..] == body;
    }
  }

  lemma ParsedMeaning(input: string, defaults: Defaults)
    ensures Parse(input, defaults).Ok? && !defaults.literal && input != ":" ==>
      Understood(input, defaults, Parse(input, defaults).value)
    ensures !defaults.literal && |input| > 1 && input[0] == ':' ==>
      forall stop: nat :: StopsAt(input, 1, stop) && stop < |input| && Unsupported(input[stop]) ==>
        Parse(input, defaults) == Err(Unimplemented(input[stop]))
  {
    if !defaults.literal && input != ":" {
      if Parse(input, defaults).Ok? { ParsedIsUnderstood(input, defaults); }
      if |input| > 1 && input[0] == ':' {
        forall stop: nat | StopsAt(input, 1, stop) && stop < |input| && Unsupported(input[stop])
          ensures Parse(input, defaults) == Err(Unimplemented(input[stop]))
        {
          var other := ShortKeywordsMeaning(input, 1, defaults.signature);
          StopsOnce(input, 1, stop, other);
        }
      }
    }
  }
}
