/** The parser and the printer of path specifications as they work step by step. */
module PathspecParser {
  import opened Attributes
  import opened Pathspec
  import opened PathspecRoundTrip
  import opened PathspecText

  /** Parses short keywords up to the first character that is none. */
  method ParseShortKeywords(input: string, cursor: nat, initial: Signature)
    returns (r: Result<(Signature, nat)>, ghost stop: nat)
    requires cursor <= |input|
    ensures r == ShortKeywords(input, cursor, initial) && ShortMeans(input, cursor, initial, stop, r)
  {
    stop := ShortKeywordsMeaning(input, cursor, initial);
    var i, signature := cursor, initial;
    while i < |input|
      invariant cursor <= i <= |input| && ShortKeywords(input, i, signature) == ShortKeywords(input, cursor, initial)
    {
      var b := input[i];
      i := i + 1;
      if b == '/' {
        signature := signature.(top := true);
      } else if b == '^' || b == '!' {
        signature := signature.(exclude := true);
      } else if b == ':' {
        break;
      } else if IsUnimplemented(b) {
        return Err(Unimplemented(b)), stop;
      } else {
        i := i - 1;
        break;
      }
    }
    return Ok((signature, i)), stop;
  }

  function Prefixed(out: string, r: Result<string>): Result<string> {
    match r
    case Ok(u) => Ok(out + u)
    case Err(e) => Err(e)
  }

  /** One byte, or one escaped byte, is unescaped. */
  lemma UnescapeNext(out: string, v: string, c: char, rest: string)
    requires (v == [c] + rest && c != '\\') || v == ['\\', c] + rest
    ensures Prefixed(out, UnescapeValue(v)) ==
      if IsValueByte(c) then Prefixed(out + [c], UnescapeValue(rest)) else Err(InvalidAttributeValue(c))
  {
    if v[0] == '\\' {
      assert v[1] == c && v[2..] == rest;
    } else {
      assert v[1..] == rest;
    }
    if IsValueByte(c) && UnescapeValue(rest).Ok? {
      assert out + ([c] + UnescapeValue(rest).value) == out + [c] + UnescapeValue(rest).value;
    }
  }

  lemma UnescapeStart(v: string)
    ensures v[0..] == v && Prefixed("", UnescapeValue(v)) == UnescapeValue(v)
    ensures forall out :: Prefixed(out, UnescapeValue("")) == Ok(out)
  {
    if UnescapeValue(v).Ok? {
      assert "" + UnescapeValue(v).value == UnescapeValue(v).value;
    }
    forall out: string ensures Prefixed(out, UnescapeValue("")) == Ok(out) {
      assert out + "" == out;
    }
  }

  /** A value without its escapes, byte by byte. */
  method UnescapeAndCheck(value: string) returns (r: Result<string>)
    ensures r == UnescapeValue(value)
  {
    var out, i := "", 0;
    UnescapeStart(value);
    while i < |value|
      invariant 0 <= i <= |value|
      invariant UnescapeValue(value) == Prefixed(out, UnescapeValue(value[i..]))
    {
      var b := value[i];
      ghost var rest := value[i..];
      i := i + 1;
      if b == '\\' {
        if i == |value| {
          assert rest == "\\";
          return Err(TrailingEscapeCharacter);
        }
        b := value[i];
        i := i + 1;
      }
      UnescapeNext(out, rest, b, value[i..]);
      if !IsValueByte(b) { return Err(InvalidAttributeValue(b)); }
      out := out + [b];
    }
    assert value[i..] == "";
    return Ok(out);
  }

  /** A value without escapes is kept as it is if all its bytes are valid. */
  method CheckValue(value: string) returns (r: Result<string>)
    requires '\\' !in value
    ensures r == UnescapeValue(value) && (r.Ok? ==> r.value == value)
  {
    UnescapeStart(value);
    for i := 0 to |value|
      invariant UnescapeValue(value) == Prefixed(value[..i], UnescapeValue(value[i..]))
    {
      assert value[i] in value && value[i..] == [value[i]] + value[i + 1..];
      UnescapeNext(value[..i], value[i..], value[i], value[i + 1..]);
      assert value[..i + 1] == value[..i] + [value[i]];
      if !IsValueByte(value[i]) { return Err(InvalidAttributeValue(value[i])); }
    }
    assert value[|value|..] == "" && value[..|value|] == value;
    return Ok(value);
  }

  lemma {:induction false} SpacedConcat(a: seq<string>, b: seq<string>)
    ensures Spaced(a + b) == Spaced(a) + Spaced(b)
  {
    if a == [] {
      assert a + b == b;
    } else {
      SpacedConcat(a[1..], b);
      assert (a + b)[1..] == a[1..] + b;
      var first, rest := a[0] + " ", Spaced(a[1..]);
      assert first + (rest + Spaced(b)) == first + rest + Spaced(b);
    }
  }

  lemma SpacedFirst(part: string, parts: seq<string>)
    ensures Spaced([part] + parts) == part + " " + Spaced(parts)
  {
  }

  lemma {:induction false} SpacedSplit(s: string)
    ensures Spaced(SplitSpaces(s)) == s + " "
    decreases |s|
  {
    var i := IndexOf(s, ' ');
    if i == |s| {
      SpacedFirst(s, []);
      assert [s] + [] == [s] && s + " " + "" == s + " ";
    } else {
      SpacedSplit(s[i + 1..]);
      SpacedFirst(s[..i], SplitSpaces(s[i + 1..]));
      SpaceAt(s, i);
    }
  }

  lemma StartOf(s: string, a: string, b: string)
    requires a + b == s + " " && |b| > 0
    ensures |a| <= |s| && s[..|a|] == a
  {
    assert forall k :: 0 <= k < |a| ==> a[k] == (a + b)[k] == (s + " ")[k];
  }

  lemma SpacedNext(parts: seq<string>, i: nat)
    requires i < |parts|
    ensures Spaced(parts[..i + 1]) == Spaced(parts[..i]) + parts[i] + " "
  {
    assert parts[..i + 1] == parts[..i] + [parts[i]];
    SpacedConcat(parts[..i], [parts[i]]);
    assert Spaced([parts[i]]) == parts[i] + " " + Spaced([]);
  }

  /** The parts before `i + 1`, each followed by a space, are the start of the text, or the whole text and a space. */
  lemma SpacedStart(s: string, parts: seq<string>, i: nat)
    requires parts == SplitSpaces(s) && i < |parts|
    ensures var done, next := Spaced(parts[..i]), Spaced(parts[..i + 1]);
      && next == done + parts[i] + " "
      && if i + 1 < |parts| then |next| <= |s| && s[..|next|] == next else next == s + " "
  {
    SpacedNext(parts, i);
    SpacedSplit(s);
    assert parts == parts[..i + 1] + parts[i + 1..];
    SpacedConcat(parts[..i + 1], parts[i + 1..]);
    if i + 1 < |parts| {
      StartOf(s, Spaced(parts[..i + 1]), Spaced(parts[i + 1..]));
    } else {
      assert parts[..i + 1] == parts;
    }
  }

  lemma UnescapeAllNext(out: string, parts: seq<string>, i: nat)
    requires i < |parts|
    ensures Prefixed(out, UnescapeAll(parts[i..])) ==
      var one := UnescapeAttr(parts[i]);
      if one.Err? then one else Prefixed(out + one.value + " ", UnescapeAll(parts[i + 1..]))
  {
    assert parts[i..][1..] == parts[i + 1..];
    if UnescapeAttr(parts[i]).Ok? && UnescapeAll(parts[i + 1..]).Ok? {
      var u, rest := UnescapeAttr(parts[i]).value, UnescapeAll(parts[i + 1..]).value;
      assert out + (u + " " + rest) == out + u + " " + rest;
    }
  }

  /** One assignment with its value unescaped. */
  method UnescapeOne(attr: string) returns (r: Result<string>, escaped: bool)
    ensures r == UnescapeAttr(attr) && (r.Ok? && !escaped ==> r.value == attr)
  {
    var n := ValueStart(attr);
    var name, value := attr[..n], attr[n..];
    var unescaped: Result<string>;
    escaped := '\\' in value;
    if escaped {
      unescaped := UnescapeAndCheck(value);
    } else {
      unescaped := CheckValue(value);
      assert name + value == attr;
    }
    match unescaped {
      case Ok(v) => r := Ok(name + v);
      case Err(e) => r := Err(e);
    }
  }

  /** What was put out so far: all of `done`, or as long as nothing was escaped the start of the input. */
  ghost predicate Progress(input: string, parts: seq<string>, i: nat, done: string, out: string, borrowed: bool) {
    && i <= |parts|
    && if borrowed then done == Spaced(parts[..i]) && out == (if i < |parts| then done else input) else out == done
  }

  function Start(input: string, length: nat): string { if length < |input| then input[..length] else input }

  lemma ProgressNext(input: string, parts: seq<string>, i: nat, done: string, out: string, borrowed: bool)
    requires parts == SplitSpaces(input) && i < |parts| && Progress(input, parts, i, done, out, borrowed)
    ensures borrowed ==>
      Progress(input, parts, i + 1, done + parts[i] + " ", Start(input, |out| + |parts[i]| + 1), true)
    ensures forall u :: Progress(input, parts, i + 1, done + u + " ", out + u + " ", false)
  {
    SpacedStart(input, parts, i);
    if borrowed && i + 1 < |parts| {
      assert |input| == |out| + |parts[i]| + 1 ==> input[..|input|] == input;
    }
  }

  lemma ProgressEnds(input: string, parts: seq<string>, done: string, out: string, borrowed: bool)
    requires parts == SplitSpaces(input) && Progress(input, parts, |parts|, done, out, borrowed)
    ensures out == done || out + " " == done
    ensures Prefixed(done, UnescapeAll(parts[|parts|..])) == Ok(done)
  {
    SpacedSplit(input);
    assert parts[..|parts|] == parts && done + "" == done;
  }

  /** Unescapes all values. As long as nothing was escaped the result is the start of the input. */
  method UnescapeAttributeValues(input: string) returns (r: Result<string>)
    ensures '=' !in input ==> r == Ok(input)
    ensures '=' in input ==>
      match UnescapeAll(SplitSpaces(input))
      case Ok(unescaped) => r.Ok? && (r.value == unescaped || r.value + " " == unescaped)
      case Err(e) => r == Err(e)
  {
    if '=' !in input { return Ok(input); }
    var parts := SplitSpaces(input);
    var out, borrowed := "", true;
    ghost var done := "";
    assert parts[0..] == parts;
    PrefixedEmpty(UnescapeAll(parts));
    for i := 0 to |parts|
      invariant UnescapeAll(parts) == Prefixed(done, UnescapeAll(parts[i..]))
      invariant Progress(input, parts, i, done, out, borrowed)
    {
      UnescapeAllNext(done, parts, i);
      ProgressNext(input, parts, i, done, out, borrowed);
      var one, escaped := UnescapeOne(parts[i]);
      if one.Err? { return Err(one.error); }
      if borrowed && !escaped {
        out := Start(input, |out| + |parts[i]| + 1);
      } else {
        out, borrowed := out + one.value + " ", false;
      }
      done := done + one.value + " ";
    }
    ProgressEnds(input, parts, done, out, borrowed);
    return Ok(out);
  }

  lemma PrefixedEmpty(r: Result<string>)
    ensures Prefixed("", r) == r
  {
    if r.Ok? {
      assert "" + r.value == r.value;
    }
  }

  /** Applies all keywords as they are found. */
  method ParseLongKeywords(p: Pattern, body: string) returns (r: Result<Pattern>)
    ensures r == LongKeywords(p, body) && Join(Parts(body), ',') == body
    ensures if r.Ok? then KeywordsMean(p, Parts(body), r.value) else FailMeans(p, Parts(body), r.error)
  {
    LongMeaning(p, body);
    if body == [] { return Ok(p); }
    var q, last := p, 0;
    for i := 1 to |body|
      invariant last <= i && ApplyAll(q, Keywords(body, last, i)) == ApplyAll(p, Keywords(body, 0, 1))
    {
      if body[i - 1] != '\\' && body[i] == ',' {
        ApplyFirst(q, body[last..i], Keywords(body, i + 1, i + 1));
        var next := ApplyKeyword(q, body[last..i]);
        if next.Err? { return next; }
        q, last := next.value, i + 1;
      }
    }
    ApplyFirst(q, body[last..], []);
    assert [body[last..]] + [] == [body[last..]];
    r := ApplyKeyword(q, body[last..]);
  }

  function ApplyRest(r: Result<Pattern>, rest: seq<string>): Result<Pattern> {
    if r.Ok? then ApplyAll(r.value, rest) else r
  }

  lemma ApplyFirst(p: Pattern, keyword: string, rest: seq<string>)
    ensures ApplyAll(p, [keyword] + rest) == ApplyRest(Apply(p, keyword), rest)
  {
  }

  method ApplyKeyword(p: Pattern, keyword: string) returns (r: Result<Pattern>)
    ensures r == Apply(p, keyword)
  {
    if |keyword| > 4 && keyword[..5] == "attr:" {
      assert keyword[0] == 'a' && keyword[4] == ':' && "attr:" <= keyword;
      if p.attributes != [] { return Err(MultipleAttributeSpecifications); }
      var attributes := ParseAttributeList(keyword[5..]);
      match attributes {
        case Ok(found) => return Ok(p.(attributes := found));
        case Err(e) => return Err(e);
      }
    }
    return Apply(p, keyword);
  }

  function Appended(attributes: seq<Assignment>, r: Result<seq<Assignment>>): Result<seq<Assignment>> {
    if r.Ok? then Ok(attributes + r.value) else r
  }

  lemma FieldsNext(attributes: seq<Assignment>, fields: seq<string>, i: nat)
    requires i < |fields|
    ensures Appended(attributes, ParseFields(fields[i..])) ==
      var one := ParseAttr(fields[i]);
      if one.BadName? then Err(InvalidAttribute(one.name))
      else Appended(attributes + [one.assignment], ParseFields(fields[i + 1..]))
  {
    assert fields[i..][1..] == fields[i + 1..];
    var one, rest := ParseAttr(fields[i]), ParseFields(fields[i + 1..]);
    if one.Parsed? && rest.Ok? {
      assert attributes + ([one.assignment] + rest.value) == attributes + [one.assignment] + rest.value;
    }
  }

  method ParseAttributeList(input: string) returns (r: Result<seq<Assignment>>)
    ensures r == ParseAttributes(input)
  {
    if input == [] { return Err(EmptyAttribute); }
    var unescaped := UnescapeAttributeValues(input);
    if unescaped.Err? { return Err(unescaped.error); }
    FieldsTrailing(unescaped.value);
    var fields := Fields(unescaped.value);
    var attributes := [];
    assert fields[0..] == fields && Appended([], ParseFields(fields)) == ParseFields(fields) by {
      if ParseFields(fields).Ok? {
        assert [] + ParseFields(fields).value == ParseFields(fields).value;
      }
    }
    for i := 0 to |fields|
      invariant ParseFields(fields) == Appended(attributes, ParseFields(fields[i..]))
    {
      FieldsNext(attributes, fields, i);
      var one := ParseAttr(fields[i]);
      if one.BadName? { return Err(InvalidAttribute(one.name)); }
      attributes := attributes + [one.assignment];
    }
    assert ParseFields(fields[|fields|..]) == Ok([]) && attributes + [] == attributes;
    return Ok(attributes);
  }

  /** Parses long keywords if there are any. */
  method ParseLongMagic(input: string, p: Pattern, cursor: nat) returns (r: Result<(Pattern, nat)>)
    requires cursor <= |input| && (cursor < |input| && input[cursor] == '(' ==> cursor < IndexOf(input, ')'))
    ensures r == LongMagic(input, p, cursor)
  {
    if cursor == |input| || input[cursor] != '(' { return Ok((p, cursor)); }
    var end := IndexOf(input, ')');
    if end == |input| { return Err(MissingClosingParenthesis); }
    var long := ParseLongKeywords(p, input[cursor + 1..end]);
    if long.Err? { return Err(long.error); }
    return Ok((long.value, end + 1));
  }

  /** Parses the magic before the path. */
  method ParseMagic(input: string, signature: Signature) returns (r: Result<(Pattern, nat)>)
    ensures r == Magic(input, signature)
  {
    var p := EMPTY.(signature := signature);
    if input == [] || input[0] != ':' { return Ok((p, 0)); }
    var short; ghost var stop;
    short, stop := ParseShortKeywords(input, 1, signature);
    if short.Err? { return Err(short.error); }
    var cursor := short.value.1;
    assert forall k :: 0 <= k < cursor ==> input[k] != ')';
    r := ParseLongMagic(input, p.(signature := short.value.0), cursor);
  }

  /** Parses what is not taken literally. */
  method ParseMagicAndPath(input: string, defaults: Defaults) returns (r: Result<Pattern>)
    requires input != [] && !defaults.literal && input != ":"
    ensures r == Parse(input, defaults)
  {
    var magic := ParseMagic(input, defaults.signature);
    if magic.Err? { return Err(magic.error); }
    var (p, cursor) := magic.value;
    if defaults.searchMode != ShellGlob && p.searchMode == ShellGlob {
      p := p.(searchMode := defaults.searchMode);
    }
    var path := input[cursor..];
    if path != [] && path[|path| - 1] == '/' {
      p := p.(signature := p.signature.(mustBeDir := true));
      path := path[..|path| - 1];
    }
    return Ok(p.(path := path));
  }

  /** Parses a path specification. What was understood is what the text says. It is kept: printed and parsed without
      defaults it is the same, and its path is the end of the input. */
  method FromBytes(input: string, defaults: Defaults) returns (r: Result<Pattern>)
    ensures r == Parse(input, defaults)
    ensures r.Ok? ==> (r.value.nil <==> input == ":" && !defaults.literal)
    ensures r.Ok? && !defaults.literal ==> CanonicalPattern(r.value) && Parse(Print(r.value), NO_DEFAULTS) == r
    ensures r.Ok? ==> EndsWithPath(input, r.value.path)
    ensures r.Ok? && !defaults.literal && input != ":" ==> Understood(input, defaults, r.value)
    ensures input != [] && defaults.literal ==> r == Ok(Pattern(input, defaults.signature, Literal, [], false))
    ensures !defaults.literal && |input| > 1 && input[0] == ':' ==>
      forall stop: nat :: StopsAt(input, 1, stop) && stop < |input| && Unsupported(input[stop]) ==>
        r == Err(Unimplemented(input[stop]))
  {
    ParsedParts(input, defaults);
    ParsedMeaning(input, defaults);
    if input == [] {
      r := Err(EmptyString);
    } else if defaults.literal {
      r := Ok(FromLiteral(input, defaults.signature));
    } else if input == ":" {
      r := Ok(NIL);
    } else {
      r := ParseMagicAndPath(input, defaults);
    }
  }

  // ----- printing

  /** All words, each followed by a separator. */
  ghost function Trailing(words: seq<string>, separator: char): string {
    if words == [] then "" else words[0] + [separator] + Trailing(words[1..], separator)
  }

  lemma {:induction false} TrailingNext(words: seq<string>, word: string, separator: char)
    ensures Trailing(words + [word], separator) == Trailing(words, separator) + word + [separator]
  {
    if words == [] {
      assert words + [word] == [word];
      assert Trailing([word], separator) == word + [separator] + Trailing([], separator);
    } else {
      TrailingNext(words[1..], word, separator);
      assert (words + [word])[1..] == words[1..] + [word];
    }
  }

  lemma {:induction false} TrailingIsJoin(words: seq<string>, separator: char)
    requires words != []
    ensures Trailing(words, separator) == Join(words, separator) + [separator]
  {
    if |words| == 1 {
      assert Trailing(words, separator) == words[0] + [separator] + Trailing([], separator);
    } else {
      TrailingIsJoin(words[1..], separator);
    }
  }

  /** All assignments separated by spaces. */
  method PrintAttributes(attributes: seq<Assignment>) returns (buf: string)
    requires attributes != []
    ensures buf == Join(Escaped(attributes), ' ')
  {
    buf := "";
    for i := 0 to |attributes|
      invariant buf == Trailing(Escaped(attributes)[..i], ' ')
    {
      var attr := EscapeCommas(Display(attributes[i]));
      TrailingNext(Escaped(attributes)[..i], attr, ' ');
      assert Escaped(attributes)[..i + 1] == Escaped(attributes)[..i] + [attr];
      buf := buf + attr + " ";
    }
    assert Escaped(attributes)[..|attributes|] == Escaped(attributes);
    TrailingIsJoin(Escaped(attributes), ' ');
    buf := buf[..|buf| - 1];
  }

  /** Adds a keyword and a comma if it is called for. */
  method PushKeyword(buf: string, condition: bool, keyword: string, ghost words: seq<string>) returns (next: string)
    requires buf == ":(" + Trailing(words, ',')
    ensures next == ":(" + Trailing(words + When(condition, keyword), ',')
  {
    if !condition {
      assert words + [] == words;
      return buf;
    }
    TrailingNext(words, keyword, ',');
    return buf + keyword + ",";
  }

  /** Adds the keywords for all but the attributes, each followed by a comma. */
  method PrintKeywords(p: Pattern) returns (buf: string)
    ensures buf == ":(" + Trailing(PlainWords(p), ',')
  {
    ghost var w1 := When(p.signature.top, "top");
    ghost var w2 := w1 + When(p.signature.exclude, "exclude");
    ghost var w3 := w2 + When(p.signature.icase, "icase");
    ghost var w4 := w3 + When(p.searchMode.Literal?, "literal");
    assert [] + w1 == w1;
    buf := PushKeyword(":(", p.signature.top, "top", []);
    buf := PushKeyword(buf, p.signature.exclude, "exclude", w1);
    buf := PushKeyword(buf, p.signature.icase, "icase", w2);
    buf := PushKeyword(buf, p.searchMode.Literal?, "literal", w3);
    buf := PushKeyword(buf, p.searchMode.PathAwareGlob?, "glob", w4);
  }

  lemma JoinAfter(words: seq<string>, word: string, separator: char)
    ensures Trailing(words, separator) + word == Join(words + [word], separator)
  {
    TrailingNext(words, word, separator);
    TrailingIsJoin(words + [word], separator);
    var a, b := Trailing(words, separator) + word, Join(words + [word], separator);
    assert a == (a + [separator])[..|a|] && b == (b + [separator])[..|b|];
  }

  lemma AttributesLast(words: seq<string>, attr: string)
    ensures ":(" + Trailing(words, ',') + "attr:" + attr == ":(" + Join(words + ["attr:" + attr], ',')
  {
    JoinAfter(words, "attr:" + attr, ',');
    assert ":(" + Trailing(words, ',') + "attr:" + attr == ":(" + (Trailing(words, ',') + ("attr:" + attr));
  }

  lemma CommaLast(words: seq<string>)
    ensures ":(" + Trailing(words, ',') == ":(" + Join(words, ',') + if words == [] then "" else ","
  {
    if words != [] { TrailingIsJoin(words, ','); }
  }

  /** Adds the attributes, or takes back the comma after the last keyword. */
  method PrintLast(buf: string, attributes: seq<Assignment>, ghost words: seq<string>) returns (next: string)
    requires buf == ":(" + Trailing(words, ',')
    ensures next == ":(" + Join(words + When(attributes != [], "attr:" + Join(Escaped(attributes), ' ')), ',')
  {
    if attributes != [] {
      var attr := PrintAttributes(attributes);
      AttributesLast(words, attr);
      return buf + "attr:" + attr;
    }
    assert words + [] == words;
    CommaLast(words);
    next := buf;
    if next[|next| - 1] == ',' {
      next := next[..|next| - 1];
    }
  }

  /** Prints a path specification in its long form. */
  method ToBytes(p: Pattern) returns (buf: string)
    ensures buf == Print(p)
  {
    if p.nil { return ":"; }
    buf := PrintKeywords(p);
    buf := PrintLast(buf, p.attributes, PlainWords(p));
    buf := buf + ")" + p.path;
    if p.signature.mustBeDir {
      buf := buf + "/";
    }
  }
}
