/** Printing a path specification and parsing it again. */
module PathspecRoundTrip {
  import opened Attributes
  import opened Pathspec

  // ----- what parsing yields

  /** An assignment that can be written down, with a value that needs no quoting but for commas. */
  predicate Canonical(a: Assignment) {
    Writable(a) && (a.state.Value? ==> IsValue(a.state.value))
  }

  predicate AllCanonical(attributes: seq<Assignment>) {
    forall i :: 0 <= i < |attributes| ==> Canonical(attributes[i])
  }

  /** A pattern whose path does not end in a slash, unless one more slash says that it has to be a directory. */
  predicate CanonicalPattern(p: Pattern) {
    && (p.nil ==> p == NIL)
    && AllCanonical(p.attributes)
    && (!p.signature.mustBeDir && p.path != [] ==> p.path[|p.path| - 1] != '/')
  }

  /** Behind an equals sign and up to the next white space there are only value bytes. */
  predicate Clean(s: string, inValue: bool) {
    s == [] ||
    if IsSpace(s[0]) then Clean(s[1..], false)
    else if inValue then IsValueByte(s[0]) && Clean(s[1..], true)
    else Clean(s[1..], s[0] == '=')
  }

  lemma {:induction false} CleanWithoutEquals(s: string)
    requires '=' !in s
    ensures Clean(s, false)
  {
    if s != [] {
      assert s[0] in s && forall c :: c in s[1..] ==> c in s;
      CleanWithoutEquals(s[1..]);
    }
  }

  /** A value followed by a space. */
  lemma {:induction false} CleanAfterValue(v: string, rest: string)
    requires IsValue(v) && Clean(rest, false)
    ensures Clean(v + " " + rest, true)
  {
    var s := v + " " + rest;
    if v == [] {
      assert s[1..] == rest;
    } else {
      assert s[1..] == v[1..] + " " + rest;
      CleanAfterValue(v[1..], rest);
    }
  }

  /** A name with at most one equals sign, at its end, followed by a value and a space. */
  lemma {:induction false} CleanAfterName(name: string, v: string, rest: string)
    requires forall i :: 0 <= i < |name| - 1 ==> name[i] != '='
    requires IsValue(v) && Clean(rest, false)
    requires v == [] || (name != [] && name[|name| - 1] == '=')
    ensures Clean(name + v + " " + rest, false)
  {
    var s := name + v + " " + rest;
    if name == [] {
      assert s == " " + rest && s[1..] == rest;
    } else if |name| == 1 {
      assert s[1..] == v + " " + rest;
      CleanAfterValue(v, rest);
      if v == [] && name[0] != '=' {
        assert s[1..][1..] == rest;
      }
    } else {
      assert s[1..] == name[1..] + v + " " + rest;
      CleanAfterName(name[1..], v, rest);
    }
  }

  lemma {:induction false} UnescapedIsValue(v: string)
    ensures UnescapeValue(v).Ok? ==> IsValue(UnescapeValue(v).value)
    decreases |v|
  {
    if v != [] && v != "\\" {
      UnescapedIsValue(if v[0] == '\\' then v[2..] else v[1..]);
    }
  }

  lemma {:induction false} UnescapedIsClean(parts: seq<string>)
    ensures UnescapeAll(parts).Ok? ==> Clean(UnescapeAll(parts).value, false)
  {
    if parts != [] && UnescapeAll(parts).Ok? {
      UnescapedIsClean(parts[1..]);
      var attr := parts[0];
      var n, rest := ValueStart(attr), UnescapeAll(parts[1..]).value;
      UnescapedIsValue(attr[n..]);
      var v := UnescapeValue(attr[n..]).value;
      if n == |attr| {
        assert attr[n..] == [] && v == [];
      }
      CleanAfterName(attr[..n], v, rest);
    }
  }

  lemma {:induction false} CleanField(s: string, n: nat, inValue: bool)
    requires Clean(s, inValue) && n <= |s| && NoSpace(s[..n]) && (n < |s| ==> IsSpace(s[n]))
    ensures Clean(s[..n], inValue) && Clean(s[n..], false)
  {
    if n > 0 {
      var t := s[1..];
      assert s[0] == s[..n][0] && t[..n - 1] == s[..n][1..] && t[n - 1..] == s[n..];
      CleanField(t, n - 1, if inValue then true else s[0] == '=');
    }
  }

  predicate AllClean(fields: seq<string>) {
    forall i :: 0 <= i < |fields| ==> Clean(fields[i], false)
  }

  lemma {:induction false} CleanFields(s: string)
    requires Clean(s, false)
    ensures AllClean(Fields(s))
    decreases |s|
  {
    if s != [] {
      if IsSpace(s[0]) {
        CleanFields(s[1..]);
      } else {
        var n := FieldLength(s);
        CleanField(s, n, false);
        CleanFields(s[n..]);
      }
    }
  }

  lemma {:induction false} CleanTail(s: string)
    requires Clean(s, true) && NoSpace(s)
    ensures IsValue(s)
  {
    if s != [] {
      CleanTail(s[1..]);
    }
  }

  lemma {:induction false} CleanValue(s: string)
    requires Clean(s, false) && NoSpace(s) && IndexOf(s, '=') < |s|
    ensures IsValue(s[IndexOf(s, '=') + 1..])
  {
    if s[0] == '=' {
      CleanTail(s[1..]);
    } else {
      CleanValue(s[1..]);
      assert s[1..][IndexOf(s[1..], '=') + 1..] == s[IndexOf(s, '=') + 1..];
    }
  }

  lemma {:induction false} ParsedFieldsCanonical(fields: seq<string>)
    requires AreFields(fields) && AllClean(fields)
    ensures ParseFields(fields).Ok? ==> AllCanonical(ParseFields(fields).value)
  {
    if fields != [] && ParseFields(fields).Ok? {
      var f := fields[0];
      assert IsField(f) && Clean(f, false);
      ParsedIsWritable(f);
      if ParseAttr(f).assignment.state.Value? {
        CleanValue(f);
      }
      ParsedFieldsCanonical(fields[1..]);
    }
  }

  lemma AttributesCanonical(input: string)
    ensures ParseAttributes(input).Ok? ==> AllCanonical(ParseAttributes(input).value)
  {
    if input != [] && ParseAttributes(input).Ok? {
      if '=' !in input {
        CleanWithoutEquals(input);
        CleanFields(input);
        ParsedFieldsCanonical(Fields(input));
      } else {
        var unescaped := UnescapeAll(SplitSpaces(input)).value;
        UnescapedIsClean(SplitSpaces(input));
        CleanFields(unescaped);
        ParsedFieldsCanonical(Fields(unescaped));
      }
    }
  }

  lemma {:induction false} KeywordsCanonical(p: Pattern, keywords: seq<string>)
    requires AllCanonical(p.attributes)
    ensures ApplyAll(p, keywords).Ok? ==>
      var q := ApplyAll(p, keywords).value;
      AllCanonical(q.attributes) && q.nil == p.nil && q.path == p.path && q.signature.mustBeDir == p.signature.mustBeDir
    decreases |keywords|
  {
    if keywords != [] && ApplyAll(p, keywords).Ok? {
      if "attr:" <= keywords[0] {
        AttributesCanonical(keywords[0][5..]);
      }
      KeywordsCanonical(Apply(p, keywords[0]).value, keywords[1..]);
    }
  }

  /** Whatever is parsed, not literally, is canonical. */
  lemma ParsedIsCanonical(input: string, defaults: Defaults)
    requires !defaults.literal
    ensures Parse(input, defaults).Ok? ==> CanonicalPattern(Parse(input, defaults).value)
  {
    if Parse(input, defaults).Ok? && input != ":" {
      MagicCanonical(input, defaults.signature);
    }
  }

  lemma MagicCanonical(input: string, signature: Signature)
    ensures Magic(input, signature).Ok? ==>
      AllCanonical(Magic(input, signature).value.0.attributes) && !Magic(input, signature).value.0.nil
  {
    if input != [] && input[0] == ':' && Magic(input, signature).Ok? {
      var (combined, cursor) := ShortKeywords(input, 1, signature).value;
      if cursor < |input| && input[cursor] == '(' {
        var body := input[cursor + 1..IndexOf(input, ')')];
        if body != [] {
          KeywordsCanonical(EMPTY.(signature := combined), Keywords(body, 0, 1));
        }
      }
    }
  }

  // ----- attributes come back

  lemma {:induction false} UnescapeEscaped(v: string)
    requires IsValue(v)
    ensures UnescapeValue(EscapeCommas(v)) == Ok(v)
  {
    if v != [] {
      UnescapeEscaped(v[1..]);
      var text, rest := EscapeCommas(v), EscapeCommas(v[1..]);
      assert IsValueByte(v[0]);
      if v[0] == ',' {
        assert text[2..] == rest;
      } else {
        assert text[1..] == rest && text[0] != '\\';
      }
      assert v == [v[0]] + v[1..];
    }
  }

  lemma {:induction false} EscapeConcat(a: string, b: string)
    ensures EscapeCommas(a + b) == EscapeCommas(a) + EscapeCommas(b)
  {
    if a == [] {
      assert a + b == b;
    } else {
      EscapeConcat(a[1..], b);
      assert (a + b)[1..] == a[1..] + b;
      var first := if a[0] == ',' then "\\," else [a[0]];
      assert EscapeCommas(a + b) == first + EscapeCommas(a[1..] + b);
      assert first + (EscapeCommas(a[1..]) + EscapeCommas(b)) == first + EscapeCommas(a[1..]) + EscapeCommas(b);
    }
  }

  lemma {:induction false} EscapeNothing(s: string)
    requires forall i :: 0 <= i < |s| ==> s[i] != ','
    ensures EscapeCommas(s) == s
  {
    if s != [] {
      EscapeNothing(s[1..]);
    }
  }

  /** What comes before the value, and the value. */
  function Head(a: Assignment): string {
    match a.state
    case Set => a.name
    case Unset => "-" + a.name
    case Value(v) => a.name + "="
    case Unspecified => "!" + a.name
  }

  function Tail(a: Assignment): string { if a.state.Value? then a.state.value else "" }

  predicate IsHeadByte(c: char) { IsNameByte(c) || c == '=' || c == '!' }

  lemma HeadAndTail(a: Assignment)
    requires Canonical(a)
    ensures Display(a) == Head(a) + Tail(a) && Display(a) != [] && IsValue(Tail(a))
    ensures forall i :: 0 <= i < |Head(a)| ==> IsHeadByte(Head(a)[i])
    ensures IndexOf(Head(a), '=') == if a.state.Value? then |a.name| else |Head(a)|
    ensures !a.state.Value? ==> Tail(a) == []
  {
    assert forall i :: 0 <= i < |a.name| ==> IsNameByte(a.name[i]);
    IndexUnique(Head(a), '=', if a.state.Value? then |a.name| else |Head(a)|);
  }

  lemma EscapedSplits(a: Assignment)
    requires Canonical(a)
    ensures EscapeCommas(Display(a)) == Head(a) + EscapeCommas(Tail(a))
  {
    HeadAndTail(a);
    EscapeConcat(Head(a), Tail(a));
    EscapeNothing(Head(a));
  }

  lemma UnescapeAttrEscaped(a: Assignment)
    requires Canonical(a)
    ensures UnescapeAttr(EscapeCommas(Display(a))) == Ok(Display(a))
  {
    HeadAndTail(a);
    EscapedSplits(a);
    UnescapeEscaped(Tail(a));
    var head, text := Head(a), EscapeCommas(Display(a));
    assert forall i :: 0 <= i < |head| ==> text[i] == head[i];
    IndexUnique(text, '=', IndexOf(head, '='));
    assert ValueStart(text) == |head|;
    assert text[..|head|] == head && text[|head|..] == EscapeCommas(Tail(a));
  }

  function Displays(attributes: seq<Assignment>): seq<string> {
    seq(|attributes|, i requires 0 <= i < |attributes| => Display(attributes[i]))
  }

  lemma {:induction false} UnescapeAllEscaped(attributes: seq<Assignment>)
    requires AllCanonical(attributes)
    ensures UnescapeAll(Escaped(attributes)) == Ok(Spaced(Displays(attributes)))
  {
    if attributes != [] {
      var escaped, displays := Escaped(attributes), Displays(attributes);
      UnescapeAttrEscaped(attributes[0]);
      UnescapeAllEscaped(attributes[1..]);
      assert escaped[1..] == Escaped(attributes[1..]) && displays[1..] == Displays(attributes[1..]);
      assert UnescapeAll(escaped) == Ok(displays[0] + " " + Spaced(displays[1..]));
    }
  }

  lemma ParseFirst(field: string, a: Assignment, fields: seq<string>, rest: seq<Assignment>)
    requires ParseAttr(field) == Parsed(a) && ParseFields(fields) == Ok(rest)
    ensures ParseFields([field] + fields) == Ok([a] + rest)
  {
  }

  lemma {:induction false} ParseDisplays(attributes: seq<Assignment>)
    requires AllCanonical(attributes)
    ensures ParseFields(Displays(attributes)) == Ok(attributes)
  {
    if attributes != [] {
      var a, rest := attributes[0], attributes[1..];
      AttrRoundTrip(a);
      ParseDisplays(rest);
      ParseFirst(Display(a), a, Displays(rest), rest);
      assert Displays(attributes) == [Display(a)] + Displays(rest);
      assert attributes == [a] + rest;
    }
  }

  predicate CommaEscaped(s: string, k: nat)
    requires k < |s|
  {
    s[k] == ',' ==> k > 0 && s[k - 1] == '\\'
  }

  /** Without white space or closing parentheses, with all commas escaped, and not ending in an escape. */
  predicate Safe(s: string) {
    && (forall k :: 0 <= k < |s| ==> s[k] != ')')
    && (forall k :: 0 <= k < |s| ==> CommaEscaped(s, k))
    && (s != [] ==> s[|s| - 1] != '\\')
  }

  lemma SafeConcat(a: string, b: string)
    requires Safe(a) && Safe(b)
    ensures Safe(a + b)
  {
    var s := a + b;
    forall k | 0 <= k < |s| ensures CommaEscaped(s, k) {
      if k >= |a| {
        assert CommaEscaped(b, k - |a|);
      } else {
        assert CommaEscaped(a, k);
      }
    }
  }

  lemma {:induction false} EscapedValueSafe(v: string)
    requires IsValue(v)
    ensures Safe(EscapeCommas(v)) && NoSpace(EscapeCommas(v))
  {
    if v != [] {
      EscapedValueSafe(v[1..]);
      assert IsValueByte(v[0]);
      var first := if v[0] == ',' then "\\," else [v[0]];
      assert Safe(first);
      SafeConcat(first, EscapeCommas(v[1..]));
    }
  }

  lemma HeadSafe(a: Assignment)
    requires Canonical(a)
    ensures Safe(Head(a)) && NoSpace(Head(a)) && NoSpace(Tail(a))
  {
  }

  lemma NoSpaceConcat(a: string, b: string)
    requires NoSpace(a) && NoSpace(b)
    ensures NoSpace(a + b)
  {
  }

  lemma EscapedSafe(a: Assignment)
    requires Canonical(a)
    ensures Safe(EscapeCommas(Display(a))) && IsField(EscapeCommas(Display(a))) && IsField(Display(a))
  {
    var head, tail := Head(a), Tail(a);
    HeadAndTail(a);
    HeadSafe(a);
    EscapedSplits(a);
    EscapedValueSafe(tail);
    SafeConcat(head, EscapeCommas(tail));
    NoSpaceConcat(head, tail);
    NoSpaceConcat(head, EscapeCommas(tail));
  }

  predicate IsWord(s: string) { s != [] && Safe(s) }

  predicate AllSafe(parts: seq<string>) { forall i :: 0 <= i < |parts| ==> IsWord(parts[i]) }

  lemma {:induction false} SafeJoin(parts: seq<string>, separator: char)
    requires AllSafe(parts) && separator == ' '
    ensures Safe(Join(parts, separator))
  {
    assert |parts| == 1 ==> IsWord(parts[0]);
    if |parts| > 1 {
      SafeJoin(parts[1..], separator);
      assert IsWord(parts[0]);
      assert Safe([separator]);
      SafeConcat(parts[0], [separator]);
      SafeConcat(parts[0] + [separator], Join(parts[1..], separator));
    }
  }

  lemma SplitFirst(first: string, rest: string)
    requires IsField(first)
    ensures SplitSpaces(first) == [first] && SplitSpaces(first + " " + rest) == [first] + SplitSpaces(rest)
  {
    var text := first + " " + rest;
    assert forall k :: 0 <= k < |first| ==> !IsSpace(first[k]) && text[k] == first[k];
    IndexUnique(first, ' ', |first|);
    IndexUnique(text, ' ', |first|);
    assert text[..|first|] == first && text[|first| + 1..] == rest;
  }

  lemma {:induction false} SplitJoined(parts: seq<string>)
    requires parts != [] && AreFields(parts)
    ensures SplitSpaces(Join(parts, ' ')) == parts && Join(parts, ' ') != []
  {
    assert IsField(parts[0]);
    if |parts| == 1 {
      SplitFirst(parts[0], "");
    } else {
      SplitJoined(parts[1..]);
      SplitFirst(parts[0], Join(parts[1..], ' '));
    }
  }

  predicate NoEquals(s: string) { forall k :: 0 <= k < |s| ==> s[k] != '=' }

  lemma UnescapePlain(part: string)
    requires NoEquals(part)
    ensures UnescapeAttr(part) == Ok(part)
  {
    IndexUnique(part, '=', |part|);
    assert ValueStart(part) == |part| && part[|part|..] == "" && part[..|part|] + "" == part;
    assert UnescapeValue("") == Ok("");
  }

  lemma UnescapeFirst(part: string, parts: seq<string>)
    requires UnescapeAttr(part) == Ok(part) && UnescapeAll(parts).Ok?
    ensures UnescapeAll([part] + parts) == Ok(part + " " + UnescapeAll(parts).value)
  {
  }

  /** Without an equals sign there is nothing to unescape. */
  lemma {:induction false} UnescapeNothing(s: string)
    requires NoEquals(s)
    ensures UnescapeAll(SplitSpaces(s)) == Ok(s + " ")
    decreases |s|
  {
    var i := IndexOf(s, ' ');
    UnescapePlain(s[..i]);
    if i == |s| {
      assert s[..i] == s && [s] + [] == [s] && s + " " + "" == s + " ";
      UnescapeFirst(s, []);
    } else {
      UnescapeNothing(s[i + 1..]);
      UnescapeFirst(s[..i], SplitSpaces(s[i + 1..]));
      SpaceAt(s, i);
    }
  }

  /** Whether or not there are equals signs, all values are unescaped before the fields are parsed. */
  lemma ParseUnescaped(input: string)
    requires input != []
    ensures ParseAttributes(input) ==
      match UnescapeAll(SplitSpaces(input)) case Err(e) => Err(e) case Ok(text) => ParseFields(Fields(text))
  {
    if '=' !in input {
      assert forall k :: 0 <= k < |input| ==> input[k] in input;
      UnescapeNothing(input);
      FieldsTrailing(input);
    }
  }

  lemma AttributesRoundTrip(attributes: seq<Assignment>)
    requires AllCanonical(attributes) && attributes != []
    ensures ParseAttributes(Join(Escaped(attributes), ' ')) == Ok(attributes)
    ensures Safe(Join(Escaped(attributes), ' '))
  {
    forall i | 0 <= i < |attributes|
      ensures IsField(Displays(attributes)[i]) && IsField(Escaped(attributes)[i]) && IsWord(Escaped(attributes)[i])
    {
      EscapedSafe(attributes[i]);
    }
    SafeJoin(Escaped(attributes), ' ');
    SplitJoined(Escaped(attributes));
    ParseUnescaped(Join(Escaped(attributes), ' '));
    UnescapeAllEscaped(attributes);
    FieldsSpaced(Displays(attributes));
    ParseDisplays(attributes);
  }

  // ----- keywords come back

  /** Positions that are not cut are passed over. */
  lemma {:induction false} PassOver(s: string, last: nat, i: nat, j: nat)
    requires last <= i <= j && last <= |s| && 1 <= i && j <= |s|
    requires forall k :: i <= k < j ==> CommaEscaped(s, k)
    ensures Keywords(s, last, i) == Keywords(s, last, j)
    decreases j - i
  {
    if i < j {
      assert CommaEscaped(s, i);
      PassOver(s, last, i + 1, j);
    }
  }

  /** The first position at which a part that starts at `last` may end. */
  function Start(last: nat): nat { if last == 0 then 1 else last }

  /** Inside a safe word nothing is cut. */
  lemma WordUncut(s: string, last: nat, w: string)
    requires IsWord(w) && last + |w| <= |s| && s[last..last + |w|] == w
    ensures forall k :: Start(last) <= k < last + |w| ==> CommaEscaped(s, k)
  {
    forall k | Start(last) <= k < last + |w| ensures CommaEscaped(s, k) {
      assert CommaEscaped(w, k - last);
      assert w[k - last] == s[k] && (k > last ==> w[k - last - 1] == s[k - 1]);
    }
  }

  lemma NextKeyword(s: string, last: nat, i: nat, to: nat)
    requires last <= i <= to < |s| && 1 <= i && (forall k :: i <= k < to ==> CommaEscaped(s, k))
    requires s[to] == ',' && s[to - 1] != '\\'
    ensures Keywords(s, last, i) == [s[last..to]] + Keywords(s, to + 1, to + 1)
  {
    PassOver(s, last, i, to);
  }

  lemma {:induction false} KeywordsJoined(s: string, last: nat, words: seq<string>)
    requires words != [] && AllSafe(words) && last <= |s| && s[last..] == Join(words, ',')
    ensures Keywords(s, last, Start(last)) == words
    decreases |words|
  {
    var w, rest := words[0], s[last..];
    assert IsWord(w);
    assert s[last..last + |w|] == rest[..|w|] == w;
    if |words| == 1 {
      WordUncut(s, last, w);
      PassOver(s, last, Start(last), last + |w|);
    } else {
      assert s[last + |w|] == rest[|w|] == ',';
      assert s[last + |w| - 1] == w[|w| - 1];
      WordUncut(s, last, w);
      NextKeyword(s, last, Start(last), last + |w|);
      assert s[last + |w| + 1..] == rest[|w| + 1..] == Join(words[1..], ',');
      KeywordsJoined(s, last + |w| + 1, words[1..]);
    }
  }

  lemma {:induction false} ApplyConcat(p: Pattern, a: seq<string>, b: seq<string>)
    ensures ApplyAll(p, a + b) == match ApplyAll(p, a) case Ok(q) => ApplyAll(q, b) case Err(e) => Err(e)
    decreases |a|
  {
    if a == [] {
      assert a + b == b;
    } else {
      assert (a + b)[1..] == a[1..] + b;
      if Apply(p, a[0]).Ok? {
        ApplyConcat(Apply(p, a[0]).value, a[1..], b);
      }
    }
  }

  /** An optional keyword with a known effect. */
  lemma ApplyWhen(p: Pattern, words: seq<string>, q: Pattern, condition: bool, keyword: string, r: Pattern)
    requires ApplyAll(p, words) == Ok(q)
    requires if condition then Apply(q, keyword) == Ok(r) else q == r
    ensures ApplyAll(p, words + When(condition, keyword)) == Ok(r)
  {
    ApplyConcat(p, words, When(condition, keyword));
    if condition {
      assert When(condition, keyword)[1..] == [];
    }
  }

  lemma AttrApplied(p: Pattern, text: string)
    requires p.attributes == [] && ParseAttributes(text).Ok?
    ensures Apply(p, "attr:" + text) == Ok(p.(attributes := ParseAttributes(text).value))
  {
    var keyword := "attr:" + text;
    assert keyword[0] == 'a' && keyword[4] == ':';
    assert keyword[..5] == "attr:" && keyword[5..] == text;
  }

  lemma AttrKeyword(p: Pattern, attributes: seq<Assignment>)
    requires AllCanonical(attributes) && attributes != [] && p.attributes == []
    ensures Apply(p, "attr:" + Join(Escaped(attributes), ' ')) == Ok(p.(attributes := attributes))
  {
    AttributesRoundTrip(attributes);
    AttrApplied(p, Join(Escaped(attributes), ' '));
  }

  /** All but the path and what a trailing slash says. */
  function WithoutPath(p: Pattern): Pattern { p.(path := "", signature := p.signature.(mustBeDir := false)) }

  lemma WordsApplied(p: Pattern)
    requires CanonicalPattern(p) && !p.nil
    ensures ApplyAll(EMPTY, Words(p)) == Ok(WithoutPath(p))
  {
    var p0 := EMPTY;
    var p1 := p0.(signature := NO_SIGNATURE.(top := p.signature.top));
    var p2 := p1.(signature := p1.signature.(exclude := p.signature.exclude));
    var p3 := p2.(signature := p2.signature.(icase := p.signature.icase));
    var p4 := p3.(searchMode := if p.searchMode.Literal? then Literal else ShellGlob);
    var p5 := p3.(searchMode := p.searchMode);
    var w1 := When(p.signature.top, "top");
    var w2 := w1 + When(p.signature.exclude, "exclude");
    var w3 := w2 + When(p.signature.icase, "icase");
    var w4 := w3 + When(p.searchMode.Literal?, "literal");
    var w5 := w4 + When(p.searchMode.PathAwareGlob?, "glob");
    assert [] + w1 == w1;
    ApplyWhen(p0, [], p0, p.signature.top, "top", p1);
    ApplyWhen(p0, w1, p1, p.signature.exclude, "exclude", p2);
    ApplyWhen(p0, w2, p2, p.signature.icase, "icase", p3);
    ApplyWhen(p0, w3, p3, p.searchMode.Literal?, "literal", p4);
    ApplyWhen(p0, w4, p4, p.searchMode.PathAwareGlob?, "glob", p5);
    if p.attributes != [] {
      AttrKeyword(p5, p.attributes);
    }
    ApplyWhen(p0, w5, p5, p.attributes != [], "attr:" + Join(Escaped(p.attributes), ' '), WithoutPath(p));
  }

  lemma WhenSafe(words: seq<string>, condition: bool, keyword: string)
    requires AllSafe(words) && (condition ==> IsWord(keyword))
    ensures AllSafe(words + When(condition, keyword))
  {
  }

  lemma LiteralWords()
    ensures IsWord("top") && IsWord("exclude") && IsWord("icase") && IsWord("literal") && IsWord("glob")
    ensures IsWord("attr:")
  {
  }

  lemma WordsSafe(p: Pattern)
    requires CanonicalPattern(p)
    ensures AllSafe(Words(p))
  {
    LiteralWords();
    var attr := "attr:" + Join(Escaped(p.attributes), ' ');
    if p.attributes != [] {
      AttributesRoundTrip(p.attributes);
      SafeConcat("attr:", Join(Escaped(p.attributes), ' '));
    }
    WordsSafeWith(p, attr);
  }

  lemma WordsSafeWith(p: Pattern, attr: string)
    requires attr == "attr:" + Join(Escaped(p.attributes), ' ') && (p.attributes != [] ==> IsWord(attr))
    ensures AllSafe(Words(p))
  {
    LiteralWords();
    var w1 := When(p.signature.top, "top");
    WhenSafe(w1, p.signature.exclude, "exclude");
    var w2 := w1 + When(p.signature.exclude, "exclude");
    WhenSafe(w2, p.signature.icase, "icase");
    var w3 := w2 + When(p.signature.icase, "icase");
    WhenSafe(w3, p.searchMode.Literal?, "literal");
    var w4 := w3 + When(p.searchMode.Literal?, "literal");
    WhenSafe(w4, p.searchMode.PathAwareGlob?, "glob");
    var w5 := w4 + When(p.searchMode.PathAwareGlob?, "glob");
    WhenSafe(w5, p.attributes != [], attr);
  }

  lemma {:induction false} JoinHasNoClosing(words: seq<string>)
    requires AllSafe(words)
    ensures forall k :: 0 <= k < |Join(words, ',')| ==> Join(words, ',')[k] != ')'
    ensures words != [] ==> Join(words, ',') != []
  {
    if |words| > 1 {
      JoinHasNoClosing(words[1..]);
    }
    assert words != [] ==> IsWord(words[0]);
  }

  lemma WordsRoundTrip(p: Pattern)
    requires CanonicalPattern(p) && !p.nil
    ensures LongKeywords(EMPTY, Join(Words(p), ',')) == Ok(WithoutPath(p))
  {
    WordsApplied(p);
    WordsSafe(p);
    JoinHasNoClosing(Words(p));
    if Words(p) != [] {
      KeywordsJoined(Join(Words(p), ','), 0, Words(p));
    }
  }

  lemma MagicRoundTrip(body: string, rest: string)
    requires forall k :: 0 <= k < |body| ==> body[k] != ')'
    requires LongKeywords(EMPTY, body).Ok?
    ensures Magic(":(" + body + ")" + rest, NO_SIGNATURE) == Ok((LongKeywords(EMPTY, body).value, |body| + 3))
  {
    var input := ":(" + body + ")" + rest;
    assert input[0] == ':' && input[1] == '(';
    assert ShortKeywords(input, 1, NO_SIGNATURE) == Ok((NO_SIGNATURE, 1));
    assert forall k :: 0 <= k < |body| ==> input[k + 2] == body[k];
    IndexUnique(input, ')', |body| + 2);
    assert input[2..|body| + 2] == body;
  }

  function Suffix(p: Pattern): string { p.path + if p.signature.mustBeDir then "/" else "" }

  lemma PathRoundTrip(p: Pattern)
    requires CanonicalPattern(p)
    ensures WithPath(WithoutPath(p), Suffix(p)) == p
  {
  }

  lemma CanonicalComesBack(p: Pattern)
    requires CanonicalPattern(p) && !p.nil
    ensures Parse(Print(p), NO_DEFAULTS) == Ok(p)
  {
    var body, rest := Join(Words(p), ','), Suffix(p);
    WordsSafe(p);
    JoinHasNoClosing(Words(p));
    WordsRoundTrip(p);
    MagicRoundTrip(body, rest);
    PathRoundTrip(p);
    var input := ":(" + body + ")" + rest;
    assert Print(p) == input && input[|body| + 3..] == rest;
    assert |input| > 1 && input != ":";
  }

  /** Exactly the canonical patterns come back when they are printed and parsed again. */
  lemma RoundTrip(p: Pattern)
    ensures Parse(Print(p), NO_DEFAULTS) == Ok(p) <==> CanonicalPattern(p)
  {
    ParsedIsCanonical(Print(p), NO_DEFAULTS);
    if CanonicalPattern(p) && !p.nil {
      CanonicalComesBack(p);
    }
  }

  /** Every path specification that is not taken literally comes back. */
  lemma ParsedComesBack(input: string, defaults: Defaults)
    requires !defaults.literal && Parse(input, defaults).Ok?
    ensures Parse(Print(Parse(input, defaults).value), NO_DEFAULTS) == Parse(input, defaults)
  {
    ParsedIsCanonical(input, defaults);
    RoundTrip(Parse(input, defaults).value);
  }

  /** `path` is the end of `input`, up to a slash behind it. */
  ghost predicate EndsWithPath(input: string, path: string) {
    exists k: nat :: k <= |input| && (input[k..] == path || input[k..] == path + "/")
  }

  lemma EndsAt(input: string, cursor: nat, p: Pattern)
    requires cursor <= |input|
    ensures EndsWithPath(input, WithPath(p, input[cursor..]).path)
  {
    var rest := input[cursor..];
    assert rest != [] && rest[|rest| - 1] == '/' ==> rest == rest[..|rest| - 1] + "/";
  }

  /** What was understood is kept: it comes back, and its path is the end of the input. */
  lemma ParsedParts(input: string, defaults: Defaults)
    ensures var r := Parse(input, defaults);
      r.Ok? ==>
        && (r.value.nil <==> input == ":" && !defaults.literal)
        && EndsWithPath(input, r.value.path)
        && (!defaults.literal ==> CanonicalPattern(r.value) && Parse(Print(r.value), NO_DEFAULTS) == r)
  {
    var r := Parse(input, defaults);
    if r.Err? { return; }
    if defaults.literal {
      assert input[0..] == input;
    } else if input == ":" {
      assert input[1..] == "";
      ParsedComesBack(input, defaults);
    } else {
      ParsedIsCanonical(input, defaults);
      ParsedComesBack(input, defaults);
      MagicCanonical(input, defaults.signature);
      var (p, cursor) := Magic(input, defaults.signature).value;
      EndsAt(input, cursor, p);
    }
  }

  /** A literal one comes back unless it ends in a slash that its signature does not call for. */
  lemma LiteralComesBack(input: string, defaults: Defaults)
    requires defaults.literal && input != []
    ensures Parse(Print(Parse(input, defaults).value), NO_DEFAULTS) == Parse(input, defaults) <==>
      defaults.signature.mustBeDir || input[|input| - 1] != '/'
  {
    RoundTrip(FromLiteral(input, defaults.signature));
  }

  /** Taken literally, `a/` is printed with its slash, which parsing takes as a sign that only directories match. */
  lemma LiteralSlashIsLost(defaults: Defaults)
    requires defaults.literal && !defaults.signature.mustBeDir
    ensures Parse(Print(Parse("a/", defaults).value), NO_DEFAULTS) != Parse("a/", defaults)
  {
    LiteralComesBack("a/", defaults);
  }
}
