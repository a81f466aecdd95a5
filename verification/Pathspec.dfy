/** Path specifications: parsing, printing, and the way back. */
module Pathspec {
  import opened Attributes

  datatype Signature = Signature(top: bool, icase: bool, exclude: bool, mustBeDir: bool)

  datatype SearchMode = ShellGlob | Literal | PathAwareGlob

  datatype Pattern = Pattern(path: string, signature: Signature, searchMode: SearchMode, attributes: seq<Assignment>,
                             nil: bool)

  datatype Defaults = Defaults(signature: Signature, searchMode: SearchMode, literal: bool)

  const NO_SIGNATURE := Signature(false, false, false, false)
  const NO_DEFAULTS := Defaults(NO_SIGNATURE, ShellGlob, false)
  const EMPTY := Pattern("", NO_SIGNATURE, ShellGlob, [], false)
  const NIL := EMPTY.(nil := true)

  datatype Error =
    | EmptyString
    | InvalidKeyword(keyword: string)
    | Unimplemented(shortKeyword: char)
    | MissingClosingParenthesis
    | InvalidAttribute(attribute: string)
    | InvalidAttributeValue(character: char)
    | TrailingEscapeCharacter
    | EmptyAttribute
    | MultipleAttributeSpecifications
    | IncompatibleSearchModes

  datatype Result<T> = Ok(value: T) | Err(error: Error)

  // ----- short keywords

  predicate IsUnimplemented(c: char) { c in "\"#%&'-,;<=>@_`~" }

  predicate IsShortKeyword(c: char) { c == '/' || c == '^' || c == '!' || c == ':' }

  /** The signature that short keywords from `i` on add up to, and where they end. */
  function ShortKeywords(input: string, i: nat, signature: Signature): (r: Result<(Signature, nat)>)
    requires i <= |input|
    ensures r.Ok? ==> i <= r.value.1 <= |input| && forall k :: i <= k < r.value.1 ==> IsShortKeyword(input[k])
    decreases |input| - i
  {
    if i == |input| then Ok((signature, i))
    else match input[i]
      case '/' => ShortKeywords(input, i + 1, signature.(top := true))
      case '^' => ShortKeywords(input, i + 1, signature.(exclude := true))
      case '!' => ShortKeywords(input, i + 1, signature.(exclude := true))
      case ':' => Ok((signature, i + 1))
      case c => if IsUnimplemented(c) then Err(Unimplemented(c)) else Ok((signature, i))
  }

  // ----- attributes

  predicate IsValueByte(c: char) { IsAlphanumeric(c) || c == ',' || c == '-' || c == '_' }

  predicate IsValue(v: string) { forall i :: 0 <= i < |v| ==> IsValueByte(v[i]) }

  /** A value without its escapes. */
  function UnescapeValue(v: string): Result<string> {
    if v == [] then Ok("")
    else if v == "\\" then Err(TrailingEscapeCharacter)
    else
      var (c, rest) := if v[0] == '\\' then (v[1], v[2..]) else (v[0], v[1..]);
      if !IsValueByte(c) then Err(InvalidAttributeValue(c))
      else match UnescapeValue(rest)
        case Ok(u) => Ok([c] + u)
        case Err(e) => Err(e)
  }

  /** Where the value of an assignment starts. */
  function ValueStart(attr: string): (n: nat)
    ensures n <= |attr|
  {
    var i := IndexOf(attr, '=');
    if i < |attr| then i + 1 else i
  }

  /** An assignment with its value unescaped. */
  function UnescapeAttr(attr: string): Result<string> {
    match UnescapeValue(attr[ValueStart(attr)..])
    case Ok(v) => Ok(attr[..ValueStart(attr)] + v)
    case Err(e) => Err(e)
  }

  /** All parts between single spaces. */
  function SplitSpaces(s: string): (parts: seq<string>)
    ensures parts != []
    decreases |s|
  {
    var i := IndexOf(s, ' ');
    if i == |s| then [s] else [s[..i]] + SplitSpaces(s[i + 1..])
  }

  /** All parts unescaped, each followed by a space. */
  function UnescapeAll(parts: seq<string>): Result<string> {
    if parts == [] then Ok("")
    else match UnescapeAttr(parts[0])
      case Err(e) => Err(e)
      case Ok(u) =>
        match UnescapeAll(parts[1..])
        case Err(e) => Err(e)
        case Ok(rest) => Ok(u + " " + rest)
  }

  function ParseFields(fields: seq<string>): Result<seq<Assignment>> {
    if fields == [] then Ok([])
    else match ParseAttr(fields[0])
      case BadName(name) => Err(InvalidAttribute(name))
      case Parsed(a) =>
        match ParseFields(fields[1..])
        case Err(e) => Err(e)
        case Ok(rest) => Ok([a] + rest)
  }

  function ParseAttributes(input: string): Result<seq<Assignment>> {
    if input == [] then Err(EmptyAttribute)
    else if '=' !in input then ParseFields(Fields(input))
    else match UnescapeAll(SplitSpaces(input))
      case Err(e) => Err(e)
      case Ok(unescaped) => ParseFields(Fields(unescaped))
  }

  // ----- long keywords

  /** The parts between commas that no backslash precedes; a comma at the very start does not count. */
  function Keywords(s: string, last: nat, i: nat): (parts: seq<string>)
    requires last <= i && last <= |s| && 1 <= i
    ensures parts != []
    decreases |s| - i
  {
    if i >= |s| then [s[last..]]
    else if s[i - 1] != '\\' && s[i] == ',' then [s[last..i]] + Keywords(s, i + 1, i + 1)
    else Keywords(s, last, i + 1)
  }

  function Apply(p: Pattern, keyword: string): Result<Pattern> {
    if keyword == "attr" then Ok(p)
    else if keyword == "top" then Ok(p.(signature := p.signature.(top := true)))
    else if keyword == "icase" then Ok(p.(signature := p.signature.(icase := true)))
    else if keyword == "exclude" then Ok(p.(signature := p.signature.(exclude := true)))
    else if keyword == "literal" then
      if p.searchMode.PathAwareGlob? then Err(IncompatibleSearchModes) else Ok(p.(searchMode := Literal))
    else if keyword == "glob" then
      if p.searchMode.Literal? then Err(IncompatibleSearchModes) else Ok(p.(searchMode := PathAwareGlob))
    else if "attr:" <= keyword then
      if p.attributes != [] then Err(MultipleAttributeSpecifications)
      else match ParseAttributes(keyword[5..])
        case Ok(attributes) => Ok(p.(attributes := attributes))
        case Err(e) => Err(e)
    else Err(InvalidKeyword(keyword))
  }

  function ApplyAll(p: Pattern, keywords: seq<string>): Result<Pattern>
    decreases |keywords|
  {
    if keywords == [] then Ok(p)
    else match Apply(p, keywords[0])
      case Ok(q) => ApplyAll(q, keywords[1..])
      case Err(e) => Err(e)
  }

  function LongKeywords(p: Pattern, body: string): Result<Pattern> {
    if body == [] then Ok(p) else ApplyAll(p, Keywords(body, 0, 1))
  }

  // ----- whole path specifications

  /** The magic that may follow the short keywords, and where the path starts. */
  function LongMagic(input: string, p: Pattern, cursor: nat): (r: Result<(Pattern, nat)>)
    requires cursor <= |input| && (cursor < |input| && input[cursor] == '(' ==> cursor < IndexOf(input, ')'))
    ensures r.Ok? ==> r.value.1 <= |input|
  {
    if cursor == |input| || input[cursor] != '(' then Ok((p, cursor))
    else
      var end := IndexOf(input, ')');
      if end == |input| then Err(MissingClosingParenthesis)
      else match LongKeywords(p, input[cursor + 1..end])
        case Ok(q) => Ok((q, end + 1))
        case Err(e) => Err(e)
  }

  /** The magic before the path, and where the path starts. */
  function Magic(input: string, signature: Signature): (r: Result<(Pattern, nat)>)
    ensures r.Ok? ==> r.value.1 <= |input|
  {
    var p := EMPTY.(signature := signature);
    if input == [] || input[0] != ':' then Ok((p, 0))
    else match ShortKeywords(input, 1, signature)
      case Err(e) => Err(e)
      case Ok((combined, cursor)) =>
        LongMagic(input, p.(signature := combined), cursor)
  }

  function WithPath(p: Pattern, path: string): Pattern {
    if path != [] && path[|path| - 1] == '/' then
      p.(path := path[..|path| - 1], signature := p.signature.(mustBeDir := true))
    else p.(path := path)
  }

  /** A text is put together again at a space. */
  lemma SpaceAt(s: string, i: nat)
    requires i < |s| && s[i] == ' '
    ensures s[..i] + " " + (s[i + 1..] + " ") == s + " "
  {
  }

  function FromLiteral(input: string, signature: Signature): Pattern {
    Pattern(input, signature, Literal, [], false)
  }

  function Parse(input: string, defaults: Defaults): Result<Pattern> {
    if input == [] then Err(EmptyString)
    else if defaults.literal then Ok(FromLiteral(input, defaults.signature))
    else if input == ":" then Ok(NIL)
    else match Magic(input, defaults.signature)
      case Err(e) => Err(e)
      case Ok((p, cursor)) =>
        var mode := if p.searchMode.ShellGlob? then defaults.searchMode else p.searchMode;
        Ok(WithPath(p.(searchMode := mode), input[cursor..]))
  }

  // ----- printing

  function EscapeCommas(s: string): string {
    if s == [] then "" else (if s[0] == ',' then "\\," else [s[0]]) + EscapeCommas(s[1..])
  }

  function Join(parts: seq<string>, separator: char): string {
    if parts == [] then "" else if |parts| == 1 then parts[0] else parts[0] + [separator] + Join(parts[1..], separator)
  }

  function Escaped(attributes: seq<Assignment>): seq<string> {
    seq(|attributes|, i requires 0 <= i < |attributes| => EscapeCommas(Display(attributes[i])))
  }

  function When(condition: bool, keyword: string): seq<string> { if condition then [keyword] else [] }

  function PlainWords(p: Pattern): seq<string> {
    When(p.signature.top, "top") + When(p.signature.exclude, "exclude") + When(p.signature.icase, "icase") +
    When(p.searchMode.Literal?, "literal") + When(p.searchMode.PathAwareGlob?, "glob")
  }

  /** The keywords that stand for all but the path. */
  function Words(p: Pattern): seq<string> {
    PlainWords(p) + When(p.attributes != [], "attr:" + Join(Escaped(p.attributes), ' '))
  }

  function Print(p: Pattern): string {
    if p.nil then ":" else ":(" + Join(Words(p), ',') + ")" + p.path + if p.signature.mustBeDir then "/" else ""
  }
}
