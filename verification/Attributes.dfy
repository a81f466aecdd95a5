/** Attribute assignments: parsing one assignment, splitting a line into fields, and printing. Bytes are characters
    below 256. */
module Attributes {
  datatype State = Set | Unset | Value(value: string) | Unspecified

  datatype Assignment = Assignment(name: string, state: State)

  datatype Parsed = Parsed(assignment: Assignment) | BadName(name: string)

  predicate IsAlphanumeric(c: char) {
    'a' <= c <= 'z' || 'A' <= c <= 'Z' || '0' <= c <= '9'
  }

  predicate IsNameByte(c: char) { IsAlphanumeric(c) || c == '-' || c == '.' || c == '_' }

  predicate IsName(name: string) {
    (name != [] ==> name[0] != '-') && forall i :: 0 <= i < |name| ==> IsNameByte(name[i])
  }

  /** The first position of a character, or the length if it does not occur. */
  function IndexOf(s: string, c: char): (i: nat)
    ensures i <= |s| && (i < |s| ==> s[i] == c) && forall k :: 0 <= k < i ==> s[k] != c
  {
    if s == [] || s[0] == c then 0 else 1 + IndexOf(s[1..], c)
  }

  lemma IndexUnique(s: string, c: char, i: nat)
    requires i <= |s| && (i < |s| ==> s[i] == c) && forall k :: 0 <= k < i ==> s[k] != c
    ensures IndexOf(s, c) == i
  {
  }

  /** The name, with its marker, and the state that a field without a marker has. */
  function ParseAttr(field: string): Parsed {
    var split := IndexOf(field, '=');
    var attr := field[..split];
    var (name, state) :=
      if attr != [] && attr[0] == '-' then (attr[1..], Unset)
      else if attr != [] && attr[0] == '!' then (attr[1..], Unspecified)
      else (attr, if split < |field| then Value(field[split + 1..]) else Set);
    if IsName(name) then Parsed(Assignment(name, state)) else BadName(name)
  }

  function Display(a: Assignment): string {
    match a.state
    case Set => a.name
    case Unset => "-" + a.name
    case Value(v) => a.name + "=" + v
    case Unspecified => "!" + a.name
  }

  /** Assignments that a field can stand for. */
  predicate Writable(a: Assignment) {
    IsName(a.name) && (a.state.Set? ==> a.name != [])
  }

  /** Printing and parsing are inverse, and only assignments with a name that is not valid or missing do not come
      back. */
  lemma AttrRoundTrip(a: Assignment)
    ensures Display(a) != [] && ParseAttr(Display(a)) == Parsed(a) <==> Writable(a)
  {
    var text := Display(a);
    if Writable(a) {
      var attr := if a.state.Value? then a.name else text;
      assert forall k :: 0 <= k < |a.name| ==> IsNameByte(a.name[k]);
      IndexUnique(text, '=', |attr|);
      assert text[..|attr|] == attr;
      assert a.state.Value? ==> text[|attr| + 1..] == a.state.value;
    }
  }

  /** What the text of a field means: a minus sign unsets, an exclamation mark makes unspecified, an equals sign gives a
      value unless there is such a mark, and the name alone sets. */
  lemma FieldMeans(name: string, value: string)
    requires IsName(name) && (name != [] ==> name[0] != '!')
    ensures ParseAttr("-" + name) == ParseAttr("-" + name + "=" + value) == Parsed(Assignment(name, Unset))
    ensures ParseAttr("!" + name) == ParseAttr("!" + name + "=" + value) == Parsed(Assignment(name, Unspecified))
    ensures ParseAttr(name) == Parsed(Assignment(name, Set))
    ensures ParseAttr(name + "=" + value) == Parsed(Assignment(name, Value(value)))
  {
    assert forall k :: 0 <= k < |name| ==> IsNameByte(name[k]);
    MarkedMeans("-", name, value);
    MarkedMeans("!", name, value);
    MarkedMeans("", name, value);
    assert "" + name == name && name + "=" + value == "" + name + "=" + value;
  }

  /** What stands before the first equals sign, and what behind it. */
  lemma MarkedMeans(mark: string, name: string, value: string)
    requires '=' !in mark && forall k :: 0 <= k < |name| ==> name[k] != '='
    ensures var field := mark + name;
      IndexOf(field, '=') == |field| && field[..|field|] == field && field[|mark|..] == name
    ensures var field, split := mark + name + "=" + value, |mark| + |name|;
      IndexOf(field, '=') == split && field[..split] == mark + name && field[split + 1..] == value
  {
    IndexUnique(mark + name, '=', |mark| + |name|);
    IndexUnique(mark + name + "=" + value, '=', |mark| + |name|);
  }

  /** Every field that parses stands for a writable assignment. */
  lemma ParsedIsWritable(field: string)
    requires field != []
    ensures ParseAttr(field).Parsed? ==> Writable(ParseAttr(field).assignment)
    ensures ParseAttr(field).Parsed? && ParseAttr(field).assignment.state.Value? ==>
      var split := IndexOf(field, '=');
      split < |field| && ParseAttr(field).assignment.state.value == field[split + 1..]
  {
  }

  // ----- fields

  predicate IsSpace(c: char) { c == ' ' || '\t' <= c <= '\r' }

  predicate NoSpace(s: string) { forall i :: 0 <= i < |s| ==> !IsSpace(s[i]) }

  predicate IsField(s: string) { s != [] && NoSpace(s) }

  predicate AreFields(fields: seq<string>) { forall i :: 0 <= i < |fields| ==> IsField(fields[i]) }

  /** The length of the first field. */
  function FieldLength(s: string): (n: nat)
    ensures n <= |s| && NoSpace(s[..n]) && (n < |s| ==> IsSpace(s[n]))
  {
    if s == [] || IsSpace(s[0]) then 0
    else
      var n := 1 + FieldLength(s[1..]);
      assert s[..n] == [s[0]] + s[1..][..n - 1];
      n
  }

  /** The maximal parts without white space. */
  function Fields(s: string): (fields: seq<string>)
    ensures AreFields(fields)
    decreases |s|
  {
    if s == [] then []
    else if IsSpace(s[0]) then Fields(s[1..])
    else [s[..FieldLength(s)]] + Fields(s[FieldLength(s)..])
  }

  /** All strings, each followed by a space. */
  function Spaced(fields: seq<string>): string {
    if fields == [] then "" else fields[0] + " " + Spaced(fields[1..])
  }

  lemma {:induction false} FieldsSpaced(fields: seq<string>)
    requires AreFields(fields)
    ensures Fields(Spaced(fields)) == fields
  {
    if fields != [] {
      FieldsSpaced(fields[1..]);
      FirstField(fields[0], Spaced(fields[1..]));
    }
  }

  lemma FirstField(field: string, rest: string)
    requires IsField(field)
    ensures Fields(field + " " + rest) == [field] + Fields(rest)
  {
    var s := field + " " + rest;
    assert s[..|field|] == field;
    FieldLengthIs(s, |field|);
    assert s[|field|..][1..] == rest;
  }

  lemma {:induction false} FieldLengthIs(s: string, n: nat)
    requires n <= |s| && NoSpace(s[..n]) && (n < |s| ==> IsSpace(s[n]))
    ensures FieldLength(s) == n
  {
    if n > 0 {
      assert s[0] == s[..n][0] && s[1..][..n - 1] == s[..n][1..];
      FieldLengthIs(s[1..], n - 1);
    }
  }

  /** A trailing space makes no difference. */
  lemma {:induction false} FieldsTrailing(s: string)
    ensures Fields(s + " ") == Fields(s)
    decreases |s|
  {
    if s == [] {
      assert (s + " ")[1..] == "";
    } else if IsSpace(s[0]) {
      assert (s + " ")[1..] == s[1..] + " ";
      FieldsTrailing(s[1..]);
    } else {
      var n := FieldLength(s);
      assert (s + " ")[..n] == s[..n];
      FieldLengthIs(s + " ", n);
      assert (s + " ")[n..] == s[n..] + " ";
      FieldsTrailing(s[n..]);
    }
  }
}
