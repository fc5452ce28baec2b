/** `json.loads` on text, following RFC 8259 (and Python's three extra literals NaN, Infinity and
    -Infinity). A string value keeps its raw text between the quotes; `JsonText` reads it. */
module Json {
  import opened Wrappers
  import opened Strings

  datatype Value =
    | Null
    | True
    | False
    | Number(lexeme: string)
    | Text(raw: string)
    | Array(items: seq<Value>)
    | Object(members: seq<Member>)

  datatype Member = Member(key: string, value: Value)

  /** Where parsing got to: a value and the position after it, or failure. */
  datatype ParsedValue = NoValue | ValueTo(value: Value, end: nat)
  datatype ParsedItems = NoItems | ItemsTo(items: seq<Value>, end: nat)
  datatype ParsedKey = NoKey | KeyTo(key: string, end: nat)
  datatype ParsedMembers = NoMembers | MembersTo(members: seq<Member>, end: nat)

  predicate Container(v: Value) { v.Array? || v.Object? }

  // ----- lexical elements: each function returns where the element ends -----

  predicate IsWs(c: char) { c == ' ' || c == '\t' || c == '\n' || c == '\r' }

  predicate IsHex(c: char) { IsDigit(c) || 'a' <= c <= 'f' || 'A' <= c <= 'F' }

  predicate NumberChar(c: char) { IsDigit(c) || c == '.' || c == 'e' || c == 'E' }

  /** The characters that may follow a backslash on their own. */
  predicate IsShortEscape(c: char) {
    c == '"' || c == '\\' || c == '/' || c == 'b' || c == 'f' || c == 'n' || c == 'r' || c == 't'
  }

  function SkipWs(t: string, i: nat): (j: nat)
    requires i <= |t|
    ensures i <= j <= |t|
    decreases |t| - i
  {
    if i < |t| && IsWs(t[i]) then SkipWs(t, i + 1) else i
  }

  lemma {:induction false} SkipWsMaximal(t: string, i: nat)
    requires i <= |t|
    ensures forall k | i <= k < SkipWs(t, i) :: IsWs(t[k])
    ensures SkipWs(t, i) < |t| ==> !IsWs(t[SkipWs(t, i)])
    decreases |t| - i
  {
    if i < |t| && IsWs(t[i]) {
      SkipWsMaximal(t, i + 1);
    }
  }

  /** The closing quote of a string whose contents start at `i`. Raw control characters,
      a line break among them, are not allowed inside (section 7 of RFC 8259). */
  function StringEnd(t: string, i: nat): (end: Option<nat>)
    requires i <= |t|
    ensures end.Some? ==> i <= end.value < |t| && t[end.value] == '"'
    decreases |t| - i
  {
    if i == |t| then None
    else if t[i] == '"' then Some(i)
    else if t[i] == '\\' then
      if i + 1 == |t| then None
      else if IsShortEscape(t[i + 1]) then StringEnd(t, i + 2)
      else if t[i + 1] == 'u' && i + 6 <= |t|
           && IsHex(t[i + 2]) && IsHex(t[i + 3]) && IsHex(t[i + 4]) && IsHex(t[i + 5]) then StringEnd(t, i + 6)
      else None
    else if t[i] < ' ' then None
    else StringEnd(t, i + 1)
  }

  function DigitsEnd(t: string, i: nat): (j: nat)
    requires i <= |t|
    ensures i <= j <= |t|
    decreases |t| - i
  {
    if i < |t| && IsDigit(t[i]) then DigitsEnd(t, i + 1) else i
  }

  lemma {:induction false} DigitsEndMaximal(t: string, i: nat)
    requires i <= |t|
    ensures forall k | i <= k < DigitsEnd(t, i) :: IsDigit(t[k])
    ensures DigitsEnd(t, i) < |t| ==> !IsDigit(t[DigitsEnd(t, i)])
    decreases |t| - i
  {
    if i < |t| && IsDigit(t[i]) {
      DigitsEndMaximal(t, i + 1);
    }
  }

  function IntegerEnd(t: string, i: nat): (end: Option<nat>)
    requires i <= |t|
    ensures end.Some? ==> i < end.value <= |t|
  {
    var k := if i < |t| && t[i] == '-' then i + 1 else i;
    if k == |t| || !IsDigit(t[k]) then None
    else if t[k] == '0' then Some(k + 1)
    else Some(DigitsEnd(t, k))
  }

  function FractionEnd(t: string, i: nat): (j: nat)
    requires i <= |t|
    ensures i <= j <= |t|
  {
    if i + 1 < |t| && t[i] == '.' && IsDigit(t[i + 1]) then DigitsEnd(t, i + 1) else i
  }

  function ExponentEnd(t: string, i: nat): (j: nat)
    requires i <= |t|
    ensures i <= j <= |t|
  {
    if i + 1 < |t| && (t[i] == 'e' || t[i] == 'E') then
      var k := if t[i + 1] == '+' || t[i + 1] == '-' then i + 2 else i + 1;
      if k < |t| && IsDigit(t[k]) then DigitsEnd(t, k) else i
    else i
  }

  function NumberEnd(t: string, i: nat): (end: Option<nat>)
    requires i <= |t|
    ensures end.Some? ==> i < end.value <= |t|
  {
    match IntegerEnd(t, i)
    case None => None
    case Some(k) => Some(ExponentEnd(t, FractionEnd(t, k)))
  }

  predicate Starts(t: string, i: nat, word: string) {
    i + |word| <= |t| && t[i..i + |word|] == word
  }

  // ----- values -----

  /** The literal that can start with `c`. */
  function Word(c: char): (word: string)
    ensures word != ""
  {
    if c == 'n' then "null"
    else if c == 't' then "true"
    else if c == 'f' then "false"
    else if c == 'N' then "NaN"
    else if c == 'I' then "Infinity"
    else "-Infinity"
  }

  function WordValue(c: char): Value {
    if c == 'n' then Null
    else if c == 't' then True
    else if c == 'f' then False
    else Number(Word(c))
  }

  function ParseLiteral(t: string, i: nat): (r: ParsedValue)
    requires i < |t|
    ensures r.ValueTo? ==> i < r.end <= |t|
  {
    if Starts(t, i, Word(t[i])) then ValueTo(WordValue(t[i]), i + |Word(t[i])|)
    else
      var end := NumberEnd(t, i);
      if end.None? then NoValue else ValueTo(Number(t[i..end.value]), end.value)
  }

  function ParseValue(t: string, i: nat): (r: ParsedValue)
    requires i <= |t|
    ensures r.ValueTo? ==> i < r.end <= |t|
    decreases |t| - i, 0
  {
    if i == |t| then NoValue
    else if t[i] == '"' then
      var close := StringEnd(t, i + 1);
      if close.None? then NoValue else ValueTo(Text(t[i + 1..close.value]), close.value + 1)
    else if t[i] == '[' then
      var k := SkipWs(t, i + 1);
      if k < |t| && t[k] == ']' then ValueTo(Array([]), k + 1)
      else
        var r := ParseItems(t, k);
        if r.NoItems? then NoValue else ValueTo(Array(r.items), r.end)
    else if t[i] == '{' then
      var k := SkipWs(t, i + 1);
      if k < |t| && t[k] == '}' then ValueTo(Object([]), k + 1)
      else
        var r := ParseMembers(t, k);
        if r.NoMembers? then NoValue else ValueTo(Object(r.members), r.end)
    else ParseLiteral(t, i)
  }

  /** What follows an element: the closing bracket, or a comma and the start of the next element. */
  datatype Separator = NoSeparator | Closed(end: nat) | More(next: nat)

  function ParseSeparator(t: string, j: nat, close: char): (r: Separator)
    requires j <= |t|
    ensures r.Closed? ==> j < r.end <= |t|
    ensures r.More? ==> j < r.next <= |t|
  {
    var k := SkipWs(t, j);
    if k == |t| then NoSeparator
    else if t[k] == close then Closed(k + 1)
    else if t[k] == ',' then More(SkipWs(t, k + 1))
    else NoSeparator
  }

  /** One or more values separated by commas, and the closing bracket. */
  function ParseItems(t: string, i: nat): (r: ParsedItems)
    requires i <= |t|
    ensures r.ItemsTo? ==> i < r.end <= |t|
    decreases |t| - i, 1
  {
    var v := ParseValue(t, i);
    if v.NoValue? then NoItems
    else
      match ParseSeparator(t, v.end, ']')
      case NoSeparator => NoItems
      case Closed(e) => ItemsTo([v.value], e)
      case More(n) =>
        var rest := ParseItems(t, n);
        if rest.NoItems? then NoItems else ItemsTo([v.value] + rest.items, rest.end)
  }

  /** One key with its colon, up to where its value starts. */
  function ParseKey(t: string, i: nat): (r: ParsedKey)
    requires i <= |t|
    ensures r.KeyTo? ==> i < r.end <= |t|
  {
    if i == |t| || t[i] != '"' then NoKey
    else
      var close := StringEnd(t, i + 1);
      if close.None? then NoKey
      else
        var k := SkipWs(t, close.value + 1);
        if k == |t| || t[k] != ':' then NoKey else KeyTo(t[i + 1..close.value], SkipWs(t, k + 1))
  }

  function ParseMembers(t: string, i: nat): (r: ParsedMembers)
    requires i <= |t|
    ensures r.MembersTo? ==> i < r.end <= |t|
    decreases |t| - i, 1
  {
    var key := ParseKey(t, i);
    if key.NoKey? then NoMembers
    else
      var v := ParseValue(t, key.end);
      if v.NoValue? then NoMembers
      else
        match ParseSeparator(t, v.end, '}')
        case NoSeparator => NoMembers
        case Closed(e) => MembersTo([Member(key.key, v.value)], e)
        case More(n) =>
          var rest := ParseMembers(t, n);
          if rest.NoMembers? then NoMembers else MembersTo([Member(key.key, v.value)] + rest.members, rest.end)
  }

  /** One unfolding of the two list functions. */
  lemma {:induction false} ItemsStep(t: string, i: nat, v: Value, j: nat)
    requires i <= |t| && ParseValue(t, i) == ValueTo(v, j)
    ensures match ParseSeparator(t, j, ']')
      case NoSeparator => ParseItems(t, i) == NoItems
      case Closed(e) => ParseItems(t, i) == ItemsTo([v], e)
      case More(n) => ParseItems(t, i) == (var rest := ParseItems(t, n);
                                           if rest.NoItems? then NoItems else ItemsTo([v] + rest.items, rest.end))
  {
  }

  lemma {:induction false} MembersStep(t: string, i: nat, key: string, p: nat, v: Value, j: nat)
    requires i <= |t| && ParseKey(t, i) == KeyTo(key, p) && ParseValue(t, p) == ValueTo(v, j)
    ensures match ParseSeparator(t, j, '}')
      case NoSeparator => ParseMembers(t, i) == NoMembers
      case Closed(e) => ParseMembers(t, i) == MembersTo([Member(key, v)], e)
      case More(n) => ParseMembers(t, i) == (var rest := ParseMembers(t, n);
                                             if rest.NoMembers? then NoMembers
                                             else MembersTo([Member(key, v)] + rest.members, rest.end))
  {
  }

  /** One unfolding of `ParseValue`, case by case. */
  lemma {:induction false} TextStep(t: string, i: nat)
    requires i < |t| && t[i] == '"'
    ensures var close := StringEnd(t, i + 1);
      ParseValue(t, i) == if close.None? then NoValue else ValueTo(Text(t[i + 1..close.value]), close.value + 1)
  {
  }

  lemma {:induction false} ArrayStep(t: string, i: nat)
    requires i < |t| && t[i] == '['
    ensures var k := SkipWs(t, i + 1);
      ParseValue(t, i) ==
        if k < |t| && t[k] == ']' then ValueTo(Array([]), k + 1)
        else var r := ParseItems(t, k);
             if r.NoItems? then NoValue else ValueTo(Array(r.items), r.end)
  {
  }

  lemma {:induction false} ObjectStep(t: string, i: nat)
    requires i < |t| && t[i] == '{'
    ensures var k := SkipWs(t, i + 1);
      ParseValue(t, i) ==
        if k < |t| && t[k] == '}' then ValueTo(Object([]), k + 1)
        else var r := ParseMembers(t, k);
             if r.NoMembers? then NoValue else ValueTo(Object(r.members), r.end)
  {
  }

  lemma {:induction false} LiteralStep(t: string, i: nat)
    requires i < |t| && t[i] != '"' && t[i] != '[' && t[i] != '{'
    ensures ParseValue(t, i) == ParseLiteral(t, i)
  {
  }

  /** What a parsed list is made of. */
  lemma {:induction false} ItemsParts(t: string, i: nat, items: seq<Value>, e: nat)
    returns (v: Value, j: nat, s: Separator)
    requires i <= |t| && ParseItems(t, i) == ItemsTo(items, e)
    ensures i < j <= |t| && ParseValue(t, i) == ValueTo(v, j)
    ensures j < e && s == ParseSeparator(t, j, ']') && items != [] && items[0] == v && e <= |t|
    ensures (s == Closed(e) && items == [v])
         || (s.More? && j < s.next < e && ParseItems(t, s.next) == ItemsTo(items[1..], e))
  {
    v, j := ParseValue(t, i).value, ParseValue(t, i).end;
    s := ParseSeparator(t, j, ']');
    if s.More? {
      assert items[1..] == ParseItems(t, s.next).items;
    }
  }

  lemma {:induction false} MembersParts(t: string, i: nat, members: seq<Member>, e: nat)
    returns (key: string, p: nat, v: Value, j: nat, s: Separator)
    requires i <= |t| && ParseMembers(t, i) == MembersTo(members, e)
    ensures i < p < j <= |t| && ParseKey(t, i) == KeyTo(key, p) && ParseValue(t, p) == ValueTo(v, j)
    ensures s == ParseSeparator(t, j, '}') && members != [] && members[0] == Member(key, v) && e <= |t|
    ensures (s == Closed(e) && members == [Member(key, v)] && j < e)
         || (s.More? && j < s.next < e && ParseMembers(t, s.next) == MembersTo(members[1..], e))
  {
    key, p := ParseKey(t, i).key, ParseKey(t, i).end;
    v, j := ParseValue(t, p).value, ParseValue(t, p).end;
    s := ParseSeparator(t, j, '}');
    if s.More? {
      assert members[1..] == ParseMembers(t, s.next).members;
    }
  }

  /** `json.loads`: one value, white space around it, nothing else. */
  function Parse(t: string): Option<Value> {
    var r := ParseValue(t, SkipWs(t, 0));
    if r.ValueTo? && SkipWs(t, r.end) == |t| then Some(r.value) else None
  }
}
