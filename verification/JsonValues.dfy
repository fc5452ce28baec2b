/** Reading members of a loaded object, and the fact that loaded values can be dumped again. */
module JsonValues {
  import opened Wrappers
  import opened Strings
  import T = Timestamps
  import opened Json
  import opened JsonLocality
  import opened JsonText

  function Str(s: string): (v: Value)
    ensures v.Text?
  {
    Text(Quote(s))
  }

  function Field(key: string, v: Value): (m: Member)
    ensures m.value == v
  {
    Member(Quote(key), v)
  }

  /** `d.get(key)`: of repeated keys the last one counts. */
  function Lookup(members: seq<Member>, key: string): Option<Value> {
    if members == [] then None
    else
      var last := members[|members| - 1];
      if Unquote(last.key) == key then Some(last.value) else Lookup(members[..|members| - 1], key)
  }

  /** The string a value holds, if it is one. */
  function AsString(v: Value): Option<string> {
    if v.Text? then Some(Unquote(v.raw)) else None
  }

  /** The integer a number literal denotes, if it has neither fraction nor exponent. */
  function IntLiteral(lexeme: string): Option<int> {
    if lexeme != "" && AllDigits(lexeme) then Some(T.Number(lexeme))
    else if |lexeme| > 1 && lexeme[0] == '-' && AllDigits(lexeme[1..]) then Some(-(T.Number(lexeme[1..]) as int))
    else None
  }

  lemma {:induction false} StrReads(s: string)
    ensures AsString(Str(s)) == Some(s) && WellFormed(Str(s))
  {
    UnquoteQuote(s);
    QuoteIsBody(s);
  }

  /** Member `k` decides the lookup of its key when no later member repeats it. */
  lemma {:induction false} LookupAt(members: seq<Member>, k: nat, key: string)
    requires k < |members| && Unquote(members[k].key) == key
    requires forall m | k < m < |members| :: Unquote(members[m].key) != key
    ensures Lookup(members, key) == Some(members[k].value)
  {
    if k < |members| - 1 {
      LookupAt(members[..|members| - 1], k, key);
    }
  }

  lemma {:induction false} LookupMissing(members: seq<Member>, key: string)
    requires forall m | 0 <= m < |members| :: Unquote(members[m].key) != key
    ensures Lookup(members, key) == None
  {
    if members != [] {
      LookupMissing(members[..|members| - 1], key);
    }
  }

  // ----- building objects -----

  /** Keys that dumping and loading keep apart. */
  predicate KeysAre(members: seq<Member>, keys: seq<string>) {
    |members| == |keys| && forall k | 0 <= k < |keys| :: Unquote(members[k].key) == keys[k]
  }

  lemma {:induction false} LookupKeys(members: seq<Member>, keys: seq<string>, k: nat)
    requires KeysAre(members, keys) && k < |keys|
    requires forall m | k < m < |keys| :: keys[m] != keys[k]
    ensures Lookup(members, keys[k]) == Some(members[k].value)
  {
    LookupAt(members, k, keys[k]);
  }

  ghost predicate MemberOk(m: Member) {
    StringBody(m.key) && WellFormed(m.value)
  }

  lemma {:induction false} ObjectOk(members: seq<Member>)
    requires forall k | 0 <= k < |members| :: MemberOk(members[k])
    ensures WellFormed(Object(members))
  {
  }

  /** A field keeps its name and stays well formed. */
  lemma {:induction false} FieldOk(key: string, v: Value)
    requires WellFormed(v)
    ensures MemberOk(Field(key, v)) && Unquote(Field(key, v).key) == key
  {
    UnquoteQuote(key);
    QuoteIsBody(key);
  }

  lemma {:induction false} StrFieldOk(key: string, text: string)
    ensures MemberOk(Field(key, Str(text))) && Unquote(Field(key, Str(text)).key) == key
  {
    StrReads(text);
    FieldOk(key, Str(text));
  }

  lemma {:induction false} DigitsToEnd(t: string, i: nat)
    requires i <= |t| && forall k | i <= k < |t| :: IsDigit(t[k])
    ensures DigitsEnd(t, i) == |t|
    decreases |t| - i
  {
    if i < |t| {
      DigitsToEnd(t, i + 1);
    }
  }

  /** Digits without a leading zero are a number. */
  lemma {:induction false} DigitsWellFormed(lexeme: string)
    requires lexeme != "" && forall i | 0 <= i < |lexeme| :: IsDigit(lexeme[i])
    requires |lexeme| > 1 ==> lexeme[0] != '0'
    ensures WellFormed(Number(lexeme))
  {
    DigitsToEnd(lexeme, 0);
    WordFirst(lexeme, 0, Word(lexeme[0]));
    assert lexeme[0..|lexeme|] == lexeme;
  }

  // ----- loaded values are well formed -----

  lemma {:induction false} ParsedBody(t: string, i: nat, e: nat)
    requires i <= |t| && StringEnd(t, i) == Some(e)
    ensures StringBody(t[i..e])
  {
    var u := t[i..e] + "\"";
    var h: int := 0 - (i as int);
    assert t[i..e + 1] == u[i + h..e + 1 + h];
    SliceAgrees(t, i, e + 1, u, h);
    LocalString(t, i, e + 1, u, h);
  }

  lemma {:induction false} ParsedLiteral(t: string, i: nat, v: Value, j: nat)
    requires i < |t| && ParseLiteral(t, i) == ValueTo(v, j)
    ensures WellFormed(v)
  {
    if v.Number? {
      var u := t[i..j];
      var h: int := 0 - (i as int);
      SliceAgrees(t, i, j, u, h);
      LocalLiteral(t, i, u, h, v, j);
      NumberText(t, i, v, j);
    }
  }

  lemma {:induction false} NumberText(t: string, i: nat, v: Value, j: nat)
    requires i < |t| && ParseLiteral(t, i) == ValueTo(v, j) && v.Number?
    ensures v == Number(t[i..j])
  {
  }

  lemma {:induction false} ParsedValue(t: string, i: nat, v: Value, j: nat)
    requires i <= |t| && ParseValue(t, i) == ValueTo(v, j)
    ensures WellFormed(v)
    decreases |t| - i, 0
  {
    hide ParseValue, ParseItems, ParseMembers, ParseLiteral, StringEnd, SkipWs;
    if i == |t| {
      assert false by { NothingAtEnd(t); }
    } else if t[i] == '"' {
      TextStep(t, i);
      ParsedBody(t, i + 1, j - 1);
    } else if t[i] == '[' {
      ArrayStep(t, i);
      if v.items != [] {
        ParsedItems(t, SkipWs(t, i + 1), v.items, j);
      }
    } else if t[i] == '{' {
      ObjectStep(t, i);
      if v.members != [] {
        ParsedMembers(t, SkipWs(t, i + 1), v.members, j);
      }
    } else {
      LiteralStep(t, i);
      ParsedLiteral(t, i, v, j);
    }
  }

  lemma {:induction false} NothingAtEnd(t: string)
    ensures ParseValue(t, |t|) == NoValue
  {
  }

  lemma {:induction false} ParsedItems(t: string, i: nat, items: seq<Value>, e: nat)
    requires i <= |t| && ParseItems(t, i) == ItemsTo(items, e)
    ensures forall x | x in items :: WellFormed(x)
    decreases |t| - i, 1
  {
    hide ParseValue, ParseItems, ParseMembers, ParseSeparator, WellFormed;
    var v, j, s := ItemsParts(t, i, items, e);
    ParsedValue(t, i, v, j);
    if s.More? {
      ParsedItems(t, s.next, items[1..], e);
      assert items == [v] + items[1..];
    }
  }

  lemma {:induction false} ParsedKey(t: string, i: nat, key: string, p: nat)
    requires i <= |t| && ParseKey(t, i) == KeyTo(key, p)
    ensures StringBody(key)
  {
    ParsedBody(t, i + 1, StringEnd(t, i + 1).value);
  }

  lemma {:induction false} ParsedMembers(t: string, i: nat, members: seq<Member>, e: nat)
    requires i <= |t| && ParseMembers(t, i) == MembersTo(members, e)
    ensures forall m | m in members :: StringBody(m.key) && WellFormed(m.value)
    decreases |t| - i, 1
  {
    hide ParseValue, ParseItems, ParseMembers, ParseKey, ParseSeparator, WellFormed, StringBody;
    var key, p, v, j, s := MembersParts(t, i, members, e);
    ParsedKey(t, i, key, p);
    ParsedValue(t, p, v, j);
    if s.More? {
      ParsedMembers(t, s.next, members[1..], e);
      assert members == [Member(key, v)] + members[1..];
    }
  }

  /** Whatever `json.load` returns can be dumped. */
  lemma {:induction false} LoadedWellFormed(t: string)
    requires Parse(t).Some?
    ensures WellFormed(Parse(t).value)
  {
    var ValueTo(v, j) := ParseValue(t, SkipWs(t, 0));
    ParsedValue(t, SkipWs(t, 0), v, j);
  }
}
