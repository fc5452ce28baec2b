/** `json.dump(..., indent=2, ensure_ascii=False)`: the text the cache writes, and the proof that
    `json.load` reads back exactly what was dumped. */
module JsonText {
  import opened Wrappers
  import opened Json
  import JsonNesting
  import opened JsonLocality

  // ----- string escapes -----

  function HexDigit(n: nat): char
    requires n < 16
  {
    if n < 10 then '0' + n as char else 'a' + (n - 10) as char
  }

  function HexValue(c: char): nat {
    if '0' <= c <= '9' then c as int - '0' as int
    else if 'a' <= c <= 'f' then c as int - 'a' as int + 10
    else if 'A' <= c <= 'F' then c as int - 'A' as int + 10
    else 0
  }

  function EscapeChar(c: char): (e: string)
    ensures e != ""
  {
    if c == '"' then "\\\""
    else if c == '\\' then "\\\\"
    else if c == '\n' then "\\n"
    else if c == '\r' then "\\r"
    else if c == '\t' then "\\t"
    else if c == '\U{08}' then "\\b"
    else if c == '\U{0c}' then "\\f"
    else if c < ' ' then "\\u00" + [HexDigit(c as int / 16), HexDigit(c as int % 16)]
    else [c]
  }

  /** The text between the quotes for the string `s`. */
  function Quote(s: string): string {
    if s == "" then "" else EscapeChar(s[0]) + Quote(s[1..])
  }

  function ShortEscape(c: char): char {
    if c == 'n' then '\n'
    else if c == 'r' then '\r'
    else if c == 't' then '\t'
    else if c == 'b' then '\U{08}'
    else if c == 'f' then '\U{0c}'
    else c
  }

  /** The character with this code; a lone surrogate has none and reads as U+FFFD. */
  function CharOf(code: nat): char
    requires code < 0x10000
  {
    if 0xD800 <= code < 0xE000 then '\U{FFFD}' else code as char
  }

  /** The code that four hexadecimal digits spell. */
  function FourHex(a: char, b: char, c: char, d: char): (code: nat)
    ensures code < 0x10000
  {
    ((HexValue(a) * 16 + HexValue(b)) * 16 + HexValue(c)) * 16 + HexValue(d)
  }

  predicate IsHigh(code: nat) { 0xD800 <= code < 0xDC00 }

  predicate IsLow(code: nat) { 0xDC00 <= code < 0xE000 }

  /** The character that a surrogate pair stands for. */
  function Paired(high: nat, low: nat): char
    requires IsHigh(high) && IsLow(low)
  {
    (0x10000 + (high - 0xD800) * 0x400 + (low - 0xDC00)) as char
  }

  /** The code of a unicode escape at position `i`, if there is one. */
  function EscapedCode(raw: string, i: nat): Option<nat> {
    if i + 6 <= |raw| && raw[i] == '\\' && raw[i + 1] == 'u'
    then Some(FourHex(raw[i + 2], raw[i + 3], raw[i + 4], raw[i + 5])) else None
  }

  /** The string that the text between two quotes stands for. */
  function Unquote(raw: string): string {
    if raw == "" then ""
    else if raw[0] != '\\' || |raw| == 1 then [raw[0]] + Unquote(raw[1..])
    else if raw[1] == 'u' && |raw| >= 6 then
      var code, next := FourHex(raw[2], raw[3], raw[4], raw[5]), EscapedCode(raw, 6);
      if IsHigh(code) && next.Some? && IsLow(next.value) then [Paired(code, next.value)] + Unquote(raw[12..])
      else [CharOf(code)] + Unquote(raw[6..])
    else [ShortEscape(raw[1])] + Unquote(raw[2..])
  }

  /** The four hexadecimal digits of a code. */
  function Hex4(code: nat): (s: string)
    requires code < 0x10000
    ensures |s| == 4
  {
    [HexDigit(code / 0x1000), HexDigit(code / 0x100 % 16), HexDigit(code / 16 % 16), HexDigit(code % 16)]
  }

  lemma {:induction false} HexReads(n: nat)
    requires n < 16
    ensures HexValue(HexDigit(n)) == n && IsHex(HexDigit(n))
  {
  }

  lemma {:induction false} HexDigits(code: nat)
    requires code < 0x10000
    ensures ((code / 0x1000 * 16 + code / 0x100 % 16) * 16 + code / 16 % 16) * 16 + code % 16 == code
  {
    assert code / 0x1000 == code / 16 / 16 / 16 && code / 0x100 == code / 16 / 16;
  }

  lemma {:induction false} FourHexReads(code: nat)
    requires code < 0x10000
    ensures var h := Hex4(code); FourHex(h[0], h[1], h[2], h[3]) == code
  {
    hide HexDigit, HexValue;
    HexReads(code / 0x1000);
    HexReads(code / 0x100 % 16);
    HexReads(code / 16 % 16);
    HexReads(code % 16);
    HexDigits(code);
  }

  /** A unicode escape outside the surrogates is read as its character. */
  lemma {:induction false} UnquoteUnicode(code: nat, rest: string)
    requires code < 0x10000 && !IsHigh(code) && !IsLow(code)
    ensures Unquote("\\u" + Hex4(code) + rest) == [code as char] + Unquote(rest)
  {
    hide Hex4, FourHex;
    var t := "\\u" + Hex4(code) + rest;
    FourHexReads(code);
    assert t[6..] == rest && t[2..6] == Hex4(code);
    assert t[2] == t[2..6][0] && t[3] == t[2..6][1] && t[4] == t[2..6][2] && t[5] == t[2..6][3];
  }

  lemma {:induction false} UnquoteEscape(c: char, rest: string)
    ensures Unquote(EscapeChar(c) + rest) == [c] + Unquote(rest)
  {
    var t := EscapeChar(c) + rest;
    if |EscapeChar(c)| == 6 {
      var n := c as int;
      assert Hex4(n) == "00" + [HexDigit(n / 16), HexDigit(n % 16)];
      assert t == "\\u" + Hex4(n) + rest;
      UnquoteUnicode(n, rest);
    } else if |EscapeChar(c)| == 2 {
      assert t[2..] == rest;
    } else {
      assert t[1..] == rest;
    }
  }

  lemma {:induction false} UnquoteQuote(s: string)
    ensures Unquote(Quote(s)) == s
  {
    if s != "" {
      UnquoteEscape(s[0], Quote(s[1..]));
      UnquoteQuote(s[1..]);
    }
  }

  /** Contents that a closing quote ends exactly. */
  predicate StringBody(raw: string) {
    StringEnd(raw + "\"", 0) == Some(|raw|)
  }

  /** One escape sequence or plain character is consumed as a unit. */
  lemma {:induction false} EscapeStep(c: char, rest: string)
    requires StringBody(rest)
    ensures StringBody(EscapeChar(c) + rest)
  {
    var e := EscapeChar(c);
    var t := e + rest + "\"";
    var u := rest + "\"";
    assert t[|e|..|t|] == u[0..|u|];
    SliceAgrees(u, 0, |u|, t, |e|);
    LocalString(u, 0, |u|, t, |e|);
    assert StringEnd(t, |e|) == Some(|e| + |rest|);
    if |e| == 6 {
      assert t[2] == '0' && t[3] == '0' && IsHex(t[4]) && IsHex(t[5]);
    }
    assert StringEnd(t, 0) == StringEnd(t, |e|);
  }

  lemma {:induction false} QuoteIsBody(s: string)
    ensures StringBody(Quote(s))
  {
    if s != "" {
      QuoteIsBody(s[1..]);
      EscapeStep(s[0], Quote(s[1..]));
    }
  }

  // ----- dump -----

  /** The two layouts of Python's `json`: one member a line, indented by two blanks a level, and all on one line. */
  datatype Layout = Indented(level: nat) | Compact

  function Inner(l: Layout): Layout {
    if l.Indented? then Indented(l.level + 1) else Compact
  }

  function Break(level: nat): (s: string)
    ensures s != "" && s[0] == '\n' && forall k | 0 <= k < |s| :: IsWs(s[k])
  {
    if level == 0 then "\n" else Break(level - 1) + "  "
  }

  /** White space after an opening bracket, after a comma and before a closing bracket. */
  function Lead(l: Layout): (s: string)
    ensures forall k | 0 <= k < |s| :: IsWs(s[k])
  {
    if l.Indented? then Break(l.level + 1) else ""
  }

  function Gap(l: Layout): (s: string)
    ensures s != "" && forall k | 0 <= k < |s| :: IsWs(s[k])
  {
    if l.Indented? then Break(l.level + 1) else " "
  }

  function Trail(l: Layout): (s: string)
    ensures s != "" ==> s[0] == '\n'
    ensures forall k | 0 <= k < |s| :: IsWs(s[k])
  {
    if l.Indented? then Break(l.level) else ""
  }

  /** The end of an object's member: the closing brace, or a comma and the next member. */
  function MemberTail(l: Layout, next: string): string {
    if next == "" then Trail(l) + "}" else "," + Gap(l) + next
  }

  function Write(v: Value, l: Layout): (s: string)
    ensures v.Object? ==> |s| >= 2 && s[0] == '{' && s[|s| - 1] == '}'
    decreases v, 0
  {
    match v
    case Null => "null"
    case True => "true"
    case False => "false"
    case Number(lexeme) => lexeme
    case Text(raw) => "\"" + raw + "\""
    case Array(items) => if items == [] then "[]" else "[" + Lead(l) + WriteItems(items, l)
    case Object(members) => if members == [] then "{}" else "{" + Lead(l) + WriteMembers(members, l)
  }

  /** The elements of a list at the given level, and its closing bracket. */
  function WriteItems(items: seq<Value>, l: Layout): string
    requires items != []
    decreases items, 1
  {
    Write(items[0], Inner(l)) +
    if |items| == 1 then Trail(l) + "]" else "," + Gap(l) + WriteItems(items[1..], l)
  }

  function WriteMembers(members: seq<Member>, l: Layout): (s: string)
    requires members != []
    ensures s != "" && s[0] == '"' && s[|s| - 1] == '}'
    decreases members, 1
  {
    "\"" + members[0].key + "\"" + ": " + Write(members[0].value, Inner(l)) +
    MemberTail(l, if |members| == 1 then "" else WriteMembers(members[1..], l))
  }

  /** Values whose raw texts and number lexemes are themselves well formed. */
  ghost predicate WellFormed(v: Value) {
    match v
    case Null => true
    case True => true
    case False => true
    case Number(lexeme) => lexeme != "" && ParseLiteral(lexeme, 0) == ValueTo(v, |lexeme|)
    case Text(raw) => StringBody(raw)
    case Array(items) => forall x | x in items :: WellFormed(x)
    case Object(members) => forall m | m in members :: StringBody(m.key) && WellFormed(m.value)
  }

  // ----- reading back -----

  lemma {:induction false} StartsBoth(t: string, i: nat, a: string, b: string)
    requires Starts(t, i, a + b)
    ensures Starts(t, i, a) && Starts(t, i + |a|, b)
  {
    assert t[i..i + |a|] == t[i..i + |a + b|][..|a|];
    assert t[i + |a|..i + |a| + |b|] == t[i..i + |a + b|][|a|..];
  }

  lemma {:induction false} StartsChar(t: string, i: nat, w: string)
    requires Starts(t, i, w) && w != ""
    ensures i < |t| && t[i] == w[0]
  {
    assert t[i] == t[i..i + |w|][0];
  }

  lemma {:induction false} SkipsBlank(t: string, i: nat, w: string)
    requires Starts(t, i, w) && forall k | 0 <= k < |w| :: IsWs(w[k])
    requires i + |w| < |t| ==> !IsWs(t[i + |w|])
    ensures SkipWs(t, i) == i + |w|
    decreases |w|
  {
    if w != "" {
      StartsChar(t, i, w);
      assert w == [w[0]] + w[1..];
      StartsBoth(t, i, [w[0]], w[1..]);
      SkipsBlank(t, i + 1, w[1..]);
    }
  }

  lemma {:induction false} ReadsBody(t: string, i: nat, raw: string)
    requires StringBody(raw) && Starts(t, i, raw + "\"")
    ensures StringEnd(t, i) == Some(i + |raw|) && t[i..i + |raw|] == raw
  {
    var u := raw + "\"";
    assert u[0..|u|] == u;
    SliceAgrees(u, 0, |u|, t, i);
    LocalString(u, 0, |u|, t, i);
    StartsBoth(t, i, raw, "\"");
  }

  lemma {:induction false} ReadsLexeme(t: string, i: nat, lexeme: string)
    requires lexeme != "" && ParseLiteral(lexeme, 0) == ValueTo(Number(lexeme), |lexeme|)
    requires Starts(t, i, lexeme) && Boundary(t, i + |lexeme|)
    ensures i < |t| && ParseLiteral(t, i) == ValueTo(Number(lexeme), i + |lexeme|)
    ensures t[i] == lexeme[0]
  {
    assert lexeme[0..|lexeme|] == lexeme;
    SliceAgrees(lexeme, 0, |lexeme|, t, i);
    LocalLiteral(lexeme, 0, t, i, Number(lexeme), |lexeme|);
    StartsChar(t, i, lexeme);
  }

  /** A literal never starts with a quote, a bracket or a blank. */
  lemma {:induction false} LiteralStart(t: string, i: nat)
    requires i < |t| && ParseLiteral(t, i).ValueTo?
    ensures t[i] != '"' && t[i] != '[' && t[i] != '{' && !IsWs(t[i]) && t[i] != ']' && t[i] != '}'
  {
    WordFirst(t, i, Word(t[i]));
  }

  lemma {:induction false} WordFirst(t: string, i: nat, w: string)
    requires w != ""
    ensures Starts(t, i, w) ==> t[i] == w[0]
  {
    if Starts(t, i, w) {
      StartsChar(t, i, w);
    }
  }

  /** No dumped value starts with a blank or a closing bracket. */
  lemma {:induction false} DumpStart(v: Value, l: Layout)
    requires WellFormed(v)
    ensures Write(v, l) != ""
    ensures var c := Write(v, l)[0]; !IsWs(c) && c != ']' && c != '}'
  {
    if v.Number? {
      LiteralStart(v.lexeme, 0);
    }
  }

  lemma {:induction false} StartsLead(v: Value, l: Layout, t: string, i: nat)
    requires WellFormed(v) && Starts(t, i, Write(v, l))
    ensures i < |t| && t[i] == Write(v, l)[0]
  {
    DumpStart(v, l);
    StartsChar(t, i, Write(v, l));
  }

  lemma {:induction false} ReadsWord(v: Value, l: Layout, t: string, i: nat)
    requires WellFormed(v) && !v.Array? && !v.Object? && !v.Text?
    requires Starts(t, i, Write(v, l)) && Boundary(t, i + |Write(v, l)|)
    ensures ParseValue(t, i) == ValueTo(v, i + |Write(v, l)|)
  {
    StartsLead(v, l, t, i);
    if v.Number? {
      LiteralStart(v.lexeme, 0);
      ReadsLexeme(t, i, v.lexeme);
    }
    LiteralStep(t, i);
  }

  lemma {:induction false} ReadsText(raw: string, t: string, i: nat)
    requires StringBody(raw) && Starts(t, i, "\"" + raw + "\"")
    ensures ParseValue(t, i) == ValueTo(Text(raw), i + |raw| + 2)
  {
    hide ParseValue, StringBody, StringEnd;
    assert "\"" + raw + "\"" == "\"" + (raw + "\"");
    StartsBoth(t, i, "\"", raw + "\"");
    StartsChar(t, i, "\"");
    ReadsBody(t, i + 1, raw);
    TextStep(t, i);
  }

  lemma {:induction false} ReadsScalar(v: Value, l: Layout, t: string, i: nat)
    requires WellFormed(v) && !v.Array? && !v.Object?
    requires Starts(t, i, Write(v, l)) && Boundary(t, i + |Write(v, l)|)
    ensures ParseValue(t, i) == ValueTo(v, i + |Write(v, l)|)
  {
    StartsLead(v, l, t, i);
    hide ParseLiteral, Boundary, ParseItems, ParseMembers;
    if v.Text? {
      ReadsText(v.raw, t, i);
    } else {
      ReadsWord(v, l, t, i);
    }
  }

  /** What follows an element: the closing bracket or the next element, on a new line. */
  lemma {:induction false} ReadsSeparator(t: string, i: nat, l: Layout, close: char, next: string)
    requires close == ']' || close == '}'
    requires if next == "" then Starts(t, i, Trail(l) + [close])
             else !IsWs(next[0]) && Starts(t, i, "," + Gap(l) + next)
    ensures i < |t| && !NumberChar(t[i])
    ensures ParseSeparator(t, i, close) ==
      if next == "" then Closed(i + |Trail(l)| + 1) else More(i + 1 + |Gap(l)|)
    ensures next != "" ==> Starts(t, i + 1 + |Gap(l)|, next)
  {
    hide Gap, Trail, Starts;
    if next == "" {
      StartsBoth(t, i, Trail(l), [close]);
      if Trail(l) != "" {
        StartsChar(t, i, Trail(l));
      }
      StartsChar(t, i + |Trail(l)|, [close]);
      SkipsBlank(t, i, Trail(l));
    } else {
      var b := Gap(l);
      assert "," + b + next == "," + (b + next);
      StartsBoth(t, i, ",", b + next);
      StartsChar(t, i, ",");
      StartsBoth(t, i + 1, b, next);
      StartsChar(t, i + 1 + |b|, next);
      SkipsBlank(t, i + 1, b);
    }
  }

  lemma {:induction false} NextItem(items: seq<Value>, l: Layout)
    requires items != [] && WellFormed(items[0])
    ensures WriteItems(items, l) != "" && !IsWs(WriteItems(items, l)[0]) && WriteItems(items, l)[0] != ']'
  {
    DumpStart(items[0], Inner(l));
  }

  lemma {:induction false} ReadsValue(v: Value, l: Layout, t: string, i: nat)
    requires WellFormed(v)
    requires Starts(t, i, Write(v, l)) && Boundary(t, i + |Write(v, l)|)
    ensures ParseValue(t, i) == ValueTo(v, i + |Write(v, l)|)
    decreases v, 1
  {
    hide ParseMembers, ParseValue, ParseItems, WriteItems, WriteMembers, StringBody, Lead, Gap, Trail, Starts;
    StartsLead(v, l, t, i);
    if v.Array? {
      ArrayStep(t, i);
      if v.items == [] {
        EmptyContainer(t, i, "[]");
      } else {
        NextItem(v.items, l);
        ReadsOpen(t, i, '[', ']', l, WriteItems(v.items, l));
        ReadsItems(v.items, l, t, i + 1 + |Lead(l)|);
      }
    } else if v.Object? {
      ObjectStep(t, i);
      if v.members == [] {
        EmptyContainer(t, i, "{}");
      } else {
        ReadsOpen(t, i, '{', '}', l, WriteMembers(v.members, l));
        ReadsMembers(v.members, l, t, i + 1 + |Lead(l)|);
      }
    } else {
      ReadsScalar(v, l, t, i);
    }
  }

  lemma {:induction false} EmptyContainer(t: string, i: nat, w: string)
    requires w == "[]" || w == "{}"
    requires Starts(t, i, w)
    ensures i + 1 < |t| && t[i + 1] == w[1] && SkipWs(t, i + 1) == i + 1
  {
    assert t[i + 1] == t[i..i + 2][1];
  }

  /** After an opening bracket: white space, then the first element. */
  lemma {:induction false} ReadsOpen(t: string, i: nat, open: char, close: char, l: Layout, body: string)
    requires Starts(t, i, [open] + Lead(l) + body)
    requires body != "" && !IsWs(body[0]) && body[0] != close
    ensures SkipWs(t, i + 1) == i + 1 + |Lead(l)| < |t|
    ensures t[SkipWs(t, i + 1)] != close && Starts(t, i + 1 + |Lead(l)|, body)
  {
    var b := Lead(l);
    assert [open] + b + body == [open] + (b + body);
    StartsBoth(t, i, [open], b + body);
    StartsBoth(t, i + 1, b, body);
    StartsChar(t, i + 1 + |b|, body);
    SkipsBlank(t, i + 1, b);
  }

  lemma {:induction false} ReadsItems(items: seq<Value>, l: Layout, t: string, i: nat)
    requires items != [] && forall x | x in items :: WellFormed(x)
    requires Starts(t, i, WriteItems(items, l))
    ensures ParseItems(t, i) == ItemsTo(items, i + |WriteItems(items, l)|)
    decreases items, 0
  {
    hide ParseMembers, ParseValue, ParseKey, ParseItems, ParseSeparator, Write, StringBody, Lead, Gap, Trail, Starts,
         WellFormed, NumberChar, SkipWs, StringEnd;
    var v := items[0];
    var d := Write(v, Inner(l));
    var j := i + |d|;
    if |items| == 1 {
      StartsBoth(t, i, d, Trail(l) + "]");
      ReadsSeparator(t, j, l, ']', "");
      ReadsValue(v, Inner(l), t, i);
      ItemsStep(t, i, v, j);
      assert items == [v];
    } else {
      var next := WriteItems(items[1..], l);
      NextItem(items[1..], l);
      StartsBoth(t, i, d, "," + Gap(l) + next);
      ReadsSeparator(t, j, l, ']', next);
      ReadsValue(v, Inner(l), t, i);
      ItemsStep(t, i, v, j);
      ReadsItems(items[1..], l, t, j + 1 + |Gap(l)|);
      assert items == [v] + items[1..];
    }
  }

  /** The pieces of `"key": value rest`, one after another. */
  lemma {:induction false} KeyPieces(key: string, d: string, rest: string, t: string, i: nat)
    requires d != "" && Starts(t, i, "\"" + key + "\"" + ": " + d + rest)
    ensures i < |t| && t[i] == '"' && Starts(t, i + 1, key + "\"")
    ensures Starts(t, i + |key| + 2, ": ") && Starts(t, i + |key| + 4, d) && Starts(t, i + |key| + 4 + |d|, rest)
  {
    var u := key + "\"";
    var w := d + rest;
    assert "\"" + key + "\"" + ": " + d + rest == "\"" + (u + (": " + w));
    StartsBoth(t, i, "\"", u + (": " + w));
    StartsChar(t, i, "\"");
    StartsBoth(t, i + 1, u, ": " + w);
    StartsBoth(t, i + |key| + 2, ": ", w);
    StartsBoth(t, i + |key| + 4, d, rest);
  }

  lemma {:induction false} ReadsColon(t: string, q: nat, d: string)
    requires Starts(t, q, ": ") && Starts(t, q + 2, d) && d != "" && !IsWs(d[0])
    ensures q < |t| && t[q] == ':' && SkipWs(t, q) == q && SkipWs(t, q + 1) == q + 2
  {
    assert t[q..q + 2] == ": ";
    assert t[q] == t[q..q + 2][0] && t[q + 1] == t[q..q + 2][1];
    StartsChar(t, q + 2, d);
    assert SkipWs(t, q + 2) == q + 2;
  }

  lemma {:induction false} ReadsKey(key: string, d: string, rest: string, t: string, i: nat)
    requires StringBody(key) && d != "" && !IsWs(d[0])
    requires Starts(t, i, "\"" + key + "\"" + ": " + d + rest)
    ensures ParseKey(t, i) == KeyTo(key, i + |key| + 4)
    ensures Starts(t, i + |key| + 4, d) && Starts(t, i + |key| + 4 + |d|, rest)
  {
    hide StringBody, Starts, SkipWs, StringEnd;
    KeyPieces(key, d, rest, t, i);
    ReadsBody(t, i + 1, key);
    ReadsColon(t, i + |key| + 2, d);
  }

  /** One member: its key, where its value `d` starts, and what separates it from the `next`. */
  lemma {:induction false} ReadsMember(key: string, d: string, l: Layout, next: string, t: string, i: nat, j: nat)
    requires StringBody(key) && d != "" && !IsWs(d[0]) && (next != "" ==> !IsWs(next[0]))
    requires Starts(t, i, "\"" + key + "\"" + ": " + d + MemberTail(l, next))
    requires j == i + |key| + 4 + |d|
    ensures ParseKey(t, i) == KeyTo(key, i + |key| + 4) && Starts(t, i + |key| + 4, d)
    ensures j < |t| && Boundary(t, j)
    ensures ParseSeparator(t, j, '}') ==
      if next == "" then Closed(j + |MemberTail(l, next)|) else More(j + 1 + |Gap(l)|)
    ensures next != "" ==> Starts(t, j + 1 + |Gap(l)|, next)
  {
    ReadsKey(key, d, MemberTail(l, next), t, i);
    hide StringBody, Lead, Gap, Trail, Starts, ParseKey, ParseSeparator;
    ReadsSeparator(t, j, l, '}', next);
  }

  /** The parts of a dumped member list, and their lengths. */
  lemma {:induction false} MembersText(members: seq<Member>, l: Layout) returns (d: string, next: string)
    requires members != [] && WellFormed(members[0].value)
    requires |members| > 1 ==> StringBody(members[1].key)
    ensures d == Write(members[0].value, Inner(l)) && d != "" && !IsWs(d[0])
    ensures next == if |members| == 1 then "" else WriteMembers(members[1..], l)
    ensures |members| > 1 ==> next != ""
    ensures next != "" ==> !IsWs(next[0])
    ensures WriteMembers(members, l) == "\"" + members[0].key + "\"" + ": " + d + MemberTail(l, next)
    ensures |WriteMembers(members, l)| == |members[0].key| + 4 + |d| + |MemberTail(l, next)|
    ensures next != "" ==> |MemberTail(l, next)| == 1 + |Gap(l)| + |next|
  {
    d := Write(members[0].value, Inner(l));
    next := if |members| == 1 then "" else WriteMembers(members[1..], l);
    DumpStart(members[0].value, Inner(l));
  }

  lemma {:induction false} ReadsMembers(members: seq<Member>, l: Layout, t: string, i: nat)
    requires members != [] && forall m | m in members :: StringBody(m.key) && WellFormed(m.value)
    requires Starts(t, i, WriteMembers(members, l))
    ensures ParseMembers(t, i) == MembersTo(members, i + |WriteMembers(members, l)|)
    decreases members, 0
  {
    hide *;
    var m := members[0];
    var d, next := MembersText(members, l);
    var p := i + |m.key| + 4;
    var j := p + |d|;
    ReadsMember(m.key, d, l, next, t, i, j);
    ReadsValue(m.value, Inner(l), t, p);
    MembersStep(t, i, m.key, p, m.value, j);
    if |members| == 1 {
      assert members == [m];
    } else {
      ReadsMembers(members[1..], l, t, j + 1 + |Gap(l)|);
      assert members == [m] + members[1..];
    }
  }

  /** `json.dump(v, f, indent=2)` and `json.dumps(v)`. */
  function Dump(v: Value): (s: string)
    ensures v.Object? ==> |s| >= 2 && s[0] == '{' && s[|s| - 1] == '}'
  {
    Write(v, Indented(0))
  }

  function Dumps(v: Value): string {
    Write(v, Compact)
  }

  /** Loading a written value gives it back, in either layout. */
  lemma {:induction false} LoadWritten(v: Value, l: Layout)
    requires WellFormed(v)
    ensures Parse(Write(v, l)) == Some(v)
  {
    var t := Write(v, l);
    DumpStart(v, l);
    assert t[0..|t|] == t;
    ReadsValue(v, l, t, 0);
    assert SkipWs(t, 0) == 0;
    assert SkipWs(t, |t|) == |t|;
  }

  lemma {:induction false} LoadDump(v: Value)
    requires WellFormed(v)
    ensures Parse(Dump(v)) == Some(v) && Parse(Dumps(v)) == Some(v)
  {
    LoadWritten(v, Indented(0));
    LoadWritten(v, Compact);
  }

  /** A dumped object cut off anywhere does not load. */
  lemma {:induction false} LoadTruncated(v: Value, n: nat)
    requires WellFormed(v) && v.Object? && n < |Dump(v)|
    ensures Parse(Dump(v)[..n]).None?
  {
    LoadDump(v);
    JsonNesting.TruncatedObjectFails(Dump(v), n);
  }
}
