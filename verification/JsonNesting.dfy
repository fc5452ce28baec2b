/** What every accepted JSON text looks like to a reader that only tracks brackets and quotes.
    Two consequences carry the executor and the cache: a text whose last line is already a whole
    object is not itself JSON unless the rest is blank, and no proper prefix of an object is JSON. */
module JsonNesting {
  import opened Strings
  import opened Json

  datatype Mode = Plain | InText | Escaped

  datatype Scan = Scan(depth: int, mode: Mode)

  function Step(s: Scan, c: char): Scan {
    match s.mode
    case Plain =>
      if c == '"' then s.(mode := InText)
      else if IsOpening(c) then s.(depth := s.depth + 1)
      else if IsClosing(c) then s.(depth := s.depth - 1)
      else s
    case InText =>
      if c == '"' then s.(mode := Plain)
      else if c == '\\' then s.(mode := Escaped)
      else s
    case Escaped => s.(mode := InText)
  }

  predicate IsOpening(c: char) { c == '[' || c == '{' }

  predicate IsClosing(c: char) { c == ']' || c == '}' }

  /** Neither a quote nor a bracket. */
  predicate Quiet(c: char) { c != '"' && !IsOpening(c) && !IsClosing(c) }

  /** The reader's state after `t[i..j]`. */
  function Run(t: string, i: nat, j: nat, s: Scan): Scan
    requires i <= j <= |t|
    decreases j - i
  {
    if i == j then s else Run(t, i + 1, j, Step(s, t[i]))
  }

  lemma {:induction false} RunCompose(t: string, i: nat, k: nat, j: nat, s: Scan)
    requires i <= k <= j <= |t|
    ensures Run(t, i, j, s) == Run(t, k, j, Run(t, i, k, s))
    decreases k - i
  {
    if i < k {
      RunCompose(t, i + 1, k, j, Step(s, t[i]));
    }
  }

  lemma {:induction false} RunLocal(t: string, i: nat, u: string, a: nat, n: nat, s: Scan)
    requires i + n <= |t| && a + n <= |u|
    requires forall k | i <= k < i + n :: t[k] == u[k - i + a]
    ensures Run(t, i, i + n, s) == Run(u, a, a + n, s)
    decreases n
  {
    if n > 0 {
      assert t[i] == u[i - i + a];
      RunLocal(t, i + 1, u, a + 1, n - 1, Step(s, t[i]));
    }
  }

  /** Reading `t[i..j]` leads from `s` to `e`; before each character the depth outside strings
      is at least `d`; line breaks occur outside strings only, at depth `nl` or more. */
  ghost predicate Span(t: string, i: nat, j: nat, d: int, nl: int, s: Scan, e: Scan)
    requires i <= j <= |t|
    decreases j - i
  {
    if i == j then s == e
    else
      && (s.mode == Plain ==> s.depth >= d)
      && (t[i] == '\n' ==> s.mode == Plain && s.depth >= nl)
      && Span(t, i + 1, j, d, nl, Step(s, t[i]), e)
  }

  lemma {:induction false} SpanCompose(t: string, i: nat, k: nat, j: nat, d: int, nl: int, s: Scan, m: Scan, e: Scan)
    requires i <= k <= j <= |t|
    requires Span(t, i, k, d, nl, s, m) && Span(t, k, j, d, nl, m, e)
    ensures Span(t, i, j, d, nl, s, e)
    decreases k - i
  {
    if i < k {
      SpanCompose(t, i + 1, k, j, d, nl, Step(s, t[i]), m, e);
    }
  }

  lemma {:induction false} SpanWeaken(t: string, i: nat, j: nat, d: int, nl: int, s: Scan, e: Scan, d': int, nl': int)
    requires i <= j <= |t| && d' <= d && nl' <= nl
    requires Span(t, i, j, d, nl, s, e)
    ensures Span(t, i, j, d', nl', s, e)
    decreases j - i
  {
    if i < j {
      SpanWeaken(t, i + 1, j, d, nl, Step(s, t[i]), e, d', nl');
    }
  }

  lemma {:induction false} SpanAt(t: string, i: nat, j: nat, d: int, nl: int, s: Scan, e: Scan, k: nat)
    requires i <= k <= j <= |t|
    requires Span(t, i, j, d, nl, s, e)
    ensures Run(t, i, j, s) == e
    ensures k < j ==> Run(t, i, k, s).mode == Plain ==> Run(t, i, k, s).depth >= d
    ensures k < j && t[k] == '\n' ==> Run(t, i, k, s).mode == Plain && Run(t, i, k, s).depth >= nl
    decreases j - i
  {
    if i < j {
      SpanAt(t, i + 1, j, d, nl, Step(s, t[i]), e, if k == i then k + 1 else k);
    }
  }

  /** Characters that are neither quotes nor brackets change nothing. */
  lemma {:induction false} QuietSpan(t: string, i: nat, j: nat, d: int, nl: int, e: int)
    requires i <= j <= |t| && e >= d
    requires forall k | i <= k < j :: Quiet(t[k]) && (t[k] == '\n' ==> nl <= e)
    ensures Span(t, i, j, d, nl, Scan(e, Plain), Scan(e, Plain))
    decreases j - i
  {
    if i < j {
      QuietSpan(t, i + 1, j, d, nl, e);
    }
  }

  lemma {:induction false} WsSpan(t: string, i: nat, d: int)
    requires i <= |t|
    ensures Span(t, i, SkipWs(t, i), d, d, Scan(d, Plain), Scan(d, Plain))
  {
    SkipWsMaximal(t, i);
    QuietSpan(t, i, SkipWs(t, i), d, d, d);
  }

  lemma {:induction false} StringBodySpan(t: string, i: nat, d: int, nl: int, e: int)
    requires i <= |t| && StringEnd(t, i).Some?
    ensures Span(t, i, StringEnd(t, i).value + 1, d, nl, Scan(e, InText), Scan(e, Plain))
    decreases |t| - i
  {
    var j := StringEnd(t, i).value;
    if t[i] == '"' {
      assert Span(t, j + 1, j + 1, d, nl, Scan(e, Plain), Scan(e, Plain));
    } else if t[i] == '\\' {
      if t[i + 1] == 'u' {
        StringBodySpan(t, i + 6, d, nl, e);
        HexSpan(t, i + 2, i + 6, d, nl, e);
        SpanCompose(t, i + 2, i + 6, j + 1, d, nl, Scan(e, InText), Scan(e, InText), Scan(e, Plain));
      } else {
        StringBodySpan(t, i + 2, d, nl, e);
      }
      assert Span(t, i + 1, j + 1, d, nl, Scan(e, Escaped), Scan(e, Plain));
    } else {
      StringBodySpan(t, i + 1, d, nl, e);
    }
  }

  lemma {:induction false} HexSpan(t: string, i: nat, j: nat, d: int, nl: int, e: int)
    requires i <= j <= |t|
    requires forall k | i <= k < j :: IsHex(t[k])
    ensures Span(t, i, j, d, nl, Scan(e, InText), Scan(e, InText))
    decreases j - i
  {
    if i < j {
      HexSpan(t, i + 1, j, d, nl, e);
    }
  }

  /** A string with its quotes. */
  lemma {:induction false} StringSpan(t: string, i: nat, d: int, nl: int)
    requires i < |t| && t[i] == '"' && StringEnd(t, i + 1).Some?
    ensures Span(t, i, StringEnd(t, i + 1).value + 1, d, nl, Scan(d, Plain), Scan(d, Plain))
  {
    StringBodySpan(t, i + 1, d, nl, d);
  }

  predicate LiteralChar(c: char) { Quiet(c) && c != '\n' }

  lemma {:induction false} NumberQuiet(t: string, i: nat)
    requires i < |t| && NumberEnd(t, i).Some?
    ensures forall k | i <= k < NumberEnd(t, i).value :: LiteralChar(t[k])
  {
    var k := IntegerEnd(t, i).value;
    var f := FractionEnd(t, k);
    DigitsEndMaximal(t, if t[i] == '-' then i + 1 else i);
    if f > k {
      DigitsEndMaximal(t, k + 1);
    }
    if ExponentEnd(t, f) > f {
      DigitsEndMaximal(t, if t[f + 1] == '+' || t[f + 1] == '-' then f + 2 else f + 1);
    }
  }

  lemma {:induction false} WordQuiet(t: string, i: nat, word: string)
    requires Starts(t, i, word)
    requires forall m | 0 <= m < |word| :: LiteralChar(word[m])
    ensures forall k | i <= k < i + |word| :: LiteralChar(t[k])
  {
    forall k | i <= k < i + |word| ensures LiteralChar(t[k]) {
      assert t[k] == t[i..i + |word|][k - i];
    }
  }

  lemma {:induction false} LiteralQuiet(t: string, i: nat)
    requires i < |t| && ParseLiteral(t, i).ValueTo?
    ensures forall k | i <= k < ParseLiteral(t, i).end :: LiteralChar(t[k])
    ensures !Container(ParseLiteral(t, i).value)
  {
    if Starts(t, i, Word(t[i])) { WordQuiet(t, i, Word(t[i])); }
    else { NumberQuiet(t, i); }
  }

  lemma {:induction false} LiteralSpan(t: string, i: nat, d: int)
    requires i < |t| && ParseLiteral(t, i).ValueTo?
    ensures Span(t, i, ParseLiteral(t, i).end, d, d + 1, Scan(d, Plain), Scan(d, Plain))
  {
    LiteralQuiet(t, i);
    QuietSpan(t, i, ParseLiteral(t, i).end, d, d + 1, d);
  }

  /** A parsed value starts and ends at the same depth and never goes below it, its line breaks
      are at least one level deeper, and so is everything inside a container. */
  lemma {:induction false} ValueSpan(t: string, i: nat, d: int, v: Value, j: nat)
    requires i <= |t| && ParseValue(t, i) == ValueTo(v, j)
    ensures Span(t, i, j, d, d + 1, Scan(d, Plain), Scan(d, Plain))
    ensures Container(v) ==> IsOpening(t[i]) && Span(t, i + 1, j, d + 1, d + 1, Scan(d + 1, Plain), Scan(d, Plain))
    decreases |t| - i, 0
  {
    if t[i] == '"' {
      StringSpan(t, i, d, d + 1);
    } else if t[i] == '[' {
      OpenSpan(t, i, d);
      var k := SkipWs(t, i + 1);
      if t[k] == ']' {
        CloseSpan(t, k, d + 1);
      } else {
        ItemsSpan(t, k, d + 1, v.items, j);
      }
      ContainerSpan(t, i, k, j, d);
    } else if t[i] == '{' {
      OpenSpan(t, i, d);
      var k := SkipWs(t, i + 1);
      if t[k] == '}' {
        CloseSpan(t, k, d + 1);
      } else {
        MembersSpan(t, k, d + 1, v.members, j);
      }
      ContainerSpan(t, i, k, j, d);
    } else {
      LiteralQuiet(t, i);
      LiteralSpan(t, i, d);
    }
  }

  lemma {:induction false} ContainerSpan(t: string, i: nat, k: nat, j: nat, d: int)
    requires i < k < j <= |t| && IsOpening(t[i])
    requires Span(t, i + 1, k, d + 1, d + 1, Scan(d + 1, Plain), Scan(d + 1, Plain))
    requires Span(t, k, j, d + 1, d + 1, Scan(d + 1, Plain), Scan(d, Plain))
    ensures Span(t, i + 1, j, d + 1, d + 1, Scan(d + 1, Plain), Scan(d, Plain))
    ensures Span(t, i, j, d, d + 1, Scan(d, Plain), Scan(d, Plain))
  {
    SpanCompose(t, i + 1, k, j, d + 1, d + 1, Scan(d + 1, Plain), Scan(d + 1, Plain), Scan(d, Plain));
    SpanWeaken(t, i + 1, j, d + 1, d + 1, Scan(d + 1, Plain), Scan(d, Plain), d, d + 1);
  }

  /** The white space after an opening bracket. */
  lemma {:induction false} OpenSpan(t: string, i: nat, d: int)
    requires i < |t|
    ensures Span(t, i + 1, SkipWs(t, i + 1), d + 1, d + 1, Scan(d + 1, Plain), Scan(d + 1, Plain))
  {
    WsSpan(t, i + 1, d + 1);
  }

  lemma {:induction false} CloseSpan(t: string, k: nat, d: int)
    requires k < |t| && IsClosing(t[k])
    ensures Span(t, k, k + 1, d, d, Scan(d, Plain), Scan(d - 1, Plain))
  {
    assert Span(t, k + 1, k + 1, d, d, Scan(d - 1, Plain), Scan(d - 1, Plain));
  }

  /** A value or key already read, then white space, then one closing or separating character. */
  lemma {:induction false} AfterSpan(t: string, i: nat, j: nat, d: int)
    requires i <= j <= |t| && SkipWs(t, j) < |t|
      && (IsClosing(t[SkipWs(t, j)]) || t[SkipWs(t, j)] == ',' || t[SkipWs(t, j)] == ':')
    requires Span(t, i, j, d, d + 1, Scan(d, Plain), Scan(d, Plain))
    ensures var k := SkipWs(t, j);
      Span(t, i, k + 1, d, d, Scan(d, Plain), Scan(if IsClosing(t[k]) then d - 1 else d, Plain))
  {
    var k := SkipWs(t, j);
    SpanWeaken(t, i, j, d, d + 1, Scan(d, Plain), Scan(d, Plain), d, d);
    WsSpan(t, j, d);
    SpanCompose(t, i, j, k, d, d, Scan(d, Plain), Scan(d, Plain), Scan(d, Plain));
    if IsClosing(t[k]) {
      CloseSpan(t, k, d);
      SpanCompose(t, i, k, k + 1, d, d, Scan(d, Plain), Scan(d, Plain), Scan(d - 1, Plain));
    } else {
      QuietSpan(t, k, k + 1, d, d, d);
      SpanCompose(t, i, k, k + 1, d, d, Scan(d, Plain), Scan(d, Plain), Scan(d, Plain));
    }
  }

  /** The separator after an element. */
  lemma {:induction false} SeparatorSpan(t: string, i: nat, j: nat, d: int, close: char)
    requires i <= j <= |t| && IsClosing(close)
    requires Span(t, i, j, d, d + 1, Scan(d, Plain), Scan(d, Plain))
    ensures match ParseSeparator(t, j, close)
      case NoSeparator => true
      case Closed(e) => Span(t, i, e, d, d, Scan(d, Plain), Scan(d - 1, Plain))
      case More(n) => Span(t, i, n, d, d, Scan(d, Plain), Scan(d, Plain))
  {
    var k := SkipWs(t, j);
    if k < |t| && (t[k] == close || t[k] == ',') {
      AfterSpan(t, i, j, d);
      if t[k] == ',' {
        WsSpan(t, k + 1, d);
        SpanCompose(t, i, k + 1, SkipWs(t, k + 1), d, d, Scan(d, Plain), Scan(d, Plain), Scan(d, Plain));
      }
    }
  }

  lemma {:induction false} ItemsSpan(t: string, i: nat, d: int, items: seq<Value>, e: nat)
    requires i <= |t| && ParseItems(t, i) == ItemsTo(items, e)
    ensures Span(t, i, e, d, d, Scan(d, Plain), Scan(d - 1, Plain))
    decreases |t| - i, 1
  {
    var ValueTo(v, j) := ParseValue(t, i);
    var s := ParseSeparator(t, j, ']');
    ValueSpan(t, i, d, v, j);
    SeparatorSpan(t, i, j, d, ']');
    if s.More? {
      ItemsSpan(t, s.next, d, ParseItems(t, s.next).items, e);
      SpanCompose(t, i, s.next, e, d, d, Scan(d, Plain), Scan(d, Plain), Scan(d - 1, Plain));
    }
  }

  lemma {:induction false} KeySpan(t: string, i: nat, d: int)
    requires i <= |t| && ParseKey(t, i).KeyTo?
    ensures Span(t, i, ParseKey(t, i).end, d, d, Scan(d, Plain), Scan(d, Plain))
  {
    var e := StringEnd(t, i + 1).value;
    var k := SkipWs(t, e + 1);
    StringSpan(t, i, d, d + 1);
    AfterSpan(t, i, e + 1, d);
    WsSpan(t, k + 1, d);
    SpanCompose(t, i, k + 1, SkipWs(t, k + 1), d, d, Scan(d, Plain), Scan(d, Plain), Scan(d, Plain));
  }

  lemma {:induction false} MembersSpan(t: string, i: nat, d: int, members: seq<Member>, e: nat)
    requires i <= |t| && ParseMembers(t, i) == MembersTo(members, e)
    ensures Span(t, i, e, d, d, Scan(d, Plain), Scan(d - 1, Plain))
    decreases |t| - i, 1
  {
    var p := ParseKey(t, i).end;
    var ValueTo(v, j) := ParseValue(t, p);
    var s := ParseSeparator(t, j, '}');
    KeySpan(t, i, d);
    ValueSpan(t, p, d, v, j);
    SeparatorSpan(t, p, j, d, '}');
    if s.More? {
      MembersSpan(t, s.next, d, ParseMembers(t, s.next).members, e);
      SpanCompose(t, p, s.next, e, d, d, Scan(d, Plain), Scan(d, Plain), Scan(d - 1, Plain));
    }
    SpanCompose(t, i, p, e, d, d, Scan(d, Plain), Scan(d, Plain), Scan(d - 1, Plain));
  }

  // ----- the two consequences -----

  /** A whole JSON text, read from outside any bracket, ends outside any bracket and string. */
  lemma {:induction false} DocumentBalanced(t: string)
    requires Parse(t).Some?
    ensures Run(t, 0, |t|, Scan(0, Plain)) == Scan(0, Plain)
  {
    var s := Scan(0, Plain);
    var i := SkipWs(t, 0);
    var ValueTo(v, j) := ParseValue(t, i);
    WsSpan(t, 0, 0);
    ValueSpan(t, i, 0, v, j);
    SpanWeaken(t, i, j, 0, 1, s, s, 0, 0);
    WsSpan(t, j, 0);
    SpanCompose(t, 0, i, j, 0, 0, s, s, s);
    SpanCompose(t, 0, j, |t|, 0, 0, s, s, s);
    SpanAt(t, 0, |t|, 0, 0, s, s, |t|);
  }

  /** A text that is exactly one object, brace to brace. */
  predicate IsObjectText(t: string) {
    && t != "" && t[0] == '{' && t[|t| - 1] == '}'
    && Parse(t).Some?
  }

  lemma {:induction false} ObjectTextParses(t: string)
    requires IsObjectText(t)
    ensures ParseValue(t, 0) == ValueTo(Parse(t).value, |t|) && Parse(t).value.Object?
  {
    assert SkipWs(t, 0) == 0;
    var j := ParseValue(t, 0).end;
    SkipWsMaximal(t, j);
    assert !IsWs('}');
  }

  /** Inside an object text the reader is never outside all brackets. */
  lemma {:induction false} InsideObject(t: string, n: nat)
    requires IsObjectText(t) && 0 < n < |t|
    ensures Run(t, 0, n, Scan(0, Plain)) != Scan(0, Plain)
  {
    ObjectTextParses(t);
    ValueSpan(t, 0, 0, Parse(t).value, |t|);
    SpanAt(t, 1, |t|, 1, 1, Scan(1, Plain), Scan(0, Plain), n);
    assert Run(t, 0, n, Scan(0, Plain)) == Run(t, 1, n, Scan(1, Plain));
  }

  /** No proper prefix of an object text is JSON: a write cut short never reads as complete. */
  lemma {:induction false} TruncatedObjectFails(t: string, n: nat)
    requires IsObjectText(t) && n < |t|
    ensures Parse(t[..n]).None?
  {
    if n > 0 {
      InsideObject(t, n);
      RunLocal(t, 0, t[..n], 0, n, Scan(0, Plain));
      if Parse(t[..n]).Some? {
        DocumentBalanced(t[..n]);
      }
    }
  }

  /** Reading an object text from any depth comes back to that depth. */
  lemma {:induction false} ObjectReturns(obj: string, t: string, q: nat, d: int)
    requires IsObjectText(obj) && q + |obj| <= |t| && t[q..q + |obj|] == obj
    ensures Run(t, q, q + |obj|, Scan(d, Plain)) == Scan(d, Plain)
  {
    ObjectTextParses(obj);
    ValueSpan(obj, 0, d, Parse(obj).value, |obj|);
    SpanAt(obj, 0, |obj|, d, d + 1, Scan(d, Plain), Scan(d, Plain), |obj|);
    forall k | 0 <= k < 0 + |obj| ensures obj[k] == t[k - 0 + q] {
      assert t[q..q + |obj|][k] == t[q + k];
    }
    RunLocal(obj, 0, t, q, |obj|, Scan(d, Plain));
  }

  /** At a line break inside a value the reader is outside strings, one level deep or more. */
  lemma {:induction false} BreakIsInside(t: string, i: nat, p: nat, v: Value, j: nat) returns (d: int)
    requires i <= |t| && ParseValue(t, i) == ValueTo(v, j)
    requires i <= p < j && t[p] == '\n'
    ensures d >= 1 && Run(t, p + 1, j, Scan(d, Plain)) == Scan(0, Plain)
  {
    hide ParseValue, Span, SkipWs;
    var s0 := Scan(0, Plain);
    ValueSpan(t, i, 0, v, j);
    SpanAt(t, i, j, 0, 1, s0, s0, p);
    var s := Run(t, i, p, s0);
    RunCompose(t, i, p, j, s0);
    d := s.depth;
  }

  /** White space does not change the reader's state. */
  lemma {:induction false} BlankReturns(t: string, p: nat, q: nat, d: int)
    requires p <= q <= |t| && forall k | p <= k < q :: IsWs(t[k])
    ensures Run(t, p, q, Scan(d, Plain)) == Scan(d, Plain)
    decreases q - p
  {
    if p < q {
      BlankReturns(t, p + 1, q, d);
    }
  }

  /** A value around a line break and the whole object after it is still open after the object:
      a quote or a bracket must follow before the value ends. */
  lemma {:induction false} StillOpenAfterObject(t: string, i: nat, p: nat, q: nat, obj: string, v: Value, j: nat)
    requires i <= |t| && ParseValue(t, i) == ValueTo(v, j)
    requires i <= p < q && q + |obj| <= j
    requires t[p] == '\n' && (forall k | p < k < q :: IsWs(t[k])) && IsObjectText(obj) && t[q..q + |obj|] == obj
    ensures exists k | q + |obj| <= k < j :: !Quiet(t[k])
  {
    hide ParseValue, IsObjectText, Run, Span;
    var r := q + |obj|;
    var d := BreakIsInside(t, i, p, v, j);
    BlankReturns(t, p + 1, q, d);
    ObjectReturns(obj, t, q, d);
    RunCompose(t, p + 1, q, j, Scan(d, Plain));
    RunCompose(t, q, r, j, Scan(d, Plain));
    if forall k | r <= k < j :: Quiet(t[k]) {
      QuietSpan(t, r, j, 0, 0, d);
      SpanAt(t, r, j, 0, 0, Scan(d, Plain), Scan(d, Plain), j);
    }
  }

  /** A text whose last line, from the break at `p`, is blanks, a whole object at `q`, and perhaps blanks again. */
  predicate EndsWithObject(t: string, p: nat, q: nat, obj: string) {
    && IsObjectText(obj)
    && p < q && q + |obj| <= |t|
    && t[p] == '\n' && (forall k | p < k < q :: IsWs(t[k]))
    && t[q..q + |obj|] == obj
    && forall k | q + |obj| <= k < |t| :: IsSpace(t[k])
  }

  /** If such a text is JSON, its value starts after the line break. */
  lemma {:induction false} ValueStartsAfterBreak(t: string, p: nat, q: nat, obj: string)
    requires EndsWithObject(t, p, q, obj) && Parse(t).Some?
    ensures SkipWs(t, 0) > p
  {
    var i := SkipWs(t, 0);
    if i <= p {
      var ValueTo(v, j) := ParseValue(t, i);
      assert t[q + |obj| - 1] == t[q..q + |obj|][|obj| - 1] == '}';
      assert SkipWs(t, j) == |t|;
      SkipWsMaximal(t, j);
      assert j >= q + |obj|;
      StillOpenAfterObject(t, i, p, q, obj, v, j);
    }
  }

  /** So non-blank text, a line break, then a whole object is not JSON. */
  lemma {:induction false} TextBeforeObjectFails(t: string, p: nat, q: nat, obj: string, b: nat)
    requires EndsWithObject(t, p, q, obj)
    requires b < p && !IsWs(t[b])
    ensures Parse(t).None?
  {
    if Parse(t).Some? {
      ValueStartsAfterBreak(t, p, q, obj);
      SkipWsMaximal(t, 0);
    }
  }
}
