/** Text operations the system's Python code relies on: `str.strip`, `str.split`, and the
    lexicographic order that `sorted` uses on strings and on tuples of integers. */
module Strings {

  // ----- digits -----

  predicate IsDigit(c: char) { '0' <= c <= '9' }

  predicate AllDigits(s: string) { forall i | 0 <= i < |s| :: IsDigit(s[i]) }

  predicate Digits(s: string) { s != "" && AllDigits(s) }

  // ----- strip -----

  /** The characters `str.strip()` removes. */
  predicate IsSpace(c: char) {
    || '\t' <= c <= '\r' || '\U{1c}' <= c <= ' ' || c == '\U{85}' || c == '\U{a0}' || c == '\U{1680}'
    || '\U{2000}' <= c <= '\U{200a}' || c == '\U{2028}' || c == '\U{2029}'
    || c == '\U{202f}' || c == '\U{205f}' || c == '\U{3000}'
  }

  predicate AllSpace(s: string) {
    forall i | 0 <= i < |s| :: IsSpace(s[i])
  }

  function LeftStrip(s: string): string {
    if s != "" && IsSpace(s[0]) then LeftStrip(s[1..]) else s
  }

  function RightStrip(s: string): string {
    if s != "" && IsSpace(s[|s| - 1]) then RightStrip(s[..|s| - 1]) else s
  }

  function Strip(s: string): string {
    RightStrip(LeftStrip(s))
  }

  /** Nothing is left to strip at either end. */
  predicate Stripped(s: string) {
    s != "" ==> !IsSpace(s[0]) && !IsSpace(s[|s| - 1])
  }

  lemma {:induction false} LeftStripPads(pad: string, s: string)
    requires AllSpace(pad)
    ensures LeftStrip(pad + s) == LeftStrip(s)
  {
    hide IsSpace;
    if pad == "" {
      assert pad + s == s;
    } else {
      assert (pad + s)[1..] == pad[1..] + s;
      LeftStripPads(pad[1..], s);
    }
  }

  lemma {:induction false} RightStripPads(s: string, pad: string)
    requires AllSpace(pad)
    ensures RightStrip(s + pad) == RightStrip(s)
  {
    hide IsSpace;
    if pad == "" {
      assert s + pad == s;
    } else {
      assert (s + pad)[..|s + pad| - 1] == s + pad[..|pad| - 1];
      RightStripPads(s, pad[..|pad| - 1]);
    }
  }

  lemma {:induction false} LeftStripSplits(s: string) returns (pad: string)
    ensures AllSpace(pad) && s == pad + LeftStrip(s)
    ensures LeftStrip(s) != "" ==> !IsSpace(LeftStrip(s)[0])
  {
    hide IsSpace;
    if s != "" && IsSpace(s[0]) {
      var rest := LeftStripSplits(s[1..]);
      pad := [s[0]] + rest;
    } else {
      pad := "";
    }
  }

  lemma {:induction false} RightStripSplits(s: string) returns (pad: string)
    ensures AllSpace(pad) && s == RightStrip(s) + pad
    ensures RightStrip(s) != "" ==> !IsSpace(RightStrip(s)[|RightStrip(s)| - 1])
  {
    hide IsSpace;
    if s != "" && IsSpace(s[|s| - 1]) {
      var rest := RightStripSplits(s[..|s| - 1]);
      pad := rest + [s[|s| - 1]];
      assert s == s[..|s| - 1] + [s[|s| - 1]];
    } else {
      pad := "";
    }
  }

  /** `strip` removes white space at both ends and nothing else. */
  lemma {:induction false} StripSplits(s: string) returns (left: string, right: string)
    ensures AllSpace(left) && AllSpace(right)
    ensures s == left + Strip(s) + right
    ensures Stripped(Strip(s))
  {
    hide IsSpace;
    left := LeftStripSplits(s);
    right := RightStripSplits(LeftStrip(s));
    if Strip(s) != "" {
      assert LeftStrip(s)[0] == Strip(s)[0];
    }
  }

  /** ... and that determines its result. */
  lemma {:induction false} StripUnique(left: string, core: string, right: string)
    requires AllSpace(left) && AllSpace(right) && Stripped(core)
    ensures Strip(left + core + right) == core
  {
    hide IsSpace;
    assert left + core + right == left + (core + right);
    LeftStripPads(left, core + right);
    if core == "" {
      assert core + right == right + "";
      LeftStripPads(right, "");
    } else {
      assert LeftStrip(core + right) == core + right;
      RightStripPads(core, right);
    }
  }

  // ----- split and join on one character -----

  function Split(s: string, sep: char): (parts: seq<string>)
    ensures |parts| >= 1
  {
    if s == "" then [""]
    else
      var rest := Split(s[1..], sep);
      if s[0] == sep then [""] + rest else [[s[0]] + rest[0]] + rest[1..]
  }

  function Join(parts: seq<string>, sep: char): string
    requires |parts| >= 1
  {
    if |parts| == 1 then parts[0] else parts[0] + [sep] + Join(parts[1..], sep)
  }

  /** Splitting loses nothing and leaves no separator inside a part. */
  lemma {:induction false} SplitJoin(s: string, sep: char)
    ensures Join(Split(s, sep), sep) == s
    ensures forall p | p in Split(s, sep) :: sep !in p
  {
    if s != "" {
      SplitJoin(s[1..], sep);
      var rest := Split(s[1..], sep);
      if s[0] == sep {
        assert ([""] + rest)[1..] == rest;
      } else {
        var parts := [[s[0]] + rest[0]] + rest[1..];
        assert parts[1..] == rest[1..];
        assert rest[0] in rest;
        if |rest| > 1 {
          assert Join(rest, sep) == rest[0] + [sep] + Join(rest[1..], sep);
          assert [s[0]] + rest[0] + [sep] + Join(rest[1..], sep) == [s[0]] + s[1..];
        }
        forall p | p in parts ensures sep !in p {
          if p != parts[0] {
            assert p in rest;
          }
        }
      }
    }
  }

  lemma {:induction false} SplitSingle(s: string, sep: char)
    requires sep !in s
    ensures Split(s, sep) == [s]
  {
    if s != "" {
      SplitSingle(s[1..], sep);
      assert [s[0]] + s[1..] == s;
    }
  }

  /** What follows the last separator is the last part. */
  lemma {:induction false} SplitLast(a: string, sep: char, b: string)
    requires sep !in b
    ensures Split(a + [sep] + b, sep) == Split(a, sep) + [b]
  {
    if a == "" {
      assert (a + [sep] + b)[1..] == b;
      SplitSingle(b, sep);
    } else {
      assert (a + [sep] + b)[1..] == a[1..] + [sep] + b;
      SplitLast(a[1..], sep, b);
      var rest := Split(a[1..], sep);
      assert (rest + [b])[1..] == rest[1..] + [b];
      if a[0] == sep {
        assert [""] + (rest + [b]) == [""] + rest + [b];
      } else {
        assert (rest + [b])[0] == rest[0];
        assert [[a[0]] + rest[0]] + (rest[1..] + [b]) == [[a[0]] + rest[0]] + rest[1..] + [b];
      }
    }
  }

  // ----- lexicographic order -----

  /** Python's `<` on tuples of integers: the first difference decides, a proper prefix is smaller. */
  predicate LexLess(a: seq<int>, b: seq<int>) {
    if b == [] then false
    else if a == [] then true
    else a[0] < b[0] || (a[0] == b[0] && LexLess(a[1..], b[1..]))
  }

  predicate LexLeq(a: seq<int>, b: seq<int>) {
    !LexLess(b, a)
  }

  function Codes(s: string): (codes: seq<int>)
    ensures |codes| == |s|
  {
    seq(|s|, i requires 0 <= i < |s| => s[i] as int)
  }

  /** Python's `<` on strings: by code point. */
  predicate StringLess(a: string, b: string) {
    LexLess(Codes(a), Codes(b))
  }

  predicate StringLeq(a: string, b: string) {
    !StringLess(b, a)
  }

  lemma {:induction false} CodesConcat(a: string, b: string)
    ensures Codes(a + b) == Codes(a) + Codes(b)
  {
  }

  lemma {:induction false} CodesInjective(a: string, b: string)
    requires Codes(a) == Codes(b)
    ensures a == b
  {
    assert |a| == |Codes(a)| == |b|;
    forall i | 0 <= i < |a| ensures a[i] == b[i] {
      assert Codes(a)[i] == a[i] as int && Codes(b)[i] == b[i] as int;
    }
  }

  /** Exactly one of `a < b`, `a == b`, `b < a` holds. */
  lemma {:induction false} LexTrichotomy(a: seq<int>, b: seq<int>)
    ensures LexLess(a, b) ==> !LexLess(b, a) && a != b
    ensures LexLess(a, b) || LexLess(b, a) || a == b
  {
    if a != [] && b != [] {
      LexTrichotomy(a[1..], b[1..]);
      if a[0] == b[0] && a[1..] == b[1..] {
        assert a == [a[0]] + a[1..] == b;
      }
    }
  }

  lemma {:induction false} LexTransitive(a: seq<int>, b: seq<int>, c: seq<int>)
    requires LexLess(a, b) && LexLess(b, c)
    ensures LexLess(a, c)
  {
    if a != [] && a[0] == b[0] == c[0] {
      LexTransitive(a[1..], b[1..], c[1..]);
    }
  }

  /** "Not greater" is a total preorder. */
  lemma {:induction false} LexLeqPreorder(a: seq<int>, b: seq<int>, c: seq<int>)
    ensures LexLeq(a, b) || LexLeq(b, a)
    ensures LexLeq(a, b) && LexLeq(b, c) ==> LexLeq(a, c)
  {
    hide LexLess;
    LexTrichotomy(a, b);
    LexTrichotomy(b, c);
    LexTrichotomy(a, c);
    if LexLess(c, a) && LexLess(a, b) {
      LexTransitive(c, a, b);
    }
    if LexLess(b, c) && LexLess(c, a) {
      LexTransitive(b, c, a);
    }
  }

  /** Fields of equal width: the first field that differs decides. */
  lemma {:induction false} LexConcat(a: seq<int>, x: seq<int>, b: seq<int>, y: seq<int>)
    requires |a| == |b|
    ensures LexLess(a + x, b + y) <==> LexLess(a, b) || (a == b && LexLess(x, y))
  {
    if a == [] {
      assert a + x == x && b + y == y;
    } else {
      assert (a + x)[1..] == a[1..] + x && (b + y)[1..] == b[1..] + y;
      LexConcat(a[1..], x, b[1..], y);
      assert a == [a[0]] + a[1..] && b == [b[0]] + b[1..];
    }
  }
}
