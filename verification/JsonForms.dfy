/** The JSON that is read and written, form by form: numbers, escapes, words, and the two layouts. */
module JsonForms {
  import opened Wrappers
  import opened Strings
  import opened Json
  import opened JsonText

  // ----- numbers -----

  /** A sign or none, an integer without leading zeros, perhaps a fraction, perhaps an exponent (section 6 of
      RFC 8259). */
  predicate NumberForm(sign: string, whole: string, fraction: string, exponent: string) {
    && (sign == "" || sign == "-")
    && Digits(whole) && (|whole| > 1 ==> whole[0] != '0')
    && (fraction != "" ==> fraction[0] == '.' && Digits(fraction[1..]))
    && (exponent != "" ==>
          && (exponent[0] == 'e' || exponent[0] == 'E')
          && (Digits(exponent[1..])
              || (|exponent| > 1 && (exponent[1] == '+' || exponent[1] == '-') && Digits(exponent[2..]))))
  }

  lemma {:induction false} DigitsRun(t: string, i: nat, j: nat)
    requires i <= j <= |t| && (forall k | i <= k < j :: IsDigit(t[k])) && (j < |t| ==> !IsDigit(t[j]))
    ensures DigitsEnd(t, i) == j
    decreases j - i
  {
    if i < j {
      DigitsRun(t, i + 1, j);
    }
  }

  lemma {:induction false} WholeEnds(t: string, sign: string, whole: string, rest: string)
    requires t == sign + whole + rest && NumberForm(sign, whole, "", "")
    requires rest != "" ==> !IsDigit(rest[0])
    ensures IntegerEnd(t, 0) == Some(|sign| + |whole|)
  {
    var k := |sign|;
    assert forall m | k <= m < k + |whole| :: t[m] == whole[m - k];
    if whole[0] != '0' {
      DigitsRun(t, k, k + |whole|);
    }
  }

  lemma {:induction false} FractionEnds(t: string, head: string, fraction: string, rest: string)
    requires t == head + fraction + rest && NumberForm("", "0", fraction, "")
    requires rest != "" ==> !IsDigit(rest[0]) && rest[0] != '.'
    ensures FractionEnd(t, |head|) == |head| + |fraction|
  {
    var k := |head|;
    assert forall m | k <= m < k + |fraction| :: t[m] == fraction[m - k];
    if fraction != "" {
      assert forall m | k < m < k + |fraction| :: t[m] == fraction[1..][m - k - 1];
      assert t[k + 1] == fraction[1..][0];
      DigitsRun(t, k + 1, k + |fraction|);
    }
  }

  lemma {:induction false} ExponentEnds(t: string, head: string, exponent: string)
    requires t == head + exponent && NumberForm("", "0", "", exponent)
    ensures ExponentEnd(t, |head|) == |t|
  {
    var k := |head|;
    assert forall m | k <= m < |t| :: t[m] == exponent[m - k];
    if exponent != "" {
      var n := if Digits(exponent[1..]) then 1 else 2;
      assert forall m | k + n <= m < |t| :: t[m] == exponent[n..][m - k - n];
      assert IsDigit(exponent[n..][0]);
      DigitsRun(t, k + n, |t|);
    }
  }

  lemma {:induction false} NumberLiteral(sign: string, whole: string, fraction: string, exponent: string)
    requires NumberForm(sign, whole, fraction, exponent)
    ensures var t := sign + whole + fraction + exponent; ParseLiteral(t, 0) == ValueTo(Number(t), |t|)
  {
    hide IntegerEnd, FractionEnd, ExponentEnd, Starts;
    var t := sign + whole + fraction + exponent;
    assert t == sign + whole + (fraction + exponent);
    assert t[|sign|] == whole[0] && IsDigit(whole[0]);
    NotAWord(t, |sign|);
    WholeEnds(t, sign, whole, fraction + exponent);
    FractionEnds(t, sign + whole, fraction, exponent);
    ExponentEnds(t, sign + whole + fraction, exponent);
    assert t[0..|t|] == t;
  }

  /** Every such text is a number, read whole. */
  lemma {:induction false} NumberLoads(sign: string, whole: string, fraction: string, exponent: string)
    requires NumberForm(sign, whole, fraction, exponent)
    ensures var t := sign + whole + fraction + exponent; Parse(t) == Some(Number(t))
  {
    hide Parse, ParseLiteral;
    NumberLiteral(sign, whole, fraction, exponent);
    LoadWritten(Number(sign + whole + fraction + exponent), Compact);
  }

  lemma {:induction false} StartsAt(t: string, word: string, k: nat)
    requires k < |t|
    ensures Starts(t, 0, word) && k < |word| ==> t[k] == word[k]
  {
    assert Starts(t, 0, word) && k < |word| ==> t[0..|word|][k] == t[k];
  }

  lemma {:induction false} NotAWord(t: string, k: nat)
    requires k <= 1 && k < |t| && IsDigit(t[k]) && (k == 1 ==> t[0] == '-')
    ensures !Starts(t, 0, Word(t[0]))
  {
    StartsAt(t, Word(t[0]), 0);
    StartsAt(t, Word(t[0]), k);
    hide Starts;
  }

  /** Digits after a leading zero are not read. */
  lemma {:induction false} LeadingZero(x: string)
    requires Digits(x)
    ensures Parse("0" + x).None?
  {
    var t := "0" + x;
    assert t[1] == x[0];
    NotAWord(t, 0);
  }

  // ----- words and strings -----

  /** The words, the two spellings Python adds among them. */
  lemma {:induction false} WordsLoad()
    ensures Parse("null") == Some(Null) && Parse("true") == Some(True) && Parse("false") == Some(False)
    ensures Parse("NaN") == Some(Number("NaN")) && Parse("-Infinity") == Some(Number("-Infinity"))
  {
    LoadWritten(Null, Compact);
    LoadWritten(True, Compact);
    LoadWritten(False, Compact);
    PythonWords();
    hide Parse, ParseLiteral;
    LoadWritten(Number("NaN"), Compact);
    LoadWritten(Number("-Infinity"), Compact);
  }

  lemma {:induction false} PythonWords()
    ensures ParseLiteral("NaN", 0) == ValueTo(Number("NaN"), 3)
    ensures ParseLiteral("-Infinity", 0) == ValueTo(Number("-Infinity"), 9)
  {
    assert "NaN"[0..3] == "NaN" && "-Infinity"[0..9] == "-Infinity";
  }

  /** What the short escapes stand for (section 7 of RFC 8259). */
  lemma {:induction false} EscapesRead()
    ensures Unquote("\\\"") == "\"" && Unquote("\\\\") == "\\" && Unquote("\\/") == "/"
    ensures Unquote("\\n") == "\n" && Unquote("\\r") == "\r" && Unquote("\\t") == "\t"
    ensures Unquote("\\b") == "\U{8}" && Unquote("\\f") == "\U{c}"
  {
    assert Unquote("") == "";
  }

  /** Each of them can stand in a string, and no other; nor can a bare control character. */
  lemma {:induction false} EscapeAllowed(c: char)
    requires c != 'u'
    ensures c in {'"', '\\', '/', 'b', 'f', 'n', 'r', 't'} ==> Parse("\"\\" + [c] + "\"") == Some(Text("\\" + [c]))
    ensures c !in {'"', '\\', '/', 'b', 'f', 'n', 'r', 't'} ==> Parse("\"\\" + [c] + "\"").None?
    ensures c < ' ' ==> Parse("\"" + [c] + "\"").None?
  {
    var t := "\"\\" + [c] + "\"";
    if IsShortEscape(c) {
      assert StringEnd(t, 3) == Some(3);
      assert t[1..3] == "\\" + [c];
    }
    if c < ' ' {
      var u := "\"" + [c] + "\"";
      assert StringEnd(u, 1) == None;
    }
  }

  /** The cache's files keep every character that need not be escaped, ASCII or not. */
  lemma {:induction false} QuoteKeeps(s: string)
    requires forall i | 0 <= i < |s| :: s[i] >= ' ' && s[i] != '"' && s[i] != '\\'
    ensures Quote(s) == s
  {
    if s != "" {
      QuoteKeeps(s[1..]);
      assert s == [s[0]] + s[1..];
    }
  }

  // ----- layouts -----

  /** The white space of the two layouts: messages have one space after a comma, the cache's files two spaces more
      on a new line for each level. */
  lemma {:induction false} WhiteSpace(level: nat)
    ensures Lead(Compact) == "" && Gap(Compact) == " " && Trail(Compact) == ""
    ensures Trail(Indented(0)) == "\n" && Trail(Indented(level + 1)) == Trail(Indented(level)) + "  "
    ensures Lead(Indented(level)) == Gap(Indented(level)) == Trail(Inner(Indented(level)))
  {
  }

  /** A list and an object as they are laid out: one element after the other, keys and values with a colon. */
  lemma {:induction false} ListLaidOut(l: Layout)
    ensures Write(Array([Null, True]), l) == "[" + Lead(l) + "null" + "," + Gap(l) + "true" + Trail(l) + "]"
  {
    var items := [Null, True];
    assert items[1..] == [True];
    assert WriteItems([True], l) == "true" + (Trail(l) + "]");
    assert WriteItems(items, l) == "null" + ("," + Gap(l) + WriteItems([True], l));
  }

  lemma {:induction false} ObjectLaidOut(l: Layout)
    ensures var v := Array([Null, True]);
      Write(Object([Member("a", v)]), l)
      == "{" + Lead(l) + ("\"" + "a" + "\"" + ": " + Write(v, Inner(l)) + (Trail(l) + "}"))
  {
    hide Write;
    var members := [Member("a", Array([Null, True]))];
    ObjectWritten(members, l);
    assert WriteMembers(members, l) == "\"" + members[0].key + "\"" + ": " + Write(members[0].value, Inner(l)) +
                                       MemberTail(l, "");
  }

  lemma {:induction false} ObjectWritten(members: seq<Member>, l: Layout)
    requires members != []
    ensures Write(Object(members), l) == "{" + Lead(l) + WriteMembers(members, l)
  {
  }
}
