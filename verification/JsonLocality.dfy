/** Parsing a value depends only on the characters it consumes: the same characters `h` places
    away in another text give the same value, if what follows cannot extend a number. */
module JsonLocality {
  import opened Wrappers
  import opened Strings
  import opened Json

  /** `t[i..j]` reads the same as `u[i + h..j + h]`. */
  ghost predicate Agree(t: string, i: nat, j: nat, u: string, h: int)
    requires i <= j <= |t|
    decreases j - i
  {
    0 <= i + h <= |u| && (i < j ==> i + h < |u| && t[i] == u[i + h] && Agree(t, i + 1, j, u, h))
  }

  predicate Boundary(u: string, b: nat) {
    b < |u| ==> !NumberChar(u[b])
  }

  lemma {:induction false} AgreeFirst(t: string, i: nat, j: nat, u: string, h: int)
    requires i < j <= |t| && Agree(t, i, j, u, h)
    ensures 0 <= i + h < |u| && u[i + h] == t[i]
  {
  }

  /** Parts of agreeing stretches agree. */
  lemma {:induction false} AgreePart(t: string, i: nat, j: nat, u: string, h: int, m: nat, n: nat)
    requires i <= m <= n <= j <= |t| && Agree(t, i, j, u, h)
    ensures 0 <= i + h && j + h <= |u|
    ensures Agree(t, m, n, u, h)
    ensures m < j ==> t[m] == u[m + h]
    decreases j - i
  {
    if i < m {
      AgreePart(t, i + 1, j, u, h, m, n);
    } else if i < n {
      AgreePart(t, i + 1, j, u, h, i + 1, n);
    } else if i < j {
      AgreePart(t, i + 1, j, u, h, i + 1, i + 1);
    }
  }

  lemma {:induction false} AgreeSlice(t: string, i: nat, j: nat, u: string, h: int)
    requires i <= j <= |t| && Agree(t, i, j, u, h)
    ensures 0 <= i + h && j + h <= |u| && t[i..j] == u[i + h..j + h]
    decreases j - i
  {
    if i < j {
      AgreeSlice(t, i + 1, j, u, h);
      assert t[i..j] == [t[i]] + t[i + 1..j];
      assert u[i + h..j + h] == [u[i + h]] + u[i + 1 + h..j + h];
    }
  }

  lemma {:induction false} SliceAgrees(t: string, i: nat, j: nat, u: string, h: int)
    requires i <= j <= |t| && 0 <= i + h && j + h <= |u| && t[i..j] == u[i + h..j + h]
    ensures Agree(t, i, j, u, h)
    decreases j - i
  {
    if i < j {
      assert t[i] == t[i..j][0] && u[i + h] == u[i + h..j + h][0];
      assert t[i + 1..j] == t[i..j][1..] && u[i + 1 + h..j + h] == u[i + h..j + h][1..];
      SliceAgrees(t, i + 1, j, u, h);
    }
  }

  lemma {:induction false} LocalWs(t: string, i: nat, j: nat, u: string, h: int)
    requires i <= j <= |t| && Agree(t, i, j, u, h) && SkipWs(t, i) < j
    ensures SkipWs(u, i + h) == SkipWs(t, i) + h
    decreases j - i
  {
    if IsWs(t[i]) {
      LocalWs(t, i + 1, j, u, h);
    }
  }

  lemma {:induction false} LocalString(t: string, i: nat, j: nat, u: string, h: int)
    requires i <= j <= |t| && Agree(t, i, j, u, h) && StringEnd(t, i).Some? && StringEnd(t, i).value < j
    ensures StringEnd(u, i + h) == Some(StringEnd(t, i).value + h)
    decreases j - i
  {
    if t[i] == '"' {
    } else if t[i] == '\\' {
      if t[i + 1] == 'u' {
        AgreePart(t, i, j, u, h, i + 1, j);
        AgreePart(t, i, j, u, h, i + 2, j);
        AgreePart(t, i, j, u, h, i + 3, j);
        AgreePart(t, i, j, u, h, i + 4, j);
        AgreePart(t, i, j, u, h, i + 5, j);
        AgreePart(t, i, j, u, h, i + 6, j);
        LocalString(t, i + 6, j, u, h);
      } else {
        AgreePart(t, i, j, u, h, i + 2, j);
        LocalString(t, i + 2, j, u, h);
      }
    } else {
      LocalString(t, i + 1, j, u, h);
    }
  }

  lemma {:induction false} LocalDigits(t: string, i: nat, j: nat, u: string, h: int)
    requires i <= j <= |t| && Agree(t, i, j, u, h) && DigitsEnd(t, i) <= j
    requires Boundary(u, j + h)
    ensures DigitsEnd(u, i + h) == DigitsEnd(t, i) + h
    decreases j - i
  {
    if i < j && IsDigit(t[i]) {
      LocalDigits(t, i + 1, j, u, h);
    }
  }

  lemma {:induction false} LocalInteger(t: string, i: nat, j: nat, u: string, h: int)
    requires i <= j <= |t| && Agree(t, i, j, u, h) && IntegerEnd(t, i).Some? && IntegerEnd(t, i).value <= j
    requires Boundary(u, j + h)
    ensures IntegerEnd(u, i + h) == Some(IntegerEnd(t, i).value + h)
  {
    var k := if t[i] == '-' then i + 1 else i;
    AgreePart(t, i, j, u, h, k, j);
    if t[k] != '0' {
      LocalDigits(t, k, j, u, h);
    }
  }

  lemma {:induction false} LocalFraction(t: string, i: nat, j: nat, u: string, h: int)
    requires i <= j <= |t| && Agree(t, i, j, u, h) && FractionEnd(t, i) <= j
    requires i == j || FractionEnd(t, i) > i || t[i] != '.'
    requires Boundary(u, j + h)
    ensures FractionEnd(u, i + h) == FractionEnd(t, i) + h
  {
    if FractionEnd(t, i) > i {
      LocalDigits(t, i + 1, j, u, h);
    }
  }

  lemma {:induction false} LocalExponent(t: string, i: nat, j: nat, u: string, h: int)
    requires i <= j <= |t| && Agree(t, i, j, u, h) && ExponentEnd(t, i) == j
    requires Boundary(u, j + h)
    ensures ExponentEnd(u, i + h) == j + h
  {
    if i < j {
      var k := if t[i + 1] == '+' || t[i + 1] == '-' then i + 2 else i + 1;
      AgreePart(t, i, j, u, h, i + 1, j);
      AgreePart(t, i, j, u, h, k, j);
      LocalDigits(t, k, j, u, h);
    }
  }

  lemma {:induction false} LocalNumber(t: string, i: nat, u: string, h: int, j: nat)
    requires i <= |t| && NumberEnd(t, i) == Some(j)
    requires Agree(t, i, j, u, h) && Boundary(u, j + h)
    ensures NumberEnd(u, i + h) == Some(j + h)
  {
    var k := IntegerEnd(t, i).value;
    var f := FractionEnd(t, k);
    LocalInteger(t, i, j, u, h);
    AgreePart(t, i, j, u, h, k, j);
    AgreePart(t, i, j, u, h, f, j);
    LocalFraction(t, k, j, u, h);
    LocalExponent(t, f, j, u, h);
  }

  lemma {:induction false} LocalWord(t: string, i: nat, u: string, h: int, w: string)
    requires Starts(t, i, w) && Agree(t, i, i + |w|, u, h)
    ensures Starts(u, i + h, w)
  {
    AgreeSlice(t, i, i + |w|, u, h);
  }

  lemma {:induction false} WordStart(u: string, a: nat, w: string)
    requires |w| >= 2
    ensures Starts(u, a, w) ==> u[a] == w[0] && u[a + 1] == w[1]
  {
    if Starts(u, a, w) {
      assert u[a] == u[a..a + |w|][0] && u[a + 1] == u[a..a + |w|][1];
    }
  }

  lemma {:induction false} NumberIsNoWord(u: string, a: nat)
    requires a < |u| && NumberEnd(u, a).Some?
    ensures !Starts(u, a, Word(u[a]))
  {
    WordStart(u, a, Word(u[a]));
  }

  lemma {:induction false} LocalLiteral(t: string, i: nat, u: string, h: int, v: Value, j: nat)
    requires i < |t| && ParseLiteral(t, i) == ValueTo(v, j)
    requires Agree(t, i, j, u, h) && Boundary(u, j + h)
    ensures 0 <= i + h < |u| && ParseLiteral(u, i + h) == ValueTo(v, j + h)
  {
    hide NumberEnd, Boundary;
    AgreeFirst(t, i, j, u, h);
    hide Agree;
    if Starts(t, i, Word(t[i])) {
      LocalWord(t, i, u, h, Word(t[i]));
    } else {
      LocalNumber(t, i, u, h, j);
      NumberIsNoWord(u, i + h);
      AgreeSlice(t, i, j, u, h);
    }
  }

  /** White space after one character. */
  lemma {:induction false} LocalOpen(t: string, i: nat, e: nat, u: string, h: int)
    requires i < e <= |t| && Agree(t, i, e, u, h) && SkipWs(t, i + 1) < e
    ensures 0 <= i + h < |u| && SkipWs(u, i + h + 1) == SkipWs(t, i + 1) + h < |u|
    ensures u[SkipWs(t, i + 1) + h] == t[SkipWs(t, i + 1)]
    ensures Agree(t, SkipWs(t, i + 1), e, u, h)
  {
    LocalWs(t, i + 1, e, u, h);
    AgreePart(t, i + 1, e, u, h, SkipWs(t, i + 1), e);
  }

  /** What follows an inner value is white space or a separator, so a number ends there. */
  lemma {:induction false} InnerBoundary(t: string, i: nat, e: nat, u: string, h: int, j: nat)
    requires i <= j <= e <= |t| && Agree(t, i, e, u, h) && SkipWs(t, j) < e && !NumberChar(t[SkipWs(t, j)])
    ensures 0 <= i + h && j + h <= |u| && Boundary(u, j + h)
    ensures SkipWs(u, j + h) == SkipWs(t, j) + h < |u|
    ensures u[SkipWs(t, j) + h] == t[SkipWs(t, j)]
    ensures Agree(t, i, j, u, h) && Agree(t, SkipWs(t, j), e, u, h)
  {
    AgreePart(t, i, e, u, h, i, j);
    AgreePart(t, i, e, u, h, j, e);
    LocalWs(t, j, e, u, h);
    AgreePart(t, i, e, u, h, SkipWs(t, j), e);
  }

  /** The separator after an element, as far as the list goes on. */
  lemma {:induction false} LocalSeparator(t: string, i: nat, e: nat, u: string, h: int, j: nat, close: char)
    requires i <= j <= e <= |t| && Agree(t, i, e, u, h) && (close == ']' || close == '}')
    requires var s := ParseSeparator(t, j, close); s == Closed(e) || (s.More? && s.next < e)
    ensures Agree(t, i, j, u, h) && j + h <= |u| && Boundary(u, j + h)
    ensures var s := ParseSeparator(t, j, close);
      if s.More? then ParseSeparator(u, j + h, close) == More(s.next + h) && Agree(t, s.next, e, u, h)
      else ParseSeparator(u, j + h, close) == Closed(e + h)
  {
    InnerBoundary(t, i, e, u, h, j);
    if ParseSeparator(t, j, close).More? {
      LocalOpen(t, SkipWs(t, j), e, u, h);
    }
  }

  lemma {:induction false} LocalKey(t: string, i: nat, e: nat, u: string, h: int, key: string, p: nat)
    requires i <= |t| && ParseKey(t, i) == KeyTo(key, p) && p < e <= |t|
    requires Agree(t, i, e, u, h)
    ensures 0 <= i + h <= |u| && ParseKey(u, i + h) == KeyTo(key, p + h)
    ensures Agree(t, p, e, u, h)
  {
    hide Agree, SkipWs, StringEnd, Boundary;
    var q := StringEnd(t, i + 1).value;
    AgreeFirst(t, i, e, u, h);
    AgreePart(t, i, e, u, h, i + 1, e);
    LocalString(t, i + 1, e, u, h);
    AgreePart(t, i + 1, e, u, h, i + 1, q);
    AgreeSlice(t, i + 1, q, u, h);
    InnerBoundary(t, i, e, u, h, q + 1);
    LocalOpen(t, SkipWs(t, q + 1), e, u, h);
  }

  lemma {:induction false} LocalText(t: string, i: nat, u: string, h: int, v: Value, j: nat)
    requires i < |t| && t[i] == '"' && ParseValue(t, i) == ValueTo(v, j)
    requires Agree(t, i, j, u, h)
    ensures 0 <= i + h < |u| && ParseValue(u, i + h) == ValueTo(v, j + h)
  {
    hide ParseValue, ParseItems, ParseMembers;
    TextStep(t, i);
    TextStep(u, i + h);
    LocalString(t, i + 1, j, u, h);
    AgreePart(t, i + 1, j, u, h, i + 1, j - 1);
    AgreeSlice(t, i + 1, j - 1, u, h);
  }

  lemma {:induction false} LocalValue(t: string, i: nat, u: string, h: int, v: Value, j: nat)
    requires i <= |t| && ParseValue(t, i) == ValueTo(v, j)
    requires Agree(t, i, j, u, h) && Boundary(u, j + h)
    ensures 0 <= i + h < |u| && ParseValue(u, i + h) == ValueTo(v, j + h)
    decreases |t| - i, 0
  {
    hide *;
    AgreeFirst(t, i, j, u, h);
    if t[i] == '"' {
      LocalText(t, i, u, h, v, j);
    } else if t[i] == '[' {
      ArrayStep(t, i);
      ArrayStep(u, i + h);
      LocalOpen(t, i, j, u, h);
      if t[SkipWs(t, i + 1)] != ']' {
        LocalItems(t, SkipWs(t, i + 1), u, h, v.items, j);
      }
    } else if t[i] == '{' {
      ObjectStep(t, i);
      ObjectStep(u, i + h);
      LocalOpen(t, i, j, u, h);
      if t[SkipWs(t, i + 1)] != '}' {
        LocalMembers(t, SkipWs(t, i + 1), u, h, v.members, j);
      }
    } else {
      LiteralStep(t, i);
      LiteralStep(u, i + h);
      LocalLiteral(t, i, u, h, v, j);
    }
  }

  lemma {:induction false} LocalItems(t: string, i: nat, u: string, h: int, items: seq<Value>, e: nat)
    requires i <= |t| && ParseItems(t, i) == ItemsTo(items, e)
    requires Agree(t, i, e, u, h)
    ensures 0 <= i + h <= |u| && ParseItems(u, i + h) == ItemsTo(items, e + h)
    decreases |t| - i, 1
  {
    hide *;
    var v, j, s := ItemsParts(t, i, items, e);
    LocalSeparator(t, i, e, u, h, j, ']');
    LocalValue(t, i, u, h, v, j);
    ItemsStep(u, i + h, v, j + h);
    if s.More? {
      LocalItems(t, s.next, u, h, items[1..], e);
      assert items == [v] + items[1..];
    }
  }

  lemma {:induction false} LocalMembers(t: string, i: nat, u: string, h: int, members: seq<Member>, e: nat)
    requires i <= |t| && ParseMembers(t, i) == MembersTo(members, e)
    requires Agree(t, i, e, u, h)
    ensures 0 <= i + h <= |u| && ParseMembers(u, i + h) == MembersTo(members, e + h)
    decreases |t| - i, 1
  {
    hide *;
    var key, p, v, j, s := MembersParts(t, i, members, e);
    LocalKey(t, i, e, u, h, key, p);
    LocalSeparator(t, p, e, u, h, j, '}');
    LocalValue(t, p, u, h, v, j);
    MembersStep(u, i + h, key, p + h, v, j + h);
    if s.More? {
      LocalMembers(t, s.next, u, h, members[1..], e);
      assert members == [Member(key, v)] + members[1..];
    }
  }
}
