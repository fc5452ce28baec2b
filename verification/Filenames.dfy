/** `sanitize_filename`. */
module Filenames {
  import opened Strings

  const DANGEROUS: string := "<>:\"/\\|?*"

  /** `s.replace(c, d)` for single characters. */
  function ReplaceChar(s: string, c: char, d: char): (r: string)
    ensures |r| == |s|
  {
    seq(|s|, i requires 0 <= i < |s| => if s[i] == c then d else s[i])
  }

  /** `s[:k]`: a negative bound counts from the end. */
  function Take(s: string, k: int): (r: string)
    ensures |r| == if k >= 0 then (if k < |s| then k else |s|) else if |s| + k > 0 then |s| + k else 0
    ensures r <= s
  {
    if k >= 0 then s[..if k < |s| then k else |s|]
    else if |s| + k > 0 then s[..|s| + k] else ""
  }

  /** What follows the last dot; empty without one. */
  function Extension(s: string): (e: string)
    ensures |e| <= |s| && e == s[|s| - |e|..]
    ensures '.' !in e
    ensures '.' in s ==> |e| < |s| && s[|s| - |e| - 1] == '.'
    ensures '.' !in s ==> e == ""
  {
    if '.' !in s then ""
    else if s[|s| - 1] == '.' then ""
    else Extension(s[..|s| - 1]) + [s[|s| - 1]]
  }

  /** What comes before that dot. */
  function Stem(s: string): string {
    if '.' in s then s[..|s| - |Extension(s)| - 1] else s
  }

  function Replaced(s: string): (r: string)
    ensures |r| == |s|
  {
    seq(|s|, i requires 0 <= i < |s| => if s[i] in DANGEROUS then '_' else s[i])
  }

  /** Dangerous characters replaced, outer white space removed, inner spaces replaced. */
  function Clean(s: string): string {
    ReplaceChar(Strip(Replaced(s)), ' ', '_')
  }

  function Truncated(s: string, maxLength: int): string {
    if |s| <= maxLength then s
    else if Extension(s) != "" then Take(Stem(s), maxLength - |Extension(s)| - 1) + "." + Extension(s)
    else Take(s, maxLength)
  }

  function Sanitized(s: string, maxLength: int): string {
    Truncated(Clean(s), maxLength)
  }

  method SanitizeFilename(filename: string, maxLength: int) returns (r: string)
    ensures r == Sanitized(filename, maxLength)
  {
    r := filename;
    var k := 0;
    while k < |DANGEROUS|
      invariant 0 <= k <= |DANGEROUS| && |r| == |filename|
      invariant forall i | 0 <= i < |r| :: r[i] == if filename[i] in DANGEROUS[..k] then '_' else filename[i]
    {
      assert '_' !in DANGEROUS;
      assert DANGEROUS[..k + 1] == DANGEROUS[..k] + [DANGEROUS[k]];
      r := ReplaceChar(r, DANGEROUS[k], '_');
      k := k + 1;
    }
    assert DANGEROUS[..k] == DANGEROUS;
    assert r == Replaced(filename);
    r := ReplaceChar(Strip(r), ' ', '_');
    if |r| > maxLength {
      var name, ext := Stem(r), Extension(r);
      if ext != "" {
        r := Take(name, maxLength - |ext| - 1) + "." + ext;
      } else {
        r := Take(r, maxLength);
      }
    }
  }

  // ----- what the result is good for -----

  /** Neither a dangerous character nor a space. */
  predicate Safe(s: string) {
    forall c | c in s :: c !in {'<', '>', ':', '"', '/', '\\', '|', '?', '*', ' '}
  }

  lemma {:induction false} TheDangerous(c: char)
    ensures c in DANGEROUS <==> c in {'<', '>', ':', '"', '/', '\\', '|', '?', '*'}
  {
  }

  lemma {:induction false} StripPart(s: string, c: char)
    ensures c in Strip(s) ==> c in s
  {
    hide IsSpace, Strip;
    var left, right := StripSplits(s);
  }

  lemma {:induction false} CleanSafe(s: string)
    ensures Safe(Clean(s))
  {
    hide Strip;
    var t := Replaced(s);
    forall c | c in Clean(s) ensures c !in DANGEROUS && c != ' ' {
      if c != '_' {
        StripPart(t, c);
      }
    }
  }

  /** Before truncation nothing is left to strip. */
  lemma {:induction false} CleanStripped(s: string)
    ensures Stripped(Clean(s))
  {
    hide Strip;
    var t := Replaced(s);
    var left, right := StripSplits(t);
  }

  lemma {:induction false} SpacesUnchanged(s: string, pad: string, at: nat)
    requires at + |pad| <= |s| && Replaced(s)[at..at + |pad|] == pad && AllSpace(pad)
    ensures AllSpace(s[at..at + |pad|])
  {
    var part := s[at..at + |pad|];
    assert !IsSpace('_');
    forall i | 0 <= i < |part| ensures IsSpace(part[i]) {
      assert Replaced(s)[at + i] == pad[i];
    }
  }

  lemma {:induction false} ReplacedParts(s: string, l: string, m: string, r: string)
    requires Replaced(s) == l + m + r
    ensures |s| == |l| + |m| + |r|
    ensures Replaced(s)[0..|l|] == l && Replaced(s)[|l| + |m|..|l| + |m| + |r|] == r
    ensures forall i | 0 <= i < |m| :: m[i] == if s[|l| + i] in DANGEROUS then '_' else s[|l| + i]
  {
    forall i | 0 <= i < |m| ensures m[i] == if s[|l| + i] in DANGEROUS then '_' else s[|l| + i] {
      assert Replaced(s)[|l| + i] == m[i];
    }
  }

  /** Cleaning drops outer white space and nothing else, and changes only dangerous characters and spaces. */
  lemma {:induction false} CleanKeeps(s: string) returns (left: string, core: string, right: string)
    ensures s == left + core + right && AllSpace(left) && AllSpace(right)
    ensures |Clean(s)| == |core|
    ensures forall i | 0 <= i < |core| ::
      Clean(s)[i] == if core[i] in DANGEROUS || core[i] == ' ' then '_' else core[i]
  {
    hide Strip, IsSpace, Replaced, AllSpace;
    var l, r := StripSplits(Replaced(s));
    var m := Strip(Replaced(s));
    ReplacedParts(s, l, m, r);
    var a, b := |l|, |l| + |m|;
    left, core, right := s[0..a], s[a..b], s[b..b + |r|];
    SpacesUnchanged(s, l, 0);
    SpacesUnchanged(s, r, b);
    assert s == left + core + right;
  }

  /** A name that has to be shortened keeps its extension, and as much of its start as fits. */
  lemma {:induction false} TruncationKeeps(s: string, maxLength: int)
    requires |Clean(s)| > maxLength && Fits(Clean(s), maxLength)
    ensures var c := Clean(s); var e := Extension(c);
      Sanitized(s, maxLength) ==
        if e != "" then c[..maxLength - |e| - 1] + c[|c| - |e| - 1..] else c[..maxLength]
  {
    hide Clean, Extension, Stem;
    var c := Clean(s);
    var e := Extension(c);
    if e != "" {
      StemAndExtension(c);
      assert c[|c| - |e| - 1..] == "." + e;
      assert Stem(c)[..maxLength - |e| - 1] == c[..maxLength - |e| - 1];
    }
  }

  lemma {:induction false} TruncatedPart(s: string, maxLength: int, c: char)
    ensures c in Truncated(s, maxLength) ==> c in s
  {
  }

  /** The result never holds a dangerous character or a space. */
  lemma {:induction false} SanitizedSafe(s: string, maxLength: int)
    ensures Safe(Sanitized(s, maxLength))
  {
    hide Clean, Truncated;
    CleanSafe(s);
    forall c | c in Sanitized(s, maxLength) ensures c in Clean(s) {
      TruncatedPart(Clean(s), maxLength, c);
    }
  }

  /** The limit leaves room for the extension and its dot. */
  predicate Fits(s: string, maxLength: int) {
    if Extension(s) != "" then |Extension(s)| + 1 <= maxLength else 0 <= maxLength
  }

  /** The length limit is kept exactly when the name is short enough anyway or its extension fits. */
  lemma {:induction false} LengthExact(s: string, maxLength: int)
    ensures |Sanitized(s, maxLength)| <= maxLength <==> |Clean(s)| <= maxLength || Fits(Clean(s), maxLength)
  {
    hide Clean;
  }

  lemma {:induction false} StripStripped(s: string)
    ensures Strip(s) == s <==> Stripped(s)
    ensures |Strip(s)| <= |s|
  {
    hide IsSpace, Strip, Stripped;
    var left, right := StripSplits(s);
    if Stripped(s) {
      StripUnique("", s, "");
      assert "" + s + "" == s;
    }
  }

  lemma {:induction false} CleanOfSafe(s: string)
    requires Safe(s)
    ensures Clean(s) == Strip(s)
  {
    hide Strip;
    forall c | c in s ensures c !in DANGEROUS {
      TheDangerous(c);
    }
    assert Replaced(s) == s;
    forall i | 0 <= i < |Strip(s)| ensures Strip(s)[i] != ' ' {
      StripPart(s, Strip(s)[i]);
    }
  }

  // ----- sanitizing twice -----

  /** A dot, then at least one character, none of them another dot and the last no white space. */
  predicate DotName(t: string) {
    |t| >= 2 && t[0] == '.' && '.' !in t[1..] && !IsSpace(t[|t| - 1])
  }

  /** What the cleaned name must be for its truncation to be final. */
  predicate Stable(c: string, maxLength: int) {
    var e := Extension(c);
    if |c| <= maxLength then true
    else if e != "" then |e| + 1 <= maxLength || |c| + maxLength <= 2 * (|e| + 1)
    else if maxLength >= 0 then maxLength == 0 || !IsSpace(c[maxLength - 1])
    else |c| + maxLength <= 0 || DotName(c[..|c| + maxLength])
  }

  /** The extension is what follows the last dot. */
  lemma {:induction false} ExtensionOf(a: string, e: string)
    requires '.' !in e
    ensures Extension(a + "." + e) == e && Stem(a + "." + e) == a
  {
    var t := a + "." + e;
    assert t[|a|] == '.';
    if e != "" {
      assert t[..|t| - 1] == a + "." + e[..|e| - 1];
      ExtensionOf(a, e[..|e| - 1]);
      assert t[|t| - 1] == e[|e| - 1];
      assert e[|e| - 1] in e;
    }
    assert t[..|a|] == a;
  }

  lemma {:induction false} StripSame(s: string)
    ensures |Strip(s)| == |s| ==> Strip(s) == s
    ensures s != "" && !IsSpace(s[0]) ==> Strip(s) != ""
  {
    hide IsSpace, Strip;
    var left, right := StripSplits(s);
    if Strip(s) == "" {
      assert s == left + right;
    }
  }

  lemma {:induction false} DotIsNoSpace()
    ensures !IsSpace('.')
  {
  }

  lemma {:induction false} SameHead(a: string, b: string, tail: string)
    ensures a + tail == b + tail <==> a == b
  {
    if a + tail == b + tail {
      assert |a| == |b|;
      assert a == (a + tail)[..|a|] && b == (b + tail)[..|b|];
    }
  }

  lemma {:induction false} StemAndExtension(c: string)
    requires Extension(c) != ""
    ensures c == Stem(c) + "." + Extension(c) && |c| == |Stem(c)| + 1 + |Extension(c)|
  {
  }

  /** A shortened stem with its old extension is stripped if the name was. */
  lemma {:induction false} ShortenedStripped(c: string, x: string, e: string)
    requires Stripped(c) && e != "" && |x| + 1 + |e| <= |c|
    requires c[|c| - |e|..] == e && x <= c
    ensures Stripped(x + "." + e)
  {
    hide IsSpace;
    DotIsNoSpace();
    var out := x + "." + e;
    assert out[|out| - 1] == e[|e| - 1] == c[|c| - 1];
    assert x != "" ==> out[0] == x[0] == c[0];
    assert x == "" ==> out[0] == '.';
  }

  lemma {:induction false} TruncatedParts(x: string, e: string, maxLength: int)
    requires '.' !in e && e != ""
    ensures var t := x + "." + e;
      Truncated(t, maxLength) ==
        if |x| + 1 + |e| <= maxLength then t else Take(x, maxLength - |e| - 1) + "." + e
  {
    hide Take;
    ExtensionOf(x, e);
  }

  lemma {:induction false} Regrouped(x: string, e: string)
    ensures x + "." + e == x + ("." + e)
  {
  }

  /** A shortened stem with its extension stays exactly if it fits now or has no stem left. */
  lemma {:induction false} ShortenedStays(x: string, e: string, maxLength: int)
    requires '.' !in e && e != ""
    ensures var t := x + "." + e; Truncated(t, maxLength) == t <==> x == "" || |x| + 1 + |e| <= maxLength
  {
    var k := maxLength - |e| - 1;
    TruncatedParts(x, e, maxLength);
    hide *;
    Regrouped(Take(x, k), e);
    Regrouped(x, e);
    SameHead(Take(x, k), x, "." + e);
  }

  lemma {:induction false} CutStem(c: string, maxLength: int)
    requires |c| > maxLength && Extension(c) != ""
    ensures var e := Extension(c); var x := Take(Stem(c), maxLength - |e| - 1);
      && Truncated(c, maxLength) == x + "." + e && x <= c && |x| + 1 + |e| <= |c|
      && (Stable(c, maxLength) <==> x == "" || |x| + 1 + |e| <= maxLength)
  {
    hide Extension, Stem, Take, DotName, IsSpace;
    StemAndExtension(c);
    var e := Extension(c);
    var x := Take(Stem(c), maxLength - |e| - 1);
    assert Truncated(c, maxLength) == x + "." + e;
    assert x <= Stem(c) <= c;
    hide *;
  }

  /** A name with an extension. */
  lemma {:induction false} TwiceWithExtension(c: string, maxLength: int)
    requires Stripped(c) && |c| > maxLength && Extension(c) != ""
    ensures var out := Truncated(c, maxLength);
      Truncated(Strip(out), maxLength) == out <==> Stable(c, maxLength)
  {
    hide *;
    var e := Extension(c);
    var x := Take(Stem(c), maxLength - |e| - 1);
    CutStem(c, maxLength);
    ShortenedStripped(c, x, e);
    StripStripped(x + "." + e);
    ShortenedStays(x, e, maxLength);
  }

  /** A name without one, cut at a position. */
  lemma {:induction false} TwiceWithout(c: string, maxLength: int)
    requires Stripped(c) && |c| > maxLength >= 0 && Extension(c) == ""
    ensures var out := Truncated(c, maxLength);
      Truncated(Strip(out), maxLength) == out <==> Stable(c, maxLength)
  {
    hide IsSpace, Strip;
    var out := c[..maxLength];
    assert Truncated(c, maxLength) == out;
    StripStripped(out);
    assert maxLength > 0 ==> out[0] == c[0] && out[|out| - 1] == c[maxLength - 1];
  }

  lemma {:induction false} DotNameParts(t: string)
    requires t != "" && !IsSpace(t[|t| - 1])
    ensures DotName(t) <==> Extension(t) != "" && Stem(t) == ""
  {
    hide IsSpace;
    var e := Extension(t);
    if DotName(t) {
      ExtensionOf("", t[1..]);
      assert "" + "." + t[1..] == t;
    }
    if e != "" && Stem(t) == "" {
      StemAndExtension(t);
      assert t[1..] == e;
    }
  }

  /** Under a negative limit only a name that is nothing but its extension stays. */
  lemma {:induction false} FixedIsDotName(t: string, maxLength: int)
    requires maxLength < 0 && Stripped(t) && t != ""
    ensures Truncated(t, maxLength) == t <==> DotName(t)
  {
    DotNameParts(t);
    var e := Extension(t);
    if e != "" {
      StemAndExtension(t);
      hide IsSpace, DotName, Extension, Stripped;
      ShortenedStays(Stem(t), e, maxLength);
    }
  }

  /** A negative limit drops characters from the end, every time anew. */
  lemma {:induction false} TwiceNegative(c: string, maxLength: int)
    requires Stripped(c) && maxLength < 0 && Extension(c) == ""
    ensures var out := Truncated(c, maxLength);
      Truncated(Strip(out), maxLength) == out <==> Stable(c, maxLength)
  {
    hide IsSpace, Strip;
    var out := Truncated(c, maxLength);
    StripStripped(out);
    if |c| + maxLength > 0 {
      assert out == c[..|c| + maxLength] && out[0] == c[0];
      StripSame(out);
      DotIsNoSpace();
      TruncatedShorter(Strip(out), maxLength);
      if Stripped(out) {
        FixedIsDotName(out, maxLength);
      }
    }
  }

  lemma {:induction false} TruncatedShorter(t: string, maxLength: int)
    ensures |Truncated(t, maxLength)| <= |t|
  {
  }

  /** Sanitizing twice is sanitizing once exactly when, after cleaning, the name is short enough, or its
      extension fits (or is all that is left), or the cut does not lay bare white space. */
  lemma {:induction false} IdempotentExact(s: string, maxLength: int)
    ensures Sanitized(Sanitized(s, maxLength), maxLength) == Sanitized(s, maxLength)
            <==> Stable(Clean(s), maxLength)
  {
    hide Clean, Strip, Extension, Safe, Truncated, IsSpace, Stable;
    var c := Clean(s);
    var out := Sanitized(s, maxLength);
    SanitizedSafe(s, maxLength);
    CleanOfSafe(out);
    CleanStripped(s);
    if |c| <= maxLength {
      StableShort(c, maxLength);
      StripStripped(c);
    } else if Extension(c) != "" {
      TwiceWithExtension(c, maxLength);
    } else if maxLength >= 0 {
      TwiceWithout(c, maxLength);
    } else {
      TwiceNegative(c, maxLength);
    }
  }

  lemma {:induction false} StableShort(c: string, maxLength: int)
    requires |c| <= maxLength
    ensures Stable(c, maxLength) && Truncated(c, maxLength) == c
  {
  }

  lemma {:induction false} CleanFixed(c: string)
    requires Safe(c) && Stripped(c)
    ensures Clean(c) == c
  {
    CleanOfSafe(c);
    StripStripped(c);
  }

  /** Three names for which a promise fails: a tab laid bare by the cut goes the second time; an extension
      longer than the limit keeps the name over it; and then each time takes more of the stem. */
  lemma {:induction false} PromisesFail()
    ensures Sanitized("a\tb", 2) == "a\t" && Sanitized("a\t", 2) != "a\t"
    ensures Sanitized("a.bcdef", 3) == ".bcdef"
    ensures Sanitized("abcdefgh.xyz", 2) == "abcdef.xyz" && Sanitized("abcdef.xyz", 2) == "abcd.xyz"
  {
    hide Sanitized;
    CutTab();
    OverLimit();
    TakesMore();
  }

  lemma {:induction false} OverLimit()
    ensures Sanitized("a.bcdef", 3) == ".bcdef"
  {
    hide Sanitized;
    LongExtension("a", "bcdef", 3);
    assert "a" + "." + "bcdef" == "a.bcdef";
    assert "" + "." + "bcdef" == ".bcdef";
  }

  lemma {:induction false} TakesMore()
    ensures Sanitized("abcdefgh.xyz", 2) == "abcdef.xyz" && Sanitized("abcdef.xyz", 2) == "abcd.xyz"
  {
    hide Sanitized;
    LongExtension("abcdefgh", "xyz", 2);
    LongExtension("abcdef", "xyz", 2);
    assert "abcdefgh" + "." + "xyz" == "abcdefgh.xyz";
    assert "abcdef" + "." + "xyz" == "abcdef.xyz" && "abcd" + "." + "xyz" == "abcd.xyz";
    assert "abcdefgh"[..6] == "abcdef" && "abcdef"[..4] == "abcd";
  }

  lemma {:induction false} CutTab()
    ensures Sanitized("a\tb", 2) == "a\t" && Sanitized("a\t", 2) != "a\t"
  {
    CleanFixed("a\tb");
    assert Extension("a\tb") == "";
    assert "a\tb"[..2] == "a\t";
    IdempotentExact("a\tb", 2);
  }

  predicate Letters(s: string) {
    forall i | 0 <= i < |s| :: 'a' <= s[i] <= 'z'
  }

  lemma {:induction false} NameOfLetters(stem: string, e: string)
    requires stem != "" && e != "" && Letters(stem) && Letters(e)
    ensures var name := stem + "." + e; Safe(name) && Stripped(name) && '.' !in e
  {
    var name := stem + "." + e;
    assert name[|name| - 1] == e[|e| - 1];
  }

  /** An extension that does not fit, in a name of letters. */
  lemma {:induction false} LongExtension(stem: string, e: string, maxLength: nat)
    requires stem != "" && e != "" && |e| + 1 > maxLength && Letters(stem) && Letters(e)
    ensures Sanitized(stem + "." + e, maxLength) == Take(stem, maxLength - |e| - 1) + "." + e
  {
    hide Safe, Stripped, Clean, Letters;
    NameOfLetters(stem, e);
    CleanFixed(stem + "." + e);
    ExtensionOf(stem, e);
  }

  /** A name whose only white space is spaces is left without any, so if the limit can be kept, sanitizing it
      is idempotent. */
  lemma {:induction false} IdempotentOnSpaces(s: string, maxLength: int)
    requires forall c | c in s && IsSpace(c) :: c == ' '
    requires |Clean(s)| <= maxLength || Fits(Clean(s), maxLength)
    ensures Sanitized(Sanitized(s, maxLength), maxLength) == Sanitized(s, maxLength)
  {
    hide Clean, Strip, Extension, Truncated, IsSpace;
    var c := Clean(s);
    IdempotentExact(s, maxLength);
    if 0 < maxLength < |c| {
      assert c[maxLength - 1] in c;
      CleanSpaces(s, c[maxLength - 1]);
    }
  }

  lemma {:induction false} CleanSpaces(s: string, c: char)
    requires forall x | x in s && IsSpace(x) :: x == ' '
    requires c in Clean(s)
    ensures !IsSpace(c)
  {
    hide Strip;
    CleanSafe(s);
    var t := Replaced(s);
    if c != '_' {
      StripPart(t, c);
    }
  }
}
