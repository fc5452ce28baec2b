/** Version order: Git tags sorted by integer tuples, S3 prefixes sorted as plain strings. */
module Versions {
  import opened Wrappers
  import opened Strings
  import opened Sorting
  import opened Timestamps

  // ----- int(part) -----

  /** Digits with single underscores between them. */
  predicate Grouped(t: string) {
    && t != "" && IsDigit(t[0]) && IsDigit(t[|t| - 1])
    && forall i | 0 < i < |t| :: IsDigit(t[i]) || (t[i] == '_' && IsDigit(t[i - 1]))
  }

  function Ungrouped(t: string): (s: string)
    requires forall i | 0 <= i < |t| :: IsDigit(t[i]) || t[i] == '_'
    ensures AllDigits(s)
  {
    if t == "" then ""
    else Ungrouped(t[..|t| - 1]) + (if t[|t| - 1] == '_' then "" else [t[|t| - 1]])
  }

  /** Python's `int` on a string; None when it raises ValueError. */
  function PyInt(s: string): Option<int> {
    var t := Strip(s);
    var signed := t != "" && (t[0] == '-' || t[0] == '+');
    var digits := if signed then t[1..] else t;
    if !Grouped(digits) then None
    else Some(if signed && t[0] == '-' then -(Number(Ungrouped(digits)) as int) else Number(Ungrouped(digits)))
  }

  function Ints(parts: seq<string>): Option<seq<int>> {
    if parts == [] then Some([])
    else
      var n, rest := PyInt(parts[0]), Ints(parts[1..]);
      if n.None? || rest.None? then None else Some([n.value] + rest.value)
  }

  /** `_version_key`. */
  function VersionKey(version: string): seq<int> {
    var parts := Ints(Split(version, '.'));
    if parts.Some? then parts.value else [0, 0, 0]
  }

  function ByKey(): (string, string) -> bool {
    (a, b) => LexLeq(VersionKey(a), VersionKey(b))
  }

  function ByString(): (string, string) -> bool {
    (a, b) => StringLeq(a, b)
  }

  lemma {:induction false} ByKeyPreorder()
    ensures TotalPreorder(ByKey())
  {
    hide LexLess, LexLeq, VersionKey;
    var leq := ByKey();
    forall a, b ensures leq(a, b) || leq(b, a) {
      LexLeqPreorder(VersionKey(a), VersionKey(b), []);
    }
    forall a, b, c ensures leq(a, b) && leq(b, c) ==> leq(a, c) {
      LexLeqPreorder(VersionKey(a), VersionKey(b), VersionKey(c));
    }
  }

  lemma {:induction false} ByStringPreorder()
    ensures TotalPreorder(ByString())
  {
    hide LexLess, Codes;
    var leq := ByString();
    forall a, b ensures leq(a, b) || leq(b, a) {
      LexLeqPreorder(Codes(a), Codes(b), []);
    }
    forall a, b, c ensures leq(a, b) && leq(b, c) ==> leq(a, c) {
      LexLeqPreorder(Codes(a), Codes(b), Codes(c));
    }
  }

  // ----- the Git list -----

  /** The names of the v-tagged tags, without the v. */
  function Tagged(tags: seq<string>): seq<string> {
    if tags == [] then []
    else
      var last := tags[|tags| - 1];
      Tagged(tags[..|tags| - 1]) + (if "v" <= last then [last[1..]] else [])
  }

  /** `GitRepository.get_available_versions`. */
  method GitAvailableVersions(tags: seq<string>) returns (versions: seq<string>)
    ensures versions == SortDescending(ByKey(), Tagged(tags))
  {
    versions := [];
    var i := 0;
    while i < |tags|
      invariant 0 <= i <= |tags| && versions == Tagged(tags[..i])
    {
      var name := tags[i];
      if "v" <= name {
        versions := versions + [name[1..]];
      }
      assert tags[..i + 1][..i] == tags[..i];
      i := i + 1;
    }
    assert tags[..i] == tags;
    versions := SortDescending(ByKey(), versions);
  }

  function GitVersions(tags: seq<string>): seq<string> {
    SortDescending(ByKey(), Tagged(tags))
  }

  /** `get_latest_version`. */
  function Latest(versions: seq<string>): Option<string> {
    if versions == [] then None else Some(versions[0])
  }

  lemma {:induction false} TaggedMembers(tags: seq<string>, v: string)
    ensures v in Tagged(tags) <==> "v" + v in tags
  {
    if tags != [] {
      var init, last := tags[..|tags| - 1], tags[|tags| - 1];
      TaggedMembers(init, v);
      assert tags == init + [last];
      if "v" <= last {
        assert last == "v" + last[1..];
      } else {
        assert "v" <= "v" + v;
      }
    }
  }

  /** The list is a permutation of the v-tagged names in descending order of their integer tuples, and the
      latest version is one that no other exceeds; there is none only without v-tags. */
  lemma {:induction false} GitListed(tags: seq<string>)
    ensures multiset(GitVersions(tags)) == multiset(Tagged(tags))
    ensures Descending(ByKey(), GitVersions(tags))
    ensures match Latest(GitVersions(tags))
      case None => forall v :: "v" + v !in tags
      case Some(top) => "v" + top in tags && forall v | "v" + v in tags :: LexLeq(VersionKey(v), VersionKey(top))
  {
    hide LexLeq, VersionKey, SortDescending, Tagged;
    var vs := Tagged(tags);
    ByKeyPreorder();
    SortCorrect(ByKey(), vs);
    forall v ensures v in vs <==> "v" + v in tags {
      TaggedMembers(tags, v);
    }
    if vs == [] {
      assert SortDescending(ByKey(), vs) == [] by { assert |multiset(GitVersions(tags))| == |multiset(vs)|; }
    } else {
      HeadIsMaximal(ByKey(), vs);
      forall v | "v" + v in tags ensures LexLeq(VersionKey(v), VersionKey(GitVersions(tags)[0])) {
        assert ByKey()(v, GitVersions(tags)[0]);
      }
    }
  }

  // ----- versions that validate_metadata accepts -----

  function EndsWith(s: string, suffix: string): bool {
    |s| >= |suffix| && s[|s| - |suffix|..] == suffix
  }

  /** `validate_metadata`: three parts that are integers, a Python entry point, a positive timeout. */
  predicate ValidMetadata(version: string, entryPoint: string, timeout: int) {
    && |Split(version, '.')| == 3 && Ints(Split(version, '.')).Some?
    && EndsWith(entryPoint, ".py") && timeout > 0
  }

  /** What that comes to: three integers with dots between them, a name ending in .py and a positive timeout. */
  lemma {:induction false} Validated(x: string, y: string, z: string, more: string, stem: string, timeout: int)
    requires Digits(x) && Digits(y) && Digits(z) && Digits(more)
    ensures ValidMetadata(x + "." + y + "." + z, stem + ".py", timeout) <==> timeout > 0
    ensures !ValidMetadata(x + "." + y, stem + ".py", timeout)
    ensures !ValidMetadata(x + "." + y + "." + z + "." + more, stem + ".py", timeout)
    ensures !ValidMetadata(x + "." + y + "." + z, stem + ".js", timeout)
  {
    hide PyInt, Split;
    DottedParts(x, y, z, more);
    DigitsInt(x);
    DigitsInt(y);
    DigitsInt(z);
    ThreeInts(x, y, z);
    assert (stem + ".py")[|stem|..] == ".py";
    var js := stem + ".js";
    assert js[|js| - 3..] == ".js" && ".js"[1] != ".py"[1];
  }

  lemma {:induction false} ThreeInts(x: string, y: string, z: string)
    requires PyInt(x).Some? && PyInt(y).Some? && PyInt(z).Some?
    ensures Ints([x, y, z]).Some?
  {
    hide PyInt;
    assert [z][1..] == [] && Ints([z]).Some?;
    assert [y, z][1..] == [z] && Ints([y, z]).Some?;
    assert [x, y, z][1..] == [y, z];
  }

  lemma {:induction false} DottedParts(x: string, y: string, z: string, more: string)
    requires Digits(x) && Digits(y) && Digits(z) && Digits(more)
    ensures Split(x + "." + y, '.') == [x, y] && Split(x + "." + y + "." + z, '.') == [x, y, z]
    ensures Split(x + "." + y + "." + z + "." + more, '.') == [x, y, z, more]
  {
    hide Split;
    SplitSingle(x, '.');
    SplitLast(x, '.', y);
    SplitLast(x + "." + y, '.', z);
    SplitLast(x + "." + y + "." + z, '.', more);
    assert x + ['.'] + y == x + "." + y;
  }

  lemma {:induction false} IntsLength(parts: seq<string>)
    ensures Ints(parts).Some? ==> |Ints(parts).value| == |parts|
    ensures Ints(parts).Some? ==> forall i | 0 <= i < |parts| :: PyInt(parts[i]) == Some(Ints(parts).value[i])
  {
    hide PyInt;
    if parts != [] {
      IntsLength(parts[1..]);
    }
  }

  /** Accepted versions compare as three integers, the first the most significant. */
  lemma {:induction false} ValidatedOrder(a: string, b: string, entryPoint: string, timeout: int)
    requires ValidMetadata(a, entryPoint, timeout) && ValidMetadata(b, entryPoint, timeout)
    ensures var x, y := Split(a, '.'), Split(b, '.');
      && (forall i | 0 <= i < 3 :: PyInt(x[i]).Some? && PyInt(y[i]).Some?)
      && var p := seq(3, i requires 0 <= i < 3 => PyInt(x[i]).value);
         var q := seq(3, i requires 0 <= i < 3 => PyInt(y[i]).value);
         LexLess(VersionKey(a), VersionKey(b)) <==>
           p[0] < q[0] || (p[0] == q[0] && (p[1] < q[1] || (p[1] == q[1] && p[2] < q[2])))
  {
    hide PyInt, Split, Ints;
    var x, y := Split(a, '.'), Split(b, '.');
    IntsLength(x);
    IntsLength(y);
    var p, q := VersionKey(a), VersionKey(b);
    LexThree(p, q);
  }

  lemma {:induction false} LexThree(p: seq<int>, q: seq<int>)
    requires |p| == |q| == 3
    ensures LexLess(p, q) <==> p[0] < q[0] || (p[0] == q[0] && (p[1] < q[1] || (p[1] == q[1] && p[2] < q[2])))
  {
    var p1, q1 := p[1..], q[1..];
    var p2, q2 := p1[1..], q1[1..];
    assert LexLess(p2, q2) <==> p[2] < q[2] by {
      assert p2[1..] == [] && q2[1..] == [];
    }
    assert LexLess(p1, q1) <==> p[1] < q[1] || (p[1] == q[1] && LexLess(p2, q2));
  }

  // ----- digit strings -----

  /** Cutting digits off divides by ten each time. */
  lemma {:induction false} PrefixSmaller(y: string, k: nat)
    requires AllDigits(y) && k < |y|
    ensures 10 * Number(y[..k]) <= Number(y)
  {
    var init := y[..|y| - 1];
    if k < |y| - 1 {
      PrefixSmaller(init, k);
      assert init[..k] == y[..k];
    }
  }

  lemma {:induction false} UngroupedDigits(s: string)
    requires AllDigits(s)
    ensures Ungrouped(s) == s
  {
    if s != "" {
      UngroupedDigits(s[..|s| - 1]);
      assert s == s[..|s| - 1] + [s[|s| - 1]];
    }
  }

  lemma {:induction false} DigitsStripped(x: string)
    requires AllDigits(x)
    ensures Strip(x) == x
  {
    hide Strip;
    assert "" + x + "" == x;
    StripUnique("", x, "");
  }

  lemma {:induction false} DigitsGrouped(x: string)
    requires Digits(x)
    ensures Grouped(x)
  {
    hide IsDigit;
  }

  lemma {:induction false} DigitsInt(x: string)
    requires Digits(x)
    ensures PyInt(x) == Some(Number(x))
  {
    hide Strip, Grouped, Ungrouped, Number;
    DigitsStripped(x);
    DigitsGrouped(x);
    UngroupedDigits(x);
    assert IsDigit(x[0]);
  }

  // ----- what else int(part) takes, and tags it does not take -----

  lemma {:induction false} UngroupedJoins(x: string, y: string)
    requires AllDigits(x) && AllDigits(y)
    ensures forall i | 0 <= i < |x + "_" + y| :: IsDigit((x + "_" + y)[i]) || (x + "_" + y)[i] == '_'
    ensures Ungrouped(x + "_" + y) == x + y
  {
    var t := x + "_" + y;
    if y == "" {
      assert t[..|t| - 1] == x;
      UngroupedDigits(x);
      assert x + y == x;
    } else {
      var z := y[..|y| - 1];
      UngroupedJoins(x, z);
      assert t[..|t| - 1] == x + "_" + z;
      assert z + [y[|y| - 1]] == y;
      assert x + z + [y[|y| - 1]] == x + y;
    }
  }

  lemma {:induction false} SignedInt(sign: char, x: string)
    requires sign in {'-', '+'} && Digits(x)
    ensures PyInt([sign] + x) == Some(if sign == '-' then -(Number(x) as int) else Number(x))
  {
    hide Strip, Grouped, Ungrouped, Number;
    var t := [sign] + x;
    assert Stripped(t) by {
      assert t[|t| - 1] == x[|x| - 1] && IsDigit(x[|x| - 1]);
    }
    assert "" + t + "" == t;
    StripUnique("", t, "");
    DigitsGrouped(x);
    UngroupedDigits(x);
    assert t[1..] == x;
  }

  /** Signs, blanks around and single underscores between digits are allowed; nothing at all is not. */
  lemma {:induction false} IntForms(x: string, y: string, left: string, right: string)
    requires Digits(x) && Digits(y) && AllSpace(left) && AllSpace(right)
    ensures PyInt("-" + x) == Some(-(Number(x) as int)) && PyInt("+" + x) == Some(Number(x))
    ensures PyInt(left + x + right) == Some(Number(x))
    ensures PyInt(x + "_" + y) == Some(Number(x + y))
    ensures PyInt("") == None
  {
    hide Strip, Grouped, Ungrouped, Number;
    SignedInt('-', x);
    SignedInt('+', x);
    DigitsInt(x);
    SamePyInt(left, x, right);
    UnderscoreInt(x, y);
    DigitsStripped("");
    assert !Grouped("") by { GroupedNotEmpty(""); }
  }

  lemma {:induction false} GroupedNotEmpty(t: string)
    ensures Grouped(t) ==> t != "" && forall i | 0 <= i < |t| :: IsDigit(t[i]) || t[i] == '_'
  {
  }

  lemma {:induction false} SamePyInt(left: string, x: string, right: string)
    requires Digits(x) && AllSpace(left) && AllSpace(right)
    ensures PyInt(left + x + right) == PyInt(x)
  {
    hide Strip, Grouped, Ungrouped, Number, AllSpace;
    DigitsStripped(x);
    assert IsDigit(x[0]) && IsDigit(x[|x| - 1]);
    assert Stripped(x);
    StripUnique(left, x, right);
  }

  lemma {:induction false} GroupedUnderscore(x: string, y: string)
    requires Digits(x) && Digits(y)
    ensures Grouped(x + "_" + y)
  {
    hide IsDigit;
    var t := x + "_" + y;
    forall i | 0 < i < |t| ensures IsDigit(t[i]) || (t[i] == '_' && IsDigit(t[i - 1])) {
      if i < |x| {
        assert t[i] == x[i];
      } else if i == |x| {
        assert t[i - 1] == x[i - 1];
      } else {
        assert t[i] == y[i - |x| - 1];
      }
    }
    assert t[0] == x[0] && t[|t| - 1] == y[|y| - 1];
  }

  lemma {:induction false} UnderscoreInt(x: string, y: string)
    requires Digits(x) && Digits(y)
    ensures PyInt(x + "_" + y) == Some(Number(x + y))
  {
    hide Strip, Grouped, Ungrouped, Number;
    var t := x + "_" + y;
    assert t[0] == x[0] && t[|t| - 1] == y[|y| - 1] && IsDigit(x[0]) && IsDigit(y[|y| - 1]);
    assert "" + t + "" == t;
    StripUnique("", t, "");
    GroupedUnderscore(x, y);
    UngroupedJoins(x, y);
  }

  /** A tag that is not all integers. */
  predicate Odd(version: string) {
    Ints(Split(version, '.')).None?
  }

  /** Such tags are sorted as 0.0.0: after every version greater than that, before every smaller one. */
  lemma {:induction false} OddTagsStand(tags: seq<string>, i: nat, j: nat)
    requires i < |GitVersions(tags)| && j < |GitVersions(tags)|
    requires !Odd(GitVersions(tags)[i]) && Odd(GitVersions(tags)[j])
    ensures var ks := Ints(Split(GitVersions(tags)[i], '.')).value;
      (LexLess([0, 0, 0], ks) ==> i < j) && (LexLess(ks, [0, 0, 0]) ==> j < i)
  {
    hide SortDescending, Tagged, LexLess, Ints, Split;
    var vs := GitVersions(tags);
    GitDescending(tags);
    if j < i {
      assert ByKey()(vs[i], vs[j]);
    } else if i < j {
      assert ByKey()(vs[j], vs[i]);
    }
  }

  lemma {:induction false} GitDescending(tags: seq<string>)
    ensures Descending(ByKey(), GitVersions(tags))
  {
    hide SortDescending, Tagged, LexLess, VersionKey;
    ByKeyPreorder();
    SortCorrect(ByKey(), Tagged(tags));
  }

  /** So a pre-release tag never becomes the latest version while there is a version above 0.0.0. */
  lemma {:induction false} LatestIsNotOdd(tags: seq<string>, u: string)
    requires "v" + u in tags && !Odd(u) && LexLess([0, 0, 0], Ints(Split(u, '.')).value)
    ensures Latest(GitVersions(tags)).Some? && !Odd(Latest(GitVersions(tags)).value)
  {
    hide GitVersions, LexLess, Ints, Split;
    GitListed(tags);
    var top := Latest(GitVersions(tags)).value;
    assert LexLeq(VersionKey(u), VersionKey(top));
  }

  lemma {:induction false} CandidateIsOdd()
    ensures Odd("2.0.0-rc1")
  {
    SplitLast("2.0", '.', "0-rc1");
    assert "2.0" + ['.'] + "0-rc1" == "2.0.0-rc1";
    NotInt("0-rc1");
    LastOdd(Split("2.0", '.'), "0-rc1");
  }

  lemma {:induction false} NotInt(t: string)
    requires t == "0-rc1"
    ensures PyInt(t).None?
  {
    assert Stripped(t);
    hide Strip;
    assert "" + t + "" == t;
    StripUnique("", t, "");
    assert t[1] == '-';
  }

  lemma {:induction false} LastOdd(parts: seq<string>, last: string)
    requires PyInt(last).None?
    ensures Ints(parts + [last]).None?
  {
    hide PyInt;
    if parts != [] {
      assert (parts + [last])[1..] == parts[1..] + [last];
      LastOdd(parts[1..], last);
    }
  }
}
