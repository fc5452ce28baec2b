/** When sorting versions as plain strings gives the order of their integer tuples. */
module VersionOrders {
  import opened Wrappers
  import opened Strings
  import opened Sorting
  import opened Timestamps
  import opened Versions

  // ----- the S3 list -----

  function WithoutSlashes(s: string): string {
    if s != "" && s[|s| - 1] == '/' then WithoutSlashes(s[..|s| - 1]) else s
  }

  /** The version directories under `scriptPrefix`. */
  function S3Names(scriptPrefix: string, prefixes: seq<string>): seq<string> {
    if prefixes == [] then []
    else
      var last := prefixes[|prefixes| - 1];
      var version := WithoutSlashes(last[if |scriptPrefix| < |last| then |scriptPrefix| else |last|..]);
      S3Names(scriptPrefix, prefixes[..|prefixes| - 1]) + (if version != "" then [version] else [])
  }

  /** `S3Repository.get_available_versions`. */
  method S3AvailableVersions(scriptPrefix: string, prefixes: seq<string>) returns (versions: seq<string>)
    ensures versions == SortDescending(ByString(), S3Names(scriptPrefix, prefixes))
  {
    versions := [];
    var i := 0;
    while i < |prefixes|
      invariant 0 <= i <= |prefixes| && versions == S3Names(scriptPrefix, prefixes[..i])
    {
      var path := prefixes[i];
      var version := WithoutSlashes(path[if |scriptPrefix| < |path| then |scriptPrefix| else |path|..]);
      if version != "" {
        versions := versions + [version];
      }
      assert prefixes[..i + 1][..i] == prefixes[..i];
      i := i + 1;
    }
    assert prefixes[..i] == prefixes;
    versions := SortDescending(ByString(), versions);
  }

  /** The prefixes S3 answers with for version directories. */
  function Listing(scriptPrefix: string, vs: seq<string>): (prefixes: seq<string>)
    ensures |prefixes| == |vs|
  {
    seq(|vs|, i requires 0 <= i < |vs| => scriptPrefix + vs[i] + "/")
  }

  lemma {:induction false} NoSlashLeft(v: string)
    requires v != "" && v[|v| - 1] != '/'
    ensures WithoutSlashes(v + "/") == v
  {
    assert (v + "/")[..|v|] == v;
    assert WithoutSlashes(v) == v;
  }

  function Slashes(n: nat): string {
    seq(n, _ => '/')
  }

  /** Any number of slashes at the end is dropped; with nothing before them there is no version. */
  lemma {:induction false} SlashesDropped(scriptPrefix: string, v: string, n: nat)
    requires v != "" ==> v[|v| - 1] != '/'
    ensures WithoutSlashes(v + Slashes(n)) == v
    ensures S3Names(scriptPrefix, [scriptPrefix + v + Slashes(n)]) == if v == "" then [] else [v]
  {
    SlashesGone(v, n);
    var path := scriptPrefix + v + Slashes(n);
    assert path[|scriptPrefix|..] == v + Slashes(n);
    assert |scriptPrefix| == |path| ==> path[|path|..] == v + Slashes(n);
    hide WithoutSlashes;
    var none: seq<string> := [];
    assert [path][..0] == none && S3Names(scriptPrefix, none) == [];
  }

  lemma {:induction false} SlashesGone(v: string, n: nat)
    requires v != "" ==> v[|v| - 1] != '/'
    ensures WithoutSlashes(v + Slashes(n)) == v
  {
    var s := v + Slashes(n);
    if n == 0 {
      assert s == v;
    } else {
      assert s[..|s| - 1] == v + Slashes(n - 1);
      SlashesGone(v, n - 1);
    }
  }

  /** The names taken from a listing are the versions it lists. */
  lemma {:induction false} S3Lists(scriptPrefix: string, vs: seq<string>)
    requires forall i | 0 <= i < |vs| :: vs[i] != "" && vs[i][|vs[i]| - 1] != '/'
    ensures S3Names(scriptPrefix, Listing(scriptPrefix, vs)) == vs
  {
    hide WithoutSlashes;
    if vs != [] {
      var k := |vs| - 1;
      var prefixes := Listing(scriptPrefix, vs);
      S3Lists(scriptPrefix, vs[..k]);
      assert prefixes[..k] == Listing(scriptPrefix, vs[..k]);
      assert prefixes[k][|scriptPrefix|..] == vs[k] + "/";
      NoSlashLeft(vs[k]);
      assert vs[..k] + [vs[k]] == vs;
    }
  }

  // ----- two dotted versions -----

  predicate AllParts(xs: seq<string>) {
    forall i | 0 <= i < |xs| :: Digits(xs[i])
  }

  function Numbers(xs: seq<string>): (ns: seq<int>)
    requires AllParts(xs)
    ensures |ns| == |xs|
  {
    seq(|xs|, i requires 0 <= i < |xs| => Number(xs[i]))
  }

  /** Of two different components, each at its end or before a dot, which one a string sort puts first: with
      equal widths the smaller, else the shorter if it is no greater than the digits of the longer that stand
      over it. */
  predicate SortsFirst(x: string, y: string)
    requires Digits(x) && Digits(y)
  {
    if |x| == |y| then Number(x) < Number(y)
    else if |x| < |y| then Number(x) <= Number(y[..|x|])
    else Number(x[..|y|]) < Number(y)
  }

  /** The first component that differs decides; if it differs in padding only, what follows it has to agree. */
  predicate OrdersAgree(xs: seq<string>, ys: seq<string>)
    requires AllParts(xs) && AllParts(ys)
  {
    if xs == [] || ys == [] then true
    else if xs[0] == ys[0] then OrdersAgree(xs[1..], ys[1..])
    else if Number(xs[0]) != Number(ys[0]) then SortsFirst(xs[0], ys[0]) <==> Number(xs[0]) < Number(ys[0])
    else SortsFirst(xs[0], ys[0]) <==> LexLess(Numbers(xs[1..]), Numbers(ys[1..]))
  }

  predicate Dotted(version: string) {
    AllParts(Split(version, '.'))
  }

  /** The tuples order `a` before `b` exactly if the strings do. */
  predicate VersionsAgree(a: string, b: string)
    requires Dotted(a) && Dotted(b)
  {
    OrdersAgree(Split(a, '.'), Split(b, '.'))
  }

  /** Nothing more, or a dot and more. */
  predicate IsRest(r: string) {
    r != "" ==> r[0] == '.'
  }

  lemma {:induction false} PrefixOrder(p: string, r: string, s: string)
    ensures StringLess(p + r, p + s) <==> StringLess(r, s)
  {
    hide LexLess;
    CodesConcat(p, r);
    CodesConcat(p, s);
    LexTrichotomy(Codes(p), Codes(p));
    LexConcat(Codes(p), Codes(r), Codes(p), Codes(s));
  }

  /** Strings with heads of equal width. */
  lemma {:induction false} SameWidthOrder(x: string, r: string, y: string, s: string)
    requires AllDigits(x) && AllDigits(y) && |x| == |y| && x != y
    ensures StringLess(x + r, y + s) <==> Number(x) < Number(y)
  {
    DigitsArePad(x);
    DigitsArePad(y);
    FieldOrder(Number(x), Number(y), |x|, r, s);
  }

  lemma {:induction false} RestFirst(r: string, s: string)
    requires IsRest(r) && s != "" && IsDigit(s[0])
    ensures StringLess(r, s) && !StringLess(s, r)
  {
    assert Codes(s)[0] == s[0] as int;
    assert r != "" ==> Codes(r)[0] == r[0] as int;
  }

  lemma {:induction false} ShorterOrder(x: string, r: string, y: string, s: string)
    requires Digits(x) && Digits(y) && |x| < |y| && IsRest(r)
    ensures StringLess(x + r, y + s) <==> Number(x) <= Number(y[..|x|])
    ensures StringLess(y + s, x + r) <==> Number(y[..|x|]) < Number(x)
  {
    hide StringLess;
    var p, q := y[..|x|], y[|x|..];
    assert y + s == p + (q + s);
    if x == p {
      PrefixOrder(p, r, q + s);
      PrefixOrder(p, q + s, r);
      RestFirst(r, q + s);
    } else {
      SameWidthOrder(x, r, p, q + s);
      SameWidthOrder(p, q + s, x, r);
      DigitsArePad(x);
      DigitsArePad(p);
    }
  }

  lemma {:induction false} ComponentOrder(x: string, r: string, y: string, s: string)
    requires Digits(x) && Digits(y) && x != y && IsRest(r) && IsRest(s)
    ensures StringLess(x + r, y + s) <==> SortsFirst(x, y)
  {
    hide StringLess;
    if |x| == |y| {
      SameWidthOrder(x, r, y, s);
    } else if |x| < |y| {
      ShorterOrder(x, r, y, s);
    } else {
      ShorterOrder(y, s, x, r);
    }
  }

  /** One number with two paddings: the shorter goes first exactly if the number is zero. */
  lemma {:induction false} PaddingOrder(x: string, y: string)
    requires Digits(x) && Digits(y) && |x| < |y| && Number(x) == Number(y)
    ensures SortsFirst(x, y) <==> Number(x) == 0
    ensures SortsFirst(y, x) <==> Number(x) != 0
  {
    PrefixSmaller(y, |x|);
  }

  /** What follows the first part. */
  function Rest(xs: seq<string>): string
    requires xs != []
  {
    if |xs| == 1 then "" else "." + Join(xs[1..], '.')
  }

  lemma {:induction false} JoinRest(xs: seq<string>)
    requires xs != [] && AllParts(xs)
    ensures Join(xs, '.') == xs[0] + Rest(xs) && IsRest(Rest(xs)) && Digits(xs[0])
    ensures Rest(xs) == if |xs| > 1 then "." + Join(xs[1..], '.') else ""
  {
    hide Digits;
  }

  lemma {:induction false} NumbersRest(xs: seq<string>)
    requires xs != [] && AllParts(xs)
    ensures AllParts(xs[1..]) && Digits(xs[0]) && AllDigits(xs[0])
      && Numbers(xs) == [Number(xs[0]) as int] + Numbers(xs[1..])
  {
    hide Number;
  }

  lemma {:induction false} LexStep(x: int, p: seq<int>, y: int, q: seq<int>)
    ensures LexLess([x] + p, [y] + q) <==> x < y || (x == y && LexLess(p, q))
    ensures p == [] ==> (LexLess(p, q) <==> q != [])
    ensures q == [] ==> !LexLess(p, q)
  {
    assert ([x] + p)[1..] == p && ([y] + q)[1..] == q;
  }

  lemma {:induction false} DottedOrder(xs: seq<string>, ys: seq<string>)
    requires xs != [] && ys != [] && AllParts(xs) && AllParts(ys)
    ensures (StringLess(Join(xs, '.'), Join(ys, '.')) <==> LexLess(Numbers(xs), Numbers(ys))) <==> OrdersAgree(xs, ys)
  {
    hide StringLess, SortsFirst, LexLess, Digits, Numbers, Join, Rest, IsRest;
    var r, s := Rest(xs), Rest(ys);
    JoinRest(xs);
    JoinRest(ys);
    NumbersRest(xs);
    NumbersRest(ys);
    LexStep(Number(xs[0]), Numbers(xs[1..]), Number(ys[0]), Numbers(ys[1..]));
    if xs[0] != ys[0] {
      ComponentOrder(xs[0], r, ys[0], s);
    } else {
      PrefixOrder(xs[0], r, s);
      if |xs| == 1 || |ys| == 1 {
        EmptyRest(r, s);
      } else {
        DottedOrder(xs[1..], ys[1..]);
        PrefixOrder(".", Join(xs[1..], '.'), Join(ys[1..], '.'));
      }
    }
  }

  lemma {:induction false} EmptyRest(r: string, s: string)
    ensures r == "" ==> (StringLess(r, s) <==> s != "")
    ensures s == "" ==> !StringLess(r, s)
  {
  }

  lemma {:induction false} DottedKey(version: string)
    requires Dotted(version)
    ensures VersionKey(version) == Numbers(Split(version, '.'))
  {
    PartInts(Split(version, '.'));
  }

  lemma {:induction false} PartInts(xs: seq<string>)
    requires AllParts(xs)
    ensures Ints(xs) == Some(Numbers(xs))
  {
    hide PyInt;
    if xs != [] {
      DigitsInt(xs[0]);
      PartInts(xs[1..]);
      assert Numbers(xs) == [Number(xs[0]) as int] + Numbers(xs[1..]);
    }
  }

  /** When two dotted versions compare alike as strings and as tuples, for every count and width of components
      and every padding. */
  lemma {:induction false} StringOrderExact(a: string, b: string)
    requires Dotted(a) && Dotted(b)
    ensures (StringLess(a, b) <==> LexLess(VersionKey(a), VersionKey(b))) <==> VersionsAgree(a, b)
  {
    hide StringLess, LexLess, VersionKey, OrdersAgree;
    SplitJoin(a, '.');
    SplitJoin(b, '.');
    DottedKey(a);
    DottedKey(b);
    DottedOrder(Split(a, '.'), Split(b, '.'));
  }

  // ----- whole lists -----

  /** S3 lists dotted versions in the same order as Git exactly when each compares alike with those after it. */
  lemma {:induction false} S3AgreesExactly(vs: seq<string>)
    requires forall v | v in vs :: Dotted(v)
    ensures SortDescending(ByString(), vs) == SortDescending(ByKey(), vs)
            <==> forall i, j | 0 <= i < j < |vs| :: VersionsAgree(vs[i], vs[j])
  {
    hide VersionsAgree, SortDescending, Dotted, VersionKey, LexLess, Codes;
    ByKeyPreorder();
    ByStringPreorder();
    SortsAlike(ByString(), ByKey(), vs);
    forall i, j | 0 <= i < j < |vs|
      ensures (ByString()(vs[j], vs[i]) == ByKey()(vs[j], vs[i])) <==> VersionsAgree(vs[i], vs[j])
    {
      StringOrderExact(vs[i], vs[j]);
    }
  }

  /** S3's `get_latest_version` is the greatest version as a string; it is the greatest as integers exactly when
      it compares alike with every listed version. */
  lemma {:induction false} S3LatestExact(vs: seq<string>)
    requires vs != [] && forall v | v in vs :: Dotted(v)
    ensures var top := Latest(SortDescending(ByString(), vs));
      && top.Some? && top.value in vs && (forall v | v in vs :: StringLeq(v, top.value))
      && ((forall v | v in vs :: LexLeq(VersionKey(v), VersionKey(top.value)))
          <==> forall v | v in vs :: VersionsAgree(top.value, v))
  {
    hide VersionsAgree, SortDescending, Dotted, VersionKey, LexLess, Codes;
    ByStringPreorder();
    HeadIsMaximal(ByString(), vs);
    var top := SortDescending(ByString(), vs)[0];
    forall v | v in vs
      ensures StringLeq(v, top)
      ensures LexLeq(VersionKey(v), VersionKey(top)) <==> VersionsAgree(top, v)
    {
      assert ByString()(v, top);
      StringOrderExact(top, v);
    }
  }

  // ----- components of equal width -----

  predicate SameWidths(a: string, b: string) {
    var xs, ys := Split(a, '.'), Split(b, '.');
    |xs| == |ys| && forall i | 0 <= i < |xs| :: |xs[i]| == |ys[i]|
  }

  lemma {:induction false} WidthsAgree(xs: seq<string>, ys: seq<string>)
    requires AllParts(xs) && AllParts(ys) && |xs| == |ys| && forall i | 0 <= i < |xs| :: |xs[i]| == |ys[i]|
    ensures OrdersAgree(xs, ys)
  {
    if xs != [] {
      WidthsAgree(xs[1..], ys[1..]);
      if xs[0] != ys[0] {
        DigitsArePad(xs[0]);
        DigitsArePad(ys[0]);
      }
    }
  }

  /** Dotted versions with equal digit widths, component by component, compare as strings as their integers do;
      calendar versions such as 2024.01.05 among them. */
  lemma {:induction false} SameWidthsOrder(a: string, b: string)
    requires Dotted(a) && Dotted(b) && SameWidths(a, b)
    ensures StringLess(a, b) <==> LexLess(VersionKey(a), VersionKey(b))
  {
    hide StringLess, LexLess, VersionKey, OrdersAgree;
    WidthsAgree(Split(a, '.'), Split(b, '.'));
    StringOrderExact(a, b);
  }

  /** A list of such versions is sorted alike by S3 and by Git. */
  lemma {:induction false} SameWidthsSort(vs: seq<string>)
    requires forall v | v in vs :: Dotted(v)
    requires forall a, b | a in vs && b in vs :: SameWidths(a, b)
    ensures SortDescending(ByString(), vs) == SortDescending(ByKey(), vs)
  {
    hide VersionsAgree, SortDescending, Dotted, SameWidths, VersionKey, LexLess, StringLess;
    forall i, j | 0 <= i < j < |vs| ensures VersionsAgree(vs[i], vs[j]) {
      SameWidthsOrder(vs[i], vs[j]);
      StringOrderExact(vs[i], vs[j]);
    }
    S3AgreesExactly(vs);
  }

  /** Where they differ: S3 takes 1.9.0 for newer than 1.10.0. */
  lemma {:induction false} TenAfterNine()
    ensures StringLess("1.10.0", "1.9.0") && !StringLess("1.9.0", "1.10.0")
    ensures LexLess(VersionKey("1.9.0"), VersionKey("1.10.0"))
  {
    hide StringLess, VersionKey, LexLess;
    TenBeforeNine();
    TenKeys();
    LexThree([1, 9, 0], [1, 10, 0]);
  }

  lemma {:induction false} TenBeforeNine()
    ensures StringLess("1.10.0", "1.9.0") && !StringLess("1.9.0", "1.10.0")
  {
    PrefixOrder("1.", "10.0", "9.0");
    PrefixOrder("1.", "9.0", "10.0");
    assert "1." + "10.0" == "1.10.0" && "1." + "9.0" == "1.9.0";
    assert Codes("10.0")[0] == '1' as int && Codes("9.0")[0] == '9' as int;
  }

  lemma {:induction false} TenKeys()
    ensures VersionKey("1.9.0") == [1, 9, 0] && VersionKey("1.10.0") == [1, 10, 0]
  {
    hide VersionKey;
    ThreeParts("1", "10", "0");
    ThreeParts("1", "9", "0");
    assert "1" + "." + "10" + "." + "0" == "1.10.0";
    assert "1" + "." + "9" + "." + "0" == "1.9.0";
    SmallNumbers();
  }

  lemma {:induction false} SmallNumbers()
    ensures Number("0") == 0 && Number("1") == 1 && Number("9") == 9 && Number("10") == 10
  {
    assert Number("") == 0;
    assert "1"[..0] == "" && "0"[..0] == "" && "9"[..0] == "" && "10"[..1] == "1";
  }

  lemma {:induction false} ThreeParts(x: string, y: string, z: string)
    requires Digits(x) && Digits(y) && Digits(z)
    ensures VersionKey(x + "." + y + "." + z) == [Number(x), Number(y), Number(z)]
  {
    var v := x + "." + y + "." + z;
    SplitSingle(x, '.');
    SplitLast(x, '.', y);
    SplitLast(x + "." + y, '.', z);
    assert v == x + ['.'] + y + ['.'] + z;
    assert Split(v, '.') == [x, y, z];
    DottedKey(v);
    assert Numbers([x, y, z]) == [Number(x), Number(y), Number(z)];
  }
}
