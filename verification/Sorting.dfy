/** `sorted(..., reverse=True, key=...)` and `list.sort(reverse=True, key=...)`: a stable
    descending sort, written as insertion so that what the library promises can be proved. */
module Sorting {

  ghost predicate TotalPreorder<T(!new)>(leq: (T, T) -> bool) {
    && (forall a, b :: leq(a, b) || leq(b, a))
    && (forall a, b, c :: leq(a, b) && leq(b, c) ==> leq(a, c))
  }

  ghost predicate Descending<T>(leq: (T, T) -> bool, s: seq<T>) {
    forall i, j | 0 <= i < j < |s| :: leq(s[j], s[i])
  }

  /** The elements that compare equal to `k`, in their order in `s`. */
  function Ties<T>(leq: (T, T) -> bool, k: T, s: seq<T>): seq<T> {
    if s == [] then []
    else (if leq(s[0], k) && leq(k, s[0]) then [s[0]] else []) + Ties(leq, k, s[1..])
  }

  function Insert<T>(leq: (T, T) -> bool, x: T, s: seq<T>): seq<T> {
    if s == [] || leq(s[0], x) then [x] + s else [s[0]] + Insert(leq, x, s[1..])
  }

  function SortDescending<T>(leq: (T, T) -> bool, s: seq<T>): seq<T> {
    if s == [] then [] else Insert(leq, s[0], SortDescending(leq, s[1..]))
  }

  lemma {:induction false} InsertKeeps<T(!new)>(leq: (T, T) -> bool, x: T, s: seq<T>)
    requires TotalPreorder(leq) && Descending(leq, s)
    ensures Descending(leq, Insert(leq, x, s))
    ensures multiset(Insert(leq, x, s)) == multiset{x} + multiset(s)
  {
    if s == [] || leq(s[0], x) {
    } else {
      var rest := Insert(leq, x, s[1..]);
      InsertKeeps(leq, x, s[1..]);
      assert s == [s[0]] + s[1..];
      forall j | 0 <= j < |rest| ensures leq(rest[j], s[0]) {
        assert rest[j] in multiset(rest);
        if rest[j] != x {
          assert rest[j] in s[1..];
        }
      }
    }
  }

  lemma {:induction false} InsertTies<T(!new)>(leq: (T, T) -> bool, x: T, s: seq<T>, k: T)
    requires TotalPreorder(leq) && Descending(leq, s)
    ensures Ties(leq, k, Insert(leq, x, s)) == Ties(leq, k, [x] + s)
  {
    if s == [] || leq(s[0], x) {
    } else {
      InsertTies(leq, x, s[1..], k);
      var out := Insert(leq, x, s);
      assert out[1..] == Insert(leq, x, s[1..]);
      assert ([x] + s)[1..] == s && ([x] + s[1..])[1..] == s[1..];
      // x and s[0] differ, so at most one of them ties with k.
      assert !leq(s[0], x);
    }
  }

  /** The three things the library promises: nothing lost, descending, ties in their old order. */
  lemma {:induction false} SortCorrect<T(!new)>(leq: (T, T) -> bool, s: seq<T>)
    requires TotalPreorder(leq)
    ensures multiset(SortDescending(leq, s)) == multiset(s)
    ensures Descending(leq, SortDescending(leq, s))
    ensures forall k :: Ties(leq, k, SortDescending(leq, s)) == Ties(leq, k, s)
  {
    if s != [] {
      var rest := SortDescending(leq, s[1..]);
      SortCorrect(leq, s[1..]);
      InsertKeeps(leq, s[0], rest);
      assert s == [s[0]] + s[1..];
      forall k ensures Ties(leq, k, SortDescending(leq, s)) == Ties(leq, k, s) {
        InsertTies(leq, s[0], rest, k);
        assert ([s[0]] + rest)[1..] == rest;
      }
    }
  }

  /** The first element is one that no other exceeds. */
  lemma {:induction false} HeadIsMaximal<T(!new)>(leq: (T, T) -> bool, s: seq<T>)
    requires TotalPreorder(leq) && s != []
    ensures SortDescending(leq, s) != []
    ensures SortDescending(leq, s)[0] in s
    ensures forall x | x in s :: leq(x, SortDescending(leq, s)[0])
  {
    var out := SortDescending(leq, s);
    SortCorrect(leq, s);
    assert |multiset(s)| == |multiset(out)|;
    assert out[0] in multiset(s);
    forall x | x in s ensures leq(x, out[0]) {
      assert x in multiset(out);
    }
  }

  // ----- two orders, one list -----

  lemma {:induction false} InsertAgrees<T(!new)>(leq: (T, T) -> bool, other: (T, T) -> bool, x: T, s: seq<T>)
    requires forall y | y in s :: leq(y, x) == other(y, x)
    ensures Insert(leq, x, s) == Insert(other, x, s)
  {
    if s != [] {
      InsertAgrees(leq, other, x, s[1..]);
    }
  }

  /** The orders agree on each element and those after it. */
  ghost predicate AgreeOn<T>(leq: (T, T) -> bool, other: (T, T) -> bool, s: seq<T>) {
    forall i, j | 0 <= i < j < |s| :: leq(s[j], s[i]) == other(s[j], s[i])
  }

  lemma {:induction false} AgreementSorts<T(!new)>(leq: (T, T) -> bool, other: (T, T) -> bool, s: seq<T>)
    requires TotalPreorder(leq) && AgreeOn(leq, other, s)
    ensures SortDescending(leq, s) == SortDescending(other, s)
  {
    if s != [] {
      var tail := s[1..];
      var rest := SortDescending(leq, tail);
      AgreementSorts(leq, other, tail);
      SortCorrect(leq, tail);
      forall y | y in rest ensures leq(y, s[0]) == other(y, s[0]) {
        assert y in multiset(rest);
        var j :| 0 <= j < |tail| && tail[j] == y;
        assert s[j + 1] == y;
      }
      InsertAgrees(leq, other, s[0], rest);
    }
  }

  lemma {:induction false} TiesDescending<T(!new)>(leq: (T, T) -> bool, other: (T, T) -> bool, k: T, s: seq<T>)
    requires Descending(other, s)
    ensures Descending(other, Ties(leq, k, s))
    ensures forall x | x in Ties(leq, k, s) :: x in s
  {
    if s != [] {
      TiesDescending(leq, other, k, s[1..]);
      forall x | x in Ties(leq, k, s[1..]) ensures other(x, s[0]) {
        var j :| 0 <= j < |s[1..]| && s[1..][j] == x;
        assert s[j + 1] == x;
      }
    }
  }

  lemma {:induction false} TiesHold<T(!new)>(leq: (T, T) -> bool, k: T, s: seq<T>, j: nat)
    requires j < |s| && leq(s[j], k) && leq(k, s[j])
    ensures s[j] in Ties(leq, k, s)
  {
    if j > 0 {
      TiesHold(leq, k, s[1..], j - 1);
    }
  }

  /** Ties keep their order. */
  lemma {:induction false} TiesInOrder<T(!new)>(leq: (T, T) -> bool, k: T, s: seq<T>, i: nat, j: nat)
      returns (p: nat, q: nat)
    requires i < j < |s| && leq(s[i], k) && leq(k, s[i]) && leq(s[j], k) && leq(k, s[j])
    ensures p < q < |Ties(leq, k, s)| && Ties(leq, k, s)[p] == s[i] && Ties(leq, k, s)[q] == s[j]
  {
    var rest := Ties(leq, k, s[1..]);
    if i == 0 {
      TiesHold(leq, k, s[1..], j - 1);
      var r: nat :| r < |rest| && rest[r] == s[j];
      p, q := 0, r + 1;
    } else {
      p, q := TiesInOrder(leq, k, s[1..], i - 1, j - 1);
      if leq(s[0], k) && leq(k, s[0]) {
        p, q := p + 1, q + 1;
      }
    }
  }

  lemma {:induction false} SortedImplies<T(!new)>(leq: (T, T) -> bool, other: (T, T) -> bool, s: seq<T>, i: nat, j: nat)
    requires TotalPreorder(leq) && TotalPreorder(other) && SortDescending(leq, s) == SortDescending(other, s)
    requires i < j < |s| && leq(s[j], s[i])
    ensures other(s[j], s[i])
  {
    hide SortDescending, Ties;
    var out := SortDescending(leq, s);
    SortCorrect(leq, s);
    SortCorrect(other, s);
    if leq(s[i], s[j]) {
      var p, q := TiesInOrder(leq, s[i], s, i, j);
      TiesDescending(leq, other, s[i], out);
      assert Ties(leq, s[i], out) == Ties(leq, s[i], s);
    } else {
      assert s[i] in multiset(out) && s[j] in multiset(out);
      var p :| 0 <= p < |out| && out[p] == s[i];
      var q :| 0 <= q < |out| && out[q] == s[j];
    }
  }

  /** A stable sort gives one list under two orders exactly when they agree on each element and those after it. */
  lemma {:induction false} SortsAlike<T(!new)>(leq: (T, T) -> bool, other: (T, T) -> bool, s: seq<T>)
    requires TotalPreorder(leq) && TotalPreorder(other)
    ensures SortDescending(leq, s) == SortDescending(other, s) <==> AgreeOn(leq, other, s)
  {
    hide TotalPreorder, SortDescending;
    if AgreeOn(leq, other, s) {
      AgreementSorts(leq, other, s);
    }
    if SortDescending(leq, s) == SortDescending(other, s) {
      forall i, j | 0 <= i < j < |s| ensures leq(s[j], s[i]) == other(s[j], s[i]) {
        if leq(s[j], s[i]) {
          SortedImplies(leq, other, s, i, j);
        }
        if other(s[j], s[i]) {
          SortedImplies(other, leq, s, i, j);
        }
      }
    }
  }
}
