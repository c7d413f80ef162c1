/** A stable sort by a caller's comparison: `array.sort(compare)`, where `less(a, b)` is `compare(a, b) < 0`. */
module Sorting {

  /** A comparison a sort can rely on; elements of which neither is less are tied. */
  ghost predicate StrictWeak<T(!new)>(less: (T, T) -> bool) {
    && (forall x :: !less(x, x))
    && (forall x, y, z :: less(x, y) && less(y, z) ==> less(x, z))
    && (forall x, y, z :: !less(x, y) && !less(y, z) ==> !less(x, z))
  }

  function Insert<T>(x: T, s: seq<T>, less: (T, T) -> bool): seq<T> {
    if s == [] || !less(s[0], x) then [x] + s else [s[0]] + Insert(x, s[1..], less)
  }

  function Sort<T>(s: seq<T>, less: (T, T) -> bool): seq<T> {
    if s == [] then [] else Insert(s[0], Sort(s[1..], less), less)
  }

  ghost predicate Sorted<T>(s: seq<T>, less: (T, T) -> bool) {
    forall i, j | 0 <= i < j < |s| :: !less(s[j], s[i])
  }

  lemma {:induction false} InsertPermutes<T>(x: T, s: seq<T>, less: (T, T) -> bool)
    ensures multiset(Insert(x, s, less)) == multiset(s) + multiset{x}
  {
    if s != [] && less(s[0], x) {
      InsertPermutes(x, s[1..], less);
      assert s == [s[0]] + s[1..];
    }
  }

  lemma {:induction false} SortPermutes<T>(s: seq<T>, less: (T, T) -> bool)
    ensures multiset(Sort(s, less)) == multiset(s)
  {
    if s != [] {
      SortPermutes(s[1..], less);
      InsertPermutes(s[0], Sort(s[1..], less), less);
      assert s == [s[0]] + s[1..];
    }
  }

  lemma SortMembers<T>(s: seq<T>, less: (T, T) -> bool)
    ensures |Sort(s, less)| == |s|
    ensures forall x :: x in Sort(s, less) <==> x in s
  {
    SortPermutes(s, less);
    assert |multiset(Sort(s, less))| == |Sort(s, less)| && |multiset(s)| == |s|;
    forall x ensures x in Sort(s, less) <==> x in s {
      assert x in multiset(Sort(s, less)) <==> x in multiset(s);
    }
  }

  lemma {:induction false} InsertSorts<T(!new)>(x: T, s: seq<T>, less: (T, T) -> bool)
    requires StrictWeak(less) && Sorted(s, less)
    ensures Sorted(Insert(x, s, less), less)
  {
    if s != [] && less(s[0], x) {
      var rest := Insert(x, s[1..], less);
      InsertSorts(x, s[1..], less);
      InsertPermutes(x, s[1..], less);
      forall y | y in rest ensures !less(y, s[0]) {
        assert y in multiset(rest);
        assert y == x || y in s[1..];
      }
      forall i, j | 0 <= i < j < |rest| + 1 ensures !less(([s[0]] + rest)[j], ([s[0]] + rest)[i]) {
        assert rest[j - 1] in rest;
      }
    } else {
      forall i, j | 0 <= i < j < |s| + 1 ensures !less(([x] + s)[j], ([x] + s)[i]) {
        if i == 0 {
          assert !less(s[j - 1], s[0]);
        }
      }
    }
  }

  lemma {:induction false} SortSorts<T(!new)>(s: seq<T>, less: (T, T) -> bool)
    requires StrictWeak(less)
    ensures Sorted(Sort(s, less), less)
  {
    if s != [] {
      SortSorts(s[1..], less);
      InsertSorts(s[0], Sort(s[1..], less), less);
    }
  }

  /** Sorting a sorted sequence changes nothing. */
  lemma {:induction false} SortedIsFixed<T>(s: seq<T>, less: (T, T) -> bool)
    requires Sorted(s, less)
    ensures Sort(s, less) == s
  {
    if s != [] {
      SortedIsFixed(s[1..], less);
      assert |s| > 1 ==> s[1..][0] == s[1];
      assert s == [s[0]] + s[1..];
    }
  }

  /** Different members of the sequence are never tied. */
  ghost predicate NoTies<T>(s: seq<T>, less: (T, T) -> bool) {
    forall x, y | x in s && y in s && x != y :: less(x, y) || less(y, x)
  }

  lemma {:induction false} SortedUnique<T>(a: seq<T>, b: seq<T>, less: (T, T) -> bool)
    requires Sorted(a, less) && Sorted(b, less) && NoTies(a, less) && multiset(a) == multiset(b)
    ensures a == b
  {
    assert |multiset(a)| == |a| && |multiset(b)| == |b|;
    if a != [] {
      SameHead(a, b, less);
      SameTail(a, b);
      SortedUnique(a[1..], b[1..], less);
      assert a == [a[0]] + a[1..] && b == [b[0]] + b[1..];
    }
  }

  lemma SameTail<T>(a: seq<T>, b: seq<T>)
    requires multiset(a) == multiset(b) && a != [] && b != [] && a[0] == b[0]
    ensures multiset(a[1..]) == multiset(b[1..])
  {
    assert a == [a[0]] + a[1..] && b == [b[0]] + b[1..];
    assert multiset(a[1..]) == multiset(a) - multiset{a[0]};
    assert multiset(b[1..]) == multiset(b) - multiset{b[0]};
  }

  lemma SameHead<T>(a: seq<T>, b: seq<T>, less: (T, T) -> bool)
    requires Sorted(a, less) && Sorted(b, less) && NoTies(a, less) && multiset(a) == multiset(b) && a != [] && b != []
    ensures a[0] == b[0]
  {
    assert a[0] in multiset(b) && b[0] in multiset(a);
    var i :| 0 <= i < |b| && b[i] == a[0];
    var j :| 0 <= j < |a| && a[j] == b[0];
    if i > 0 && j > 0 {
      assert !less(b[i], b[0]) && !less(a[j], a[0]);
    }
  }

  /** Sorting forgets the order it was given, when there are no ties. */
  lemma SortForgetsOrder<T(!new)>(s: seq<T>, t: seq<T>, less: (T, T) -> bool)
    requires StrictWeak(less) && NoTies(s, less) && multiset(s) == multiset(t)
    ensures Sort(s, less) == Sort(t, less)
  {
    SortPermutes(s, less);
    SortPermutes(t, less);
    SortSorts(s, less);
    SortSorts(t, less);
    SortMembers(s, less);
    SortedUnique(Sort(s, less), Sort(t, less), less);
  }

  // ---------------------------------------------------------------- strings by code unit

  /** The UTF-16 code units of a character: one, or a surrogate pair. */
  function Units(c: char): seq<nat> {
    var n := c as nat;
    if n < 0x1_0000 then [n] else [0xD800 + (n - 0x1_0000) / 0x400, 0xDC00 + (n - 0x1_0000) % 0x400]
  }

  /** The rank of a character: surrogate pairs come before the characters from U+E000 to U+FFFF. */
  function Rank(c: char): nat {
    var n := c as nat;
    if 0xE000 <= n < 0x1_0000 then n + 0x11_0000 else n
  }

  /** Characters rank as their code units compare, one after the other. */
  lemma RankFollowsUnits(c: char, d: char)
    ensures Rank(c) < Rank(d) <==>
              || Units(c)[0] < Units(d)[0]
              || (Units(c)[0] == Units(d)[0] && |Units(c)| == 2 == |Units(d)| && Units(c)[1] < Units(d)[1])
    ensures Rank(c) == Rank(d) <==> c == d
  {
  }

  /** The order of `array.sort()` on strings. */
  predicate Before(a: string, b: string) {
    b != "" && (a == "" || Rank(a[0]) < Rank(b[0]) || (a[0] == b[0] && Before(a[1..], b[1..])))
  }

  function Utf16(s: string): seq<nat> {
    if s == "" then [] else Units(s[0]) + Utf16(s[1..])
  }

  predicate UnitsBefore(u: seq<nat>, v: seq<nat>) {
    v != [] && (u == [] || u[0] < v[0] || (u[0] == v[0] && UnitsBefore(u[1..], v[1..])))
  }

  lemma {:induction false} SamePrefix(p: seq<nat>, u: seq<nat>, v: seq<nat>)
    ensures UnitsBefore(p + u, p + v) <==> UnitsBefore(u, v)
  {
    if p == [] {
      assert p + u == u && p + v == v;
    } else {
      assert (p + u)[1..] == p[1..] + u && (p + v)[1..] == p[1..] + v;
      SamePrefix(p[1..], u, v);
    }
  }

  /** The order on strings is the order of their UTF-16 code units. */
  lemma {:induction false} BeforeIsUnitOrder(a: string, b: string)
    ensures Before(a, b) <==> UnitsBefore(Utf16(a), Utf16(b))
  {
    if a != "" && b != "" {
      var u, v := Utf16(a[1..]), Utf16(b[1..]);
      if a[0] == b[0] {
        SamePrefix(Units(a[0]), u, v);
        BeforeIsUnitOrder(a[1..], b[1..]);
      } else {
        RankFollowsUnits(a[0], b[0]);
        assert |Units(a[0])| == 2 ==> (Units(a[0]) + u)[1..][0] == Units(a[0])[1];
        assert |Units(b[0])| == 2 ==> (Units(b[0]) + v)[1..][0] == Units(b[0])[1];
      }
    }
  }

  lemma {:induction false} BeforeTotal(a: string, b: string)
    ensures !Before(a, a)
    ensures a != b ==> Before(a, b) || Before(b, a)
  {
    if a != "" {
      BeforeTotal(a[1..], if b == "" then "" else b[1..]);
      if b != "" && a[0] == b[0] && a != b {
        assert a == [a[0]] + a[1..] && b == [b[0]] + b[1..];
      }
    }
  }

  lemma {:induction false} BeforeTransitive(a: string, b: string, c: string)
    requires Before(a, b) && Before(b, c)
    ensures Before(a, c)
  {
    if a != "" && a[0] == b[0] && b[0] == c[0] {
      BeforeTransitive(a[1..], b[1..], c[1..]);
    }
  }

  lemma BeforeOrders()
    ensures StrictWeak(Before)
  {
    forall a: string, b: string ensures !Before(a, a) && (a != b ==> Before(a, b) || Before(b, a)) {
      BeforeTotal(a, b);
    }
    forall a, b, c | Before(a, b) && Before(b, c) ensures Before(a, c) {
      BeforeTransitive(a, b, c);
    }
  }

  /** No string twice, and each before the next. */
  predicate Ascending(s: seq<string>) {
    forall i, j | 0 <= i < j < |s| :: Before(s[i], s[j])
  }

  /** Sorting different strings leaves them in ascending order. */
  lemma SortAscends(s: seq<string>)
    requires forall i, j | 0 <= i < j < |s| :: s[i] != s[j]
    ensures Ascending(Sort(s, Before))
  {
    var sorted := Sort(s, Before);
    BeforeOrders();
    SortSorts(s, Before);
    forall i, j | 0 <= i < j < |sorted| ensures Before(sorted[i], sorted[j]) {
      BeforeTotal(sorted[i], sorted[j]);
      if sorted[i] == sorted[j] {
        OccursTwice(sorted, i, j);
        OccursOnce(s, sorted[i]);
        SortPermutes(s, Before);
      }
    }
  }

  lemma OccursTwice<T>(s: seq<T>, i: nat, j: nat)
    requires i < j < |s| && s[i] == s[j]
    ensures multiset(s)[s[i]] >= 2
  {
    assert s == s[..i] + [s[i]] + s[i + 1..j] + [s[j]] + s[j + 1..];
  }

  lemma OccursOnce<T>(s: seq<T>, x: T)
    requires forall i, j | 0 <= i < j < |s| :: s[i] != s[j]
    ensures multiset(s)[x] <= 1
  {
    if x in s {
      var i :| 0 <= i < |s| && s[i] == x;
      assert s == s[..i] + [x] + s[i + 1..];
      assert x !in s[..i] && x !in s[i + 1..];
    }
  }
}
