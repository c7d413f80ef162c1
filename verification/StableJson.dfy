/**
 * `stable` of scripts/build-schema-snapshot.ts: a canonical form for JSON values up to the order of
 * object keys. An object is its entries in enumeration order, and JavaScript enumerates array-index
 * keys first, whatever order they were inserted in.
 */
module StableJson {
  import opened Prelude
  import opened Sorting

  datatype Value = Scalar(text: string) | List(items: seq<Value>) | Object(entries: seq<Entry>)

  datatype Entry = Entry(key: string, value: Value)

  /** `before(j, k)` is `j.localeCompare(k) < 0`. */
  type KeyOrder = (string, string) -> bool

  function ByKey(before: KeyOrder): (Entry, Entry) -> bool {
    (x: Entry, y: Entry) => before(x.key, y.key)
  }

  // ---------------------------------------------------------------- enumeration order

  predicate IsCanonicalDigits(key: string) {
    key != "" && (forall c | c in key :: IsDigit(c)) && (key[0] == '0' ==> |key| == 1)
  }

  /** Array-index keys: canonical numerals below 2^32 - 1. */
  predicate IsIndex(key: string) {
    IsCanonicalDigits(key) && ParseDecimal(key) < 0xFFFF_FFFF
  }

  function ByIndex(): (Entry, Entry) -> bool {
    (x: Entry, y: Entry) => ParseDecimal(x.key) < ParseDecimal(y.key)
  }

  function Indexes(es: seq<Entry>): seq<Entry> {
    if es == [] then [] else (if IsIndex(es[0].key) then [es[0]] else []) + Indexes(es[1..])
  }

  function Others(es: seq<Entry>): seq<Entry> {
    if es == [] then [] else (if IsIndex(es[0].key) then [] else [es[0]]) + Others(es[1..])
  }

  /** The enumeration order of `Object.fromEntries(es)`. */
  function FromEntries(es: seq<Entry>): seq<Entry> {
    Sort(Indexes(es), ByIndex()) + Others(es)
  }

  // ---------------------------------------------------------------- stable

  function Stable(v: Value, before: KeyOrder): Value {
    match v
    case Scalar(_) => v
    case List(items) => List(seq(|items|, i requires 0 <= i < |items| => Stable(items[i], before)))
    case Object(es) =>
      SortMembers(es, ByKey(before));
      var sorted := Sort(es, ByKey(before));
      Object(FromEntries(seq(|sorted|, i requires 0 <= i < |sorted| =>
        assert sorted[i] in es; Entry(sorted[i].key, Stable(sorted[i].value, before)))))
  }

  predicate DistinctKeys(es: seq<Entry>) {
    forall i, j | 0 <= i < j < |es| :: es[i].key != es[j].key
  }

  /** Every object in the value has distinct keys. */
  predicate WellFormed(v: Value) {
    match v
    case Scalar(_) => true
    case List(items) => forall i | 0 <= i < |items| :: WellFormed(items[i])
    case Object(es) => DistinctKeys(es) && forall i | 0 <= i < |es| :: WellFormed(es[i].value)
  }

  /** The values differ at most in the order of object keys, at any depth. */
  predicate SameUpToOrder(a: Value, b: Value) {
    match (a, b)
    case (Scalar(s), Scalar(t)) => s == t
    case (List(xs), List(ys)) => |xs| == |ys| && forall i | 0 <= i < |xs| :: SameUpToOrder(xs[i], ys[i])
    case (Object(es), Object(fs)) =>
      |es| == |fs| && forall i | 0 <= i < |es| :: exists j :: 0 <= j < |fs| && es[i].key == fs[j].key && SameUpToOrder(es[i].value, fs[j].value)
    case _ => false
  }

  /** A key order that sorts reliably and never ties two keys enumerated in insertion order. */
  ghost predicate NoKeyTies(before: KeyOrder) {
    forall j, k | !IsIndex(j) && !IsIndex(k) && j != k :: before(j, k) || before(k, j)
  }

  // ---------------------------------------------------------------- index keys

  lemma DecimalShift(n: nat, d: nat)
    requires n >= 1 && d < 10
    ensures Decimal(n * 10 + d) == Decimal(n) + ['0' + d as char]
  {
  }

  lemma {:induction false} CanonicalDigits(key: string)
    requires IsCanonicalDigits(key)
    ensures Decimal(ParseDecimal(key)) == key
    ensures key[0] != '0' ==> ParseDecimal(key) >= 1
  {
    var n := |key| - 1;
    var init, last := key[..n], key[n];
    assert last in key;
    assert key == init + [last];
    if n == 0 {
      assert ParseDecimal(init) == 0;
    } else {
      assert key[0] in key;
      CanonicalDigits(init);
      DecimalShift(ParseDecimal(init), (last - '0') as nat);
    }
  }

  lemma {:induction false} DecimalIsCanonical(n: nat)
    ensures IsCanonicalDigits(Decimal(n)) && (n > 0 ==> Decimal(n)[0] != '0')
  {
    DecimalRoundTrip(n);
    if n >= 10 {
      DecimalIsCanonical(n / 10);
    }
  }

  /** The keys that come first are the numerals of 0 to 2^32 - 2, without leading zeros. */
  lemma IndexMeans(key: string)
    ensures IsIndex(key) <==> exists n: nat :: n <= 4294967294 && key == Decimal(n)
  {
    if IsIndex(key) {
      CanonicalDigits(key);
    }
    if n: nat :| n <= 4294967294 && key == Decimal(n) {
      DecimalIsCanonical(n);
      DecimalRoundTrip(n);
    }
  }

  lemma IndexOrderRight(es: seq<Entry>)
    requires DistinctKeys(es)
    ensures StrictWeak(ByIndex()) && NoTies(Indexes(es), ByIndex())
  {
    forall x, y | x in Indexes(es) && y in Indexes(es) && x != y ensures ByIndex()(x, y) || ByIndex()(y, x) {
      Parts(es, x);
      Parts(es, y);
      CanonicalDigits(x.key);
      CanonicalDigits(y.key);
    }
  }

  lemma {:induction false} Parts(es: seq<Entry>, x: Entry)
    ensures x in Indexes(es) <==> x in es && IsIndex(x.key)
    ensures x in Others(es) <==> x in es && !IsIndex(x.key)
  {
    if es != [] {
      Parts(es[1..], x);
      assert es == [es[0]] + es[1..];
    }
  }

  lemma {:induction false} PartsCount(es: seq<Entry>)
    ensures multiset(es) == multiset(Indexes(es)) + multiset(Others(es))
  {
    if es != [] {
      PartsCount(es[1..]);
      assert es == [es[0]] + es[1..];
    }
  }

  lemma PartsForgetOrder(es: seq<Entry>, fs: seq<Entry>)
    requires multiset(es) == multiset(fs)
    ensures multiset(Indexes(es)) == multiset(Indexes(fs)) && multiset(Others(es)) == multiset(Others(fs))
  {
    PartsCount(es);
    PartsCount(fs);
    forall x ensures multiset(Indexes(es))[x] == multiset(Indexes(fs))[x] && multiset(Others(es))[x] == multiset(Others(fs))[x] {
      Parts(es, x);
      Parts(fs, x);
      assert multiset(es)[x] == multiset(fs)[x];
      assert IsIndex(x.key) ==> x !in multiset(Others(es)) && x !in multiset(Others(fs));
      assert !IsIndex(x.key) ==> x !in multiset(Indexes(es)) && x !in multiset(Indexes(fs));
    }
  }

  // ---------------------------------------------------------------- the canonical order

  lemma ByKeyWeak(before: KeyOrder)
    requires StrictWeak(before)
    ensures StrictWeak(ByKey(before))
  {
    var less := ByKey(before);
    forall x ensures !less(x, x) {
      assert !before(x.key, x.key);
    }
    forall x, y, z | less(x, y) && less(y, z) ensures less(x, z) {
      assert before(x.key, y.key) && before(y.key, z.key);
    }
    forall x, y, z | !less(x, y) && !less(y, z) ensures !less(x, z) {
      assert !before(x.key, y.key) && !before(y.key, z.key);
    }
  }

  function StableEntries(es: seq<Entry>, before: KeyOrder): (r: seq<Entry>)
    ensures |r| == |es|
    ensures forall i | 0 <= i < |es| :: r[i] == Entry(es[i].key, Stable(es[i].value, before))
  {
    seq(|es|, i requires 0 <= i < |es| => Entry(es[i].key, Stable(es[i].value, before)))
  }

  lemma {:induction false} InsertMapped(x: Entry, s: seq<Entry>, before: KeyOrder)
    ensures StableEntries(Insert(x, s, ByKey(before)), before) ==
            Insert(Entry(x.key, Stable(x.value, before)), StableEntries(s, before), ByKey(before))
  {
    if s == [] || !before(s[0].key, x.key) {
    } else {
      InsertMapped(x, s[1..], before);
      assert StableEntries(s, before)[1..] == StableEntries(s[1..], before);
    }
  }

  /** Sorting looks at keys only, so it commutes with `stable` on the values. */
  lemma {:induction false} SortMapped(s: seq<Entry>, before: KeyOrder)
    ensures StableEntries(Sort(s, ByKey(before)), before) == Sort(StableEntries(s, before), ByKey(before))
  {
    if s != [] {
      SortMapped(s[1..], before);
      assert StableEntries(s, before)[1..] == StableEntries(s[1..], before);
      InsertMapped(s[0], Sort(s[1..], ByKey(before)), before);
    }
  }

  /** The entries of the result: the index keys by number, then the other keys by the key order. */
  function Canonical(es: seq<Entry>, before: KeyOrder): seq<Entry> {
    Sort(Indexes(es), ByIndex()) + Sort(Others(es), ByKey(before))
  }

  lemma OthersNoTies(es: seq<Entry>, before: KeyOrder)
    requires NoKeyTies(before) && DistinctKeys(es)
    ensures NoTies(Others(es), ByKey(before))
  {
    forall x, y | x in Others(es) && y in Others(es) && x != y ensures before(x.key, y.key) || before(y.key, x.key) {
      Parts(es, x);
      Parts(es, y);
    }
  }

  lemma CanonicalForgetsOrder(es: seq<Entry>, fs: seq<Entry>, before: KeyOrder)
    requires StrictWeak(before) && NoKeyTies(before) && DistinctKeys(es) && multiset(es) == multiset(fs)
    ensures Canonical(es, before) == Canonical(fs, before)
  {
    PartsForgetOrder(es, fs);
    IndexOrderRight(es);
    OthersNoTies(es, before);
    ByKeyWeak(before);
    SortForgetsOrder(Indexes(es), Indexes(fs), ByIndex());
    SortForgetsOrder(Others(es), Others(fs), ByKey(before));
  }

  lemma PartsOfCons(x: Entry, t: seq<Entry>)
    ensures Others([x] + t) == (if IsIndex(x.key) then [] else [x]) + Others(t)
    ensures Indexes([x] + t) == (if IsIndex(x.key) then [x] else []) + Indexes(t)
  {
    assert ([x] + t)[1..] == t;
  }

  lemma InsertAhead(x: Entry, s: seq<Entry>, less: (Entry, Entry) -> bool)
    requires StrictWeak(less) && Sorted(s, less) && (s == [] || !less(s[0], x))
    ensures Insert(x, Others(s), less) == [x] + Others(s)
  {
    if Others(s) != [] {
      var y := Others(s)[0];
      Parts(s, y);
      var k :| 0 <= k < |s| && s[k] == y;
      assert k > 0 ==> !less(s[k], s[0]);
      assert !less(y, x);
    }
  }

  /** Dropping the index keys before or after inserting gives the same sequence: the sort is stable. */
  lemma {:induction false} OthersOfInserted(x: Entry, s: seq<Entry>, less: (Entry, Entry) -> bool)
    requires StrictWeak(less) && Sorted(s, less)
    ensures Others(Insert(x, s, less)) == if IsIndex(x.key) then Others(s) else Insert(x, Others(s), less)
  {
    if s != [] && less(s[0], x) {
      var rest := Insert(x, s[1..], less);
      OthersOfInserted(x, s[1..], less);
      PartsOfCons(s[0], rest);
      assert !IsIndex(s[0].key) ==> Others(s)[1..] == Others(s[1..]);
      assert IsIndex(s[0].key) ==> [] + Others(rest) == Others(rest) && [] + Others(s[1..]) == Others(s[1..]);
    } else {
      PartsOfCons(x, s);
      InsertAhead(x, s, less);
      assert [] + Others(s) == Others(s);
    }
  }

  lemma {:induction false} OthersOfSorted(s: seq<Entry>, less: (Entry, Entry) -> bool)
    requires StrictWeak(less)
    ensures Others(Sort(s, less)) == Sort(Others(s), less)
  {
    if s != [] {
      OthersOfSorted(s[1..], less);
      SortSorts(s[1..], less);
      OthersOfInserted(s[0], Sort(s[1..], less), less);
      assert s == [s[0]] + s[1..];
      PartsOfCons(s[0], s[1..]);
      assert !IsIndex(s[0].key) ==> Others(s)[1..] == Others(s[1..]);
      assert IsIndex(s[0].key) ==> [] + Others(s[1..]) == Others(s[1..]);
    }
  }

  lemma FromSortedIsCanonical(es: seq<Entry>, before: KeyOrder)
    requires StrictWeak(before) && DistinctKeys(es)
    ensures FromEntries(Sort(es, ByKey(before))) == Canonical(es, before)
  {
    var sorted := Sort(es, ByKey(before));
    ByKeyWeak(before);
    SortPermutes(es, ByKey(before));
    PartsForgetOrder(es, sorted);
    IndexOrderRight(es);
    SortForgetsOrder(Indexes(es), Indexes(sorted), ByIndex());
    OthersOfSorted(es, ByKey(before));
  }

  lemma StableObject(es: seq<Entry>, before: KeyOrder)
    ensures Stable(Object(es), before) == Object(FromEntries(Sort(StableEntries(es, before), ByKey(before))))
  {
    SortMembers(es, ByKey(before));
    SortMapped(es, before);
    var sorted := Sort(es, ByKey(before));
    assert StableEntries(sorted, before) == seq(|sorted|, i requires 0 <= i < |sorted| =>
        Entry(sorted[i].key, Stable(sorted[i].value, before)));
  }

  lemma StableEntriesDistinct(es: seq<Entry>, before: KeyOrder)
    requires DistinctKeys(es)
    ensures DistinctKeys(StableEntries(es, before))
  {
  }

  /** The entries of a stable object are those of the object with stable values, in some order. */
  lemma StablePermutes(es: seq<Entry>, before: KeyOrder)
    ensures Stable(Object(es), before).Object?
    ensures multiset(Stable(Object(es), before).entries) == multiset(StableEntries(es, before))
  {
    StableObject(es, before);
    var mapped := StableEntries(es, before);
    var sorted := Sort(mapped, ByKey(before));
    SortPermutes(mapped, ByKey(before));
    SortPermutes(Indexes(sorted), ByIndex());
    PartsCount(sorted);
  }

  // ---------------------------------------------------------------- equal results mean equal up to order

  lemma EntryInResult(es: seq<Entry>, fs: seq<Entry>, before: KeyOrder, i: nat) returns (j: nat)
    requires Stable(Object(es), before) == Stable(Object(fs), before) && i < |es|
    ensures j < |fs| && es[i].key == fs[j].key && Stable(es[i].value, before) == Stable(fs[j].value, before)
  {
    StablePermutes(es, before);
    StablePermutes(fs, before);
    var ms, ns := StableEntries(es, before), StableEntries(fs, before);
    assert ms[i] in multiset(ns);
    j :| 0 <= j < |ns| && ns[j] == ms[i];
  }

  lemma SameLength(es: seq<Entry>, fs: seq<Entry>, before: KeyOrder)
    requires Stable(Object(es), before) == Stable(Object(fs), before)
    ensures |es| == |fs|
  {
    StablePermutes(es, before);
    StablePermutes(fs, before);
    assert |multiset(StableEntries(es, before))| == |es| && |multiset(StableEntries(fs, before))| == |fs|;
  }

  lemma {:induction false} EqualResults(a: Value, b: Value, before: KeyOrder)
    requires WellFormed(a) && WellFormed(b) && Stable(a, before) == Stable(b, before)
    ensures SameUpToOrder(a, b)
    decreases a
  {
    match a
    case Scalar(_) => assert b.Scalar?;
    case List(xs) =>
      assert b.List? && |b.items| == |xs|;
      forall i | 0 <= i < |xs| ensures SameUpToOrder(xs[i], b.items[i]) {
        assert Stable(a, before).items[i] == Stable(b, before).items[i];
        EqualResults(xs[i], b.items[i], before);
      }
    case Object(es) =>
      assert b.Object?;
      SameLength(es, b.entries, before);
      forall i | 0 <= i < |es|
        ensures exists j :: 0 <= j < |b.entries| && es[i].key == b.entries[j].key
                            && SameUpToOrder(es[i].value, b.entries[j].value)
      {
        var j := EntryInResult(es, b.entries, before, i);
        EqualResults(es[i].value, b.entries[j].value, before);
      }
  }

  // ---------------------------------------------------------------- equal up to order means equal results

  lemma DistinctSameMembers(xs: seq<Entry>, ys: seq<Entry>)
    requires DistinctKeys(xs) && DistinctKeys(ys)
    requires forall x :: x in xs <==> x in ys
    ensures multiset(xs) == multiset(ys)
  {
    forall x ensures multiset(xs)[x] == multiset(ys)[x] {
      AtMostOnce(xs, x);
      AtMostOnce(ys, x);
      assert x in multiset(xs) <==> x in xs;
      assert x in multiset(ys) <==> x in ys;
    }
  }

  lemma {:induction false} AtMostOnce(xs: seq<Entry>, x: Entry)
    requires DistinctKeys(xs)
    ensures multiset(xs)[x] <= 1
  {
    if xs != [] {
      AtMostOnce(xs[1..], x);
      assert xs == [xs[0]] + xs[1..];
      if x == xs[0] {
        assert x !in xs[1..];
        assert x !in multiset(xs[1..]);
      }
    }
  }

  /** An injection between equally long sequences of distinct keys is onto. */
  lemma {:induction false} MatchOnto(keys: seq<string>, others: seq<string>)
    requires forall i, j | 0 <= i < j < |keys| :: keys[i] != keys[j]
    requires forall i, j | 0 <= i < j < |others| :: others[i] != others[j]
    requires |keys| == |others| && forall i | 0 <= i < |keys| :: keys[i] in others
    ensures forall j | 0 <= j < |others| :: others[j] in keys
  {
    if keys != [] {
      var k :| 0 <= k < |others| && others[k] == keys[0];
      var rest := others[..k] + others[k + 1..];
      forall i | 0 <= i < |keys| - 1 ensures keys[1..][i] in rest {
        var j :| 0 <= j < |others| && others[j] == keys[i + 1];
        assert j != k;
        assert if j < k then rest[j] == others[j] else rest[j - 1] == others[j];
      }
      MatchOnto(keys[1..], rest);
      forall j | 0 <= j < |others| ensures others[j] in keys {
        if j < k {
          assert rest[j] == others[j];
        } else if j > k {
          assert rest[j - 1] == others[j];
        }
      }
    }
  }

  function Keys(es: seq<Entry>): (r: seq<string>)
    ensures |r| == |es| && forall i | 0 <= i < |es| :: r[i] == es[i].key
  {
    seq(|es|, i requires 0 <= i < |es| => es[i].key)
  }

  lemma {:induction false} SameResults(a: Value, b: Value, before: KeyOrder)
    requires StrictWeak(before) && NoKeyTies(before)
    requires WellFormed(a) && WellFormed(b) && SameUpToOrder(a, b)
    ensures Stable(a, before) == Stable(b, before)
    decreases a
  {
    match a
    case Scalar(_) =>
    case List(xs) =>
      forall i | 0 <= i < |xs| ensures Stable(xs[i], before) == Stable(b.items[i], before) {
        SameResults(xs[i], b.items[i], before);
      }
      assert Stable(a, before).items == Stable(b, before).items;
    case Object(es) =>
      var fs := b.entries;
      forall i: nat | i < |es| ensures Matched(es[i], fs, before) {
        var j :| 0 <= j < |fs| && es[i].key == fs[j].key && SameUpToOrder(es[i].value, fs[j].value);
        SameResults(es[i].value, fs[j].value, before);
      }
      SameObject(es, fs, before);
  }

  /** Some entry of `fs` has the key of `e` and the same stable value. */
  ghost predicate Matched(e: Entry, fs: seq<Entry>, before: KeyOrder) {
    exists j :: 0 <= j < |fs| && fs[j].key == e.key && Stable(fs[j].value, before) == Stable(e.value, before)
  }

  lemma SameObject(es: seq<Entry>, fs: seq<Entry>, before: KeyOrder)
    requires StrictWeak(before) && NoKeyTies(before) && DistinctKeys(es) && DistinctKeys(fs) && |es| == |fs|
    requires forall i | 0 <= i < |es| :: Matched(es[i], fs, before)
    ensures Stable(Object(es), before) == Stable(Object(fs), before)
  {
    var ms, ns := StableEntries(es, before), StableEntries(fs, before);
    StableEntriesDistinct(es, before);
    StableEntriesDistinct(fs, before);
    SameMembers(es, fs, before);
    DistinctSameMembers(ms, ns);
    CanonicalForgetsOrder(ms, ns, before);
    FromSortedIsCanonical(ms, before);
    FromSortedIsCanonical(ns, before);
    StableObject(es, before);
    StableObject(fs, before);
  }

  lemma SameMembers(es: seq<Entry>, fs: seq<Entry>, before: KeyOrder)
    requires DistinctKeys(es) && DistinctKeys(fs) && |es| == |fs|
    requires forall i | 0 <= i < |es| :: Matched(es[i], fs, before)
    ensures forall x :: x in StableEntries(es, before) <==> x in StableEntries(fs, before)
  {
    var ms, ns := StableEntries(es, before), StableEntries(fs, before);
    forall i: nat | i < |es| ensures Keys(es)[i] in Keys(fs) && ms[i] in ns {
      assert Matched(es[i], fs, before);
      var j :| 0 <= j < |fs| && fs[j].key == es[i].key && Stable(fs[j].value, before) == Stable(es[i].value, before);
      assert Keys(fs)[j] == Keys(es)[i] && ns[j] == ms[i];
    }
    MatchOnto(Keys(es), Keys(fs));
    forall j: nat | j < |fs| ensures ns[j] in ms {
      assert Keys(fs)[j] in Keys(es);
      var i :| 0 <= i < |es| && es[i].key == fs[j].key;
      assert Matched(es[i], fs, before);
      var k :| 0 <= k < |fs| && fs[k].key == es[i].key && Stable(fs[k].value, before) == Stable(es[i].value, before);
      assert k == j && ms[i] == ns[j];
    }
  }

  // ---------------------------------------------------------------- idempotence and lookup

  lemma {:induction false} StableIsSame(v: Value, before: KeyOrder)
    requires WellFormed(v)
    ensures WellFormed(Stable(v, before)) && SameUpToOrder(Stable(v, before), v)
    decreases v
  {
    match v
    case Scalar(_) =>
    case List(xs) => forall i | 0 <= i < |xs| { StableIsSame(xs[i], before); }
    case Object(es) =>
      ResultDistinct(es, before);
      var result := Stable(v, before).entries;
      forall i | 0 <= i < |result|
        ensures WellFormed(result[i].value)
        ensures exists j :: 0 <= j < |es| && result[i].key == es[j].key && SameUpToOrder(result[i].value, es[j].value)
      {
        var j := EntryBefore(es, before, i);
        StableIsSame(es[j].value, before);
      }
  }

  lemma ResultDistinct(es: seq<Entry>, before: KeyOrder)
    requires DistinctKeys(es)
    ensures Stable(Object(es), before).Object? && DistinctKeys(Stable(Object(es), before).entries)
    ensures |Stable(Object(es), before).entries| == |es|
  {
    StablePermutes(es, before);
    var result, ms := Stable(Object(es), before).entries, StableEntries(es, before);
    assert |multiset(result)| == |result| && |multiset(ms)| == |ms|;
    PermutedDistinct(ms, result);
  }

  lemma EntryBefore(es: seq<Entry>, before: KeyOrder, i: nat) returns (j: nat)
    requires Stable(Object(es), before).Object? && i < |Stable(Object(es), before).entries|
    ensures j < |es| && Stable(Object(es), before).entries[i] == Entry(es[j].key, Stable(es[j].value, before))
  {
    StablePermutes(es, before);
    var result, ms := Stable(Object(es), before).entries, StableEntries(es, before);
    assert result[i] in multiset(ms);
    j :| 0 <= j < |ms| && ms[j] == result[i];
  }

  lemma PermutedDistinct(xs: seq<Entry>, ys: seq<Entry>)
    requires DistinctKeys(xs) && multiset(xs) == multiset(ys)
    ensures DistinctKeys(ys)
  {
    forall i, j | 0 <= i < j < |ys| ensures ys[i].key != ys[j].key {
      assert ys[i] in multiset(xs) && ys[j] in multiset(xs);
      if ys[i] == ys[j] {
        OccursTwice(ys, i, j);
        AtMostOnce(xs, ys[i]);
      } else {
      }
    }
  }

  lemma {:induction false} PartsOfConcat(a: seq<Entry>, b: seq<Entry>)
    ensures Indexes(a + b) == Indexes(a) + Indexes(b) && Others(a + b) == Others(a) + Others(b)
  {
    if a == [] {
      assert a + b == b && [] + Indexes(b) == Indexes(b) && [] + Others(b) == Others(b);
    } else {
      var x, t := a[0], a[1..];
      PartsOfConcat(t, b);
      Associate([x], t, b);
      PartsOfCons(x, t);
      PartsOfCons(x, t + b);
      Associate(if IsIndex(x.key) then [x] else [], Indexes(t), Indexes(b));
      Associate(if IsIndex(x.key) then [] else [x], Others(t), Others(b));
      assert a == [x] + t;
    }
  }

  lemma Associate(a: seq<Entry>, b: seq<Entry>, c: seq<Entry>)
    ensures a + (b + c) == a + b + c
  {
  }

  lemma {:induction false} AllIndexes(es: seq<Entry>)
    requires forall x | x in es :: IsIndex(x.key)
    ensures Indexes(es) == es && Others(es) == []
  {
    if es != [] {
      AllIndexes(es[1..]);
      assert es == [es[0]] + es[1..];
    }
  }

  lemma {:induction false} AllOthers(es: seq<Entry>)
    requires forall x | x in es :: !IsIndex(x.key)
    ensures Indexes(es) == [] && Others(es) == es
  {
    if es != [] {
      AllOthers(es[1..]);
      assert es == [es[0]] + es[1..];
    }
  }

  /** Entries in canonical order stay where they are. */
  lemma CanonicalIsFixed(es: seq<Entry>, before: KeyOrder)
    requires StrictWeak(before) && DistinctKeys(es)
    ensures Canonical(Canonical(es, before), before) == Canonical(es, before)
  {
    var indexes, others := Sort(Indexes(es), ByIndex()), Sort(Others(es), ByKey(before));
    forall x ensures (x in indexes ==> IsIndex(x.key)) && (x in others ==> !IsIndex(x.key)) {
      Parts(es, x);
      SortMembers(Indexes(es), ByIndex());
      SortMembers(Others(es), ByKey(before));
    }
    AllIndexes(indexes);
    AllOthers(others);
    PartsOfConcat(indexes, others);
    assert indexes + [] == indexes && [] + others == others;
    IndexOrderRight(es);
    ByKeyWeak(before);
    SortSorts(Indexes(es), ByIndex());
    SortSorts(Others(es), ByKey(before));
    SortedIsFixed(indexes, ByIndex());
    SortedIsFixed(others, ByKey(before));
  }

  /** Applying `stable` twice is applying it once, ties or no ties. */
  lemma {:induction false} Idempotent(v: Value, before: KeyOrder)
    requires StrictWeak(before) && WellFormed(v)
    ensures Stable(Stable(v, before), before) == Stable(v, before)
    decreases v
  {
    match v
    case Scalar(_) =>
    case List(xs) => forall i | 0 <= i < |xs| { Idempotent(xs[i], before); }
    case Object(es) =>
      ResultDistinct(es, before);
      var result := Stable(v, before).entries;
      forall i | 0 <= i < |result| ensures Stable(result[i].value, before) == result[i].value {
        var j := EntryBefore(es, before, i);
        Idempotent(es[j].value, before);
      }
      assert StableEntries(result, before) == result;
      StableEntriesDistinct(es, before);
      StableObject(es, before);
      StableObject(result, before);
      FromSortedIsCanonical(StableEntries(es, before), before);
      FromSortedIsCanonical(result, before);
      CanonicalIsFixed(StableEntries(es, before), before);
  }

  /** `object[key]`. */
  function Get(v: Value, key: string): Option<Value> {
    if !v.Object? then None else GetEntry(v.entries, key)
  }

  function GetEntry(es: seq<Entry>, key: string): Option<Value> {
    if es == [] then None else if es[0].key == key then Some(es[0].value) else GetEntry(es[1..], key)
  }

  lemma {:induction false} GetIsMember(es: seq<Entry>, key: string, value: Value)
    requires DistinctKeys(es)
    ensures GetEntry(es, key) == Some(value) <==> Entry(key, value) in es
  {
    if es != [] {
      GetIsMember(es[1..], key, value);
      assert es == [es[0]] + es[1..];
      if es[0].key == key {
        assert Entry(key, value) !in es[1..];
      }
    }
  }

  /** `stable` preserves every lookup: the value found is the stable form of the value that was there. */
  lemma LookupPreserved(es: seq<Entry>, key: string, before: KeyOrder)
    requires WellFormed(Object(es))
    ensures var found := Get(Object(es), key);
            Get(Stable(Object(es), before), key) == if found.Some? then Some(Stable(found.value, before)) else None
  {
    StablePermutes(es, before);
    var result, ms := Stable(Object(es), before).entries, StableEntries(es, before);
    PermutedDistinct(ms, result);
    var found := GetEntry(es, key);
    if found.Some? {
      GetIsMember(es, key, found.value);
      var i :| 0 <= i < |es| && es[i] == Entry(key, found.value);
      assert ms[i] in multiset(result);
      GetIsMember(result, key, Stable(found.value, before));
    } else if GetEntry(result, key).Some? {
      var value := GetEntry(result, key).value;
      GetIsMember(result, key, value);
      assert Entry(key, value) in multiset(ms);
      var i :| 0 <= i < |ms| && ms[i] == Entry(key, value);
      GetIsMember(es, key, es[i].value);
    }
  }

  // ---------------------------------------------------------------- exactly when it is canonical

  ghost predicate IsCanonicalForm(before: KeyOrder) {
    forall a, b | WellFormed(a) && WellFormed(b) ::
      Stable(a, before) == Stable(b, before) <==> SameUpToOrder(a, b)
  }

  /** Tied keys keep their insertion order, so two orders of one object stay different. */
  lemma TieIsNotCanonical(before: KeyOrder, j: string, k: string)
    requires StrictWeak(before) && !IsIndex(j) && !IsIndex(k) && j != k && !before(j, k) && !before(k, j)
    ensures !IsCanonicalForm(before)
  {
    var x, y := Entry(j, Scalar("")), Entry(k, Scalar(""));
    TiedPair(x, y, before);
    TiedPair(y, x, before);
    SwappedPair(x, y);
    assert [x, y][0] != [y, x][0];
  }

  lemma SwappedPair(x: Entry, y: Entry)
    requires x.value.Scalar? && y.value.Scalar? && x.key != y.key
    ensures WellFormed(Object([x, y])) && WellFormed(Object([y, x])) && SameUpToOrder(Object([x, y]), Object([y, x]))
  {
    var es, fs := [x, y], [y, x];
    assert es[0].key == fs[1].key && SameUpToOrder(es[0].value, fs[1].value);
    assert es[1].key == fs[0].key && SameUpToOrder(es[1].value, fs[0].value);
  }

  lemma TiedPair(x: Entry, y: Entry, before: KeyOrder)
    requires !IsIndex(x.key) && !IsIndex(y.key) && !before(y.key, x.key) && x.value.Scalar? && y.value.Scalar?
    ensures Stable(Object([x, y]), before) == Object([x, y])
  {
    var less := ByKey(before);
    assert StableEntries([x, y], before) == [x, y];
    assert [x, y][1..] == [y] && [y][1..] == [];
    assert Sort<Entry>([], less) == [] && Insert(y, [], less) == [y];
    assert Sort([y], less) == [y];
    assert Insert(x, [y], less) == [x] + [y] == [x, y];
    assert Sort([x, y], less) == Insert(x, Sort([y], less), less);
    assert Others([]) == [] && Others([y]) == [y] + [] && Others([x, y]) == [x] + Others([y]) == [x, y];
    assert Indexes([]) == [] && Indexes([y]) == [] && Indexes([x, y]) == [];
    StableObject([x, y], before);
  }

  /** `stable` is a canonical form exactly when the key order ties no two keys that are not array indexes. */
  lemma CanonicalIff(before: KeyOrder)
    requires StrictWeak(before)
    ensures IsCanonicalForm(before) <==> NoKeyTies(before)
  {
    if NoKeyTies(before) {
      forall a, b | WellFormed(a) && WellFormed(b)
        ensures Stable(a, before) == Stable(b, before) <==> SameUpToOrder(a, b)
      {
        if Stable(a, before) == Stable(b, before) {
          EqualResults(a, b, before);
        }
        if SameUpToOrder(a, b) {
          SameResults(a, b, before);
        }
      }
    } else {
      var j, k :| !IsIndex(j) && !IsIndex(k) && j != k && !before(j, k) && !before(k, j);
      TieIsNotCanonical(before, j, k);
    }
  }
}
