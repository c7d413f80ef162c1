/** `groupCodegenWaves` of scripts/codegen-catalog.ts: layered topological scheduling of a catalog with distinct ids. */
module CodegenWaves {
  import opened Prelude

  datatype Entry = Entry(id: string, dependsOn: seq<string>)

  type Catalog = seq<Entry>

  ghost predicate DistinctIds(catalog: Catalog) {
    forall i, j | 0 <= i < j < |catalog| :: catalog[i].id != catalog[j].id
  }

  function Ids(catalog: Catalog): set<string> {
    set e | e in catalog :: e.id
  }

  // ---------------------------------------------------------------- dependency chains

  /** Entry `c[i]` depends on entry `c[i + 1]`. */
  predicate Link(c: seq<Entry>, i: nat)
    requires i + 1 < |c|
  {
    c[i + 1].id in c[i].dependsOn
  }

  /** Entries of the catalog, each depending on the next. */
  ghost predicate Chain(catalog: Catalog, c: seq<Entry>) {
    && |c| >= 1
    && (forall e | e in c :: e in catalog)
    && forall i: nat | i + 1 < |c| :: Link(c, i)
  }

  ghost predicate ChainFrom(catalog: Catalog, e: Entry, c: seq<Entry>) {
    Chain(catalog, c) && c[0] == e
  }

  /** The longest dependency chain from `e` has `k` entries after it. */
  ghost predicate HasDepth(catalog: Catalog, e: Entry, k: nat) {
    && (exists c :: ChainFrom(catalog, e, c) && |c| == k + 1)
    && (forall c | ChainFrom(catalog, e, c) :: |c| <= k + 1)
  }

  predicate Known(catalog: Catalog) {
    forall e | e in catalog :: forall d | d in e.dependsOn :: d in Ids(catalog)
  }

  ghost predicate IsCycle(catalog: Catalog, c: seq<Entry>) {
    Chain(catalog, c) && |c| > 1 && c[0] == c[|c| - 1]
  }

  ghost predicate Acyclic(catalog: Catalog) {
    forall c :: !IsCycle(catalog, c)
  }

  lemma ChainCons(catalog: Catalog, e: Entry, c: seq<Entry>)
    requires e in catalog && Chain(catalog, c) && c[0].id in e.dependsOn
    ensures ChainFrom(catalog, e, [e] + c)
  {
    var longer := [e] + c;
    forall i: nat | i + 1 < |longer| ensures Link(longer, i) {
      if i > 0 {
        assert Link(c, i - 1);
      }
    }
  }

  lemma ChainSlice(catalog: Catalog, c: seq<Entry>, from: nat, to: nat)
    requires Chain(catalog, c) && from < to <= |c|
    ensures Chain(catalog, c[from..to])
  {
    var part := c[from..to];
    forall i: nat | i + 1 < |part| ensures Link(part, i) {
      assert Link(c, from + i);
    }
  }

  // ---------------------------------------------------------------- grouping

  /** `catalog.filter(...)` by id. */
  function Pick(catalog: Catalog, ids: set<string>): Catalog {
    if catalog == [] then []
    else (if catalog[0].id in ids then [catalog[0]] else []) + Pick(catalog[1..], ids)
  }

  lemma {:induction false} PickHas(catalog: Catalog, ids: set<string>, e: Entry)
    ensures e in Pick(catalog, ids) <==> e in catalog && e.id in ids
  {
    if catalog != [] {
      PickHas(catalog[1..], ids, e);
    }
  }

  /** Positions in ascending order. */
  predicate Ascending(at: seq<nat>) {
    forall i, j | 0 <= i < j < |at| :: at[i] < at[j]
  }

  /** The entries at these positions. */
  predicate ListedAt(catalog: Catalog, at: seq<nat>, picked: Catalog) {
    |at| == |picked| && forall i | 0 <= i < |at| :: at[i] < |catalog| && catalog[at[i]] == picked[i]
  }

  /** The picked entries are those of the ids, each listed once, in the order of the catalog. */
  ghost predicate PickedAt(catalog: Catalog, ids: set<string>, picked: Catalog, at: seq<nat>) {
    && Ascending(at) && ListedAt(catalog, at, picked)
    && forall i: nat | i < |catalog| :: catalog[i].id in ids <==> i in at
  }

  lemma {:induction false} PickKeepsOrder(catalog: Catalog, ids: set<string>) returns (at: seq<nat>)
    ensures PickedAt(catalog, ids, Pick(catalog, ids), at)
  {
    if catalog == [] {
      at := [];
    } else {
      var rest := PickKeepsOrder(catalog[1..], ids);
      at := PickFirst(catalog, ids, rest);
    }
  }

  lemma PickFirst(catalog: Catalog, ids: set<string>, rest: seq<nat>) returns (at: seq<nat>)
    requires catalog != [] && PickedAt(catalog[1..], ids, Pick(catalog[1..], ids), rest)
    ensures PickedAt(catalog, ids, Pick(catalog, ids), at)
  {
    var shifted := seq(|rest|, i requires 0 <= i < |rest| => rest[i] + 1);
    var first := if catalog[0].id in ids then [0] else [];
    at := first + shifted;
    ShiftedListed(catalog, rest, shifted, Pick(catalog[1..], ids));
    assert Pick(catalog, ids) == (if catalog[0].id in ids then [catalog[0]] else []) + Pick(catalog[1..], ids);
    forall i: nat | i < |catalog| ensures catalog[i].id in ids <==> i in at {
      InShifted(rest, shifted, i);
      assert i > 0 ==> catalog[1..][i - 1] == catalog[i];
    }
  }

  lemma ShiftedListed(catalog: Catalog, rest: seq<nat>, shifted: seq<nat>, picked: Catalog)
    requires catalog != [] && Ascending(rest) && ListedAt(catalog[1..], rest, picked)
    requires |shifted| == |rest| && forall k | 0 <= k < |rest| :: shifted[k] == rest[k] + 1
    ensures Ascending([0] + shifted) && ListedAt(catalog, [0] + shifted, [catalog[0]] + picked)
    ensures Ascending([] + shifted) && ListedAt(catalog, [] + shifted, [] + picked)
  {
  }

  lemma InShifted(rest: seq<nat>, shifted: seq<nat>, i: nat)
    requires |shifted| == |rest| && forall k | 0 <= k < |rest| :: shifted[k] == rest[k] + 1
    ensures i in shifted <==> i > 0 && i - 1 in rest
  {
    if k :| 0 <= k < |rest| && rest[k] == i - 1 {
      assert shifted[k] == i;
    }
  }

  lemma {:induction false} PickAppend(catalog: Catalog, e: Entry, ids: set<string>)
    ensures Pick(catalog + [e], ids) == Pick(catalog, ids) + (if e.id in ids then [e] else [])
  {
    if catalog == [] {
      assert [] + [e] == [e] && [e][1..] == [];
    } else {
      assert (catalog + [e])[1..] == catalog[1..] + [e];
      PickAppend(catalog[1..], e, ids);
      Associate(if catalog[0].id in ids then [catalog[0]] else [], Pick(catalog[1..], ids), if e.id in ids then [e] else []);
    }
  }

  lemma Associate(a: Catalog, b: Catalog, c: Catalog)
    ensures a + (b + c) == a + b + c
  {
  }

  lemma {:induction false} PickSame(catalog: Catalog, ids: set<string>, other: set<string>)
    requires forall e | e in catalog :: e.id in ids <==> e.id in other
    ensures Pick(catalog, ids) == Pick(catalog, other)
  {
    if catalog != [] {
      PickSame(catalog[1..], ids, other);
    }
  }

  /** The entries at depth `k`. */
  ghost function Level(catalog: Catalog, k: nat): set<string> {
    set e | e in catalog && HasDepth(catalog, e, k) :: e.id
  }

  /** The entry has one of the first `n` depths. */
  ghost predicate Placed(catalog: Catalog, n: nat, e: Entry) {
    exists k: nat :: k < n && HasDepth(catalog, e, k)
  }

  /** A chain of `n` dependencies starts at the entry. */
  ghost predicate Waits(catalog: Catalog, n: nat, e: Entry) {
    exists c :: ChainFrom(catalog, e, c) && |c| == n + 1
  }

  /** The waves are the non-empty levels in order, each in catalog order, and no entry is left over. */
  ghost predicate Grouping(catalog: Catalog, waves: seq<Catalog>) {
    && (forall k | 0 <= k < |waves| :: waves[k] == Pick(catalog, Level(catalog, k)) && waves[k] != [])
    && (forall e {:trigger Placed(catalog, |waves|, e)} | e in catalog :: Placed(catalog, |waves|, e))
  }

  /** One test of the filter: every dependency is known and no longer remaining. */
  method IsReady(entry: Entry, known: set<string>, remaining: set<string>) returns (r: Outcome<bool>)
    ensures r.Thrown? ==> exists d :: d in entry.dependsOn && d !in known
    ensures r == Ok(true) ==> forall d | d in entry.dependsOn :: d in known && d !in remaining
    ensures r == Ok(false) ==> exists d :: d in entry.dependsOn && d in remaining && d in known
  {
    for i := 0 to |entry.dependsOn|
      invariant forall j | 0 <= j < i :: entry.dependsOn[j] in known && entry.dependsOn[j] !in remaining
    {
      var dependency := entry.dependsOn[i];
      assert dependency in entry.dependsOn;
      if dependency !in known { return Thrown; }
      if dependency in remaining { return Ok(false); }
    }
    return Ok(true);
  }

  predicate ReadyNow(e: Entry, remaining: set<string>) {
    e.id in remaining && forall d | d in e.dependsOn :: d !in remaining
  }

  function ReadyIds(catalog: Catalog, remaining: set<string>): set<string> {
    set e | e in catalog && ReadyNow(e, remaining) :: e.id
  }

  method ReadyEntries(catalog: Catalog, known: set<string>, remaining: set<string>) returns (r: Outcome<Catalog>)
    requires DistinctIds(catalog)
    ensures r.Thrown? ==> exists e, d :: e in catalog && d in e.dependsOn && d !in known
    ensures r.Ok? ==> r.result == Pick(catalog, ReadyIds(catalog, remaining))
    ensures r.Ok? ==> forall e | e in r.result :: forall d | d in e.dependsOn :: d in known
  {
    var ready: Catalog := [];
    ghost var ids := ReadyIds(catalog, remaining);
    for i := 0 to |catalog|
      invariant ready == Pick(catalog[..i], ids)
      invariant forall e | e in ready :: forall d | d in e.dependsOn :: d in known
    {
      var entry := catalog[i];
      assert catalog[..i + 1] == catalog[..i] + [entry];
      PickAppend(catalog[..i], entry, ids);
      var isReady := Ok(false);
      if entry.id in remaining {
        isReady := IsReady(entry, known, remaining);
        if isReady.Thrown? { return Thrown; }
      }
      if isReady.result {
        assert entry.id in ids;
        ready := ready + [entry];
      } else {
        forall e | e in catalog && ReadyNow(e, remaining) ensures e.id != entry.id {
          assert e.id == entry.id ==> e == entry;
        }
      }
    }
    assert catalog[..|catalog|] == catalog;
    return Ok(ready);
  }

  /** What the first `k` rounds have established. */
  ghost predicate Rounds(catalog: Catalog, remaining: set<string>, waves: seq<Catalog>) {
    && remaining <= Ids(catalog)
    && (forall k | 0 <= k < |waves| :: waves[k] == Pick(catalog, Level(catalog, k)) && waves[k] != [])
    && (forall e {:trigger Placed(catalog, |waves|, e)} | e in catalog && e.id !in remaining :: Placed(catalog, |waves|, e))
    && (forall e | e in catalog && e.id !in remaining :: forall d | d in e.dependsOn :: d in Ids(catalog))
    && (forall e {:trigger Waits(catalog, |waves|, e)} | e in catalog && e.id in remaining :: Waits(catalog, |waves|, e))
  }

  /** An entry ready in round `n` has depth `n`; one that is not has a longer chain. */
  lemma ReadyHasDepth(catalog: Catalog, remaining: set<string>, waves: seq<Catalog>, e: Entry)
    requires DistinctIds(catalog) && Rounds(catalog, remaining, waves) && e in catalog && ReadyNow(e, remaining)
    ensures HasDepth(catalog, e, |waves|)
  {
    assert Waits(catalog, |waves|, e);
    forall c | ChainFrom(catalog, e, c) ensures |c| <= |waves| + 1 {
      if |c| > 1 {
        assert Link(c, 0);
        ChainSlice(catalog, c, 1, |c|);
        var next := c[1];
        assert next in catalog && next.id !in remaining;
        assert Placed(catalog, |waves|, next);
        var k: nat :| k < |waves| && HasDepth(catalog, next, k);
        assert ChainFrom(catalog, next, c[1..|c|]);
      }
    }
  }

  lemma EntryOf(catalog: Catalog, id: string) returns (e: Entry)
    requires id in Ids(catalog)
    ensures e in catalog && e.id == id
  {
    e :| e in catalog && e.id == id;
  }

  lemma BlockedHasChain(catalog: Catalog, remaining: set<string>, waves: seq<Catalog>, e: Entry)
    requires DistinctIds(catalog) && Rounds(catalog, remaining, waves)
    requires e in catalog && e.id in remaining && !ReadyNow(e, remaining)
    ensures Waits(catalog, |waves| + 1, e)
  {
    var d :| d in e.dependsOn && d in remaining;
    var next := EntryOf(catalog, d);
    assert Waits(catalog, |waves|, next);
    var c :| ChainFrom(catalog, next, c) && |c| == |waves| + 1;
    ChainCons(catalog, e, c);
    assert ChainFrom(catalog, e, [e] + c) && |[e] + c| == |waves| + 2;
  }

  lemma RoundsStep(catalog: Catalog, remaining: set<string>, waves: seq<Catalog>, ready: Catalog)
    requires DistinctIds(catalog) && Rounds(catalog, remaining, waves)
    requires ready == Pick(catalog, ReadyIds(catalog, remaining)) && ready != []
    requires forall e | e in ready :: forall d | d in e.dependsOn :: d in Ids(catalog)
    ensures Rounds(catalog, remaining - ReadyIds(catalog, remaining), waves + [ready])
  {
    var n, ids := |waves|, ReadyIds(catalog, remaining);
    ReadyIsLevel(catalog, remaining, waves);
    forall e | e in catalog && e.id !in remaining - ids
      ensures Placed(catalog, n + 1, e) && forall d | d in e.dependsOn :: d in Ids(catalog)
    {
      NowPlaced(catalog, remaining, waves, e);
      PickHas(catalog, ids, e);
    }
    forall e | e in catalog && e.id in remaining - ids ensures Waits(catalog, n + 1, e) {
      BlockedHasChain(catalog, remaining, waves, e);
    }
  }

  /** The entries ready in a round are a level. */
  lemma ReadyIsLevel(catalog: Catalog, remaining: set<string>, waves: seq<Catalog>)
    requires DistinctIds(catalog) && Rounds(catalog, remaining, waves)
    ensures Pick(catalog, ReadyIds(catalog, remaining)) == Pick(catalog, Level(catalog, |waves|))
  {
    forall e | e in catalog ensures e.id in ReadyIds(catalog, remaining) <==> e.id in Level(catalog, |waves|) {
      LevelIsReady(catalog, remaining, waves, e);
    }
    PickSame(catalog, ReadyIds(catalog, remaining), Level(catalog, |waves|));
  }

  lemma NowPlaced(catalog: Catalog, remaining: set<string>, waves: seq<Catalog>, e: Entry)
    requires DistinctIds(catalog) && Rounds(catalog, remaining, waves) && e in catalog
    requires e.id !in remaining || ReadyNow(e, remaining)
    ensures Placed(catalog, |waves| + 1, e)
  {
    if e.id !in remaining {
      assert Placed(catalog, |waves|, e);
    } else {
      ReadyHasDepth(catalog, remaining, waves, e);
    }
  }

  lemma SameId(catalog: Catalog, e: Entry, f: Entry)
    requires DistinctIds(catalog) && e in catalog && f in catalog && e.id == f.id
    ensures e == f
  {
  }

  lemma LevelIsReady(catalog: Catalog, remaining: set<string>, waves: seq<Catalog>, e: Entry)
    requires DistinctIds(catalog) && Rounds(catalog, remaining, waves) && e in catalog
    ensures e.id in Level(catalog, |waves|) <==> ReadyNow(e, remaining)
  {
    if e.id !in remaining {
      assert Placed(catalog, |waves|, e);
    } else if ReadyNow(e, remaining) {
      ReadyHasDepth(catalog, remaining, waves, e);
    } else {
      BlockedHasChain(catalog, remaining, waves, e);
    }
  }

  // ---------------------------------------------------------------- a stuck round means a cycle

  /** When nothing remaining is ready, chains among the remaining entries get as long as we like. */
  lemma {:induction false} StuckChain(catalog: Catalog, remaining: set<string>, e: Entry, n: nat) returns (c: seq<Entry>)
    requires remaining <= Ids(catalog)
    requires forall f | f in catalog && f.id in remaining :: !ReadyNow(f, remaining)
    requires e in catalog && e.id in remaining
    ensures ChainFrom(catalog, e, c) && |c| == n + 1
    decreases n
  {
    if n == 0 {
      c := [e];
    } else {
      var d :| d in e.dependsOn && d in remaining;
      var next := EntryOf(catalog, d);
      var rest := StuckChain(catalog, remaining, next, n - 1);
      ChainCons(catalog, e, rest);
      c := [e] + rest;
    }
  }

  /** A sequence longer than the set it draws from repeats an element. */
  lemma {:induction false} Pigeonhole(c: seq<Entry>, universe: set<Entry>) returns (i: nat, j: nat)
    requires (forall e | e in c :: e in universe) && |c| > |universe|
    ensures i < j < |c| && c[i] == c[j]
    decreases |c|
  {
    var n := |c| - 1;
    var last, init := c[n], c[..n];
    if k :| 0 <= k < n && init[k] == last {
      i, j := k, n;
    } else {
      assert last in universe;
      i, j := Pigeonhole(init, universe - {last});
    }
  }

  lemma {:induction false} SetOfSeq(c: seq<Entry>)
    ensures |set e | e in c| <= |c|
  {
    if c == [] {
      assert (set e | e in c) == {};
    } else {
      SetOfSeq(c[1..]);
      assert (set e | e in c) == {c[0]} + set e | e in c[1..];
    }
  }

  lemma StuckHasCycle(catalog: Catalog, remaining: set<string>)
    requires remaining <= Ids(catalog) && remaining != {}
    requires forall f | f in catalog && f.id in remaining :: !ReadyNow(f, remaining)
    ensures !Acyclic(catalog)
  {
    var id :| id in remaining;
    var e := EntryOf(catalog, id);
    var c := StuckChain(catalog, remaining, e, |catalog|);
    SetOfSeq(catalog);
    var i, j := Pigeonhole(c, set f | f in catalog);
    ChainSlice(catalog, c, i, j + 1);
    assert IsCycle(catalog, c[i..j + 1]);
  }

  /** Depth decreases along every chain. */
  lemma {:induction false} DepthDecreases(catalog: Catalog, c: seq<Entry>, j: nat, k: nat)
    requires Chain(catalog, c) && |c| > 1 && HasDepth(catalog, c[0], j) && HasDepth(catalog, c[|c| - 1], k)
    ensures j >= k + |c| - 1
  {
    var tail :| ChainFrom(catalog, c[|c| - 1], tail) && |tail| == k + 1;
    var joined := c[..|c| - 1] + tail;
    forall i: nat | i + 1 < |joined| ensures Link(joined, i) {
      if i + 1 < |c| {
        assert Link(c, i);
      } else {
        assert Link(tail, i - (|c| - 1));
      }
    }
    forall e | e in joined ensures e in catalog {
      if e in c[..|c| - 1] {
        assert e in c;
      }
    }
    assert ChainFrom(catalog, c[0], joined);
  }

  lemma GroupingAcyclic(catalog: Catalog, waves: seq<Catalog>)
    requires Grouping(catalog, waves)
    ensures Acyclic(catalog)
  {
    forall c ensures !IsCycle(catalog, c) {
      if IsCycle(catalog, c) {
        assert c[0] in c && c[0] in catalog;
        assert Placed(catalog, |waves|, c[0]);
        var k: nat :| k < |waves| && HasDepth(catalog, c[0], k);
        DepthDecreases(catalog, c, k, k);
      }
    }
  }

  lemma RoundsStart(catalog: Catalog)
    ensures Rounds(catalog, Ids(catalog), [])
  {
    forall e | e in catalog ensures Waits(catalog, 0, e) {
      assert ChainFrom(catalog, e, [e]) && |[e]| == 1;
    }
  }

  lemma RoundsDone(catalog: Catalog, waves: seq<Catalog>)
    requires Rounds(catalog, {}, waves)
    ensures Known(catalog) && Acyclic(catalog) && Grouping(catalog, waves)
  {
    var none: set<string> := {};
    forall e | e in catalog ensures Placed(catalog, |waves|, e) {
      assert e.id !in none;
    }
    GroupingAcyclic(catalog, waves);
  }

  /** `for (const entry of ready) remaining.delete(entry.id)`. */
  method DeleteAll(remaining: set<string>, ready: Catalog) returns (left: set<string>)
    ensures left == remaining - Ids(ready)
  {
    left := remaining;
    for i := 0 to |ready|
      invariant left == remaining - Ids(ready[..i])
    {
      assert ready[..i + 1] == ready[..i] + [ready[i]];
      assert Ids(ready[..i + 1]) == Ids(ready[..i]) + {ready[i].id};
      left := left - {ready[i].id};
    }
    assert ready[..|ready|] == ready;
  }

  lemma NothingReady(catalog: Catalog, remaining: set<string>)
    requires Pick(catalog, ReadyIds(catalog, remaining)) == [] && remaining <= Ids(catalog) && remaining != {}
    ensures !Acyclic(catalog)
  {
    forall f | f in catalog && f.id in remaining ensures !ReadyNow(f, remaining) {
      PickHas(catalog, ReadyIds(catalog, remaining), f);
    }
    StuckHasCycle(catalog, remaining);
  }

  lemma ReadyShrinks(catalog: Catalog, remaining: set<string>)
    requires Pick(catalog, ReadyIds(catalog, remaining)) != []
    ensures Ids(Pick(catalog, ReadyIds(catalog, remaining))) == ReadyIds(catalog, remaining)
    ensures remaining - ReadyIds(catalog, remaining) < remaining
  {
    var ids := ReadyIds(catalog, remaining);
    PickIds(catalog, ids);
    var e := Pick(catalog, ids)[0];
    PickHas(catalog, ids, e);
    assert e.id in remaining && e.id !in remaining - ids;
  }

  /**
   * `groupCodegenWaves`: succeeds exactly when all dependencies are known and acyclic, and then puts each
   * entry in the wave equal to its longest dependency chain.
   */
  method GroupCodegenWaves(catalog: Catalog) returns (r: Outcome<seq<Catalog>>)
    requires DistinctIds(catalog)
    ensures r.Ok? <==> Known(catalog) && Acyclic(catalog)
    ensures r.Ok? ==> Grouping(catalog, r.result)
  {
    var knownIds := Ids(catalog);
    var remaining := knownIds;
    var waves: seq<Catalog> := [];
    RoundsStart(catalog);
    while remaining != {}
      invariant Rounds(catalog, remaining, waves)
      decreases remaining
    {
      var ready := ReadyEntries(catalog, knownIds, remaining);
      if ready.Thrown? { return Thrown; }
      if ready.result == [] {
        NothingReady(catalog, remaining);
        return Thrown;
      }
      RoundsStep(catalog, remaining, waves, ready.result);
      ReadyShrinks(catalog, remaining);
      waves := waves + [ready.result];
      remaining := DeleteAll(remaining, ready.result);
    }
    RoundsDone(catalog, waves);
    return Ok(waves);
  }

  lemma PickIds(catalog: Catalog, ids: set<string>)
    requires ids <= Ids(catalog)
    ensures Ids(Pick(catalog, ids)) == ids
  {
    forall id | id in ids ensures id in Ids(Pick(catalog, ids)) {
      var e := EntryOf(catalog, id);
      PickHas(catalog, ids, e);
    }
    forall e | e in Pick(catalog, ids) ensures e.id in ids {
      PickHas(catalog, ids, e);
    }
  }

  // ---------------------------------------------------------------- what the grouping is worth

  /** Each entry is in exactly one wave, the one of its depth. */
  lemma PlacedOnce(catalog: Catalog, waves: seq<Catalog>, e: Entry, k: nat)
    requires DistinctIds(catalog) && Grouping(catalog, waves) && e in catalog && k < |waves|
    ensures e in waves[k] <==> HasDepth(catalog, e, k)
    ensures exists j: nat :: j < |waves| && e in waves[j]
    ensures forall j | 0 <= j < |waves| && e in waves[j] && e in waves[k] :: j == k
  {
    assert Placed(catalog, |waves|, e);
    forall j: nat | j < |waves| ensures e in waves[j] <==> HasDepth(catalog, e, j) {
      PickHas(catalog, Level(catalog, j), e);
      if e.id in Level(catalog, j) {
        var f :| f in catalog && HasDepth(catalog, f, j) && f.id == e.id;
        SameId(catalog, e, f);
      }
    }
  }

  /** An assignment of entries to rounds in which every dependency comes strictly earlier. */
  ghost predicate Schedule(catalog: Catalog, round: string -> nat) {
    forall e, d | e in catalog && d in e.dependsOn :: round(d) < round(e.id)
  }

  lemma {:induction false} ScheduleAlongChain(catalog: Catalog, round: string -> nat, c: seq<Entry>)
    requires Schedule(catalog, round) && Chain(catalog, c)
    ensures round(c[0].id) >= |c| - 1
  {
    if |c| > 1 {
      assert Link(c, 0);
      ChainSlice(catalog, c, 1, |c|);
      assert c[1..|c|] == c[1..];
      ScheduleAlongChain(catalog, round, c[1..]);
    }
  }

  /** No valid schedule runs an entry before the round of its wave. */
  lemma NeverEarlier(catalog: Catalog, waves: seq<Catalog>, round: string -> nat, k: nat, e: Entry)
    requires DistinctIds(catalog) && Grouping(catalog, waves) && Schedule(catalog, round)
    requires k < |waves| && e in waves[k]
    ensures e in catalog && round(e.id) >= k
  {
    PickHas(catalog, Level(catalog, k), e);
    PlacedOnce(catalog, waves, e, k);
    var c :| ChainFrom(catalog, e, c) && |c| == k + 1;
    ScheduleAlongChain(catalog, round, c);
  }

  /** No valid schedule uses fewer rounds than there are waves. */
  lemma FewestWaves(catalog: Catalog, waves: seq<Catalog>, round: string -> nat)
    requires DistinctIds(catalog) && Grouping(catalog, waves) && Schedule(catalog, round)
    ensures waves != [] ==> exists e :: e in catalog && round(e.id) >= |waves| - 1
  {
    if waves != [] {
      var k := |waves| - 1;
      var e := SomeEntry(catalog, waves, k);
      NeverEarlier(catalog, waves, round, k, e);
    }
  }

  lemma SomeEntry(catalog: Catalog, waves: seq<Catalog>, k: nat) returns (e: Entry)
    requires Grouping(catalog, waves) && k < |waves|
    ensures e in waves[k]
  {
    e := waves[k][0];
  }
}
