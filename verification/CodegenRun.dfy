/**
 * scripts/codegen.ts: the waves run one after another, the generators of a wave run concurrently, and
 * the first failing exit stops the program from starting another wave. Generators exit in any order.
 */
module CodegenRun {
  import opened CodegenWaves

  datatype Status = Running | Exited(code: int)

  /** `next` waves have been started; `rejected` once some generator exited with a failure. */
  datatype State = State(next: nat, procs: map<string, Status>, rejected: bool)

  datatype Action =
    | StartWave
    | Exit(id: string, code: int)

  function Init(): State {
    State(0, map[], false)
  }

  /** `await Promise.all(...)` of this wave has resolved. */
  predicate Resolved(s: State, wave: Catalog) {
    forall e | e in wave :: e.id in s.procs && s.procs[e.id] == Exited(0)
  }

  predicate Enabled(waves: seq<Catalog>, s: State, a: Action) {
    match a
    case StartWave => !s.rejected && s.next < |waves| && (s.next > 0 ==> s.next <= |waves| && Resolved(s, waves[s.next - 1]))
    case Exit(id, _) => id in s.procs && s.procs[id].Running?
  }

  /** The processes after every entry of a wave has been spawned. */
  function Spawned(procs: map<string, Status>, wave: Catalog): map<string, Status> {
    procs + map id | id in Ids(wave) :: Running
  }

  function Apply(waves: seq<Catalog>, s: State, a: Action): State
    requires Enabled(waves, s, a)
  {
    match a
    case StartWave => State(s.next + 1, Spawned(s.procs, waves[s.next]), s.rejected)
    case Exit(id, code) => s.(procs := s.procs[id := Exited(code)], rejected := s.rejected || code != 0)
  }

  predicate Execution(waves: seq<Catalog>, s: State, actions: seq<Action>, last: State)
    decreases |actions|
  {
    if actions == [] then s == last
    else Enabled(waves, s, actions[0]) && Execution(waves, Apply(waves, s, actions[0]), actions[1..], last)
  }

  ghost predicate Reachable(waves: seq<Catalog>, s: State) {
    exists actions :: Execution(waves, Init(), actions, s)
  }

  // ---------------------------------------------------------------- the invariant

  predicate Succeeded(s: State, id: string) {
    id in s.procs && s.procs[id] == Exited(0)
  }

  /** Exactly the entries of the started waves have processes, and every wave but the last one succeeded. */
  ghost predicate Inv(catalog: Catalog, waves: seq<Catalog>, s: State) {
    && s.next <= |waves|
    && (forall k, e | 0 <= k < |waves| && e in waves[k] :: e.id in s.procs <==> k < s.next)
    && (forall id | id in s.procs :: id in Ids(catalog))
    && (forall k, e | 0 <= k < s.next - 1 && e in waves[k] :: Succeeded(s, e.id))
    && (!s.rejected ==> forall id | id in s.procs && s.procs[id].Exited? :: s.procs[id].code == 0)
  }

  lemma WaveOfId(catalog: Catalog, waves: seq<Catalog>, j: nat, k: nat, e: Entry, f: Entry)
    requires DistinctIds(catalog) && Grouping(catalog, waves)
    requires j < |waves| && k < |waves| && e in waves[j] && f in waves[k] && e.id == f.id
    ensures e in catalog && e == f && j == k
  {
    PickHas(catalog, Level(catalog, j), e);
    PickHas(catalog, Level(catalog, k), f);
    SameId(catalog, e, f);
    PlacedOnce(catalog, waves, e, j);
    PlacedOnce(catalog, waves, e, k);
  }

  lemma StartKeepsInv(catalog: Catalog, waves: seq<Catalog>, s: State)
    requires DistinctIds(catalog) && Grouping(catalog, waves) && Inv(catalog, waves, s) && Enabled(waves, s, StartWave)
    ensures Inv(catalog, waves, Apply(waves, s, StartWave))
  {
    var t, wave := Apply(waves, s, StartWave), waves[s.next];
    forall k, e | 0 <= k < |waves| && e in waves[k] && k != s.next
      ensures forall f | f in wave :: f.id != e.id
    {
      forall f | f in wave && f.id == e.id { WaveOfId(catalog, waves, s.next, k, f, e); }
    }
    forall e | e in wave ensures e.id in Ids(catalog) {
      PickHas(catalog, Level(catalog, s.next), e);
    }
  }

  lemma ActionKeepsInv(catalog: Catalog, waves: seq<Catalog>, s: State, a: Action)
    requires DistinctIds(catalog) && Grouping(catalog, waves) && Inv(catalog, waves, s) && Enabled(waves, s, a)
    ensures Inv(catalog, waves, Apply(waves, s, a))
  {
    if a.StartWave? {
      StartKeepsInv(catalog, waves, s);
    }
  }

  lemma {:induction false} ExecutionKeepsInv(catalog: Catalog, waves: seq<Catalog>, s: State, actions: seq<Action>, last: State)
    requires DistinctIds(catalog) && Grouping(catalog, waves)
    requires Inv(catalog, waves, s) && Execution(waves, s, actions, last)
    ensures Inv(catalog, waves, last)
    decreases |actions|
  {
    if actions != [] {
      ActionKeepsInv(catalog, waves, s, actions[0]);
      ExecutionKeepsInv(catalog, waves, Apply(waves, s, actions[0]), actions[1..], last);
    }
  }

  lemma ReachableInv(catalog: Catalog, waves: seq<Catalog>, s: State)
    requires DistinctIds(catalog) && Grouping(catalog, waves) && Reachable(waves, s)
    ensures Inv(catalog, waves, s)
  {
    var actions :| Execution(waves, Init(), actions, s);
    ExecutionKeepsInv(catalog, waves, Init(), actions, s);
  }

  // ---------------------------------------------------------------- the guarantees

  /** `d` is a transitive dependency of `e`. */
  ghost predicate DependsOn(catalog: Catalog, e: Entry, d: Entry) {
    exists c :: ChainFrom(catalog, e, c) && |c| > 1 && c[|c| - 1] == d
  }

  lemma DependencyEarlier(catalog: Catalog, waves: seq<Catalog>, e: Entry, d: Entry) returns (j: nat, k: nat)
    requires DistinctIds(catalog) && Grouping(catalog, waves) && DependsOn(catalog, e, d)
    ensures e in catalog && d in catalog && j < k < |waves| && d in waves[j] && e in waves[k]
  {
    var c :| ChainFrom(catalog, e, c) && |c| > 1 && c[|c| - 1] == d;
    assert c[0] in c && c[|c| - 1] in c;
    assert Placed(catalog, |waves|, e) && Placed(catalog, |waves|, d);
    k :| 0 <= k < |waves| && HasDepth(catalog, e, k);
    j :| 0 <= j < |waves| && HasDepth(catalog, d, j);
    DepthDecreases(catalog, c, k, j);
    PlacedOnce(catalog, waves, e, k);
    PlacedOnce(catalog, waves, d, j);
  }

  /** An entry has a process only once all its transitive dependencies have exited with 0. */
  lemma DependenciesFirst(catalog: Catalog, waves: seq<Catalog>, s: State, e: Entry, d: Entry)
    requires DistinctIds(catalog) && Grouping(catalog, waves) && Reachable(waves, s)
    requires e.id in s.procs && DependsOn(catalog, e, d)
    ensures Succeeded(s, d.id)
  {
    ReachableInv(catalog, waves, s);
    var j, k := DependencyEarlier(catalog, waves, e, d);
    assert k < s.next;
  }

  /** Generators that run at the same time are unrelated by dependency. */
  lemma ConcurrentUnrelated(catalog: Catalog, waves: seq<Catalog>, s: State, e: Entry, d: Entry)
    requires DistinctIds(catalog) && Grouping(catalog, waves) && Reachable(waves, s)
    requires e.id in s.procs && s.procs[e.id].Running? && d.id in s.procs && s.procs[d.id].Running?
    ensures !DependsOn(catalog, e, d) && !DependsOn(catalog, d, e)
  {
    if DependsOn(catalog, e, d) {
      DependenciesFirst(catalog, waves, s, e, d);
    }
    if DependsOn(catalog, d, e) {
      DependenciesFirst(catalog, waves, s, d, e);
    }
  }

  /** After a failing exit no later wave starts, whatever the running generators still do. */
  lemma {:induction false} NoWaveAfterFailure(waves: seq<Catalog>, s: State, actions: seq<Action>, last: State)
    requires s.rejected && Execution(waves, s, actions, last)
    ensures last.next == s.next && last.rejected && last.procs.Keys == s.procs.Keys
    ensures forall a | a in actions :: a.Exit?
    decreases |actions|
  {
    if actions != [] {
      NoWaveAfterFailure(waves, Apply(waves, s, actions[0]), actions[1..], last);
    }
  }

  /** A run whose last wave resolved ran every entry of the catalog, each to exit code 0. */
  lemma AllDone(catalog: Catalog, waves: seq<Catalog>, s: State, e: Entry)
    requires DistinctIds(catalog) && Grouping(catalog, waves) && Reachable(waves, s)
    requires s.next == |waves| && (waves != [] ==> Resolved(s, waves[|waves| - 1])) && e in catalog
    ensures Succeeded(s, e.id)
  {
    var k := WaveOf(catalog, waves, e);
    ReachableInv(catalog, waves, s);
    WaveSucceeded(catalog, waves, s, k, e);
  }

  /**
   * A run never gets stuck: when every started generator has exited with 0, either the whole catalog has, or
   * the next wave can start, none of its entries has run before, and starting it starts all of them.
   */
  lemma Progress(catalog: Catalog, waves: seq<Catalog>, s: State)
    requires DistinctIds(catalog) && Grouping(catalog, waves) && Reachable(waves, s)
    requires forall id | id in s.procs :: s.procs[id] == Exited(0)
    requires !s.rejected
    ensures s.next == |waves| ==> forall e | e in catalog :: Succeeded(s, e.id)
    ensures s.next != |waves| ==> Enabled(waves, s, StartWave) && s.next < |waves|
    ensures s.next != |waves| ==> forall e | e in waves[s.next] ::
              e.id !in s.procs && e.id in Apply(waves, s, StartWave).procs && Apply(waves, s, StartWave).procs[e.id] == Running
  {
    ReachableInv(catalog, waves, s);
    if s.next == |waves| {
      forall e | e in catalog ensures Succeeded(s, e.id) {
        AllDone(catalog, waves, s, e);
      }
    }
  }

  lemma WaveSucceeded(catalog: Catalog, waves: seq<Catalog>, s: State, k: nat, e: Entry)
    requires Inv(catalog, waves, s) && k < s.next == |waves| && e in waves[k]
    requires waves != [] ==> Resolved(s, waves[|waves| - 1])
    ensures Succeeded(s, e.id)
  {
  }

  lemma WaveOf(catalog: Catalog, waves: seq<Catalog>, e: Entry) returns (k: nat)
    requires DistinctIds(catalog) && Grouping(catalog, waves) && e in catalog
    ensures k < |waves| && e in waves[k]
  {
    assert Placed(catalog, |waves|, e);
    k :| k < |waves| && HasDepth(catalog, e, k);
    PlacedOnce(catalog, waves, e, k);
  }

  // ---------------------------------------------------------------- the program

  lemma SpawnedStep(procs: map<string, Status>, wave: Catalog, e: Entry)
    ensures Spawned(procs, wave + [e]) == Spawned(procs, wave)[e.id := Running]
  {
    assert Ids(wave + [e]) == Ids(wave) + {e.id};
  }

  /** The loop of `main`, one method for each synchronous stretch. */
  class Runner {
    const waves: seq<Catalog>
    var next: nat
    var procs: map<string, Status>
    var rejected: bool

    ghost function Now(): State
      reads this
    {
      State(next, procs, rejected)
    }

    constructor (waves: seq<Catalog>)
      ensures this.waves == waves && Now() == Init()
    {
      this.waves := waves;
      next, procs, rejected := 0, map[], false;
    }

    /** `wave.map(...)`: every generator of the wave is spawned before any of them is awaited. */
    method Start()
      requires Enabled(waves, Now(), StartWave)
      modifies this
      ensures Now() == Apply(waves, old(Now()), StartWave)
    {
      var wave := waves[next];
      for i := 0 to |wave|
        invariant next == old(next) && rejected == old(rejected)
        invariant procs == Spawned(old(procs), wave[..i])
      {
        assert wave[..i + 1] == wave[..i] + [wave[i]];
        SpawnedStep(old(procs), wave[..i], wave[i]);
        procs := procs[wave[i].id := Running];
      }
      assert wave[..|wave|] == wave;
      next := next + 1;
    }

    /** `await proc.exited` returns; a failing code rejects the wave. */
    method OnExit(id: string, code: int)
      requires Enabled(waves, Now(), Exit(id, code))
      modifies this
      ensures Now() == Apply(waves, old(Now()), Exit(id, code))
    {
      procs := procs[id := Exited(code)];
      if code != 0 {
        rejected := true;
      }
    }
  }
}
