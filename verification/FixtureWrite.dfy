/**
 * `writeFixtureFileSafely` of scripts/fixture-safe-write.ts over a small file system in which every
 * single operation may fail, any number of times, and in which an operation on a path that runs through
 * a symbolic link lands anywhere at all.
 */
module FixtureWrite {
  import opened Prelude

  /** The segments of an absolute, normalised path. */
  type Path = seq<string>

  datatype Node = Dir | File(content: string) | Link

  type Nodes = map<Path, Node>

  function Parent(p: Path): Path
    requires p != []
  {
    p[..|p| - 1]
  }

  function Lookup(nodes: Nodes, p: Path): Option<Node> {
    if p in nodes then Some(nodes[p]) else None
  }

  /** No symbolic link strictly above `p`: an operation on `p` reaches `p` itself. */
  predicate Straight(nodes: Nodes, p: Path) {
    forall k | 0 <= k < |p| :: Lookup(nodes, p[..k]) != Some(Link)
  }

  predicate Normal(p: Path) {
    ".." !in p && "" !in p
  }

  function Common(a: Path, b: Path): (n: nat)
    ensures n <= |a| && n <= |b|
    ensures n == |a| <==> a <= b
  {
    if a == [] || b == [] || a[0] != b[0] then 0 else
    assert a == [a[0]] + a[1..] && b == [b[0]] + b[1..];
    assert a[1..] <= b[1..] <==> a <= b by {
      if a[1..] <= b[1..] {
        assert b[1..][..|a| - 1] == b[..|a|][1..];
      }
      if a <= b {
        assert b[1..][..|a| - 1] == b[..|a|][1..];
      }
    }
    1 + Common(a[1..], b[1..])
  }

  /** `relative(from, to)`. */
  function Relative(from: Path, to: Path): Path {
    var n := Common(from, to);
    seq(|from| - n, _ => "..") + to[n..]
  }

  /** The source's test that a relative path leaves its base. */
  predicate Leaves(relative: Path) {
    relative != [] && relative[0] == ".."
  }

  /** A relative path stays inside exactly when the base is a prefix, and then it is the rest of the path. */
  lemma RelativeInside(from: Path, to: Path)
    requires Normal(to)
    ensures Leaves(Relative(from, to)) <==> !(from <= to)
    ensures from <= to ==> Relative(from, to) == to[|from|..]
  {
  }

  class Disk {
    var nodes: Nodes
    /** The paths that mutations reached. */
    ghost var touched: set<Path>
    /** The operations that failed although nothing on the disk was in their way. */
    ghost var failures: nat

    method Lstat(p: Path) returns (r: Outcome<Option<Node>>)
      modifies this`failures
      ensures r.Ok? && Straight(nodes, p) ==> r.result == Lookup(nodes, p)
      ensures failures == old(failures) + (if r.Thrown? then 1 else 0)
    {
      var ok: bool := *;
      if !ok {
        failures := failures + 1;
        return Thrown;
      }
      r := Ok(Lookup(nodes, p));
      if !Straight(nodes, p) {
        var elsewhere: Path := *;
        r := Ok(Lookup(nodes, elsewhere));
      }
    }

    /** Where a mutation of `p` lands. */
    method Locate(p: Path) returns (at: Path)
      ensures Straight(nodes, p) ==> at == p
    {
      at := p;
      if !Straight(nodes, p) {
        at := *;
      }
    }

    method Mkdir(p: Path) returns (ok: bool)
      modifies this
      ensures !ok ==> nodes == old(nodes) && touched == old(touched)
      ensures ok && Straight(old(nodes), p) ==>
                p !in old(nodes) && nodes == old(nodes)[p := Dir] && touched == old(touched) + {p}
      ensures ok ==> failures == old(failures)
      ensures !ok && Straight(old(nodes), p) ==> failures == old(failures) + (if p in old(nodes) then 0 else 1)
      ensures failures >= old(failures)
    {
      ok := *;
      var at := Locate(p);
      if at in nodes { return false; }
      if ok {
        nodes := nodes[at := Dir];
        touched := touched + {at};
      } else {
        failures := failures + 1;
      }
    }

    /** `open(p, "wx")`: fails when the path exists. */
    method OpenExclusive(p: Path) returns (ok: bool)
      modifies this
      ensures !ok ==> nodes == old(nodes) && touched == old(touched)
      ensures ok && Straight(old(nodes), p) ==>
                p !in old(nodes) && nodes == old(nodes)[p := File("")] && touched == old(touched) + {p}
      ensures ok ==> failures == old(failures)
      ensures !ok && Straight(old(nodes), p) ==> failures == old(failures) + (if p in old(nodes) then 0 else 1)
      ensures failures >= old(failures)
    {
      ok := *;
      var at := Locate(p);
      if at in nodes { return false; }
      if ok {
        nodes := nodes[at := File("")];
        touched := touched + {at};
      } else {
        failures := failures + 1;
      }
    }

    /** A write that fails leaves some prefix of the data behind. */
    method WriteFile(p: Path, data: string) returns (ok: bool)
      requires Straight(nodes, p)
      modifies this
      ensures touched == old(touched) + {p}
      ensures exists n: nat :: n <= |data| && nodes == old(nodes)[p := File(data[..n])] && (ok ==> n == |data|)
      ensures failures == old(failures) + (if ok then 0 else 1)
    {
      ok := *;
      if !ok {
        failures := failures + 1;
      }
      var n: int := *;
      if ok || !(0 <= n <= |data|) {
        n := |data|;
      }
      nodes := nodes[p := File(data[..n])];
      touched := touched + {p};
    }

    /** `sync` and `close` may fail and change nothing here. */
    method Settle() returns (ok: bool)
      modifies this`failures
      ensures failures == old(failures) + (if ok then 0 else 1)
    {
      ok := *;
      if !ok {
        failures := failures + 1;
      }
    }

    /** Renaming a file over a directory fails. */
    method Rename(from: Path, to: Path) returns (ok: bool)
      requires Straight(nodes, from) && Straight(nodes, to) && from in nodes
      modifies this
      ensures !ok ==> nodes == old(nodes) && touched == old(touched)
      ensures ok ==> nodes == (old(nodes) - {from})[to := old(nodes)[from]] && touched == old(touched) + {from, to}
      ensures failures == old(failures) + (if ok || Lookup(old(nodes), to) == Some(Dir) then 0 else 1)
    {
      ok := *;
      if to in nodes && nodes[to].Dir? { return false; }
      if ok {
        nodes := (nodes - {from})[to := nodes[from]];
        touched := touched + {from, to};
      } else {
        failures := failures + 1;
      }
    }

    /** `rm(p, { force: true })`: removing what is absent succeeds, removing a directory fails. */
    method Remove(p: Path) returns (ok: bool)
      requires Straight(nodes, p)
      modifies this
      ensures touched == old(touched) + (if ok && p in old(nodes) then {p} else {})
      ensures ok ==> nodes == old(nodes) - {p}
      ensures !ok ==> nodes == old(nodes)
      ensures failures == old(failures) + (if ok || Lookup(old(nodes), p) == Some(Dir) then 0 else 1)
    {
      ok := *;
      if p in nodes && nodes[p].Dir? { return false; }
      if ok {
        if p in nodes {
          touched := touched + {p};
        }
        nodes := nodes - {p};
      } else {
        failures := failures + 1;
      }
    }
  }

  // ---------------------------------------------------------------- the write

  datatype Failure = OutsideRoot | SymbolicLink | NotDirectory | NotFile | Io

  /** A thrown error, and whether removing the temporary file failed as well. */
  datatype WriteResult = Written | Failed(failure: Failure, removalFailed: bool)

  function TempPath(target: Path, pid: string, uuid: string): Path
    requires target != []
  {
    Parent(target) + ["." + target[|target| - 1] + "." + pid + "." + uuid + ".tmp"]
  }

  lemma TempDiffers(target: Path, pid: string, uuid: string)
    requires target != []
    ensures TempPath(target, pid, uuid) != target
    ensures Parent(TempPath(target, pid, uuid)) == Parent(target) && |TempPath(target, pid, uuid)| == |target|
  {
    var name := target[|target| - 1];
    assert |"." + name + "." + pid + "." + uuid + ".tmp"| > |name|;
  }

  /** Writes with different random parts use different temporary files. */
  lemma TempIsOwn(target: Path, pid: string, uuid: string, other: string)
    requires target != [] && uuid != other
    ensures TempPath(target, pid, uuid) != TempPath(target, pid, other)
  {
    var prefix := "." + target[|target| - 1] + "." + pid + ".";
    var a, b := prefix + uuid + ".tmp", prefix + other + ".tmp";
    assert a[|prefix|..|a| - 4] == uuid && b[|prefix|..|b| - 4] == other;
    assert TempPath(target, pid, uuid)[|target| - 1] == a && TempPath(target, pid, other)[|target| - 1] == b;
  }

  /** Every path from `from` up to and including `to` is a directory. */
  predicate DirsBetween(nodes: Nodes, from: nat, to: Path) {
    forall k | from <= k <= |to| :: Lookup(nodes, to[..k]) == Some(Dir)
  }

  /** `nodes` is `before` with directories created below `root` on the way to `parent`. */
  predicate OnlyNewDirs(before: Nodes, nodes: Nodes, root: Path, parent: Path) {
    && (forall p | p in before :: p in nodes && nodes[p] == before[p])
    && (forall p | p in nodes && p !in before :: nodes[p] == Dir && root < p && p <= parent)
  }

  /** Something below the root on the way to `parent` exists and is no directory. */
  predicate Blocked(nodes: Nodes, root: Path, parent: Path) {
    exists k | |root| < k <= |parent| :: parent[..k] in nodes && nodes[parent[..k]] != Dir
  }

  /**
   * What the disk needs for a write to succeed: directories from the anchor to the root, nothing in the way
   * between the root and the target, no target or a regular file, and no file with the temporary name.
   */
  predicate Writable(nodes: Nodes, from: nat, root: Path, target: Path, temporary: Path)
    requires target != []
  {
    && DirsBetween(nodes, from, root) && !Blocked(nodes, root, Parent(target))
    && (target in nodes ==> nodes[target].File?) && temporary !in nodes
  }

  /** A link on the way to the target, or at the target. */
  predicate LinkOnTheWay(nodes: Nodes, from: nat, target: Path) {
    exists k | from <= k <= |target| :: Lookup(nodes, target[..k]) == Some(Link)
  }

  /** A file in place of a directory, or a directory missing from the anchor to the root. */
  predicate NoDirectory(nodes: Nodes, from: nat, root: Path, target: Path) {
    || (exists k | from <= k < |target| :: target[..k] in nodes && nodes[target[..k]].File?)
    || (exists k | from <= k <= |root| && k < |target| :: target[..k] !in nodes)
  }

  /** The disk before the write gives the reason for the error. */
  predicate Explains(nodes: Nodes, from: nat, root: Path, target: Path, temporary: Path, failure: Failure) {
    match failure
    case OutsideRoot => false
    case SymbolicLink => LinkOnTheWay(nodes, from, target)
    case NotDirectory => NoDirectory(nodes, from, root, target)
    case NotFile => Lookup(nodes, target) == Some(Dir)
    case Io => temporary in nodes
  }

  /** Every path reached since `before` is below the root. */
  ghost predicate MutatedBelow(root: Path, before: set<Path>, after: set<Path>) {
    forall p | p in after && p !in before :: root < p
  }

  lemma StraightThrough(nodes: Nodes, from: Path, p: Path)
    requires from <= p && Straight(nodes, from)
    requires forall k | |from| <= k < |p| :: Lookup(nodes, p[..k]) == Some(Dir)
    ensures Straight(nodes, p)
  {
    forall k | 0 <= k < |p| ensures Lookup(nodes, p[..k]) != Some(Link) {
      if k < |from| {
        assert p[..k] == from[..k];
      }
    }
  }

  function StatFailure(stat: Option<Node>): Failure {
    if stat == Some(Link) then SymbolicLink else NotDirectory
  }

  /** The first loop: every component from the trusted directory to the fixtures root is a directory. */
  method CheckRoot(disk: Disk, trusted: Path, root: Path, ghost target: Path) returns (failure: Option<Failure>)
    requires trusted <= root && root < target && Straight(disk.nodes, trusted)
    modifies disk`failures
    ensures failure.None? ==> DirsBetween(disk.nodes, |trusted|, root)
    ensures failure.Some? && failure != Some(Io) ==>
              (failure == Some(SymbolicLink) && LinkOnTheWay(disk.nodes, |trusted|, target))
              || (failure == Some(NotDirectory) && NoDirectory(disk.nodes, |trusted|, root, target))
    ensures disk.failures == old(disk.failures) + (if failure == Some(Io) then 1 else 0)
  {
    for k := |trusted| to |root| + 1
      invariant forall j | |trusted| <= j < k :: Lookup(disk.nodes, root[..j]) == Some(Dir)
      invariant disk.failures == old(disk.failures)
    {
      assert root[..|trusted|] == trusted;
      var component := root[..k];
      forall j | |trusted| <= j < k ensures Lookup(disk.nodes, component[..j]) == Some(Dir) {
        assert component[..j] == root[..j];
      }
      StraightThrough(disk.nodes, trusted, component);
      var stat := disk.Lstat(component);
      if stat.Thrown? { return Some(Io); }
      if stat.result != Some(Dir) {
        assert target[..k] == component;
        return Some(StatFailure(stat.result));
      }
    }
    return None;
  }

  /** The second loop: each missing directory below the root is created, and none is a link or a file. */
  method MakeParents(disk: Disk, trusted: Path, root: Path, parent: Path, ghost target: Path) returns (failure: Option<Failure>)
    requires trusted <= root <= parent && parent < target && Straight(disk.nodes, trusted) && DirsBetween(disk.nodes, |trusted|, root)
    modifies disk
    ensures Straight(disk.nodes, trusted) && OnlyNewDirs(old(disk.nodes), disk.nodes, root, parent)
    ensures MutatedBelow(root, old(disk.touched), disk.touched)
    ensures failure.None? ==> DirsBetween(disk.nodes, |trusted|, parent)
    ensures failure.Some? && failure != Some(Io) ==>
              (failure == Some(SymbolicLink) && LinkOnTheWay(old(disk.nodes), |trusted|, target))
              || (failure == Some(NotDirectory) && NoDirectory(old(disk.nodes), |trusted|, root, target))
    ensures failure != Some(Io) ==> (failure.Some? <==> Blocked(old(disk.nodes), root, parent))
    ensures disk.failures == old(disk.failures) + (if failure == Some(Io) then 1 else 0)
  {
    assert parent[..|root|] == root;
    forall j | |trusted| <= j <= |root| ensures Lookup(disk.nodes, parent[..j]) == Some(Dir) {
      assert parent[..j] == root[..j];
    }
    for k := |root| + 1 to |parent| + 1
      invariant Straight(disk.nodes, trusted) && OnlyNewDirs(old(disk.nodes), disk.nodes, root, parent)
      invariant MutatedBelow(root, old(disk.touched), disk.touched)
      invariant forall j | |trusted| <= j < k :: Lookup(disk.nodes, parent[..j]) == Some(Dir)
      invariant disk.failures == old(disk.failures)
    {
      var component := parent[..k];
      forall j | |trusted| <= j < k ensures Lookup(disk.nodes, component[..j]) == Some(Dir) {
        assert component[..j] == parent[..j];
      }
      assert component[..|trusted|] == parent[..|trusted|] == root[..|trusted|] == trusted;
      StraightThrough(disk.nodes, trusted, component);
      var stat := disk.Lstat(component);
      if stat.Thrown? { return Some(Io); }
      if stat.result.None? {
        ghost var before := disk.nodes;
        var made := disk.Mkdir(component);
        if !made { return Some(Io); }
        NewDirBelow(old(disk.nodes), before, root, parent, k);
        NewDirKeeps(before, trusted, parent, k);
      } else if stat.result != Some(Dir) {
        assert target[..k] == component && Lookup(old(disk.nodes), component) == stat.result;
        return Some(StatFailure(stat.result));
      }
    }
    return None;
  }

  lemma NewDirBelow(before: Nodes, nodes: Nodes, root: Path, parent: Path, k: nat)
    requires root <= parent && |root| < k <= |parent| && OnlyNewDirs(before, nodes, root, parent)
    requires parent[..k] !in nodes
    ensures root < parent[..k] && OnlyNewDirs(before, nodes[parent[..k] := Dir], root, parent)
  {
  }

  lemma NewDirKeeps(nodes: Nodes, trusted: Path, parent: Path, k: nat)
    requires |trusted| <= k <= |parent| && Straight(nodes, trusted)
    ensures Straight(nodes[parent[..k] := Dir], trusted)
    ensures forall j | 0 <= j < k :: Lookup(nodes[parent[..k] := Dir], parent[..j]) == Lookup(nodes, parent[..j])
  {
    forall j | 0 <= j < k ensures parent[..j] != parent[..k] {
      assert |parent[..j]| == j;
    }
  }

  /** The inner `try`: the temporary file is created, written, synced and closed. */
  method WriteTemporary(disk: Disk, target: Path, temporary: Path, data: string) returns (ok: bool)
    requires |temporary| == |target| && Straight(disk.nodes, target) && Straight(disk.nodes, temporary)
    modifies disk
    ensures Straight(disk.nodes, target) && Straight(disk.nodes, temporary)
    ensures old(disk.touched) <= disk.touched <= old(disk.touched) + {temporary}
    ensures disk.nodes - {temporary} == old(disk.nodes) - {temporary}
    ensures ok ==> disk.nodes == old(disk.nodes)[temporary := File(data)] && temporary !in old(disk.nodes)
    ensures ok ==> disk.failures == old(disk.failures)
    ensures !ok && temporary !in old(disk.nodes) ==> disk.failures > old(disk.failures)
    ensures disk.failures >= old(disk.failures)
  {
    ok := disk.OpenExclusive(temporary);
    if !ok { return false; }
    TempKeepsStraight(old(disk.nodes), target, temporary, File(""));
    ok := disk.WriteFile(temporary, data);
    assert forall n: nat | n <= |data| :: old(disk.nodes)[temporary := File("")][temporary := File(data[..n])] == old(disk.nodes)[temporary := File(data[..n])];
    forall n: nat | n <= |data| { TempKeepsStraight(old(disk.nodes), target, temporary, File(data[..n])); }
    assert data[..|data|] == data;
    if ok {
      ok := disk.Settle();
    }
    var closed := disk.Settle();
    ok := ok && closed;
  }

  /** The outer `try`: write the temporary file, then rename it over the target. */
  method WriteAndRename(disk: Disk, target: Path, temporary: Path, data: string) returns (renamed: bool)
    requires target != [] && temporary != target && |temporary| == |target| && Parent(temporary) == Parent(target)
    requires Straight(disk.nodes, target) && Straight(disk.nodes, temporary)
    modifies disk
    ensures Straight(disk.nodes, target) && Straight(disk.nodes, temporary)
    ensures disk.touched <= old(disk.touched) + {temporary, target}
    ensures old(disk.touched) <= disk.touched
    ensures renamed ==> disk.nodes == (old(disk.nodes) - {temporary})[target := File(data)]
    ensures !renamed ==> disk.nodes - {temporary} == old(disk.nodes) - {temporary}
    ensures renamed ==> temporary !in old(disk.nodes) && disk.failures == old(disk.failures)
    ensures !renamed && Lookup(old(disk.nodes), target) != Some(Dir) && temporary !in old(disk.nodes) ==>
              disk.failures > old(disk.failures)
    ensures disk.failures >= old(disk.failures)
  {
    var written := WriteTemporary(disk, target, temporary, data);
    if !written { return false; }
    assert old(disk.nodes)[temporary := File(data)] - {temporary} == old(disk.nodes) - {temporary};
    renamed := disk.Rename(temporary, target);
    if renamed {
      TempKeepsStraight(old(disk.nodes) - {temporary}, target, target, File(data));
      TempKeepsStraight(old(disk.nodes) - {temporary}, temporary, target, File(data));
    }
  }

  /** A file beside or at the target is above neither of them. */
  lemma TempKeepsStraight(nodes: Nodes, target: Path, temporary: Path, node: Node)
    requires |temporary| == |target| && Straight(nodes, target)
    ensures Straight(nodes[temporary := node], target)
  {
  }

  lemma InsideParent(trusted: Path, root: Path, target: Path)
    requires trusted <= root && root < target
    ensures target != [] && root <= Parent(target) && trusted <= Parent(target)
  {
  }

  /** The target and the temporary file are reached directly once the directory above them is in place. */
  lemma ParentStraight(nodes: Nodes, trusted: Path, p: Path)
    requires p != [] && trusted <= Parent(p) && Straight(nodes, trusted) && DirsBetween(nodes, |trusted|, Parent(p))
    ensures Straight(nodes, p)
  {
    forall k | |trusted| <= k < |p| ensures Lookup(nodes, p[..k]) == Some(Dir) {
      assert p[..k] == Parent(p)[..k];
    }
    assert trusted == Parent(p)[..|trusted|] == p[..|trusted|];
    StraightThrough(nodes, trusted, p);
  }

  /** Apart from the target and the temporary file, only directories on the way to the target appear. */
  predicate RestKept(before: Nodes, nodes: Nodes, root: Path, target: Path, temporary: Path)
    requires target != []
  {
    && (forall p | p in before && p != target && p != temporary :: p in nodes && nodes[p] == before[p])
    && (forall p | p in nodes && p !in before && p != target && p != temporary ::
          nodes[p] == Dir && root < p && p <= Parent(target))
  }

  /** Everything before the temporary file: the checks, and the missing directories above the target. */
  method Prepare(disk: Disk, trusted: Path, root: Path, target: Path) returns (failure: Option<Failure>)
    requires trusted <= root && root < target && root <= Parent(target) && trusted <= Parent(target)
    requires Straight(disk.nodes, trusted)
    modifies disk
    ensures OnlyNewDirs(old(disk.nodes), disk.nodes, root, Parent(target))
    ensures MutatedBelow(root, old(disk.touched), disk.touched)
    ensures failure.None? ==> Straight(disk.nodes, trusted) && DirsBetween(disk.nodes, |trusted|, Parent(target))
    ensures failure.None? ==> Lookup(disk.nodes, target) == Lookup(old(disk.nodes), target)
    ensures forall temporary | temporary !in old(disk.nodes) ::
              failure.None? ==> Writable(old(disk.nodes), |trusted|, root, target, temporary)
    ensures forall temporary | failure.Some? && failure != Some(Io) ::
              Explains(old(disk.nodes), |trusted|, root, target, temporary, failure.value)
    ensures disk.failures == old(disk.failures) + (if failure == Some(Io) then 1 else 0)
  {
    failure := CheckRoot(disk, trusted, root, target);
    if failure.Some? { return; }
    failure := MakeParents(disk, trusted, root, Parent(target), target);
    if failure.Some? { return; }
    assert target !in disk.nodes <==> target !in old(disk.nodes);
    assert target[..|target|] == target;
    ParentStraight(disk.nodes, trusted, target);
    var stat := disk.Lstat(target);
    if stat.Thrown? { return Some(Io); }
    if stat.result == Some(Link) { return Some(SymbolicLink); }
    if stat.result == Some(Dir) { return Some(NotFile); }
    return None;
  }

  /** The `try` and `finally`: replace the target through the temporary file, which is removed on failure. */
  method Replace(disk: Disk, target: Path, temporary: Path, data: string) returns (r: WriteResult)
    requires target != [] && temporary != target && |temporary| == |target| && Parent(temporary) == Parent(target)
    requires Straight(disk.nodes, target) && Straight(disk.nodes, temporary)
    modifies disk
    ensures disk.touched <= old(disk.touched) + {temporary, target}
    ensures forall p | p != target && p != temporary :: Lookup(disk.nodes, p) == Lookup(old(disk.nodes), p)
    ensures r.Written? ==> Lookup(disk.nodes, target) == Some(File(data)) && temporary !in disk.nodes
    ensures r.Failed? ==> Lookup(disk.nodes, target) == Lookup(old(disk.nodes), target)
    ensures r.Failed? && !r.removalFailed ==> temporary !in disk.nodes
    ensures r.Written? ==> temporary !in old(disk.nodes)
    ensures r.Failed? ==> r.failure == Io
    ensures r.Failed? && Lookup(old(disk.nodes), target) != Some(Dir) && temporary !in old(disk.nodes) ==>
              disk.failures > old(disk.failures)
    ensures disk.failures >= old(disk.failures)
  {
    ghost var ready := disk.nodes;
    var renamed := WriteAndRename(disk, target, temporary, data);
    if renamed { return Written; }
    var removed := disk.Remove(temporary);
    FailedKeeps(ready, disk.nodes, target, temporary);
    return Failed(Io, !removed);
  }

  /** No directory created on the way to the target has the temporary file's path. */
  lemma TempIsNew(before: Nodes, ready: Nodes, root: Path, target: Path, temporary: Path)
    requires target != [] && OnlyNewDirs(before, ready, root, Parent(target)) && |temporary| == |target|
    ensures temporary in ready ==> temporary in before
  {
  }

  lemma RestKeptOn(before: Nodes, ready: Nodes, nodes: Nodes, root: Path, target: Path, temporary: Path)
    requires target != [] && OnlyNewDirs(before, ready, root, Parent(target))
    requires forall p | p != target && p != temporary :: Lookup(nodes, p) == Lookup(ready, p)
    ensures RestKept(before, nodes, root, target, temporary)
    ensures Lookup(ready, target) == Lookup(before, target)
  {
    assert |Parent(target)| < |target|;
    forall p | p != target && p != temporary ensures p in nodes <==> p in ready {
      assert Lookup(nodes, p) == Lookup(ready, p);
    }
    forall p | p != target && p != temporary && p in ready ensures nodes[p] == ready[p] {
      assert Lookup(nodes, p) == Lookup(ready, p);
    }
  }

  /** The write, once the paths are known to be inside: all of it below the directory `trusted`. */
  method WriteBelow(disk: Disk, trusted: Path, root: Path, target: Path, data: string, pid: string, uuid: string)
    returns (r: WriteResult)
    requires trusted <= root && root < target && Straight(disk.nodes, trusted)
    modifies disk
    ensures r.Written? ==> Lookup(disk.nodes, target) == Some(File(data))
    ensures r.Written? ==> TempPath(target, pid, uuid) !in disk.nodes && DirsBetween(disk.nodes, |trusted|, Parent(target))
    ensures r.Failed? ==> Lookup(disk.nodes, target) == Lookup(old(disk.nodes), target)
    ensures r.Failed? && !r.removalFailed && TempPath(target, pid, uuid) in disk.nodes ==>
              TempPath(target, pid, uuid) in old(disk.nodes)
    ensures r.Written? ==> Writable(old(disk.nodes), |trusted|, root, target, TempPath(target, pid, uuid))
    ensures r.Failed? && (r.failure != Io || disk.failures == old(disk.failures)) ==>
              Explains(old(disk.nodes), |trusted|, root, target, TempPath(target, pid, uuid), r.failure)
    ensures MutatedBelow(root, old(disk.touched), disk.touched)
    ensures RestKept(old(disk.nodes), disk.nodes, root, target, TempPath(target, pid, uuid))
  {
    InsideParent(trusted, root, target);
    var bad := Prepare(disk, trusted, root, target);
    ghost var ready := disk.nodes;
    var temporary := TempPath(target, pid, uuid);
    RestKeptOn(old(disk.nodes), ready, ready, root, target, temporary);
    TempDiffers(target, pid, uuid);
    TempIsNew(old(disk.nodes), ready, root, target, temporary);
    if bad.Some? { return Failed(bad.value, false); }
    ParentStraight(disk.nodes, trusted, target);
    ParentStraight(disk.nodes, trusted, temporary);
    BelowRoot(root, target, temporary);
    r := Replace(disk, target, temporary, data);
    KeepsDirs(ready, disk.nodes, |trusted|, target, temporary);
    RestKeptOn(old(disk.nodes), ready, disk.nodes, root, target, temporary);
  }

  /** The targets the write accepts, by the paths it is given. */
  predicate Inside(trusted: Path, root: Path, target: Path) {
    trusted <= root && root < target
  }

  /** The place a path below the trusted root leads to, when the path of the trusted root leads to `anchor`. */
  function Located(trusted: Path, anchor: Path, p: Path): Path
    requires trusted <= p
  {
    anchor + p[|trusted|..]
  }

  lemma LocatedInside(trusted: Path, anchor: Path, root: Path, target: Path)
    requires Inside(trusted, root, target)
    ensures anchor <= Located(trusted, anchor, root) && Located(trusted, anchor, root) < Located(trusted, anchor, target)
  {
    assert target[|trusted|..] == root[|trusted|..] + target[|root|..];
  }

  /** The temporary file beside the target is beside it also where the paths lead to. */
  lemma TempLocated(trusted: Path, anchor: Path, target: Path, pid: string, uuid: string)
    requires trusted < target
    ensures trusted <= TempPath(target, pid, uuid)
    ensures Located(trusted, anchor, TempPath(target, pid, uuid)) == TempPath(Located(trusted, anchor, target), pid, uuid)
  {
    var there := Located(trusted, anchor, target);
    assert there[|there| - 1] == target[|target| - 1];
    assert Parent(there) == Located(trusted, anchor, Parent(target));
  }

  /**
   * `writeFixtureFileSafely`. The path of the trusted root leads to `anchor`, through whatever symbolic links
   * above it. Whatever fails, and however often, the target holds its complete old content or the complete
   * new content; a thrown error leaves no temporary file behind unless its removal failed too; and every
   * mutation lands below the fixtures root.
   */
  method WriteFixtureFileSafely(disk: Disk, trusted: Path, anchor: Path, root: Path, target: Path, data: string,
                                pid: string, uuid: string) returns (r: WriteResult)
    requires Normal(root) && Normal(target) && Straight(disk.nodes, anchor)
    modifies disk
    ensures !Inside(trusted, root, target) ==>
              r == Failed(OutsideRoot, false) && disk.nodes == old(disk.nodes) && disk.touched == old(disk.touched)
    ensures Inside(trusted, root, target) ==>
              var there, below := Located(trusted, anchor, target), Located(trusted, anchor, root);
              && |there| > 0
              && var temporary := TempPath(there, pid, uuid);
              && (r.Written? ==> Lookup(disk.nodes, there) == Some(File(data)) && temporary !in disk.nodes)
              && (r.Written? ==> DirsBetween(disk.nodes, |anchor|, Parent(there)))
              && (r.Failed? ==> Lookup(disk.nodes, there) == Lookup(old(disk.nodes), there))
              && (r.Failed? && !r.removalFailed && temporary in disk.nodes ==> temporary in old(disk.nodes))
              && (r.Written? ==> Writable(old(disk.nodes), |anchor|, below, there, temporary))
              && (Writable(old(disk.nodes), |anchor|, below, there, temporary) && disk.failures == old(disk.failures) ==> r.Written?)
              && (r.Failed? && (r.failure != Io || disk.failures == old(disk.failures)) ==>
                    Explains(old(disk.nodes), |anchor|, below, there, temporary, r.failure))
              && MutatedBelow(below, old(disk.touched), disk.touched)
              && RestKept(old(disk.nodes), disk.nodes, below, there, temporary)
  {
    RelativeInside(trusted, root);
    RelativeInside(root, target);
    var rootRelative, targetRelative := Relative(trusted, root), Relative(root, target);
    if Leaves(rootRelative) || targetRelative == [] || Leaves(targetRelative) {
      return Failed(OutsideRoot, false);
    }
    assert root < target;
    LocatedInside(trusted, anchor, root, target);
    ExplainedIsNotWritable(old(disk.nodes), |anchor|, Located(trusted, anchor, root), Located(trusted, anchor, target),
                           TempPath(Located(trusted, anchor, target), pid, uuid));
    r := WriteBelow(disk, anchor, Located(trusted, anchor, root), Located(trusted, anchor, target), data, pid, uuid);
  }

  /** What explains an error keeps a write from succeeding. */
  lemma ExplainedIsNotWritable(nodes: Nodes, from: nat, root: Path, target: Path, temporary: Path)
    requires from <= |root| && root < target
    ensures forall failure | Explains(nodes, from, root, target, temporary, failure) ::
              !Writable(nodes, from, root, target, temporary)
  {
    assert target[..|target|] == target;
    forall k | from <= k < |target| && Writable(nodes, from, root, target, temporary)
      ensures target[..k] in nodes ==> nodes[target[..k]] == Dir
      ensures k <= |root| ==> target[..k] in nodes
    {
      assert k <= |root| ==> target[..k] == root[..k];
      assert target[..k] == Parent(target)[..k];
    }
  }

  lemma BelowRoot(root: Path, target: Path, temporary: Path)
    requires root < target && |temporary| == |target| && Parent(temporary) == Parent(target)
    ensures root < temporary
  {
  }

  lemma KeepsDirs(ready: Nodes, nodes: Nodes, from: nat, target: Path, temporary: Path)
    requires target != [] && |temporary| == |target| && DirsBetween(ready, from, Parent(target))
    requires forall p | p != target && p != temporary :: Lookup(nodes, p) == Lookup(ready, p)
    ensures DirsBetween(nodes, from, Parent(target))
  {
  }

  lemma FailedKeeps(ready: Nodes, nodes: Nodes, target: Path, temporary: Path)
    requires temporary != target && nodes - {temporary} == ready - {temporary}
    ensures forall p | p != temporary :: Lookup(nodes, p) == Lookup(ready, p)
  {
    forall p | p != temporary ensures Lookup(nodes, p) == Lookup(ready, p) {
      assert Lookup(nodes - {temporary}, p) == Lookup(ready - {temporary}, p);
    }
  }
}
