/** Grouping the Compose service keys into the rows of a page, scripts/build-compose-key-matrix.ts. */
module KeyMatrix {
  import opened Prelude
  import Sorting

  datatype Disposition = Normalized | Preserved | Rejected

  datatype Entry = Entry(
    disposition: Disposition, rationale: string, remediation: Option<string>, planTarget: Option<seq<string>>)

  datatype Row = Row(path: string, entry: Entry)

  datatype Group = Group(root: Row, descendants: seq<Row>)

  datatype Sources = Sources(service: seq<Row>, topLevel: seq<Row>, tags: seq<Row>)

  /** The entries of an object: no key occurs twice. */
  predicate DistinctPaths(rows: seq<Row>) {
    forall i, j | 0 <= i < j < |rows| :: rows[i].path != rows[j].path
  }

  // ---------------------------------------------------------------- grouping

  /** The rows whose path is a single segment. */
  function Roots(rows: seq<Row>): seq<Row> {
    if rows == [] then [] else (if '.' in rows[0].path then [] else [rows[0]]) + Roots(rows[1..])
  }

  /** The rows below a root. */
  function Descendants(rows: seq<Row>, root: string): seq<Row> {
    if rows == [] then []
    else (if StartsWith(rows[0].path, root + ".") then [rows[0]] else []) + Descendants(rows[1..], root)
  }

  function GroupsOf(roots: seq<Row>, rows: seq<Row>): seq<Group> {
    if roots == [] then []
    else [Group(roots[0], Descendants(rows, roots[0].path))] + GroupsOf(roots[1..], rows)
  }

  /** The groups of the sorted rows, whatever the collation `less`. */
  function ServiceGroups(entries: seq<Row>, less: (Row, Row) -> bool): seq<Group> {
    var rows := Sorting.Sort(entries, less);
    GroupsOf(Roots(rows), rows)
  }

  /** The rows a group is rendered as. */
  function Emitted(groups: seq<Group>): seq<Row> {
    if groups == [] then [] else [groups[0].root] + groups[0].descendants + Emitted(groups[1..])
  }

  function EmittedCount(groups: seq<Group>): nat {
    if groups == [] then 0 else EmittedCount(groups[..|groups| - 1]) + 1 + |groups[|groups| - 1].descendants|
  }

  // ---------------------------------------------------------------- the checks

  /** A rationale for every key, and a remediation for every rejected one. */
  predicate Explained(row: Row) {
    && NotBlank(row.entry.rationale)
    && (row.entry.disposition.Rejected? ==> row.entry.remediation.Some? && NotBlank(row.entry.remediation.value))
  }

  predicate HasTarget(row: Row) {
    row.entry.disposition.Normalized? ==> row.entry.planTarget.Some? && row.entry.planTarget.value != []
  }

  predicate AllExplained(rows: seq<Row>) {
    forall i :: 0 <= i < |rows| ==> Explained(rows[i])
  }

  predicate AllTargeted(rows: seq<Row>) {
    forall i :: 0 <= i < |rows| ==> HasTarget(rows[i])
  }

  /** The text up to the first dot. */
  function FirstSegment(path: string): (r: string)
    ensures '.' !in r
  {
    if path == "" || path[0] == '.' then "" else [path[0]] + FirstSegment(path[1..])
  }

  /** The first segment of the row's path is itself a key. */
  predicate HasRoot(row: Row, rows: seq<Row>) {
    exists i :: 0 <= i < |rows| && rows[i].path == FirstSegment(row.path)
  }

  predicate AllHaveRoots(rows: seq<Row>) {
    forall row | row in rows :: HasRoot(row, rows)
  }

  method CheckExplained(rows: seq<Row>) returns (ok: bool)
    ensures ok <==> AllExplained(rows)
  {
    for i := 0 to |rows|
      invariant forall k :: 0 <= k < i ==> Explained(rows[k])
    {
      if !NotBlank(rows[i].entry.rationale) { return false; }
      if rows[i].entry.disposition.Rejected?
         && (rows[i].entry.remediation.None? || !NotBlank(rows[i].entry.remediation.value)) {
        return false;
      }
    }
    return true;
  }

  /** The check of the page's sources: which of them pass. */
  method AssertMatrixInvariants(sources: Sources, less: (Row, Row) -> bool) returns (ok: bool)
    requires DistinctPaths(sources.service)
    ensures ok <==>
      && AllExplained(sources.service) && AllExplained(sources.topLevel) && AllExplained(sources.tags)
      && AllTargeted(sources.service) && AllHaveRoots(sources.service)
  {
    var service := CheckExplained(sources.service);
    if !service { return false; }
    var topLevel := CheckExplained(sources.topLevel);
    if !topLevel { return false; }
    var tags := CheckExplained(sources.tags);
    if !tags { return false; }
    for i := 0 to |sources.service|
      invariant forall k :: 0 <= k < i ==> HasTarget(sources.service[k])
    {
      var entry := sources.service[i].entry;
      if entry.disposition.Normalized? && (entry.planTarget.None? || entry.planTarget.value == []) { return false; }
    }
    CountDecides(sources.service, less);
    return EmittedCount(ServiceGroups(sources.service, less)) == |sources.service|;
  }

  // ---------------------------------------------------------------- paths and their roots

  lemma {:induction false} OnlyRootIsFirstSegment(path: string, q: string)
    requires '.' !in q
    ensures StartsWith(path, q + ".") <==> '.' in path && q == FirstSegment(path)
  {
    if q == "" {
      assert q + "." == ".";
      assert StartsWith(path, ".") <==> path != "" && path[0] == '.';
    } else if path != "" && path[0] == q[0] {
      assert (q + ".")[1..] == q[1..] + ".";
      assert StartsWith(path, q + ".") <==> StartsWith(path[1..], q[1..] + ".") by {
        if StartsWith(path, q + ".") {
          assert path[1..][..|q|] == path[..|q| + 1][1..];
        }
        if StartsWith(path[1..], q[1..] + ".") {
          assert path[..|q| + 1] == [path[0]] + path[1..][..|q|];
        }
      }
      assert path == [path[0]] + path[1..] && q == [q[0]] + q[1..];
      assert '.' in path <==> '.' in path[1..];
      OnlyRootIsFirstSegment(path[1..], q[1..]);
    } else {
      if path != "" {
        FirstSegmentHead(path);
      }
    }
  }

  lemma FirstSegmentHead(path: string)
    requires path != ""
    ensures FirstSegment(path) != "" ==> FirstSegment(path)[0] == path[0]
  {
  }

  lemma {:induction false} FirstSegmentOfRoot(path: string)
    requires '.' !in path
    ensures FirstSegment(path) == path
  {
    if path != "" {
      assert path[0] in path;
      FirstSegmentOfRoot(path[1..]);
    }
  }

  predicate Owns(root: Row, row: Row) {
    root.path == FirstSegment(row.path)
  }

  // ---------------------------------------------------------------- how often a row is emitted

  lemma {:induction false} DescendantTimes(rows: seq<Row>, root: string, row: Row)
    ensures multiset(Descendants(rows, root))[row] ==
      if StartsWith(row.path, root + ".") then multiset(rows)[row] else 0
  {
    if rows != [] {
      DescendantTimes(rows[1..], root, row);
      assert rows == [rows[0]] + rows[1..];
    }
  }

  lemma {:induction false} RootsAre(rows: seq<Row>, row: Row)
    ensures row in Roots(rows) <==> row in rows && '.' !in row.path
  {
    if rows != [] {
      RootsAre(rows[1..], row);
      assert rows == [rows[0]] + rows[1..];
    }
  }

  lemma {:induction false} RootsDistinct(rows: seq<Row>)
    requires DistinctPaths(rows)
    ensures DistinctPaths(Roots(rows))
  {
    if rows != [] {
      RootsDistinct(rows[1..]);
      forall k | 0 <= k < |Roots(rows[1..])| ensures Roots(rows[1..])[k].path != rows[0].path {
        RootsAre(rows[1..], Roots(rows[1..])[k]);
        var i :| 0 <= i < |rows[1..]| && rows[1..][i] == Roots(rows[1..])[k];
        assert rows[i + 1] == rows[1..][i];
      }
    }
  }

  lemma OncePerRow(rows: seq<Row>, row: Row)
    requires DistinctPaths(rows) && row in rows
    ensures multiset(rows)[row] == 1
  {
    var i :| 0 <= i < |rows| && rows[i] == row;
    assert rows == rows[..i] + [row] + rows[i + 1..];
    assert row !in rows[..i] && row !in rows[i + 1..];
    assert multiset(rows) == multiset(rows[..i]) + multiset{row} + multiset(rows[i + 1..]);
  }

  /** A group holds a row once if its root owns the row, else not at all. */
  lemma GroupTimes(rows: seq<Row>, root: Row, row: Row)
    requires DistinctPaths(rows) && root in rows && row in rows && '.' !in root.path
    ensures multiset([root] + Descendants(rows, root.path))[row] == if Owns(root, row) then 1 else 0
  {
    DescendantTimes(rows, root.path, row);
    OncePerRow(rows, row);
    OnlyRootIsFirstSegment(row.path, root.path);
    if '.' !in row.path {
      FirstSegmentOfRoot(row.path);
    }
  }

  lemma {:induction false} EmittedTimes(roots: seq<Row>, rows: seq<Row>, row: Row)
    requires DistinctPaths(rows) && row in rows && DistinctPaths(roots)
    requires forall root | root in roots :: root in rows && '.' !in root.path
    ensures multiset(Emitted(GroupsOf(roots, rows)))[row] == if Owned(roots, row) then 1 else 0
  {
    if roots != [] {
      var group, others := [roots[0]] + Descendants(rows, roots[0].path), Emitted(GroupsOf(roots[1..], rows));
      GroupTimes(rows, roots[0], row);
      EmittedTimes(roots[1..], rows, row);
      OneOwner(roots, row);
      assert multiset(group + others)[row] == multiset(group)[row] + multiset(others)[row];
    }
  }

  /** One of these roots owns the row. */
  predicate Owned(roots: seq<Row>, row: Row) {
    exists i :: 0 <= i < |roots| && Owns(roots[i], row)
  }

  lemma OneOwner(roots: seq<Row>, row: Row)
    requires DistinctPaths(roots) && roots != []
    ensures Owned(roots, row) <==> Owns(roots[0], row) || Owned(roots[1..], row)
    ensures !(Owns(roots[0], row) && Owned(roots[1..], row))
  {
  }

  lemma {:induction false} EmittedAreRows(roots: seq<Row>, rows: seq<Row>, row: Row)
    requires row in Emitted(GroupsOf(roots, rows)) && forall root | root in roots :: root in rows
    ensures row in rows
  {
    if row !in Emitted(GroupsOf(roots[1..], rows)) && row != roots[0] {
      DescendantTimes(rows, roots[0].path, row);
      assert row in multiset(Descendants(rows, roots[0].path));
    } else if row != roots[0] {
      EmittedAreRows(roots[1..], rows, row);
    }
  }

  lemma DistinctSorted(entries: seq<Row>, less: (Row, Row) -> bool)
    requires DistinctPaths(entries)
    ensures DistinctPaths(Sorting.Sort(entries, less))
  {
    var rows := Sorting.Sort(entries, less);
    Sorting.SortMembers(entries, less);
    forall i, j | 0 <= i < j < |rows| ensures rows[i].path != rows[j].path {
      assert rows[i] in rows && rows[j] in rows;
      var a :| 0 <= a < |entries| && entries[a] == rows[i];
      var b :| 0 <= b < |entries| && entries[b] == rows[j];
      if a == b {
        Sorting.SortPermutes(entries, less);
        OncePerRow(entries, rows[i]);
        Sorting.OccursTwice(rows, i, j);
      }
    }
  }

  /** Every entry is emitted once if its first segment is a key, and otherwise not at all. */
  lemma TimesEmitted(entries: seq<Row>, less: (Row, Row) -> bool, row: Row)
    requires DistinctPaths(entries)
    ensures multiset(Emitted(ServiceGroups(entries, less)))[row] == if row in entries && HasRoot(row, entries) then 1 else 0
  {
    var rows := Sorting.Sort(entries, less);
    DistinctSorted(entries, less);
    Sorting.SortMembers(entries, less);
    forall root ensures root in Roots(rows) <==> root in rows && '.' !in root.path {
      RootsAre(rows, root);
    }
    if row in entries {
      RootsDistinct(rows);
      EmittedTimes(Roots(rows), rows, row);
      if HasRoot(row, entries) {
        var k := OwningRoot(entries, rows, row);
        assert Owns(Roots(rows)[k], row);
      }
    } else if row in Emitted(ServiceGroups(entries, less)) {
      EmittedAreRows(Roots(rows), rows, row);
    }
  }

  /** The root whose path is the first segment of the row's. */
  lemma OwningRoot(entries: seq<Row>, rows: seq<Row>, row: Row) returns (k: nat)
    requires HasRoot(row, entries) && forall root :: root in rows <==> root in entries
    ensures k < |Roots(rows)| && Owns(Roots(rows)[k], row)
  {
    var i :| 0 <= i < |entries| && entries[i].path == FirstSegment(row.path);
    RootsAre(rows, entries[i]);
    k :| 0 <= k < |Roots(rows)| && Roots(rows)[k] == entries[i];
  }

  // ---------------------------------------------------------------- the count

  lemma {:induction false} CountIsLength(groups: seq<Group>)
    ensures EmittedCount(groups) == |Emitted(groups)|
  {
    if groups != [] {
      var n := |groups| - 1;
      CountIsLength(groups[..n]);
      EmittedLast(groups);
    }
  }

  lemma {:induction false} EmittedLast(groups: seq<Group>)
    requires groups != []
    ensures Emitted(groups) ==
      Emitted(groups[..|groups| - 1]) + ([groups[|groups| - 1].root] + groups[|groups| - 1].descendants)
  {
    if |groups| > 1 {
      EmittedLast(groups[1..]);
      assert groups[1..][..|groups| - 2] == groups[..|groups| - 1][1..];
    }
  }

  /** Every entry is emitted exactly once. */
  ghost predicate EmittedOnce(entries: seq<Row>, less: (Row, Row) -> bool) {
    multiset(Emitted(ServiceGroups(entries, less))) == multiset(entries)
  }

  /** Nothing is emitted twice, nor anything that is not an entry. */
  lemma NeverTwice(entries: seq<Row>, less: (Row, Row) -> bool)
    requires DistinctPaths(entries)
    ensures multiset(Emitted(ServiceGroups(entries, less))) <= multiset(entries)
  {
    forall row ensures multiset(Emitted(ServiceGroups(entries, less)))[row] <= multiset(entries)[row] {
      TimesEmitted(entries, less, row);
      if row in entries {
        OncePerRow(entries, row);
      }
    }
  }

  /** The row count is right exactly when every entry is emitted once: when every first segment is a key. */
  lemma CountDecides(entries: seq<Row>, less: (Row, Row) -> bool)
    requires DistinctPaths(entries)
    ensures EmittedCount(ServiceGroups(entries, less)) == |entries| <==> EmittedOnce(entries, less)
    ensures EmittedOnce(entries, less) <==> AllHaveRoots(entries)
  {
    var emitted := Emitted(ServiceGroups(entries, less));
    CountIsLength(ServiceGroups(entries, less));
    NeverTwice(entries, less);
    assert |multiset(emitted)| == |emitted| && |multiset(entries)| == |entries|;
    SameSize(multiset(emitted), multiset(entries));
    OnceIffRoots(entries, less);
  }

  lemma SameSize(a: multiset<Row>, b: multiset<Row>)
    requires a <= b
    ensures |a| == |b| <==> a == b
  {
    assert b == a + (b - a);
  }

  lemma OnceIffRoots(entries: seq<Row>, less: (Row, Row) -> bool)
    requires DistinctPaths(entries)
    ensures EmittedOnce(entries, less) <==> AllHaveRoots(entries)
  {
    var emitted := Emitted(ServiceGroups(entries, less));
    forall row
      ensures multiset(emitted)[row] == multiset(entries)[row] <==> (row in entries ==> HasRoot(row, entries))
    {
      TimesEmitted(entries, less, row);
      if row in entries {
        OncePerRow(entries, row);
      }
    }
  }

  /** No row belongs to two groups. */
  lemma GroupsAreDisjoint(rows: seq<Row>, p: Row, q: Row, row: Row)
    requires '.' !in p.path && '.' !in q.path
    requires row in [p] + Descendants(rows, p.path) && row in [q] + Descendants(rows, q.path)
    ensures p.path == q.path
  {
    FirstSegmentOfRoot(p.path);
    FirstSegmentOfRoot(q.path);
    OwnerOf(rows, p, row);
    OwnerOf(rows, q, row);
  }

  lemma OwnerOf(rows: seq<Row>, root: Row, row: Row)
    requires '.' !in root.path && row in [root] + Descendants(rows, root.path)
    ensures root.path == FirstSegment(row.path)
  {
    if row == root {
      FirstSegmentOfRoot(root.path);
    } else {
      assert row in multiset(Descendants(rows, root.path));
      DescendantTimes(rows, root.path, row);
      OnlyRootIsFirstSegment(row.path, root.path);
    }
  }
}
