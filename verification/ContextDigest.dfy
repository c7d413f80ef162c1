/**
 * The byte stream that `linuxRuntimeBundleContextDigest` (scripts/linux-runtime-bundle-builder.ts)
 * feeds to SHA-256. A byte is written as a character; the hash itself is not part of the model.
 */
module ContextDigest {
  import opened Prelude
  import opened Sorting

  const NUL: char := '\0'

  datatype Node = File(bytes: string) | NotAFile

  /** The staged context: what `lstat` and `readFile` see at each listed path. */
  type Context = map<string, Node>

  function BuildxPlatform(hostKey: string): string {
    if hostKey == "linux-x64" then "linux/amd64" else "linux/arm64"
  }

  function BuildArgs(hostKey: string, repository: string): seq<string> {
    ["BUNDLE_PLATFORM=" + hostKey, "REPOSITORY=" + repository]
  }

  // ---------------------------------------------------------------- sorting the listing

  /** `paths.sort()`. */
  function SortPaths(listing: seq<string>): seq<string> {
    Sort(listing, Before)
  }

  // ---------------------------------------------------------------- the stream

  function FieldsStream(fields: seq<string>): string {
    if fields == [] then "" else fields[0] + [NUL] + FieldsStream(fields[1..])
  }

  function Header(hostKey: string, repository: string): string {
    FieldsStream([BuildxPlatform(hostKey)] + BuildArgs(hostKey, repository))
  }

  function FileRecord(path: string, bytes: string): string {
    path + [NUL] + Decimal(|bytes|) + [NUL] + bytes
  }

  /** The records of the listed paths that are files, in order. */
  function FilesStream(context: Context, paths: seq<string>): string {
    if paths == [] then ""
    else (if paths[0] in context && context[paths[0]].File? then FileRecord(paths[0], context[paths[0]].bytes) else "")
         + FilesStream(context, paths[1..])
  }

  function Stream(hostKey: string, repository: string, context: Context, listing: seq<string>): string {
    Header(hostKey, repository) + FilesStream(context, SortPaths(listing))
  }

  lemma {:induction false} FilesStreamAppend(context: Context, paths: seq<string>, path: string)
    ensures FilesStream(context, paths + [path]) == FilesStream(context, paths) + FilesStream(context, [path])
  {
    if paths == [] {
      assert [] + [path] == [path];
    } else {
      assert (paths + [path])[1..] == paths[1..] + [path];
      FilesStreamAppend(context, paths[1..], path);
    }
  }

  lemma {:induction false} FieldsStreamAppend(fields: seq<string>, field: string)
    ensures FieldsStream(fields + [field]) == FieldsStream(fields) + field + [NUL]
  {
    if fields == [] {
      assert [] + [field] == [field] && [field][1..] == [];
    } else {
      assert (fields + [field])[1..] == fields[1..] + [field];
      FieldsStreamAppend(fields[1..], field);
    }
  }

  /** The hash object: the bytes it has been fed. */
  class Hash {
    var fed: string

    constructor ()
      ensures fed == ""
    {
      fed := "";
    }

    method Update(bytes: string)
      modifies this
      ensures fed == old(fed) + bytes
    {
      fed := fed + bytes;
    }
  }

  /** One path of the loop over the listing: nothing for what is not a file. */
  method FeedPath(hash: Hash, context: Context, path: string)
    modifies hash
    ensures hash.fed == old(hash.fed) + FilesStream(context, [path])
  {
    var bytes := if path in context && context[path].File? then context[path].bytes else "";
    assert FilesStream(context, [path]) ==
      (if path in context && context[path].File? then FileRecord(path, bytes) else "") + FilesStream(context, []);
    if path in context && context[path].File? {
      hash.Update(path + [NUL] + Decimal(|bytes|) + [NUL]);
      hash.Update(bytes);
    }
  }

  method FeedFields(hash: Hash, fields: seq<string>)
    modifies hash
    ensures hash.fed == old(hash.fed) + FieldsStream(fields)
  {
    for i := 0 to |fields|
      invariant hash.fed == old(hash.fed) + FieldsStream(fields[..i])
    {
      assert fields[..i + 1] == fields[..i] + [fields[i]];
      FieldsStreamAppend(fields[..i], fields[i]);
      hash.Update(fields[i] + [NUL]);
    }
    assert fields[..|fields|] == fields;
  }

  method FeedFiles(hash: Hash, context: Context, paths: seq<string>)
    modifies hash
    ensures hash.fed == old(hash.fed) + FilesStream(context, paths)
  {
    for i := 0 to |paths|
      invariant hash.fed == old(hash.fed) + FilesStream(context, paths[..i])
    {
      assert paths[..i + 1] == paths[..i] + [paths[i]];
      FilesStreamAppend(context, paths[..i], paths[i]);
      FeedPath(hash, context, paths[i]);
    }
    assert paths[..|paths|] == paths;
  }

  /** `linuxRuntimeBundleContextDigest`, up to the final hash. */
  method FeedContext(hostKey: string, repository: string, context: Context, listing: seq<string>) returns (fed: string)
    ensures fed == Stream(hostKey, repository, context, listing)
  {
    var hash := new Hash();
    FeedFields(hash, [BuildxPlatform(hostKey)] + BuildArgs(hostKey, repository));
    assert "" + Header(hostKey, repository) == Header(hostKey, repository);
    FeedFiles(hash, context, SortPaths(listing));
    return hash.fed;
  }

  // ---------------------------------------------------------------- the decoder

  /** The position of the first NUL, or the length when there is none. */
  function FirstNul(s: string): (i: nat)
    ensures i <= |s| && (i < |s| ==> s[i] == NUL)
  {
    if s == "" || s[0] == NUL then 0 else 1 + FirstNul(s[1..])
  }

  /** A field and what follows its NUL. */
  function TakeField(s: string): (r: (string, string))
    ensures s != "" ==> |r.1| < |s|
  {
    var i := FirstNul(s);
    (s[..i], if i < |s| then s[i + 1..] else "")
  }

  lemma {:induction false} TakeFieldOf(field: string, rest: string)
    requires NUL !in field
    ensures TakeField(field + [NUL] + rest) == (field, rest)
  {
    NulAfter(field, rest);
    var s := field + [NUL] + rest;
    assert s[..|field|] == field && s[|field| + 1..] == rest;
  }

  lemma {:induction false} NulAfter(field: string, rest: string)
    requires NUL !in field
    ensures FirstNul(field + [NUL] + rest) == |field|
  {
    if field != "" {
      assert (field + [NUL] + rest)[1..] == field[1..] + [NUL] + rest;
      NulAfter(field[1..], rest);
    }
  }

  datatype Record = Record(path: string, bytes: string)

  function DecodeFiles(s: string): seq<Record>
    decreases |s|
  {
    if s == "" then [] else
    var (path, rest) := TakeField(s);
    var (length, tail) := TakeField(rest);
    var n := ParseDecimal(length);
    if rest == "" || |tail| < n then [] else [Record(path, tail[..n])] + DecodeFiles(tail[n..])
  }

  /** The three fields and the records of a stream. */
  function Decode(s: string): (string, string, string, seq<Record>) {
    var (platform, s1) := TakeField(s);
    var (bundle, s2) := TakeField(s1);
    var (repository, s3) := TakeField(s2);
    (platform, bundle, repository, DecodeFiles(s3))
  }

  function Records(context: Context, paths: seq<string>): seq<Record> {
    if paths == [] then []
    else (if paths[0] in context && context[paths[0]].File? then [Record(paths[0], context[paths[0]].bytes)] else [])
         + Records(context, paths[1..])
  }

  lemma {:induction false} FilesDecode(context: Context, paths: seq<string>)
    requires forall path | path in paths :: NUL !in path
    ensures DecodeFiles(FilesStream(context, paths)) == Records(context, paths)
  {
    if paths != [] {
      var path, rest := paths[0], FilesStream(context, paths[1..]);
      assert path in paths;
      FilesDecode(context, paths[1..]);
      if path in context && context[path].File? {
        RecordDecodes(path, context[path].bytes, rest);
      } else {
        assert "" + rest == rest;
      }
    }
  }

  lemma RecordDecodes(path: string, bytes: string, rest: string)
    requires NUL !in path
    ensures DecodeFiles(FileRecord(path, bytes) + rest) == [Record(path, bytes)] + DecodeFiles(rest)
  {
    var s, length := FileRecord(path, bytes) + rest, Decimal(|bytes|);
    DecimalRoundTrip(|bytes|);
    assert NUL !in length;
    assert s == path + [NUL] + (length + [NUL] + (bytes + rest));
    TakeFieldOf(path, length + [NUL] + (bytes + rest));
    TakeFieldOf(length, bytes + rest);
    assert (bytes + rest)[..|bytes|] == bytes && (bytes + rest)[|bytes|..] == rest;
  }

  predicate NulFree(hostKey: string, repository: string) {
    NUL !in hostKey && NUL !in repository
  }

  /** No file system has a path with a NUL in it. */
  predicate ArePaths(listing: seq<string>) {
    forall path | path in listing :: NUL !in path
  }

  lemma ThreeFields(a: string, b: string, c: string, rest: string)
    ensures FieldsStream([a] + [b, c]) + rest == a + [NUL] + (b + [NUL] + (c + [NUL] + rest))
  {
    assert ([a] + [b, c])[1..] == [b, c] && [b, c][1..] == [c] && [c][1..] == [];
    assert FieldsStream([c]) == c + [NUL] + "";
    assert FieldsStream([b, c]) == b + [NUL] + FieldsStream([c]);
    assert FieldsStream([a] + [b, c]) == a + [NUL] + FieldsStream([b, c]);
  }

  lemma DecodeShape(platform: string, bundle: string, repo: string, files: string)
    requires NUL !in platform && NUL !in bundle && NUL !in repo
    ensures Decode(platform + [NUL] + (bundle + [NUL] + (repo + [NUL] + files))) == (platform, bundle, repo, DecodeFiles(files))
  {
    TakeFieldOf(platform, bundle + [NUL] + (repo + [NUL] + files));
    TakeFieldOf(bundle, repo + [NUL] + files);
    TakeFieldOf(repo, files);
  }

  lemma {:induction false} FirstNulIsFirst(s: string)
    ensures NUL !in s[..FirstNul(s)]
  {
    if s != "" && s[0] != NUL {
      FirstNulIsFirst(s[1..]);
      assert s[..FirstNul(s)] == [s[0]] + s[1..][..FirstNul(s[1..])];
    }
  }

  lemma DecodedFieldsAreNulFree(s: string)
    ensures NUL !in Decode(s).1 && NUL !in Decode(s).2
  {
    var s1 := TakeField(s).1;
    FirstNulIsFirst(s1);
    FirstNulIsFirst(TakeField(s1).1);
  }

  /** The stream has a decoder, which gives the input back exactly when the build arguments have no NUL in them. */
  lemma StreamDecodes(hostKey: string, repository: string, context: Context, listing: seq<string>)
    requires ArePaths(listing)
    ensures Decode(Stream(hostKey, repository, context, listing)) ==
            (if hostKey == "linux-x64" then "linux/amd64" else "linux/arm64",
             "BUNDLE_PLATFORM=" + hostKey, "REPOSITORY=" + repository, Records(context, SortPaths(listing)))
            <==> NulFree(hostKey, repository)
  {
    var bundle, repo := "BUNDLE_PLATFORM=" + hostKey, "REPOSITORY=" + repository;
    DecodedFieldsAreNulFree(Stream(hostKey, repository, context, listing));
    if NulFree(hostKey, repository) {
      SortMembers(listing, Before);
      FilesDecode(context, SortPaths(listing));
      StreamShape(hostKey, repository, context, listing);
      PlatformIsNulFree(hostKey);
      DecodeShape(BuildxPlatform(hostKey), bundle, repo, FilesStream(context, SortPaths(listing)));
    }
  }

  lemma PlatformIsNulFree(hostKey: string)
    ensures NUL !in BuildxPlatform(hostKey) && NUL !in "BUNDLE_PLATFORM=" && NUL !in "REPOSITORY="
  {
  }

  lemma StreamShape(hostKey: string, repository: string, context: Context, listing: seq<string>)
    ensures Stream(hostKey, repository, context, listing) ==
            BuildxPlatform(hostKey) + [NUL] + ("BUNDLE_PLATFORM=" + hostKey + [NUL]
              + ("REPOSITORY=" + repository + [NUL] + FilesStream(context, SortPaths(listing))))
  {
    ThreeFields(BuildxPlatform(hostKey), "BUNDLE_PLATFORM=" + hostKey, "REPOSITORY=" + repository,
                FilesStream(context, SortPaths(listing)));
  }

  /** The listing names every path of the context once. */
  ghost predicate Lists(context: Context, listing: seq<string>) {
    (forall path :: path in context <==> path in listing) && multiset(listing) == multiset(context.Keys)
  }

  /** The files of a context, whatever else it lists. */
  function Files(context: Context): map<string, string> {
    map path | path in context && context[path].File? :: context[path].bytes
  }

  lemma {:induction false} RecordsHold(context: Context, paths: seq<string>, path: string, bytes: string)
    ensures Record(path, bytes) in Records(context, paths) <==> path in paths && path in context && context[path] == File(bytes)
  {
    if paths != [] {
      RecordsHold(context, paths[1..], path, bytes);
    }
  }

  lemma RecordsOfContext(context: Context, listing: seq<string>, path: string, bytes: string)
    requires Lists(context, listing)
    ensures Record(path, bytes) in Records(context, SortPaths(listing)) <==> path in Files(context) && Files(context)[path] == bytes
  {
    SortMembers(listing, Before);
    RecordsHold(context, SortPaths(listing), path, bytes);
  }

  lemma RecordsDetermineFiles(c1: Context, l1: seq<string>, c2: Context, l2: seq<string>)
    requires Lists(c1, l1) && Lists(c2, l2) && Records(c1, SortPaths(l1)) == Records(c2, SortPaths(l2))
    ensures Files(c1) == Files(c2)
  {
    forall path ensures path in Files(c1) ==> path in Files(c2) && Files(c2)[path] == Files(c1)[path] {
      if path in Files(c1) {
        RecordsOfContext(c1, l1, path, Files(c1)[path]);
        RecordsOfContext(c2, l2, path, Files(c1)[path]);
      }
    }
    forall path ensures path in Files(c2) ==> path in Files(c1) {
      if path in Files(c2) {
        RecordsOfContext(c1, l1, path, Files(c2)[path]);
        RecordsOfContext(c2, l2, path, Files(c2)[path]);
      }
    }
  }

  /**
   * An input without NULs in its build arguments shares its stream with itself only, and else only with
   * inputs whose build arguments do have a NUL in them.
   */
  lemma StreamInjective(h1: string, r1: string, c1: Context, l1: seq<string>, h2: string, r2: string, c2: Context, l2: seq<string>)
    requires ArePaths(l1) && ArePaths(l2) && Lists(c1, l1) && Lists(c2, l2)
    requires NulFree(h1, r1) && Stream(h1, r1, c1, l1) == Stream(h2, r2, c2, l2)
    ensures h1 == h2 && r1 == r2 && Files(c1) == Files(c2) <==> NulFree(h2, r2)
  {
    if NulFree(h2, r2) {
      StreamDecodes(h1, r1, c1, l1);
      StreamDecodes(h2, r2, c2, l2);
      SamePrefix("BUNDLE_PLATFORM=", h1, h2);
      SamePrefix("REPOSITORY=", r1, r2);
      RecordsDetermineFiles(c1, l1, c2, l2);
    }
  }

  lemma SamePrefix(prefix: string, a: string, b: string)
    requires prefix + a == prefix + b
    ensures a == b
  {
    assert (prefix + a)[|prefix|..] == a && (prefix + b)[|prefix|..] == b;
  }

  /** The same files, listed in any two orders and beside any directories, give the same stream. */
  lemma StreamOrderFree(hostKey: string, repository: string, context: Context, listing: seq<string>, other: seq<string>)
    requires Lists(context, listing) && Lists(context, other)
    ensures Stream(hostKey, repository, context, listing) == Stream(hostKey, repository, context, other)
  {
    BeforeOrders();
    forall x, y | x in listing && y in listing && x != y ensures Before(x, y) || Before(y, x) {
      BeforeTotal(x, y);
    }
    SortForgetsOrder(listing, other, Before);
  }

  /** A build argument with a NUL in it lets two different inputs share a stream. */
  lemma NulCollides(x: string, y: string, z: string)
    requires x != "linux-x64"
    ensures Stream(x + [NUL] + ("REPOSITORY=" + y), z, map["2" := File("")], ["2"]) ==
            Stream(x, y, map["REPOSITORY=" + z := File("0" + [NUL])], ["REPOSITORY=" + z])
  {
    var h1, repoY, repoZ := x + [NUL] + ("REPOSITORY=" + y), "REPOSITORY=" + y, "REPOSITORY=" + z;
    OtherPlatform(x, "REPOSITORY=" + y);
    OneFileStream(h1, z, "2", "");
    OneFileStream(x, y, repoZ, "0" + [NUL]);
    assert Decimal(0) == "0" && Decimal(2) == "2";
    SmallRecords(repoZ);
  }

  lemma OtherPlatform(x: string, rest: string)
    requires x != "linux-x64"
    ensures BuildxPlatform(x) == "linux/arm64" == BuildxPlatform(x + [NUL] + rest)
  {
    var h := x + [NUL] + rest;
    assert NUL !in "linux-x64" && h[|x|] == NUL;
  }

  lemma SmallRecords(path: string)
    requires Decimal(0) == "0" && Decimal(2) == "2"
    ensures FileRecord("2", "") == "2" + [NUL] + ("0" + [NUL])
    ensures FileRecord(path, "0" + [NUL]) == path + [NUL] + ("2" + [NUL] + ("0" + [NUL]))
  {
  }

  lemma OneFileStream(hostKey: string, repository: string, path: string, bytes: string)
    ensures Stream(hostKey, repository, map[path := File(bytes)], [path]) ==
            BuildxPlatform(hostKey) + [NUL] + ("BUNDLE_PLATFORM=" + hostKey + [NUL]
              + ("REPOSITORY=" + repository + [NUL] + FileRecord(path, bytes)))
  {
    OneFile(path, bytes);
    StreamShape(hostKey, repository, map[path := File(bytes)], [path]);
  }

  lemma OneFile(path: string, bytes: string)
    ensures FilesStream(map[path := File(bytes)], SortPaths([path])) == FileRecord(path, bytes)
  {
    assert [path][1..] == [] && Sort<string>([], Before) == [];
    assert SortPaths([path]) == Insert(path, [], Before) == [path];
    assert FilesStream(map[path := File(bytes)], [path]) == FileRecord(path, bytes) + FilesStream(map[path := File(bytes)], []);
  }
}
