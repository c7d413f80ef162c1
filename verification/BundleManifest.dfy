/**
 * The runtime-bundle manifest of scripts/build-runtime-bundle.ts and the offline check that guards it
 * (scripts/check-runtime-bundle-manifest.ts). Digests are abstract: `Site` carries the hash function.
 */
module BundleManifest {
  import opened Prelude

  datatype Target = Target(key: string, filename: string)

  datatype Entry = Entry(url: string, sha256: string, filename: string, sizeBytes: nat)

  datatype Manifest = Manifest(runtimeVersion: string, bundles: map<string, Entry>)

  /** Where assets are published, how files are digested, and the bundle targets. */
  datatype Site = Site(repository: string, assetSha: string -> string, targets: seq<Target>, publishedCount: nat) {
    /** The targets a release publishes: the first ones. */
    function Published(): seq<Target>
      requires publishedCount <= |targets|
    {
      targets[..publishedCount]
    }

    /** What the source's fixed target table satisfies. */
    predicate Valid() {
      && publishedCount <= |targets|
      && DistinctKeys(targets)
      && (forall i, j | 0 <= i < j < |targets| :: targets[i].filename != targets[j].filename)
      && (forall t | t in targets :: StartsWith(t.filename, "lando-runtime-"))
    }

    function ExpectedAssets(): set<string>
      requires publishedCount <= |targets|
    {
      set t | t in Published() :: t.filename
    }

    function RequiredKeys(): set<string>
      requires publishedCount <= |targets|
    {
      set t | t in Published() :: t.key
    }
  }

  /** `base.replace(/\/+$/, "")`. */
  function StripSlashes(base: string): string {
    if base != "" && base[|base| - 1] == '/' then StripSlashes(base[..|base| - 1]) else base
  }

  function BaseUrl(site: Site, version: string): string {
    "https://github.com/" + site.repository + "/releases/download/runtime-v" + version
  }

  function BundleUrl(site: Site, version: string, target: Target): string {
    StripSlashes(BaseUrl(site, version)) + "/" + target.filename
  }

  /** `computeBundleEntry`. */
  function BundleEntry(site: Site, version: string, target: Target, bytes: string): Entry {
    Entry(BundleUrl(site, version, target), site.assetSha(bytes), target.filename, |bytes|)
  }

  /** The bundles of the staged targets: one entry for each target whose file was staged. */
  function Bundles(site: Site, version: string, targets: seq<Target>, staging: map<string, string>): map<string, Entry> {
    if targets == [] then map[] else
    var last := targets[|targets| - 1];
    var before := Bundles(site, version, targets[..|targets| - 1], staging);
    if last.filename in staging then before[last.key := BundleEntry(site, version, last, staging[last.filename])] else before
  }

  function Built(site: Site, version: string, staging: map<string, string>): Manifest {
    Manifest(version, Bundles(site, version, site.targets, staging))
  }

  /** `buildRuntimeBundleManifest`: a target whose file is absent is skipped. */
  method BuildRuntimeBundleManifest(site: Site, version: string, targets: seq<Target>, staging: map<string, string>)
    returns (manifest: Manifest)
    ensures manifest == Manifest(version, Bundles(site, version, targets, staging))
  {
    var bundles: map<string, Entry> := map[];
    for i := 0 to |targets|
      invariant bundles == Bundles(site, version, targets[..i], staging)
    {
      var target := targets[i];
      assert targets[..i + 1][..i] == targets[..i];
      if target.filename in staging {
        bundles := bundles[target.key := BundleEntry(site, version, target, staging[target.filename])];
      }
    }
    assert targets[..|targets|] == targets;
    return Manifest(version, bundles);
  }

  predicate DistinctKeys(targets: seq<Target>) {
    forall i, j | 0 <= i < j < |targets| :: targets[i].key != targets[j].key
  }

  /** With distinct keys, an entry describes the staged file of its own target and of no other. */
  lemma {:induction false} BundlesDescribeStaging(site: Site, version: string, targets: seq<Target>, staging: map<string, string>, key: string)
    requires DistinctKeys(targets)
    ensures key in Bundles(site, version, targets, staging) <==>
              exists t :: t in targets && t.key == key && t.filename in staging
    ensures forall t | t in targets && t.key == key && t.filename in staging ::
              Bundles(site, version, targets, staging)[key] == BundleEntry(site, version, t, staging[t.filename])
  {
    if targets != [] {
      var n := |targets| - 1;
      var init, last := targets[..n], targets[n];
      BundlesDescribeStaging(site, version, init, staging, key);
    }
  }

  /** The manifest pins `version` and, for each published target, the checksum and size of its asset. */
  ghost predicate Records(site: Site, version: string, assets: map<string, string>, manifest: Manifest)
    requires site.Valid()
  {
    && manifest.runtimeVersion == version
    && manifest.bundles.Keys == site.RequiredKeys()
    && forall t | t in site.Published() ::
         && t.filename in assets
         && manifest.bundles[t.key] == Entry(BundleUrl(site, version, t), site.assetSha(assets[t.filename]), t.filename, |assets[t.filename]|)
  }

  lemma BuiltKey(site: Site, version: string, assets: map<string, string>, key: string)
    requires site.Valid() && assets.Keys == site.ExpectedAssets()
    ensures key in Built(site, version, assets).bundles <==> key in site.RequiredKeys()
  {
    BundlesDescribeStaging(site, version, site.targets, assets, key);
    if t :| t in site.targets && t.key == key && t.filename in assets {
    }
    if key in site.RequiredKeys() {
      var t :| t in site.Published() && t.key == key;
      assert t in site.targets && t.filename in assets;
    }
  }

  lemma BuiltEntry(site: Site, version: string, assets: map<string, string>, t: Target)
    requires site.Valid() && assets.Keys == site.ExpectedAssets() && t in site.Published()
    ensures t.filename in assets && t.key in Built(site, version, assets).bundles
    ensures Built(site, version, assets).bundles[t.key] == BundleEntry(site, version, t, assets[t.filename])
  {
    BundlesDescribeStaging(site, version, site.targets, assets, t.key);
  }

  lemma RecordsUnique(site: Site, version: string, assets: map<string, string>, a: Manifest, b: Manifest)
    requires site.Valid() && Records(site, version, assets, a) && Records(site, version, assets, b)
    ensures a == b
  {
  }

  /** The manifest built from exactly the expected assets is the one manifest that records them. */
  lemma BuiltRecords(site: Site, version: string, assets: map<string, string>, manifest: Manifest)
    requires site.Valid() && assets.Keys == site.ExpectedAssets()
    ensures Records(site, version, assets, manifest) <==> manifest == Built(site, version, assets)
  {
    var built := Built(site, version, assets);
    forall key { BuiltKey(site, version, assets, key); }
    assert built.bundles.Keys == site.RequiredKeys();
    forall t | t in site.Published() { BuiltEntry(site, version, assets, t); }
    assert Records(site, version, assets, built);
    if Records(site, version, assets, manifest) {
      RecordsUnique(site, version, assets, manifest, built);
    }
  }

  lemma StripNothing(site: Site, version: string)
    requires SafeVersion(version)
    ensures StripSlashes(BaseUrl(site, version)) == BaseUrl(site, version)
  {
    var base := BaseUrl(site, version);
    assert base[|base| - 1] == version[|version| - 1] && version[|version| - 1] in version;
  }

  lemma TrimLine(version: string)
    requires version != "" && forall c | c in version :: !IsSpace(c)
    ensures Trim(version + "\n") == version
  {
    var line := version + "\n";
    assert line[0] == version[0] && version[0] in version;
    assert line[|line| - 1] == '\n' && line[..|line| - 1] == version;
    assert version[|version| - 1] in version;
  }

  /** The manifest built from non-empty expected assets passes the check of its own version. */
  lemma BuiltPasses(site: Site, version: string, assets: map<string, string>)
    requires site.Valid() && assets.Keys == site.ExpectedAssets() && SafeVersion(version)
    requires forall name | name in assets :: assets[name] != ""
    requires forall c | c in version :: !IsSpace(c)
    ensures PassesCheck(site, version + "\n", Built(site, version, assets))
  {
    var built := Built(site, version, assets);
    TrimLine(version);
    StripNothing(site, version);
    BuiltRecords(site, version, assets, built);
    forall key | key in built.bundles
      ensures built.bundles[key].url == BaseUrl(site, version) + "/" + built.bundles[key].filename
      ensures built.bundles[key].filename != "" && built.bundles[key].sizeBytes > 0
    {
      var t :| t in site.Published() && t.key == key;
      assert t in site.targets && t.filename in assets;
    }
  }

  /** What the check asks of a manifest: its version, exactly the published hosts, and assets of that release. */
  lemma CheckMeans(site: Site, versionFile: string, manifest: Manifest)
    requires site.publishedCount <= |site.targets|
    ensures PassesCheck(site, versionFile, manifest) <==>
      && manifest.runtimeVersion == Trim(versionFile) && manifest.runtimeVersion != ""
      && (forall key :: key in manifest.bundles <==> exists t :: t in site.targets[..site.publishedCount] && t.key == key)
      && forall key | key in manifest.bundles ::
           var entry := manifest.bundles[key];
           && entry.url == "https://github.com/" + site.repository + "/releases/download/runtime-v" + manifest.runtimeVersion
                           + "/" + entry.filename
           && entry.filename != "" && entry.sizeBytes > 0
  {
    assert forall key :: key in site.RequiredKeys() <==> exists t :: t in site.targets[..site.publishedCount] && t.key == key;
    assert manifest.bundles.Keys == site.RequiredKeys() <==>
      forall key :: key in manifest.bundles <==> key in site.RequiredKeys();
  }

  /** A built manifest that passes the check was built from non-empty assets. */
  lemma PassingIsFull(site: Site, version: string, versionFile: string, assets: map<string, string>)
    requires site.Valid() && assets.Keys == site.ExpectedAssets() && PassesCheck(site, versionFile, Built(site, version, assets))
    ensures forall name | name in assets :: assets[name] != ""
  {
    forall name | name in assets ensures assets[name] != "" {
      var t :| t in site.Published() && t.filename == name;
      BuiltEntry(site, version, assets, t);
    }
  }

  // ---------------------------------------------------------------- the manifest, line by line

  /** The values that have a line of their own in the file. */
  datatype Field = RuntimeVersion | Url(key: string) | Sha256(key: string) | Filename(key: string) | SizeBytes(key: string)

  datatype Value = Text(text: string) | Number(n: nat)

  /** The value of a field; an absent bundle has no lines. */
  function At(m: Manifest, f: Field): Option<Value> {
    if f.RuntimeVersion? then Some(Text(m.runtimeVersion))
    else if f.key !in m.bundles then None
    else
      match f
      case Url(key) => Some(Text(m.bundles[key].url))
      case Sha256(key) => Some(Text(m.bundles[key].sha256))
      case Filename(key) => Some(Text(m.bundles[key].filename))
      case SizeBytes(key) => Some(Number(m.bundles[key].sizeBytes))
  }

  /** A manifest is determined by its fields. */
  lemma SameFields(a: Manifest, b: Manifest)
    requires forall f :: At(a, f) == At(b, f)
    ensures a == b
  {
    assert At(a, RuntimeVersion) == At(b, RuntimeVersion);
    forall key ensures key in a.bundles <==> key in b.bundles {
      assert At(a, Url(key)) == At(b, Url(key));
    }
    forall key | key in a.bundles ensures a.bundles[key] == b.bundles[key] {
      assert At(a, Url(key)) == At(b, Url(key)) && At(a, Sha256(key)) == At(b, Sha256(key));
      assert At(a, Filename(key)) == At(b, Filename(key)) && At(a, SizeBytes(key)) == At(b, SizeBytes(key));
    }
  }

  /** A three-way merge of one value. */
  function Merge<T(==)>(base: T, ours: T, theirs: T): Option<T> {
    if theirs == base || theirs == ours then Some(ours)
    else if ours == base then Some(theirs)
    else None
  }

  /** `merged` is the three-way merge of the manifests, field by field. */
  ghost predicate Merges(base: Manifest, ours: Manifest, theirs: Manifest, merged: Manifest) {
    forall f :: FieldMerges(base, ours, theirs, merged, f)
  }

  predicate FieldMerges(base: Manifest, ours: Manifest, theirs: Manifest, merged: Manifest, f: Field) {
    Merge(At(base, f), At(ours, f), At(theirs, f)) == Some(At(merged, f))
  }

  /** A merge takes what both sides agree on, and else the side that changed the value. */
  lemma MergeMeans<T>(base: T, ours: T, theirs: T, merged: T)
    ensures Merge(base, ours, theirs) == Some(merged) <==>
      || (ours == theirs && merged == ours) || (theirs == base && merged == ours) || (ours == base && merged == theirs)
  {
  }

  /** `ours` changes the field, or `theirs` left it as it was. */
  predicate FieldSurvives(base: Manifest, ours: Manifest, theirs: Manifest, f: Field) {
    At(ours, f) != At(base, f) || At(theirs, f) == At(base, f)
  }

  /** A merge keeps the fields of `ours` that survive, and no other: it is `ours` exactly when all survive. */
  lemma MergeKeeps(base: Manifest, ours: Manifest, theirs: Manifest, merged: Manifest)
    requires Merges(base, ours, theirs, merged)
    ensures forall f :: At(merged, f) == At(ours, f) <==> FieldSurvives(base, ours, theirs, f)
    ensures merged == ours <==> forall f :: FieldSurvives(base, ours, theirs, f)
  {
    forall f ensures At(merged, f) == At(ours, f) <==> FieldSurvives(base, ours, theirs, f) {
      assert FieldMerges(base, ours, theirs, merged, f);
    }
    if forall f :: FieldSurvives(base, ours, theirs, f) {
      forall f ensures At(merged, f) == At(ours, f) {
        assert FieldSurvives(base, ours, theirs, f);
      }
      SameFields(merged, ours);
    }
  }

  /** The C locale's `[:space:]`. */
  predicate IsPosixSpace(c: char) {
    c == ' ' || '\U{0009}' <= c <= '\U{000D}'
  }

  /** `tr -d '[:space:]'`. */
  function StripSpace(s: string): string {
    if s == "" then "" else (if IsPosixSpace(s[0]) then "" else [s[0]]) + StripSpace(s[1..])
  }

  /** Stripping works character by character and deletes the six white-space characters only. */
  lemma StripMeans(c: char, rest: string)
    ensures StripSpace([c] + rest) == (if c in [' ', '\t', '\n', '\U{000B}', '\U{000C}', '\r'] then "" else [c]) + StripSpace(rest)
  {
    assert ([c] + rest)[1..] == rest;
    assert IsPosixSpace(c) <==> c == ' ' || c == '\t' || c == '\n' || c == '\U{000B}' || c == '\U{000C}' || c == '\r' by {
      assert '\U{0009}' <= c <= '\U{000D}' ==> 9 <= c as int <= 13;
    }
  }

  predicate SafeVersion(version: string) {
    version != "" && forall c | c in version :: !IsPosixSpace(c) && c != '/'
  }

  lemma {:induction false} StripSafe(version: string, tail: string)
    requires forall c | c in version :: !IsPosixSpace(c)
    ensures StripSpace(version + tail) == version + StripSpace(tail)
  {
    if version == "" {
      assert version + tail == tail && version + StripSpace(tail) == StripSpace(tail);
    } else {
      assert (version + tail)[1..] == version[1..] + tail;
      StripSafe(version[1..], tail);
      assert [version[0]] + (version[1..] + StripSpace(tail)) == version + StripSpace(tail);
    }
  }

  /** `check:runtime-bundle-manifest`, except its test that a checksum is well formed. */
  predicate PassesCheck(site: Site, versionFile: string, manifest: Manifest)
    requires site.publishedCount <= |site.targets|
  {
    && manifest.runtimeVersion == Trim(versionFile) && manifest.runtimeVersion != ""
    && manifest.bundles.Keys == site.RequiredKeys()
    && forall key | key in manifest.bundles ::
         var entry := manifest.bundles[key];
         && entry.url == BaseUrl(site, manifest.runtimeVersion) + "/" + entry.filename
         && entry.filename != "" && entry.sizeBytes > 0
  }
}
