/**
 * `resolveLocalRef` of scripts/compose-schema.ts, and JSON values as the walker sees them.
 *
 * The resolver tests a key with `in`, which also sees the keys every object inherits from its prototype.
 */
module JsonPointer {
  import opened Prelude

  datatype Json =
    | Null
    | Bool(bool)
    | Num(int)
    | Str(text: string)
    | Arr(items: seq<Json>)
    | Obj(fields: map<string, Json>)

  /** A parsed file, and what the keys inherited by every object hold; an inherited function is a `Str` here. */
  datatype Document = Document(root: Json, inherited: map<string, Json>)

  /** `s.replaceAll([a, b], [c])`: leftmost occurrences first, without overlap. */
  function ReplacePair(s: string, a: char, b: char, c: char): string {
    if |s| < 2 then s
    else if s[0] == a && s[1] == b then [c] + ReplacePair(s[2..], a, b, c)
    else [s[0]] + ReplacePair(s[1..], a, b, c)
  }

  /** How the resolver decodes one segment: `~1` first, `~0` second. */
  function DecodeSegment(s: string): string {
    ReplacePair(ReplacePair(s, '~', '1', '/'), '~', '0', '~')
  }

  /** Section 4 of RFC 6901 read as one left-to-right pass. */
  function DecodeOnce(s: string): string {
    if |s| < 2 then s
    else if s[0] == '~' && s[1] == '1' then ['/'] + DecodeOnce(s[2..])
    else if s[0] == '~' && s[1] == '0' then ['~'] + DecodeOnce(s[2..])
    else [s[0]] + DecodeOnce(s[1..])
  }

  /** Section 3 of RFC 6901: `~` is written `~0` and `/` is written `~1`. */
  function EncodeSegment(key: string): string {
    if key == "" then ""
    else (if key[0] == '~' then "~0" else if key[0] == '/' then "~1" else [key[0]]) + EncodeSegment(key[1..])
  }

  /** The two replacements in the resolver's order are the single simultaneous decoding. */
  lemma {:induction false} DecodeIsOnePass(s: string)
    ensures DecodeSegment(s) == DecodeOnce(s)
  {
    if |s| >= 2 {
      if s[0] == '~' && s[1] == '1' {
        DecodeIsOnePass(s[2..]);
      } else if s[0] == '~' && s[1] == '0' {
        DecodeIsOnePass(s[2..]);
        var tail := ReplacePair(s[2..], '~', '1', '/');
        if |s| == 2 {
          assert s[1..] == "0" && s[2..] == "";
        } else {
          assert s[1..][1..] == s[2..];
        }
        assert ReplacePair(s[1..], '~', '1', '/') == ['0'] + tail;
        assert ReplacePair(s, '~', '1', '/') == ['~', '0'] + tail;
        assert (['~', '0'] + tail)[2..] == tail;
      } else {
        DecodeIsOnePass(s[1..]);
        var tail := ReplacePair(s[1..], '~', '1', '/');
        if s[0] != '~' {
        } else {
          assert ([s[0]] + tail)[1..] == tail;
        }
      }
    }
  }

  /** Decoding inverts the escaping for every key. */
  lemma {:induction false} SegmentRoundTrip(key: string)
    ensures DecodeSegment(EncodeSegment(key)) == key
  {
    OnePassRoundTrip(key);
    DecodeIsOnePass(EncodeSegment(key));
  }

  lemma {:induction false} OnePassRoundTrip(key: string)
    ensures DecodeOnce(EncodeSegment(key)) == key
  {
    if key != "" {
      var rest := EncodeSegment(key[1..]);
      OnePassRoundTrip(key[1..]);
      if key[0] == '~' {
        assert ("~0" + rest)[2..] == rest;
      } else if key[0] == '/' {
        assert ("~1" + rest)[2..] == rest;
      } else {
        assert ([key[0]] + rest)[1..] == rest;
      }
    }
  }

  lemma {:induction false} EncodedHasNoSlash(key: string)
    ensures '/' !in EncodeSegment(key)
  {
    if key != "" {
      EncodedHasNoSlash(key[1..]);
    }
  }

  /** The node at a path of own object keys. */
  function FollowOwn(value: Json, keys: seq<string>): Outcome<Json>
    decreases |keys|
  {
    if keys == [] then Ok(value)
    else if !value.Obj? || keys[0] !in value.fields then Thrown
    else FollowOwn(value.fields[keys[0]], keys[1..])
  }

  /** `object[key]` for a key that `key in object` holds of. */
  function Member(inherited: map<string, Json>, value: Json, key: string): Option<Json> {
    if !value.Obj? then None
    else if key in value.fields then Some(value.fields[key])
    else if key in inherited then Some(inherited[key])
    else None
  }

  /** The node at a path of keys, own or inherited. */
  function Follow(inherited: map<string, Json>, value: Json, keys: seq<string>): Outcome<Json>
    decreases |keys|
  {
    if keys == [] then Ok(value)
    else
      var next := Member(inherited, value, keys[0]);
      if next.None? then Thrown else Follow(inherited, next.value, keys[1..])
  }

  /** The path leaves the own keys at an inherited one, and resolves from there. */
  predicate StraysIn(inherited: map<string, Json>, value: Json, keys: seq<string>)
    decreases |keys|
  {
    && keys != [] && value.Obj?
    && if keys[0] in value.fields then StraysIn(inherited, value.fields[keys[0]], keys[1..])
       else keys[0] in inherited && Follow(inherited, inherited[keys[0]], keys[1..]).Ok?
  }

  /** A path reaches the node at its own keys, or throws when there is none, exactly when it does not stray. */
  lemma {:induction false} FollowsOwnKeys(inherited: map<string, Json>, value: Json, keys: seq<string>)
    ensures Follow(inherited, value, keys) == FollowOwn(value, keys) <==> !StraysIn(inherited, value, keys)
    decreases |keys|
  {
    if keys != [] && value.Obj? && keys[0] in value.fields {
      FollowsOwnKeys(inherited, value.fields[keys[0]], keys[1..]);
    }
  }

  /** A path without inherited names never strays. */
  lemma {:induction false} PlainNamesStay(inherited: map<string, Json>, value: Json, keys: seq<string>)
    requires forall key | key in keys :: key !in inherited
    ensures !StraysIn(inherited, value, keys)
    decreases |keys|
  {
    if keys != [] && value.Obj? {
      assert keys[0] in keys;
      if keys[0] in value.fields {
        PlainNamesStay(inherited, value.fields[keys[0]], keys[1..]);
      }
    }
  }

  /** The segments of a reference after `#/`, decoded. */
  function DecodedSegments(ref: string): seq<string>
    requires StartsWith(ref, "#/")
  {
    var segments := Split(ref[2..], '/');
    seq(|segments|, i requires 0 <= i < |segments| => DecodeSegment(segments[i]))
  }

  /** What a reference resolves to in a document. */
  function Resolved(document: Document, ref: string): Outcome<Json> {
    if !StartsWith(ref, "#/") then Thrown else Follow(document.inherited, document.root, DecodedSegments(ref))
  }

  /** `resolveLocalRef`: one object key at a time, throwing at the first segment that does not resolve. */
  method ResolveLocalRef(document: Document, ref: string) returns (r: Outcome<Json>)
    ensures r == Resolved(document, ref)
  {
    if !StartsWith(ref, "#/") { return Thrown; }
    var current := document.root;
    var segments := Split(ref[2..], '/');
    ghost var decoded := DecodedSegments(ref);
    for i := 0 to |segments|
      invariant Follow(document.inherited, current, decoded[i..]) == Follow(document.inherited, document.root, decoded)
    {
      var segment := DecodeSegment(segments[i]);
      assert decoded[i..][1..] == decoded[i + 1..];
      if !current.Obj? || !(segment in current.fields || segment in document.inherited) { return Thrown; }
      current := if segment in current.fields then current.fields[segment] else document.inherited[segment];
    }
    return Ok(current);
  }

  /** The reference that names a path of keys. */
  function PointerOf(keys: seq<string>): string {
    "#/" + Join(seq(|keys|, i requires 0 <= i < |keys| => EncodeSegment(keys[i])), "/")
  }

  /**
   * Resolving the pointer of a non-empty path of keys reaches the node at that path, or throws when there
   * is none, exactly when the path does not stray to an inherited key.
   */
  lemma PointerRoundTrip(document: Document, keys: seq<string>)
    requires keys != []
    ensures Resolved(document, PointerOf(keys)) == Follow(document.inherited, document.root, keys)
    ensures Resolved(document, PointerOf(keys)) == FollowOwn(document.root, keys)
            <==> !StraysIn(document.inherited, document.root, keys)
  {
    var encoded := seq(|keys|, i requires 0 <= i < |keys| => EncodeSegment(keys[i]));
    forall i | 0 <= i < |keys| ensures '/' !in encoded[i] && DecodeSegment(encoded[i]) == keys[i] {
      EncodedHasNoSlash(keys[i]);
      SegmentRoundTrip(keys[i]);
    }
    SplitJoined(encoded, '/');
    assert PointerOf(keys)[2..] == Join(encoded, "/") && PointerOf(keys)[..2] == "#/";
    assert DecodedSegments(PointerOf(keys)) == keys;
    FollowsOwnKeys(document.inherited, document.root, keys);
  }

  /** `#/__proto__` resolves where there is no own key at all. */
  lemma InheritedKeyResolves(prototype: Json)
    ensures var document := Document(Obj(map[]), map["__proto__" := prototype]);
            Resolved(document, PointerOf(["__proto__"])) == Ok(prototype) && FollowOwn(document.root, ["__proto__"]).Thrown?
  {
    var document := Document(Obj(map[]), map["__proto__" := prototype]);
    PointerRoundTrip(document, ["__proto__"]);
    assert Follow(document.inherited, prototype, []) == Ok(prototype);
    assert ["__proto__"][1..] == [];
  }
}
