/**
 * The key-path walker of scripts/compose-schema.ts over a schema whose `$ref` graph may be cyclic.
 *
 * The order in which an object's entries are visited is left open: the paths found and whether the
 * walk throws do not depend on it.
 */
module ComposeSchema {
  import opened Prelude
  import opened JsonPointer
  import Sorting

  const MAPS := ["properties", "patternProperties"]
  const VARIANTS := ["allOf", "anyOf", "oneOf"]
  const LISTS := ["items", "prefixItems"] + VARIANTS
  const DIRECT := ["items", "if", "then", "else", "not", "contains"]

  /** One move of the walker from a schema to a schema below it. */
  datatype Step =
    | Ref(ref: string)
    | Entry(keyword: string, key: string)
    | Additional
    | Element(keyword: string, index: nat)
    | Direct(keyword: string)

  predicate Has(v: Json, keyword: string) {
    v.Obj? && keyword in v.fields
  }

  /** The subschema a structural step leads to. */
  function Child(v: Json, s: Step): (r: Option<Json>)
    ensures r.Some? ==> r.value < v
  {
    match s
    case Ref(_) => None
    case Entry(keyword, key) =>
      if keyword in MAPS && Has(v, keyword) && v.fields[keyword].Obj? && key in v.fields[keyword].fields
      then Some(v.fields[keyword].fields[key]) else None
    case Additional =>
      if Has(v, "additionalProperties")
         && (v.fields["additionalProperties"].Obj? || v.fields["additionalProperties"] == Bool(true))
      then Some(v.fields["additionalProperties"]) else None
    case Element(keyword, index) =>
      if keyword in LISTS && Has(v, keyword) && v.fields[keyword].Arr? && index < |v.fields[keyword].items|
      then Some(v.fields[keyword].items[index]) else None
    case Direct(keyword) =>
      if keyword in DIRECT && Has(v, keyword) && !(keyword == "items" && v.fields[keyword].Arr?)
      then Some(v.fields[keyword]) else None
  }

  predicate HasRef(v: Json, ref: string) {
    Has(v, "$ref") && v.fields["$ref"] == Str(ref)
  }

  /** The subschema any step leads to: a structural child, or the target of the schema's own reference. */
  function Next(document: Document, v: Json, s: Step): Option<Json> {
    if !s.Ref? then Child(v, s)
    else if HasRef(v, s.ref) && Resolved(document, s.ref).Ok? then Some(Resolved(document, s.ref).result)
    else None
  }

  function PatternSegment(pattern: string): string {
    if StartsWith(pattern, "^x-") then "x-*" else "*"
  }

  /** The path segment a step contributes, if any. */
  function Segments(s: Step): seq<string> {
    match s
    case Entry(keyword, key) => [if keyword == "properties" then key else PatternSegment(key)]
    case Additional => ["*"]
    case _ => []
  }

  function Expand(active: set<string>, s: Step): set<string> {
    if s.Ref? then active + {s.ref} else active
  }

  predicate Allowed(active: set<string>, s: Step) {
    s.Ref? ==> s.ref !in active
  }

  /** The walker throws at this schema itself. */
  predicate Malformed(document: Document, v: Json, active: set<string>) {
    || (!v.Obj? && !v.Bool?)
    || (Has(v, "$ref") && v.fields["$ref"].Str? && v.fields["$ref"].text !in active
        && Resolved(document, v.fields["$ref"].text).Thrown?)
    || (exists keyword | keyword in MAPS :: Has(v, keyword) && !v.fields[keyword].Obj?)
    || (exists keyword | keyword in VARIANTS :: Has(v, keyword) && !v.fields[keyword].Arr?)
  }

  // ---------------------------------------------------------------- termination

  /** Every string inside a value: a finite universe for the references the walk can follow. */
  ghost function Strings(v: Json): set<string> {
    match v
    case Str(text) => {text}
    case Arr(items) => set i, s | 0 <= i < |items| && s in Strings(items[i]) :: s
    case Obj(fields) => set k, s | k in fields && s in Strings(fields[k]) :: s
    case _ => {}
  }

  ghost function DocumentStrings(document: Document): set<string> {
    Strings(document.root) + set k, s | k in document.inherited && s in Strings(document.inherited[k]) :: s
  }

  ghost function Unexpanded(document: Document, v: Json, active: set<string>): nat {
    |DocumentStrings(document) + Strings(v) - active|
  }

  lemma SubsetSize(a: set<string>, b: set<string>)
    requires a <= b
    ensures |a| <= |b|
    ensures a != b ==> |a| < |b|
  {
    assert b == a + (b - a);
    if a != b {
      assert b - a != {};
    }
  }

  lemma {:induction false} FollowInside(document: Document, value: Json, keys: seq<string>)
    requires Strings(value) <= DocumentStrings(document) && Follow(document.inherited, value, keys).Ok?
    ensures Strings(Follow(document.inherited, value, keys).result) <= DocumentStrings(document)
    decreases |keys|
  {
    if keys != [] {
      var next := Member(document.inherited, value, keys[0]).value;
      if keys[0] in value.fields {
        assert Strings(next) <= Strings(value);
      }
      FollowInside(document, next, keys[1..]);
    }
  }

  lemma ChildInside(v: Json, s: Step)
    requires Child(v, s).Some?
    ensures Strings(Child(v, s).value) <= Strings(v)
  {
    match s
    case Entry(keyword, key) => assert Strings(v.fields[keyword].fields[key]) <= Strings(v.fields[keyword]);
    case Element(keyword, index) => assert Strings(v.fields[keyword].items[index]) <= Strings(v.fields[keyword]);
    case _ =>
  }

  /** Each step follows a new reference or goes to a smaller schema. */
  lemma StepDecreases(document: Document, v: Json, active: set<string>, s: Step)
    requires Next(document, v, s).Some? && Allowed(active, s)
    ensures var w, grown := Next(document, v, s).value, Expand(active, s);
            Unexpanded(document, w, grown) < Unexpanded(document, v, active)
            || (Unexpanded(document, w, grown) <= Unexpanded(document, v, active) && w < v)
  {
    var w, grown := Next(document, v, s).value, Expand(active, s);
    var before, after := DocumentStrings(document) + Strings(v) - active, DocumentStrings(document) + Strings(w) - grown;
    if s.Ref? {
      FollowInside(document, document.root, DecodedSegments(s.ref));
      assert s.ref in Strings(v.fields["$ref"]);
      assert s.ref in before && s.ref !in after;
    } else {
      ChildInside(v, s);
    }
    SubsetSize(after, before);
  }

  // ---------------------------------------------------------------- what the walk computes

  /** The walk of `v` throws. */
  ghost predicate Throws(document: Document, v: Json, active: set<string>)
    decreases Unexpanded(document, v, active), v, 1
  {
    Malformed(document, v, active) || exists s :: ThrowsVia(document, v, active, s)
  }

  ghost predicate ThrowsVia(document: Document, v: Json, active: set<string>, s: Step)
    decreases Unexpanded(document, v, active), v, 0
  {
    && Next(document, v, s).Some? && Allowed(active, s)
    && (StepDecreases(document, v, active, s);
        Throws(document, Next(document, v, s).value, Expand(active, s)))
  }

  /** The walk of `v` under `prefix` adds `path`. */
  ghost predicate Found(document: Document, v: Json, prefix: seq<string>, active: set<string>, path: string)
    decreases Unexpanded(document, v, active), v, 1
  {
    exists s :: FoundVia(document, v, prefix, active, s, path)
  }

  ghost predicate FoundVia(document: Document, v: Json, prefix: seq<string>, active: set<string>, s: Step, path: string)
    decreases Unexpanded(document, v, active), v, 0
  {
    && Next(document, v, s).Some? && Allowed(active, s)
    && var longer := prefix + Segments(s);
    || (Segments(s) != [] && path == Join(longer, "."))
    || (StepDecreases(document, v, active, s);
        Found(document, Next(document, v, s).value, longer, Expand(active, s), path))
  }

  // ---------------------------------------------------------------- the walk is reachability

  /** Where a route of steps leads. */
  function Walked(document: Document, v: Json, steps: seq<Step>): Option<Json>
    decreases |steps|
  {
    if steps == [] then Some(v)
    else match Next(document, v, steps[0]) { case None => None case Some(w) => Walked(document, w, steps[1..]) }
  }

  function Labels(steps: seq<Step>): seq<string> {
    if steps == [] then [] else Segments(steps[0]) + Labels(steps[1..])
  }

  /** The route follows each reference at most once, and none of `active`. */
  predicate RefsOnce(steps: seq<Step>, active: set<string>) {
    forall i | 0 <= i < |steps| && steps[i].Ref? ::
      steps[i].ref !in active && steps[i] !in steps[..i]
  }

  /** A route that ends by naming a key, and the path it spells. */
  ghost predicate Spells(document: Document, v: Json, prefix: seq<string>, active: set<string>, steps: seq<Step>, path: string) {
    && steps != [] && Segments(steps[|steps| - 1]) != []
    && Walked(document, v, steps).Some? && RefsOnce(steps, active)
    && path == Join(prefix + Labels(steps), ".")
  }

  lemma RefsOnceStep(s: Step, rest: seq<Step>, active: set<string>)
    ensures RefsOnce([s] + rest, active) <==> Allowed(active, s) && RefsOnce(rest, Expand(active, s))
  {
    var steps := [s] + rest;
    if RefsOnce(steps, active) {
      assert steps[0] == s;
      forall i | 0 <= i < |rest| && rest[i].Ref?
        ensures rest[i].ref !in Expand(active, s) && rest[i] !in rest[..i]
      {
        assert steps[i + 1] == rest[i] && steps[..i + 1] == [s] + rest[..i];
        assert s in steps[..i + 1];
      }
    }
    if Allowed(active, s) && RefsOnce(rest, Expand(active, s)) {
      forall i | 0 <= i < |steps| && steps[i].Ref?
        ensures steps[i].ref !in active && steps[i] !in steps[..i]
      {
        if i > 0 {
          assert steps[i] == rest[i - 1] && steps[..i] == [s] + rest[..i - 1];
        }
      }
    }
  }

  lemma SpellsCons(document: Document, v: Json, prefix: seq<string>, active: set<string>, s: Step, rest: seq<Step>, path: string)
    requires Next(document, v, s).Some? && Allowed(active, s)
    requires if rest == [] then Segments(s) != [] && path == Join(prefix + Segments(s), ".")
             else Spells(document, Next(document, v, s).value, prefix + Segments(s), Expand(active, s), rest, path)
    ensures Spells(document, v, prefix, active, [s] + rest, path)
  {
    RefsOnceStep(s, rest, active);
    assert prefix + Labels([s] + rest) == prefix + Segments(s) + Labels(rest);
    if rest == [] {
      assert prefix + Segments(s) + Labels(rest) == prefix + Segments(s);
    }
  }

  lemma SpellsUncons(document: Document, v: Json, prefix: seq<string>, active: set<string>, s: Step, rest: seq<Step>, path: string)
    requires Spells(document, v, prefix, active, [s] + rest, path)
    ensures Next(document, v, s).Some? && Allowed(active, s)
    ensures rest == [] ==> Segments(s) != [] && path == Join(prefix + Segments(s), ".")
    ensures rest != [] ==>
      Spells(document, Next(document, v, s).value, prefix + Segments(s), Expand(active, s), rest, path)
  {
    RefsOnceStep(s, rest, active);
    assert prefix + Labels([s] + rest) == prefix + Segments(s) + Labels(rest);
    if rest == [] {
      assert prefix + Segments(s) + Labels(rest) == prefix + Segments(s);
    } else {
      assert rest[|rest| - 1] == ([s] + rest)[|rest|];
    }
  }

  lemma {:induction false} FoundHasRoute(document: Document, v: Json, prefix: seq<string>, active: set<string>, path: string)
    returns (steps: seq<Step>)
    requires Found(document, v, prefix, active, path)
    ensures Spells(document, v, prefix, active, steps, path)
    decreases Unexpanded(document, v, active), v
  {
    var s :| FoundVia(document, v, prefix, active, s, path);
    var longer, w := prefix + Segments(s), Next(document, v, s).value;
    var rest := [];
    if !(Segments(s) != [] && path == Join(longer, ".")) {
      StepDecreases(document, v, active, s);
      FoundViaUnfolds(document, v, prefix, active, s, w, path);
      rest := FoundHasRoute(document, w, longer, Expand(active, s), path);
    }
    SpellsCons(document, v, prefix, active, s, rest, path);
    steps := [s] + rest;
  }

  lemma {:induction false} RouteIsFound(document: Document, v: Json, prefix: seq<string>, active: set<string>,
                                        steps: seq<Step>, path: string)
    requires Spells(document, v, prefix, active, steps, path)
    ensures Found(document, v, prefix, active, path)
    decreases |steps|
  {
    var s, rest := steps[0], steps[1..];
    assert steps == [s] + rest;
    SpellsUncons(document, v, prefix, active, s, rest, path);
    if rest != [] {
      RouteIsFound(document, Next(document, v, s).value, prefix + Segments(s), Expand(active, s), rest, path);
    }
    assert FoundVia(document, v, prefix, active, s, path);
  }

  /** The paths added are exactly those spelled by routes that never expand a reference twice. */
  lemma FoundIsReachable(document: Document, v: Json, prefix: seq<string>, active: set<string>, path: string)
    ensures Found(document, v, prefix, active, path)
       <==> exists steps :: Spells(document, v, prefix, active, steps, path)
  {
    if Found(document, v, prefix, active, path) {
      var steps := FoundHasRoute(document, v, prefix, active, path);
    }
    if steps :| Spells(document, v, prefix, active, steps, path) {
      RouteIsFound(document, v, prefix, active, steps, path);
    }
  }

  // ---------------------------------------------------------------- the walker

  /** `after` is `before` together with the paths found through the steps in `done`, none of which throws. */
  ghost predicate Accounts(before: set<string>, after: set<string>, document: Document, v: Json,
                           prefix: seq<string>, active: set<string>, done: iset<Step>) {
    && (forall path :: path in after <==>
         path in before || exists s :: s in done && FoundVia(document, v, prefix, active, s, path))
    && (forall s | s in done :: !ThrowsVia(document, v, active, s))
  }

  lemma AccountsJoin(a: set<string>, b: set<string>, c: set<string>, document: Document, v: Json,
                     prefix: seq<string>, active: set<string>, done: iset<Step>, more: iset<Step>)
    requires Accounts(a, b, document, v, prefix, active, done)
    requires Accounts(b, c, document, v, prefix, active, more)
    ensures Accounts(a, c, document, v, prefix, active, done + more)
  {
  }

  lemma ThrowsViaUnfolds(document: Document, v: Json, active: set<string>, s: Step, w: Json)
    requires Next(document, v, s) == Some(w) && Allowed(active, s)
    ensures ThrowsVia(document, v, active, s) == Throws(document, w, Expand(active, s))
  {
  }

  lemma FoundViaUnfolds(document: Document, v: Json, prefix: seq<string>, active: set<string>, s: Step, w: Json, p: string)
    requires Next(document, v, s) == Some(w) && Allowed(active, s)
    ensures var longer := prefix + Segments(s);
            FoundVia(document, v, prefix, active, s, p) <==>
            || (Segments(s) != [] && p == Join(longer, ".")) || Found(document, w, longer, Expand(active, s), p)
  {
  }

  /** `addPath`: the path named by arriving at `path` through `s`. */
  function Named(s: Step, path: seq<string>): set<string> {
    if Segments(s) == [] then {} else {Join(path, ".")}
  }

  /** `after` is `before` together with the paths found in `v`. */
  ghost predicate Adds(before: set<string>, after: set<string>, document: Document, v: Json, prefix: seq<string>, active: set<string>) {
    forall path :: path in after <==> path in before || Found(document, v, prefix, active, path)
  }

  lemma AccountsOne(a: set<string>, b: set<string>, document: Document, v: Json, prefix: seq<string>,
                    active: set<string>, s: Step, w: Json)
    requires Next(document, v, s) == Some(w) && Allowed(active, s) && !Throws(document, w, Expand(active, s))
    requires Adds(a + Named(s, prefix + Segments(s)), b, document, w, prefix + Segments(s), Expand(active, s))
    ensures Accounts(a, b, document, v, prefix, active, iset{s})
  {
  }

  ghost function RefSteps(): iset<Step> {
    iset s: Step | s.Ref?
  }

  ghost function EntrySteps(keywords: seq<string>): iset<Step> {
    iset s: Step | s.Entry? && s.keyword in keywords
  }

  ghost function ElementSteps(keywords: seq<string>): iset<Step> {
    iset s: Step | s.Element? && s.keyword in keywords
  }

  ghost function DirectSteps(keywords: seq<string>): iset<Step> {
    iset s: Step | s.Direct? && s.keyword in keywords
  }

  ghost function NamedSteps(): iset<Step> {
    EntrySteps(MAPS) + iset{Additional}
  }

  ghost function InPlaceSteps(): iset<Step> {
    ElementSteps(LISTS) + DirectSteps(DIRECT)
  }

  lemma OneMoreDirect(i: nat)
    requires 1 <= i < |DIRECT|
    ensures DirectSteps(DIRECT[1..i + 1]) == DirectSteps(DIRECT[1..i]) + DirectSteps([DIRECT[i]])
  {
    assert DIRECT[1..i + 1] == DIRECT[1..i] + [DIRECT[i]];
  }

  /** The shared path set. */
  class KeyPaths {
    var paths: set<string>

    constructor ()
      ensures paths == {}
    {
      paths := {};
    }

    /** One step: adds the path it names, if any, and walks the schema it leads to. */
    method Take(document: Document, v: Json, prefix: seq<string>, active: set<string>, s: Step, w: Json) returns (threw: bool)
      requires Next(document, v, s) == Some(w) && Allowed(active, s)
      modifies this
      ensures threw <==> ThrowsVia(document, v, active, s)
      ensures !threw ==> Accounts(old(paths), paths, document, v, prefix, active, iset{s})
      decreases Unexpanded(document, v, active), v, 0
    {
      var path := prefix + Segments(s);
      paths := paths + Named(s, path);
      StepDecreases(document, v, active, s);
      threw := WalkSchema(document, w, path, Expand(active, s));
      if !threw {
        AccountsOne(old(paths), paths, document, v, prefix, active, s, w);
      }
      ThrowsViaUnfolds(document, v, active, s, w);
    }

    method TakeRef(document: Document, v: Json, prefix: seq<string>, active: set<string>) returns (threw: bool)
      requires v.Obj?
      modifies this
      ensures threw ==> Throws(document, v, active)
      ensures !threw ==> Accounts(old(paths), paths, document, v, prefix, active, RefSteps())
      ensures !threw && Has(v, "$ref") && v.fields["$ref"].Str? && v.fields["$ref"].text !in active ==>
                Resolved(document, v.fields["$ref"].text).Ok?
      decreases Unexpanded(document, v, active), v, 1
    {
      if "$ref" in v.fields && v.fields["$ref"].Str? && v.fields["$ref"].text !in active {
        var ref := v.fields["$ref"].text;
        var target := ResolveLocalRef(document, ref);
        if target.Thrown? { return true; }
        threw := Take(document, v, prefix, active, Ref(ref), target.result);
        if !threw {
          AccountsJoin(old(paths), paths, paths, document, v, prefix, active, iset{Ref(ref)}, RefSteps() - iset{Ref(ref)});
          assert iset{Ref(ref)} + (RefSteps() - iset{Ref(ref)}) == RefSteps();
        }
      } else {
        threw := false;
      }
    }

    /** The loops over `properties` and `patternProperties`. */
    method TakeEntries(document: Document, v: Json, prefix: seq<string>, active: set<string>, keyword: string)
      returns (threw: bool)
      requires v.Obj? && keyword in MAPS
      modifies this
      ensures threw ==> Throws(document, v, active)
      ensures !threw ==> Accounts(old(paths), paths, document, v, prefix, active, EntrySteps([keyword]))
      ensures !threw && Has(v, keyword) ==> v.fields[keyword].Obj?
      decreases Unexpanded(document, v, active), v, 1
    {
      if keyword !in v.fields {
        return false;
      }
      if !v.fields[keyword].Obj? { return true; }
      var entries := v.fields[keyword].fields;
      var remaining := entries.Keys;
      ghost var done := EntrySteps([keyword]) - iset s: Step | s.Entry? && s.key in remaining;
      while remaining != {}
        invariant remaining <= entries.Keys
        invariant done == EntrySteps([keyword]) - iset s: Step | s.Entry? && s.key in remaining
        invariant Accounts(old(paths), paths, document, v, prefix, active, done)
      {
        var key :| key in remaining;
        ghost var before := paths;
        threw := Take(document, v, prefix, active, Entry(keyword, key), entries[key]);
        if threw { return; }
        AccountsJoin(old(paths), before, paths, document, v, prefix, active, done, iset{Entry(keyword, key)});
        done := done + iset{Entry(keyword, key)};
        remaining := remaining - {key};
      }
      assert done == EntrySteps([keyword]);
      threw := false;
    }

    /** The loop over an array of subschemas; a keyword that is absent or no array contributes nothing here. */
    method TakeElements(document: Document, v: Json, prefix: seq<string>, active: set<string>, keyword: string)
      returns (threw: bool)
      requires v.Obj? && keyword in LISTS
      modifies this
      ensures threw ==> Throws(document, v, active)
      ensures !threw ==> Accounts(old(paths), paths, document, v, prefix, active, ElementSteps([keyword]))
      decreases Unexpanded(document, v, active), v, 1
    {
      if keyword !in v.fields || !v.fields[keyword].Arr? {
        return false;
      }
      var items := v.fields[keyword].items;
      ghost var done := ElementSteps([keyword]) - iset s: Step | s.Element? && s.index < |items|;
      for i := 0 to |items|
        invariant done == ElementSteps([keyword]) - iset s: Step | s.Element? && i <= s.index < |items|
        invariant Accounts(old(paths), paths, document, v, prefix, active, done)
      {
        ghost var before := paths;
        threw := Take(document, v, prefix, active, Element(keyword, i), items[i]);
        if threw { return; }
        AccountsJoin(old(paths), before, paths, document, v, prefix, active, done, iset{Element(keyword, i)});
        done := done + iset{Element(keyword, i)};
      }
      assert done == ElementSteps([keyword]);
      threw := false;
    }

    /** A keyword whose value is itself a subschema. */
    method TakeDirect(document: Document, v: Json, prefix: seq<string>, active: set<string>, keyword: string)
      returns (threw: bool)
      requires v.Obj? && keyword in DIRECT
      modifies this
      ensures threw ==> Throws(document, v, active)
      ensures !threw ==> Accounts(old(paths), paths, document, v, prefix, active, DirectSteps([keyword]))
      decreases Unexpanded(document, v, active), v, 1
    {
      assert DirectSteps([keyword]) == iset{Direct(keyword)};
      if keyword in v.fields && !(keyword == "items" && v.fields[keyword].Arr?) {
        threw := Take(document, v, prefix, active, Direct(keyword), v.fields[keyword]);
      } else {
        threw := false;
      }
    }

    /** `additionalProperties`: `true` names a path without a schema below it. */
    method TakeAdditional(document: Document, v: Json, prefix: seq<string>, active: set<string>) returns (threw: bool)
      requires v.Obj?
      modifies this
      ensures threw ==> Throws(document, v, active)
      ensures !threw ==> Accounts(old(paths), paths, document, v, prefix, active, iset{Additional})
      decreases Unexpanded(document, v, active), v, 1
    {
      if "additionalProperties" in v.fields
         && (v.fields["additionalProperties"].Obj? || v.fields["additionalProperties"] == Bool(true)) {
        threw := Take(document, v, prefix, active, Additional, v.fields["additionalProperties"]);
      } else {
        threw := false;
      }
    }

    /** The loop over `allOf`, `anyOf` and `oneOf`. */
    method TakeVariants(document: Document, v: Json, prefix: seq<string>, active: set<string>) returns (threw: bool)
      requires v.Obj?
      modifies this
      ensures threw ==> Throws(document, v, active)
      ensures !threw ==> Accounts(old(paths), paths, document, v, prefix, active, ElementSteps(VARIANTS))
      ensures !threw ==> forall keyword | keyword in VARIANTS && Has(v, keyword) :: v.fields[keyword].Arr?
      decreases Unexpanded(document, v, active), v, 2, 0
    {
      for i := 0 to |VARIANTS|
        invariant Accounts(old(paths), paths, document, v, prefix, active, ElementSteps(VARIANTS[..i]))
        invariant forall keyword | keyword in VARIANTS[..i] && Has(v, keyword) :: v.fields[keyword].Arr?
      {
        var keyword := VARIANTS[i];
        if keyword in v.fields && !v.fields[keyword].Arr? { return true; }
        ghost var before := paths;
        threw := TakeElements(document, v, prefix, active, keyword);
        if threw { return; }
        AccountsJoin(old(paths), before, paths, document, v, prefix, active,
                     ElementSteps(VARIANTS[..i]), ElementSteps([keyword]));
        assert VARIANTS[..i + 1] == VARIANTS[..i] + [keyword];
        assert ElementSteps(VARIANTS[..i + 1]) == ElementSteps(VARIANTS[..i]) + ElementSteps([keyword]);
      }
      assert VARIANTS[..|VARIANTS|] == VARIANTS;
      threw := false;
    }

    /** The loop over `if`, `then`, `else`, `not` and `contains`. */
    method TakeApplicators(document: Document, v: Json, prefix: seq<string>, active: set<string>) returns (threw: bool)
      requires v.Obj?
      modifies this
      ensures threw ==> Throws(document, v, active)
      ensures !threw ==> Accounts(old(paths), paths, document, v, prefix, active, DirectSteps(DIRECT[1..]))
      decreases Unexpanded(document, v, active), v, 2, 0
    {
      for i := 1 to |DIRECT|
        invariant Accounts(old(paths), paths, document, v, prefix, active, DirectSteps(DIRECT[1..i]))
      {
        ghost var before := paths;
        threw := TakeDirect(document, v, prefix, active, DIRECT[i]);
        if threw { return; }
        AccountsJoin(old(paths), before, paths, document, v, prefix, active,
                     DirectSteps(DIRECT[1..i]), DirectSteps([DIRECT[i]]));
        OneMoreDirect(i);
      }
      assert DIRECT[1..|DIRECT|] == DIRECT[1..];
      threw := false;
    }

    /** The keywords that add a path segment. */
    method TakeNamed(document: Document, v: Json, prefix: seq<string>, active: set<string>) returns (threw: bool)
      requires v.Obj?
      modifies this
      ensures threw ==> Throws(document, v, active)
      ensures !threw ==> Accounts(old(paths), paths, document, v, prefix, active, NamedSteps())
      ensures !threw ==> forall keyword | keyword in MAPS && Has(v, keyword) :: v.fields[keyword].Obj?
      decreases Unexpanded(document, v, active), v, 2, 0
    {
      threw := TakeEntries(document, v, prefix, active, "properties");
      if threw { return; }
      ghost var done, before := EntrySteps(["properties"]), paths;
      threw := TakeEntries(document, v, prefix, active, "patternProperties");
      if threw { return; }
      AccountsJoin(old(paths), before, paths, document, v, prefix, active, done, EntrySteps(["patternProperties"]));
      done, before := done + EntrySteps(["patternProperties"]), paths;
      threw := TakeAdditional(document, v, prefix, active);
      if threw { return; }
      AccountsJoin(old(paths), before, paths, document, v, prefix, active, done, iset{Additional});
      assert done + iset{Additional} == NamedSteps();
    }

    /** The keywords whose subschemas constrain the same path. */
    method TakeInPlace(document: Document, v: Json, prefix: seq<string>, active: set<string>) returns (threw: bool)
      requires v.Obj?
      modifies this
      ensures threw ==> Throws(document, v, active)
      ensures !threw ==> Accounts(old(paths), paths, document, v, prefix, active, InPlaceSteps())
      ensures !threw ==> forall keyword | keyword in VARIANTS && Has(v, keyword) :: v.fields[keyword].Arr?
      decreases Unexpanded(document, v, active), v, 2, 1
    {
      threw := TakeElements(document, v, prefix, active, "items");
      if threw { return; }
      ghost var done, before := ElementSteps(["items"]), paths;
      threw := TakeDirect(document, v, prefix, active, "items");
      if threw { return; }
      AccountsJoin(old(paths), before, paths, document, v, prefix, active, done, DirectSteps(["items"]));
      done, before := done + DirectSteps(["items"]), paths;
      threw := TakeElements(document, v, prefix, active, "prefixItems");
      if threw { return; }
      AccountsJoin(old(paths), before, paths, document, v, prefix, active, done, ElementSteps(["prefixItems"]));
      done, before := done + ElementSteps(["prefixItems"]), paths;
      threw := TakeVariants(document, v, prefix, active);
      if threw { return; }
      AccountsJoin(old(paths), before, paths, document, v, prefix, active, done, ElementSteps(VARIANTS));
      done, before := done + ElementSteps(VARIANTS), paths;
      threw := TakeApplicators(document, v, prefix, active);
      if threw { return; }
      AccountsJoin(old(paths), before, paths, document, v, prefix, active, done, DirectSteps(DIRECT[1..]));
      assert DIRECT == ["items"] + DIRECT[1..];
      assert done + DirectSteps(DIRECT[1..]) == InPlaceSteps();
    }

    /** `walkSchema`: throws exactly when some walk below throws, and otherwise adds exactly the paths found. */
    method WalkSchema(document: Document, v: Json, prefix: seq<string>, active: set<string>) returns (threw: bool)
      modifies this
      ensures threw <==> Throws(document, v, active)
      ensures !threw ==> Adds(old(paths), paths, document, v, prefix, active)
      decreases Unexpanded(document, v, active), v, 3
    {
      if v.Bool? { return false; }
      if !v.Obj? { return true; }
      threw := TakeRef(document, v, prefix, active);
      if threw { return; }
      ghost var done, before := RefSteps(), paths;
      threw := TakeNamed(document, v, prefix, active);
      if threw { return; }
      AccountsJoin(old(paths), before, paths, document, v, prefix, active, done, NamedSteps());
      done, before := done + NamedSteps(), paths;
      threw := TakeInPlace(document, v, prefix, active);
      if threw { return; }
      AccountsJoin(old(paths), before, paths, document, v, prefix, active, done, InPlaceSteps());
    }
  }

  // ---------------------------------------------------------------- where the walk throws

  function ExpandAll(active: set<string>, steps: seq<Step>): set<string>
    decreases |steps|
  {
    if steps == [] then active else ExpandAll(Expand(active, steps[0]), steps[1..])
  }

  /** A route to a schema the walker rejects. */
  ghost predicate Breaks(document: Document, v: Json, active: set<string>, steps: seq<Step>) {
    && Walked(document, v, steps).Some? && RefsOnce(steps, active)
    && Malformed(document, Walked(document, v, steps).value, ExpandAll(active, steps))
  }

  lemma BreaksCons(document: Document, v: Json, active: set<string>, s: Step, rest: seq<Step>)
    requires Next(document, v, s).Some? && Allowed(active, s)
    requires Breaks(document, Next(document, v, s).value, Expand(active, s), rest)
    ensures Breaks(document, v, active, [s] + rest)
  {
    RefsOnceStep(s, rest, active);
    assert ([s] + rest)[1..] == rest;
  }

  lemma {:induction false} ThrowHasRoute(document: Document, v: Json, active: set<string>) returns (steps: seq<Step>)
    requires Throws(document, v, active)
    ensures Breaks(document, v, active, steps)
    decreases Unexpanded(document, v, active), v
  {
    if Malformed(document, v, active) {
      steps := [];
    } else {
      var s :| ThrowsVia(document, v, active, s);
      var w := Next(document, v, s).value;
      StepDecreases(document, v, active, s);
      ThrowsViaUnfolds(document, v, active, s, w);
      var rest := ThrowHasRoute(document, w, Expand(active, s));
      BreaksCons(document, v, active, s, rest);
      steps := [s] + rest;
    }
  }

  lemma {:induction false} RouteThrows(document: Document, v: Json, active: set<string>, steps: seq<Step>)
    requires Breaks(document, v, active, steps)
    ensures Throws(document, v, active)
    decreases |steps|
  {
    if steps != [] {
      var s, rest := steps[0], steps[1..];
      assert steps == [s] + rest;
      RefsOnceStep(s, rest, active);
      RouteThrows(document, Next(document, v, s).value, Expand(active, s), rest);
      ThrowsViaUnfolds(document, v, active, s, Next(document, v, s).value);
    }
  }

  /** The walk throws exactly when a route that never expands a reference twice meets a malformed schema. */
  lemma ThrowsIsReachable(document: Document, v: Json, active: set<string>)
    ensures Throws(document, v, active) <==> exists steps :: Breaks(document, v, active, steps)
  {
    if Throws(document, v, active) {
      var steps := ThrowHasRoute(document, v, active);
    }
    if steps :| Breaks(document, v, active, steps) {
      RouteThrows(document, v, active, steps);
    }
  }

  // ---------------------------------------------------------------- keyword by keyword

  /** Arriving at `child` under `longer` names that path, or finds it below. */
  ghost predicate FoundAt(document: Document, child: Json, longer: seq<string>, active: set<string>, path: string) {
    path == Join(longer, ".") || Found(document, child, longer, active, path)
  }

  ghost predicate FoundByRef(document: Document, v: Json, prefix: seq<string>, active: set<string>, path: string) {
    v.Obj? && "$ref" in v.fields && v.fields["$ref"].Str?
    && var ref := v.fields["$ref"].text;
    && ref !in active && Resolved(document, ref).Ok?
    && Found(document, Resolved(document, ref).result, prefix, active + {ref}, path)
  }

  ghost predicate FoundInProperties(document: Document, v: Json, prefix: seq<string>, active: set<string>, path: string) {
    v.Obj? && "properties" in v.fields && v.fields["properties"].Obj?
    && exists key | key in v.fields["properties"].fields ::
         FoundAt(document, v.fields["properties"].fields[key], prefix + [key], active, path)
  }

  /** The segment of an extension pattern is `x-*`, of any other pattern `*`. */
  function SegmentOf(pattern: string): string {
    if |pattern| >= 3 && pattern[0] == '^' && pattern[1] == 'x' && pattern[2] == '-' then "x-*" else "*"
  }

  ghost predicate FoundInPatterns(document: Document, v: Json, prefix: seq<string>, active: set<string>, path: string) {
    v.Obj? && "patternProperties" in v.fields && v.fields["patternProperties"].Obj?
    && exists pattern | pattern in v.fields["patternProperties"].fields ::
         FoundAt(document, v.fields["patternProperties"].fields[pattern], prefix + [SegmentOf(pattern)], active, path)
  }

  ghost predicate FoundInAdditional(document: Document, v: Json, prefix: seq<string>, active: set<string>, path: string) {
    v.Obj? && "additionalProperties" in v.fields
    && (v.fields["additionalProperties"] == Bool(true) || v.fields["additionalProperties"].Obj?)
    && FoundAt(document, v.fields["additionalProperties"], prefix + ["*"], active, path)
  }

  ghost predicate FoundInList(document: Document, v: Json, keyword: string, prefix: seq<string>, active: set<string>, path: string) {
    v.Obj? && keyword in v.fields && v.fields[keyword].Arr?
    && exists i: nat :: i < |v.fields[keyword].items| && Found(document, v.fields[keyword].items[i], prefix, active, path)
  }

  ghost predicate FoundUnder(document: Document, v: Json, keyword: string, prefix: seq<string>, active: set<string>, path: string) {
    v.Obj? && keyword in v.fields && Found(document, v.fields[keyword], prefix, active, path)
  }

  ghost predicate FoundInLists(document: Document, v: Json, prefix: seq<string>, active: set<string>, path: string) {
    || FoundInList(document, v, "items", prefix, active, path) || FoundInList(document, v, "prefixItems", prefix, active, path)
    || FoundInList(document, v, "allOf", prefix, active, path) || FoundInList(document, v, "anyOf", prefix, active, path)
    || FoundInList(document, v, "oneOf", prefix, active, path)
  }

  /** `items` that is no array, and the keywords that hold one schema. */
  ghost predicate FoundDirectly(document: Document, v: Json, prefix: seq<string>, active: set<string>, path: string) {
    || (FoundUnder(document, v, "items", prefix, active, path) && !v.fields["items"].Arr?)
    || FoundUnder(document, v, "if", prefix, active, path) || FoundUnder(document, v, "then", prefix, active, path)
    || FoundUnder(document, v, "else", prefix, active, path) || FoundUnder(document, v, "not", prefix, active, path)
    || FoundUnder(document, v, "contains", prefix, active, path)
  }

  lemma ElementFound(document: Document, v: Json, keyword: string, prefix: seq<string>, active: set<string>, path: string)
    requires keyword in ["items", "prefixItems", "allOf", "anyOf", "oneOf"]
    ensures FoundInList(document, v, keyword, prefix, active, path) <==>
      exists i: nat :: FoundVia(document, v, prefix, active, Element(keyword, i), path)
  {
    assert prefix + [] == prefix;
    forall i: nat
      ensures FoundVia(document, v, prefix, active, Element(keyword, i), path) <==>
        Has(v, keyword) && v.fields[keyword].Arr? && i < |v.fields[keyword].items|
        && Found(document, v.fields[keyword].items[i], prefix, active, path)
    {
      var s := Element(keyword, i);
      if Next(document, v, s).Some? {
        FoundViaUnfolds(document, v, prefix, active, s, Next(document, v, s).value, path);
      }
    }
  }

  lemma DirectFound(document: Document, v: Json, keyword: string, prefix: seq<string>, active: set<string>, path: string)
    requires keyword in ["items", "if", "then", "else", "not", "contains"]
    ensures FoundVia(document, v, prefix, active, Direct(keyword), path) <==>
      FoundUnder(document, v, keyword, prefix, active, path) && !(keyword == "items" && v.fields[keyword].Arr?)
  {
    var s := Direct(keyword);
    assert prefix + [] == prefix;
    if Next(document, v, s).Some? {
      FoundViaUnfolds(document, v, prefix, active, s, Next(document, v, s).value, path);
    }
  }

  lemma PropertyFound(document: Document, v: Json, prefix: seq<string>, active: set<string>, path: string)
    ensures FoundInProperties(document, v, prefix, active, path) <==>
      exists key :: FoundVia(document, v, prefix, active, Entry("properties", key), path)
  {
    forall key
      ensures FoundVia(document, v, prefix, active, Entry("properties", key), path) <==>
        Has(v, "properties") && v.fields["properties"].Obj? && key in v.fields["properties"].fields
        && FoundAt(document, v.fields["properties"].fields[key], prefix + [key], active, path)
    {
      var s := Entry("properties", key);
      if Next(document, v, s).Some? {
        FoundViaUnfolds(document, v, prefix, active, s, Next(document, v, s).value, path);
      }
    }
  }

  lemma SegmentsOfPattern(pattern: string)
    ensures Segments(Entry("patternProperties", pattern)) == [SegmentOf(pattern)]
  {
    assert |"patternProperties"| != |"properties"|;
    assert |pattern| >= 3 ==> pattern[..3] == [pattern[0], pattern[1], pattern[2]];
    assert "^x-" == ['^', 'x', '-'];
  }

  lemma PatternFound(document: Document, v: Json, prefix: seq<string>, active: set<string>, path: string)
    ensures FoundInPatterns(document, v, prefix, active, path) <==>
      exists pattern :: FoundVia(document, v, prefix, active, Entry("patternProperties", pattern), path)
  {
    forall pattern
      ensures FoundVia(document, v, prefix, active, Entry("patternProperties", pattern), path) <==>
        Has(v, "patternProperties") && v.fields["patternProperties"].Obj? && pattern in v.fields["patternProperties"].fields
        && FoundAt(document, v.fields["patternProperties"].fields[pattern], prefix + [SegmentOf(pattern)], active, path)
    {
      var s := Entry("patternProperties", pattern);
      SegmentsOfPattern(pattern);
      if Next(document, v, s).Some? {
        FoundViaUnfolds(document, v, prefix, active, s, Next(document, v, s).value, path);
      }
    }
  }

  lemma AdditionalFound(document: Document, v: Json, prefix: seq<string>, active: set<string>, path: string)
    ensures FoundInAdditional(document, v, prefix, active, path) <==> FoundVia(document, v, prefix, active, Additional, path)
  {
    if Next(document, v, Additional).Some? {
      FoundViaUnfolds(document, v, prefix, active, Additional, Next(document, v, Additional).value, path);
    }
  }

  lemma RefFound(document: Document, v: Json, prefix: seq<string>, active: set<string>, path: string)
    ensures FoundByRef(document, v, prefix, active, path) <==>
      exists ref :: FoundVia(document, v, prefix, active, Ref(ref), path)
  {
    assert prefix + [] == prefix;
    forall ref
      ensures FoundVia(document, v, prefix, active, Ref(ref), path) <==>
        HasRef(v, ref) && FoundByRef(document, v, prefix, active, path)
    {
      var s := Ref(ref);
      if Next(document, v, s).Some? && Allowed(active, s) {
        FoundViaUnfolds(document, v, prefix, active, s, Next(document, v, s).value, path);
      }
    }
    if FoundByRef(document, v, prefix, active, path) {
      assert HasRef(v, v.fields["$ref"].text);
    }
  }

  /** What the walk of a schema finds, keyword by keyword. */
  lemma FoundMeans(document: Document, v: Json, prefix: seq<string>, active: set<string>, path: string)
    ensures Found(document, v, prefix, active, path) <==>
      || FoundByRef(document, v, prefix, active, path) || FoundInProperties(document, v, prefix, active, path)
      || FoundInPatterns(document, v, prefix, active, path) || FoundInAdditional(document, v, prefix, active, path)
      || FoundInLists(document, v, prefix, active, path) || FoundDirectly(document, v, prefix, active, path)
  {
    RefFound(document, v, prefix, active, path);
    PropertyFound(document, v, prefix, active, path);
    PatternFound(document, v, prefix, active, path);
    AdditionalFound(document, v, prefix, active, path);
    ListsFound(document, v, prefix, active, path);
    DirectsFound(document, v, prefix, active, path);
    if s :| FoundVia(document, v, prefix, active, s, path) {
      match s
      case Ref(_) =>
      case Entry(keyword, _) => assert keyword == "properties" || keyword == "patternProperties";
      case Additional =>
      case Element(_, _) =>
      case Direct(_) =>
    }
  }

  lemma ListsFound(document: Document, v: Json, prefix: seq<string>, active: set<string>, path: string)
    ensures FoundInLists(document, v, prefix, active, path) <==>
      exists keyword, i: nat :: FoundVia(document, v, prefix, active, Element(keyword, i), path)
  {
    ElementFound(document, v, "items", prefix, active, path);
    ElementFound(document, v, "prefixItems", prefix, active, path);
    ElementFound(document, v, "allOf", prefix, active, path);
    ElementFound(document, v, "anyOf", prefix, active, path);
    ElementFound(document, v, "oneOf", prefix, active, path);
    if keyword, i: nat :| FoundVia(document, v, prefix, active, Element(keyword, i), path) {
      assert keyword in ["items", "prefixItems", "allOf", "anyOf", "oneOf"];
    }
  }

  lemma DirectsFound(document: Document, v: Json, prefix: seq<string>, active: set<string>, path: string)
    ensures FoundDirectly(document, v, prefix, active, path) <==>
      exists keyword :: FoundVia(document, v, prefix, active, Direct(keyword), path)
  {
    DirectFound(document, v, "items", prefix, active, path);
    DirectFound(document, v, "if", prefix, active, path);
    DirectFound(document, v, "then", prefix, active, path);
    DirectFound(document, v, "else", prefix, active, path);
    DirectFound(document, v, "not", prefix, active, path);
    DirectFound(document, v, "contains", prefix, active, path);
    if keyword :| FoundVia(document, v, prefix, active, Direct(keyword), path) {
      assert keyword in ["items", "if", "then", "else", "not", "contains"];
    }
  }

  ghost predicate ThrowsByRef(document: Document, v: Json, active: set<string>) {
    v.Obj? && "$ref" in v.fields && v.fields["$ref"].Str?
    && var ref := v.fields["$ref"].text;
    ref !in active && (Resolved(document, ref).Thrown? || Throws(document, Resolved(document, ref).result, active + {ref}))
  }

  /** The keyword holds no object, or the walk of one of its schemas throws. */
  ghost predicate ThrowsInMap(document: Document, v: Json, keyword: string, active: set<string>) {
    v.Obj? && keyword in v.fields
    && (v.fields[keyword].Obj? ==>
          exists key | key in v.fields[keyword].fields :: Throws(document, v.fields[keyword].fields[key], active))
  }

  ghost predicate ThrowsInList(document: Document, v: Json, keyword: string, active: set<string>) {
    v.Obj? && keyword in v.fields && v.fields[keyword].Arr?
    && exists i: nat :: i < |v.fields[keyword].items| && Throws(document, v.fields[keyword].items[i], active)
  }

  /** The keyword holds no array, or the walk of one of its variants throws. */
  ghost predicate ThrowsInVariants(document: Document, v: Json, keyword: string, active: set<string>) {
    v.Obj? && keyword in v.fields && (v.fields[keyword].Arr? ==> ThrowsInList(document, v, keyword, active))
  }

  ghost predicate ThrowsUnder(document: Document, v: Json, keyword: string, active: set<string>) {
    v.Obj? && keyword in v.fields && Throws(document, v.fields[keyword], active)
  }

  ghost predicate ThrowsNamed(document: Document, v: Json, active: set<string>) {
    || ThrowsInMap(document, v, "properties", active) || ThrowsInMap(document, v, "patternProperties", active)
    || (ThrowsUnder(document, v, "additionalProperties", active) && v.fields["additionalProperties"].Obj?)
  }

  ghost predicate ThrowsInLists(document: Document, v: Json, active: set<string>) {
    || ThrowsInList(document, v, "items", active) || ThrowsInList(document, v, "prefixItems", active)
    || ThrowsInVariants(document, v, "allOf", active) || ThrowsInVariants(document, v, "anyOf", active)
    || ThrowsInVariants(document, v, "oneOf", active)
  }

  ghost predicate ThrowsDirectly(document: Document, v: Json, active: set<string>) {
    || (ThrowsUnder(document, v, "items", active) && !v.fields["items"].Arr?)
    || ThrowsUnder(document, v, "if", active) || ThrowsUnder(document, v, "then", active)
    || ThrowsUnder(document, v, "else", active) || ThrowsUnder(document, v, "not", active)
    || ThrowsUnder(document, v, "contains", active)
  }

  lemma ElementThrows(document: Document, v: Json, keyword: string, active: set<string>)
    requires keyword in ["items", "prefixItems", "allOf", "anyOf", "oneOf"]
    ensures ThrowsInList(document, v, keyword, active) <==>
      exists i: nat :: ThrowsVia(document, v, active, Element(keyword, i))
  {
    forall i: nat
      ensures ThrowsVia(document, v, active, Element(keyword, i)) <==>
        Has(v, keyword) && v.fields[keyword].Arr? && i < |v.fields[keyword].items|
        && Throws(document, v.fields[keyword].items[i], active)
    {
      var s := Element(keyword, i);
      if Next(document, v, s).Some? {
        ThrowsViaUnfolds(document, v, active, s, Next(document, v, s).value);
      }
    }
  }

  lemma DirectThrows(document: Document, v: Json, keyword: string, active: set<string>)
    requires keyword in ["items", "if", "then", "else", "not", "contains"]
    ensures ThrowsVia(document, v, active, Direct(keyword)) <==>
      ThrowsUnder(document, v, keyword, active) && !(keyword == "items" && v.fields[keyword].Arr?)
  {
    var s := Direct(keyword);
    if Next(document, v, s).Some? {
      ThrowsViaUnfolds(document, v, active, s, Next(document, v, s).value);
    }
  }

  lemma EntryThrows(document: Document, v: Json, keyword: string, active: set<string>)
    requires keyword == "properties" || keyword == "patternProperties"
    ensures ThrowsInMap(document, v, keyword, active) <==>
      (Has(v, keyword) && !v.fields[keyword].Obj?) || exists key :: ThrowsVia(document, v, active, Entry(keyword, key))
  {
    forall key
      ensures ThrowsVia(document, v, active, Entry(keyword, key)) <==>
        Has(v, keyword) && v.fields[keyword].Obj? && key in v.fields[keyword].fields
        && Throws(document, v.fields[keyword].fields[key], active)
    {
      var s := Entry(keyword, key);
      if Next(document, v, s).Some? {
        ThrowsViaUnfolds(document, v, active, s, Next(document, v, s).value);
      }
    }
  }

  lemma NamedThrows(document: Document, v: Json, active: set<string>)
    ensures ThrowsNamed(document, v, active) <==>
      || (Has(v, "properties") && !v.fields["properties"].Obj?)
      || (Has(v, "patternProperties") && !v.fields["patternProperties"].Obj?)
      || exists s: Step :: (s.Entry? || s.Additional?) && ThrowsVia(document, v, active, s)
  {
    EntryThrows(document, v, "properties", active);
    EntryThrows(document, v, "patternProperties", active);
    if Next(document, v, Additional).Some? {
      ThrowsViaUnfolds(document, v, active, Additional, Next(document, v, Additional).value);
    }
    BooleansPass(document, Bool(true), active);
    if s: Step :| (s.Entry? || s.Additional?) && ThrowsVia(document, v, active, s) {
      assert s.Entry? ==> s.keyword == "properties" || s.keyword == "patternProperties";
    }
  }

  lemma BooleansPass(document: Document, v: Json, active: set<string>)
    requires v.Bool?
    ensures !Throws(document, v, active)
  {
  }

  lemma ListsThrow(document: Document, v: Json, active: set<string>)
    ensures ThrowsInLists(document, v, active) <==>
      || (exists keyword | keyword in ["allOf", "anyOf", "oneOf"] :: Has(v, keyword) && !v.fields[keyword].Arr?)
      || exists keyword, i: nat :: ThrowsVia(document, v, active, Element(keyword, i))
  {
    ElementThrows(document, v, "items", active);
    ElementThrows(document, v, "prefixItems", active);
    ElementThrows(document, v, "allOf", active);
    ElementThrows(document, v, "anyOf", active);
    ElementThrows(document, v, "oneOf", active);
    if keyword, i: nat :| ThrowsVia(document, v, active, Element(keyword, i)) {
      assert keyword in ["items", "prefixItems", "allOf", "anyOf", "oneOf"];
    }
  }

  lemma DirectsThrow(document: Document, v: Json, active: set<string>)
    ensures ThrowsDirectly(document, v, active) <==> exists keyword :: ThrowsVia(document, v, active, Direct(keyword))
  {
    DirectThrows(document, v, "items", active);
    DirectThrows(document, v, "if", active);
    DirectThrows(document, v, "then", active);
    DirectThrows(document, v, "else", active);
    DirectThrows(document, v, "not", active);
    DirectThrows(document, v, "contains", active);
    if keyword :| ThrowsVia(document, v, active, Direct(keyword)) {
      assert keyword in ["items", "if", "then", "else", "not", "contains"];
    }
  }

  lemma RefThrows(document: Document, v: Json, active: set<string>)
    ensures ThrowsByRef(document, v, active) <==>
      || (Has(v, "$ref") && v.fields["$ref"].Str? && v.fields["$ref"].text !in active
          && Resolved(document, v.fields["$ref"].text).Thrown?)
      || exists ref :: ThrowsVia(document, v, active, Ref(ref))
  {
    forall ref
      ensures ThrowsVia(document, v, active, Ref(ref)) <==>
        HasRef(v, ref) && Resolved(document, ref).Ok? && ThrowsByRef(document, v, active)
    {
      var s := Ref(ref);
      if Next(document, v, s).Some? && Allowed(active, s) {
        ThrowsViaUnfolds(document, v, active, s, Next(document, v, s).value);
      }
    }
    if ThrowsByRef(document, v, active) {
      assert HasRef(v, v.fields["$ref"].text);
    }
  }

  /** What makes the walk of a schema throw, keyword by keyword. */
  lemma ThrowsMeans(document: Document, v: Json, active: set<string>)
    ensures Throws(document, v, active) <==>
      || (!v.Obj? && !v.Bool?) || ThrowsByRef(document, v, active) || ThrowsNamed(document, v, active)
      || ThrowsInLists(document, v, active) || ThrowsDirectly(document, v, active)
  {
    RefThrows(document, v, active);
    NamedThrows(document, v, active);
    ListsThrow(document, v, active);
    DirectsThrow(document, v, active);
    if s :| ThrowsVia(document, v, active, s) {
      match s
      case Ref(_) =>
      case Entry(_, _) =>
      case Additional =>
      case Element(_, _) =>
      case Direct(_) =>
    }
  }

  // ---------------------------------------------------------------- the service key paths

  /** The schemas of a service entry, or a throw when the document is not shaped like a Compose schema. */
  function EntrySchemas(schema: Json): Outcome<set<Json>> {
    if !Has(schema, "properties") || !Has(schema.fields["properties"], "services")
       || !schema.fields["properties"].fields["services"].Obj? then Thrown else
    var services := schema.fields["properties"].fields["services"];
    if Has(services, "patternProperties") && !services.fields["patternProperties"].Obj? then Thrown else
    var patterned := if Has(services, "patternProperties") then services.fields["patternProperties"].fields.Values else {};
    var additional := if Has(services, "additionalProperties") && services.fields["additionalProperties"].Obj?
                      then {services.fields["additionalProperties"]} else {};
    if patterned + additional == {} then Thrown else Ok(patterned + additional)
  }

  /** `properties.services` is an object. */
  predicate DeclaresServices(root: Json) {
    && root.Obj? && "properties" in root.fields && root.fields["properties"].Obj?
    && "services" in root.fields["properties"].fields && root.fields["properties"].fields["services"].Obj?
  }

  /** The schema is one of those `services.patternProperties` holds, or `services.additionalProperties`. */
  predicate IsEntry(root: Json, e: Json)
    requires DeclaresServices(root)
  {
    var services := root.fields["properties"].fields["services"].fields;
    || ("patternProperties" in services && services["patternProperties"].Obj?
        && exists pattern | pattern in services["patternProperties"].fields :: services["patternProperties"].fields[pattern] == e)
    || ("additionalProperties" in services && services["additionalProperties"] == e && e.Obj?)
  }

  /** The document has the shape of a Compose schema with some service entry. */
  ghost predicate HasEntries(root: Json) {
    && DeclaresServices(root)
    && var services := root.fields["properties"].fields["services"].fields;
    && ("patternProperties" in services ==> services["patternProperties"].Obj?)
    && exists e :: IsEntry(root, e)
  }

  lemma EntriesAre(root: Json)
    ensures EntrySchemas(root).Ok? <==> HasEntries(root)
    ensures HasEntries(root) ==> forall e :: e in EntrySchemas(root).result <==> IsEntry(root, e)
  {
    if DeclaresServices(root) {
      var services := root.fields["properties"].fields["services"].fields;
      if "patternProperties" in services && services["patternProperties"].Obj? {
        var patterns := services["patternProperties"].fields;
        forall e ensures e in patterns.Values <==> exists pattern | pattern in patterns :: patterns[pattern] == e {
        }
      }
      forall e | EntrySchemas(root).Ok? ensures e in EntrySchemas(root).result <==> IsEntry(root, e) {
      }
      if EntrySchemas(root).Ok? {
        var e :| e in EntrySchemas(root).result;
        assert IsEntry(root, e);
      }
      if e :| HasEntries(root) && IsEntry(root, e) {
        assert EntrySchemas(root).Ok?;
      }
    }
  }

  ghost predicate FoundInAny(document: Document, entries: set<Json>, path: string) {
    exists e :: e in entries && Found(document, e, [], {}, path)
  }

  lemma FoundInAnyIsReachable(document: Document, entries: set<Json>, path: string)
    ensures FoundInAny(document, entries, path) <==>
            exists e, steps :: e in entries && Spells(document, e, [], {}, steps, path)
  {
    if e :| e in entries && Found(document, e, [], {}, path) {
      FoundIsReachable(document, e, [], {}, path);
    }
    if e, steps :| e in entries && Spells(document, e, [], {}, steps, path) {
      FoundIsReachable(document, e, [], {}, path);
    }
  }

  /** `[...set].sort()`. */
  method Sorted(values: set<string>) returns (r: seq<string>)
    ensures Sorting.Ascending(r) && forall s :: s in r <==> s in values
  {
    var listed: seq<string> := [];
    var remaining := values;
    while remaining != {}
      invariant remaining <= values
      invariant forall s :: s in listed <==> s in values - remaining
      invariant forall i, j | 0 <= i < j < |listed| :: listed[i] != listed[j]
    {
      var value :| value in remaining;
      assert forall s :: s in listed + [value] <==> s in listed || s == value;
      assert values - (remaining - {value}) == (values - remaining) + {value};
      listed, remaining := listed + [value], remaining - {value};
    }
    Sorting.SortAscends(listed);
    Sorting.SortMembers(listed, Sorting.Before);
    return Sorting.Sort(listed, Sorting.Before);
  }

  /** `collectComposeServiceKeyPaths`. */
  method CollectComposeServiceKeyPaths(document: Document) returns (r: Outcome<seq<string>>)
    ensures r.Ok? <==> HasEntries(document.root) && forall e | IsEntry(document.root, e) :: !Throws(document, e, {})
    ensures r.Ok? ==> Sorting.Ascending(r.result) && forall path :: path in r.result <==>
              exists e, steps :: IsEntry(document.root, e) && Spells(document, e, [], {}, steps, path)
  {
    EntriesAre(document.root);
    var entries := EntrySchemas(document.root);
    if entries.Thrown? { return Thrown; }
    var collector := new KeyPaths();
    var remaining := entries.result;
    ghost var done := {};
    while remaining != {}
      invariant done + remaining == entries.result
      invariant forall e | e in done :: !Throws(document, e, {})
      invariant forall path :: path in collector.paths <==> FoundInAny(document, done, path)
    {
      var entry :| entry in remaining;
      var threw := collector.WalkSchema(document, entry, [], {});
      if threw { return Thrown; }
      forall path ensures FoundInAny(document, done + {entry}, path) <==>
                            FoundInAny(document, done, path) || Found(document, entry, [], {}, path)
      {
      }
      done, remaining := done + {entry}, remaining - {entry};
    }
    forall path ensures FoundInAny(document, done, path) <==>
                          exists e, steps :: e in done && Spells(document, e, [], {}, steps, path)
    {
      FoundInAnyIsReachable(document, done, path);
    }
    var paths := Sorted(collector.paths);
    return Ok(paths);
  }
}
