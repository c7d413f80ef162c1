/**
 * Reference inlining for the documents of ComposeSchema: each `$ref` is replaced by its inlined target
 * as one more `allOf` variant. On documents whose references are acyclic the walker finds exactly the
 * key paths of the inlined schema.
 */
module ComposeInline {
  import opened Prelude
  import opened JsonPointer
  import opened ComposeSchema

  /** A reference occurs in the schema or somewhere below it, not counting what references lead to. */
  ghost predicate Mentions(v: Json, ref: string)
    decreases v
  {
    HasRef(v, ref) || exists s :: Child(v, s).Some? && Mentions(Child(v, s).value, ref)
  }

  /** Every reference inside the target of `ref` ranks below `ref`: no reference leads back to itself. */
  ghost predicate Acyclic(document: Document, rank: string -> nat) {
    forall ref, inner | Resolved(document, ref).Ok? && Mentions(Resolved(document, ref).result, inner) ::
      rank(inner) < rank(ref)
  }

  ghost predicate Below(v: Json, rank: string -> nat, bound: nat) {
    forall ref | Mentions(v, ref) :: rank(ref) < bound
  }

  /** The schema's reference is one that inlining replaces. */
  predicate Inlinable(document: Document, v: Json, rank: string -> nat, bound: nat) {
    && Has(v, "$ref") && v.fields["$ref"].Str? && Resolved(document, v.fields["$ref"].text).Ok?
    && rank(v.fields["$ref"].text) < bound
    && (Has(v, "allOf") ==> v.fields["allOf"].Arr?)
  }

  function Inline(document: Document, v: Json, rank: string -> nat, bound: nat): Json
    decreases bound, v, 0
  {
    if !v.Obj? then v else
    var fields := map k | k in v.fields :: InlineField(document, k, v.fields[k], rank, bound);
    if !Inlinable(document, v, rank, bound) then Obj(fields) else
    var ref := v.fields["$ref"].text;
    var target := Inline(document, Resolved(document, ref).result, rank, rank(ref));
    var variants := if "allOf" in v.fields then InlineAll(document, v.fields["allOf"].items, rank, bound) else [];
    Obj((map k | k in fields && k != "$ref" :: fields[k])["allOf" := Arr(variants + [target])])
  }

  function InlineAll(document: Document, items: seq<Json>, rank: string -> nat, bound: nat): (r: seq<Json>)
    ensures |r| == |items|
    ensures forall i | 0 <= i < |items| :: r[i] == Inline(document, items[i], rank, bound)
    decreases bound, items, 0
  {
    seq(|items|, i requires 0 <= i < |items| => Inline(document, items[i], rank, bound))
  }

  /** A keyword's value with the subschemas it holds inlined. */
  function InlineField(document: Document, keyword: string, value: Json, rank: string -> nat, bound: nat): Json
    decreases bound, value, 1
  {
    if keyword in MAPS && value.Obj? then
      Obj(map k | k in value.fields :: Inline(document, value.fields[k], rank, bound))
    else if keyword in LISTS && value.Arr? then Arr(InlineAll(document, value.items, rank, bound))
    else if keyword in DIRECT || (keyword == "additionalProperties" && value.Obj?) then
      Inline(document, value, rank, bound)
    else value
  }

  /** The extra variant that stands for the replaced reference. */
  function RefVariant(v: Json): Step {
    Element("allOf", if Has(v, "allOf") && v.fields["allOf"].Arr? then |v.fields["allOf"].items| else 0)
  }

  function KeywordOf(s: Step): string {
    match s
    case Ref(_) => "$ref"
    case Entry(keyword, _) => keyword
    case Additional => "additionalProperties"
    case Element(keyword, _) => keyword
    case Direct(keyword) => keyword
  }

  lemma FieldChild(document: Document, v: Json, rank: string -> nat, bound: nat, s: Step)
    requires v.Obj? && KeywordOf(s) in v.fields
    ensures var k := KeywordOf(s);
            Child(Obj(map[k := InlineField(document, k, v.fields[k], rank, bound)]), s) ==
            if Child(v, s).Some? then Some(Inline(document, Child(v, s).value, rank, bound)) else None
  {
  }

  lemma ChildOfField(v: Json, s: Step)
    ensures Child(v, s) == if Has(v, KeywordOf(s)) then Child(Obj(map[KeywordOf(s) := v.fields[KeywordOf(s)]]), s) else None
  {
  }

  /** Inlining commutes with every step of the walker, and adds one variant for a replaced reference. */
  lemma InlineChild(document: Document, v: Json, rank: string -> nat, bound: nat, s: Step)
    requires !(Inlinable(document, v, rank, bound) && s == RefVariant(v))
    ensures Child(Inline(document, v, rank, bound), s) ==
            if Child(v, s).Some? then Some(Inline(document, Child(v, s).value, rank, bound)) else None
  {
    var w, k := Inline(document, v, rank, bound), KeywordOf(s);
    if v.Obj? && !s.Ref? {
      if k == "allOf" && Inlinable(document, v, rank, bound) {
      } else if k != "$ref" {
        ChildOfField(v, s);
        ChildOfField(w, s);
        if k in v.fields {
          FieldChild(document, v, rank, bound, s);
        }
      }
    }
  }

  lemma InlineRefChild(document: Document, v: Json, rank: string -> nat, bound: nat)
    requires Inlinable(document, v, rank, bound)
    ensures var ref := v.fields["$ref"].text;
            Child(Inline(document, v, rank, bound), RefVariant(v))
            == Some(Inline(document, Resolved(document, ref).result, rank, rank(ref)))
  {
  }

  ghost predicate ActiveAbove(active: set<string>, rank: string -> nat, bound: nat) {
    forall ref | ref in active :: rank(ref) >= bound
  }

  lemma InlineShapes(document: Document, v: Json, rank: string -> nat, bound: nat, k: string)
    requires v.Obj?
    ensures var w := Inline(document, v, rank, bound);
            && (k in MAPS ==> (Has(v, k) && !v.fields[k].Obj? <==> Has(w, k) && !w.fields[k].Obj?))
            && (k in VARIANTS ==> (Has(v, k) && !v.fields[k].Arr? <==> Has(w, k) && !w.fields[k].Arr?))
  {
  }

  lemma InlineMalformed(document: Document, v: Json, active: set<string>, rank: string -> nat, bound: nat)
    requires v.Obj? && Below(v, rank, bound) && ActiveAbove(active, rank, bound)
    ensures Malformed(document, v, active) <==> Malformed(document, Inline(document, v, rank, bound), {})
    ensures !Malformed(document, v, active) && Has(v, "$ref") && v.fields["$ref"].Str? ==>
              Inlinable(document, v, rank, bound) && v.fields["$ref"].text !in active
  {
    forall k | k in MAPS || k in VARIANTS { InlineShapes(document, v, rank, bound, k); }
    if Has(v, "$ref") && v.fields["$ref"].Str? {
    }
  }

  /** The step of the inlined schema that stands for a step of the schema. */
  function Twin(v: Json, s: Step): Step {
    if s.Ref? then RefVariant(v) else s
  }

  function TwinBound(rank: string -> nat, bound: nat, s: Step): nat {
    if s.Ref? then rank(s.ref) else bound
  }

  /** A step and its twin name the same segment and lead to a schema and its inlining. */
  lemma TwinStep(document: Document, v: Json, active: set<string>, rank: string -> nat, bound: nat, s: Step)
    requires Acyclic(document, rank) && Below(v, rank, bound) && ActiveAbove(active, rank, bound)
    requires !Malformed(document, v, active) && Next(document, v, s).Some? && Allowed(active, s)
    ensures var w, next, low := Inline(document, v, rank, bound), Next(document, v, s).value, TwinBound(rank, bound, s);
            && Next(document, w, Twin(v, s)) == Some(Inline(document, next, rank, low))
            && !Twin(v, s).Ref? && Segments(Twin(v, s)) == Segments(s)
            && Below(next, rank, low) && ActiveAbove(Expand(active, s), rank, low)
            && (low < bound || (low == bound && next < v))
  {
    InlineMalformed(document, v, active, rank, bound);
    if s.Ref? {
      InlineRefChild(document, v, rank, bound);
    } else {
      InlineChild(document, v, rank, bound, s);
      forall ref | Mentions(Child(v, s).value, ref) ensures rank(ref) < bound {
        assert Mentions(v, ref);
      }
    }
  }

  /** Every step of the inlined schema is a twin. */
  lemma TwinOf(document: Document, v: Json, active: set<string>, rank: string -> nat, bound: nat, twin: Step)
    returns (s: Step)
    requires Acyclic(document, rank) && Below(v, rank, bound) && ActiveAbove(active, rank, bound)
    requires !Malformed(document, v, active) && Next(document, Inline(document, v, rank, bound), twin).Some?
    ensures Twin(v, s) == twin && Next(document, v, s).Some? && Allowed(active, s)
  {
    InlineMalformed(document, v, active, rank, bound);
    if Inlinable(document, v, rank, bound) && (twin == RefVariant(v) || twin.Ref?) {
      s := Ref(v.fields["$ref"].text);
    } else {
      InlineChild(document, v, rank, bound, twin);
      if twin.Ref? {
      }
      s := twin;
    }
  }

  lemma {:induction false} InlineThrows(document: Document, v: Json, active: set<string>, rank: string -> nat, bound: nat)
    requires Acyclic(document, rank) && Below(v, rank, bound) && ActiveAbove(active, rank, bound)
    ensures Throws(document, v, active) <==> Throws(document, Inline(document, v, rank, bound), {})
    decreases bound, v
  {
    var w := Inline(document, v, rank, bound);
    if v.Obj? {
      InlineMalformed(document, v, active, rank, bound);
      if !Malformed(document, v, active) {
        forall s | Next(document, v, s).Some? && Allowed(active, s)
          ensures ThrowsVia(document, v, active, s) <==> ThrowsVia(document, w, {}, Twin(v, s))
        {
          TwinThrows(document, v, active, rank, bound, s);
        }
        if twin :| ThrowsVia(document, w, {}, twin) {
          var s := TwinOf(document, v, active, rank, bound, twin);
          assert ThrowsVia(document, v, active, s);
        }
      }
    }
  }

  lemma {:induction false} TwinThrows(document: Document, v: Json, active: set<string>, rank: string -> nat, bound: nat, s: Step)
    requires Acyclic(document, rank) && Below(v, rank, bound) && ActiveAbove(active, rank, bound)
    requires !Malformed(document, v, active) && Next(document, v, s).Some? && Allowed(active, s)
    ensures ThrowsVia(document, v, active, s) <==> ThrowsVia(document, Inline(document, v, rank, bound), {}, Twin(v, s))
    decreases bound, v, 0
  {
    var next, low := Next(document, v, s).value, TwinBound(rank, bound, s);
    TwinStep(document, v, active, rank, bound, s);
    InlineThrows(document, next, Expand(active, s), rank, low);
    ThrowsViaUnfolds(document, v, active, s, next);
    ThrowsViaUnfolds(document, Inline(document, v, rank, bound), {}, Twin(v, s), Inline(document, next, rank, low));
  }

  lemma {:induction false} InlineFound(document: Document, v: Json, prefix: seq<string>, active: set<string>,
                                       rank: string -> nat, bound: nat, path: string)
    requires Acyclic(document, rank) && Below(v, rank, bound) && ActiveAbove(active, rank, bound)
    requires !Throws(document, v, active)
    ensures Found(document, v, prefix, active, path) <==> Found(document, Inline(document, v, rank, bound), prefix, {}, path)
    decreases bound, v
  {
    var w := Inline(document, v, rank, bound);
    if v.Obj? {
      forall s | Next(document, v, s).Some? && Allowed(active, s)
        ensures FoundVia(document, v, prefix, active, s, path) <==> FoundVia(document, w, prefix, {}, Twin(v, s), path)
      {
        TwinFound(document, v, prefix, active, rank, bound, s, path);
      }
      if twin :| FoundVia(document, w, prefix, {}, twin, path) {
        var s := TwinOf(document, v, active, rank, bound, twin);
        assert FoundVia(document, v, prefix, active, s, path);
      }
    }
  }

  lemma {:induction false} TwinFound(document: Document, v: Json, prefix: seq<string>, active: set<string>,
                                     rank: string -> nat, bound: nat, s: Step, path: string)
    requires Acyclic(document, rank) && Below(v, rank, bound) && ActiveAbove(active, rank, bound)
    requires !Throws(document, v, active) && Next(document, v, s).Some? && Allowed(active, s)
    ensures FoundVia(document, v, prefix, active, s, path) <==>
            FoundVia(document, Inline(document, v, rank, bound), prefix, {}, Twin(v, s), path)
    decreases bound, v, 0
  {
    var next, low := Next(document, v, s).value, TwinBound(rank, bound, s);
    TwinStep(document, v, active, rank, bound, s);
    ThrowsViaUnfolds(document, v, active, s, next);
    assert !ThrowsVia(document, v, active, s);
    InlineFound(document, next, prefix + Segments(s), Expand(active, s), rank, low, path);
    FoundViaUnfolds(document, v, prefix, active, s, next, path);
    FoundViaUnfolds(document, Inline(document, v, rank, bound), prefix, {}, Twin(v, s), Inline(document, next, rank, low), path);
  }

  /** Inlining a schema the walker accepts leaves no reference behind. */
  lemma {:induction false} InlineHasNoRefs(document: Document, v: Json, active: set<string>, rank: string -> nat, bound: nat, ref: string)
    requires Acyclic(document, rank) && Below(v, rank, bound) && ActiveAbove(active, rank, bound)
    requires !Throws(document, v, active)
    ensures !Mentions(Inline(document, v, rank, bound), ref)
    decreases bound, v
  {
    var w := Inline(document, v, rank, bound);
    if v.Obj? {
      InlineMalformed(document, v, active, rank, bound);
      if Inlinable(document, v, rank, bound) {
      } else {
      }
      assert !HasRef(w, ref);
      forall twin | Child(w, twin).Some? ensures !Mentions(Child(w, twin).value, ref) {
        var s := TwinOf(document, v, active, rank, bound, twin);
        TwinStep(document, v, active, rank, bound, s);
        ThrowsViaUnfolds(document, v, active, s, Next(document, v, s).value);
        assert !ThrowsVia(document, v, active, s);
        InlineHasNoRefs(document, Next(document, v, s).value, Expand(active, s), rank, TwinBound(rank, bound, s), ref);
      }
    }
  }

  ghost predicate NoRefs(w: Json) {
    forall ref :: !Mentions(w, ref)
  }

  lemma NoRefsBelow(document: Document, w: Json, s: Step)
    requires NoRefs(w)
    ensures Next(document, w, s) == Child(w, s) && (Child(w, s).Some? ==> NoRefs(Child(w, s).value))
    ensures Has(w, "$ref") ==> !w.fields["$ref"].Str?
  {
    if Has(w, "$ref") && w.fields["$ref"].Str? {
      assert HasRef(w, w.fields["$ref"].text);
      assert Mentions(w, w.fields["$ref"].text);
    }
    if s.Ref? {
      assert !Mentions(w, s.ref);
    } else if Child(w, s).Some? {
      forall ref ensures !Mentions(Child(w, s).value, ref) {
        assert !Mentions(w, ref);
      }
    }
  }

  // A schema without references is walked the same way in every document.

  lemma {:induction false} NoRefsThrows(first: Document, second: Document, w: Json)
    requires NoRefs(w) && Throws(first, w, {})
    ensures Throws(second, w, {})
    decreases w
  {
    NoRefsBelow(first, w, Additional);
    if !Malformed(first, w, {}) {
      var s :| ThrowsVia(first, w, {}, s);
      NoRefsBelow(first, w, s);
      NoRefsBelow(second, w, s);
      var c := Child(w, s).value;
      ThrowsViaUnfolds(first, w, {}, s, c);
      NoRefsThrows(first, second, c);
      ThrowsViaUnfolds(second, w, {}, s, c);
    }
  }

  lemma {:induction false} NoRefsFound(first: Document, second: Document, w: Json, prefix: seq<string>, path: string)
    requires NoRefs(w) && Found(first, w, prefix, {}, path)
    ensures Found(second, w, prefix, {}, path)
    decreases w
  {
    var s :| FoundVia(first, w, prefix, {}, s, path);
    NoRefsBelow(first, w, s);
    NoRefsBelow(second, w, s);
    var c, longer := Child(w, s).value, prefix + Segments(s);
    FoundViaUnfolds(first, w, prefix, {}, s, c, path);
    if Found(first, c, longer, {}, path) {
      NoRefsFound(first, second, c, longer, path);
    }
    FoundViaUnfolds(second, w, prefix, {}, s, c, path);
  }

  lemma {:induction false} MentionedIsString(v: Json, ref: string)
    requires Mentions(v, ref)
    ensures ref in Strings(v)
    decreases v
  {
    if HasRef(v, ref) {
      assert ref in Strings(v.fields["$ref"]);
    } else {
      var s :| Child(v, s).Some? && Mentions(Child(v, s).value, ref);
      MentionedIsString(Child(v, s).value, ref);
      ChildInside(v, s);
    }
  }

  lemma {:induction false} RankBound(refs: set<string>, rank: string -> nat) returns (bound: nat)
    ensures forall ref | ref in refs :: rank(ref) < bound
  {
    if refs == {} {
      bound := 0;
    } else {
      var ref :| ref in refs;
      var rest := RankBound(refs - {ref}, rank);
      bound := if rank(ref) < rest then rest else rank(ref) + 1;
    }
  }

  /** A schema is finite, so some bound always exceeds the rank of every reference in it. */
  lemma SomeBound(v: Json, rank: string -> nat) returns (bound: nat)
    ensures Below(v, rank, bound)
  {
    bound := RankBound(Strings(v), rank);
    forall ref | Mentions(v, ref) ensures rank(ref) < bound {
      MentionedIsString(v, ref);
    }
  }

  // ---------------------------------------------------------------- documents without reference cycles

  /** The target of `ref` mentions `inner`. */
  ghost predicate RefersTo(document: Document, ref: string, inner: string) {
    Resolved(document, ref).Ok? && Mentions(Resolved(document, ref).result, inner)
  }

  ghost function Refers(document: Document): (string, string) -> bool {
    (ref: string, inner: string) => RefersTo(document, ref, inner)
  }

  predicate IsChain(refers: (string, string) -> bool, c: seq<string>) {
    |c| > 1 && forall i: nat | i + 1 < |c| :: refers(c[i], c[i + 1])
  }

  /** A chain of references from `ref` to `inner`. */
  ghost predicate LeadsTo(document: Document, ref: string, inner: string) {
    exists c :: IsChain(Refers(document), c) && c[0] == ref && c[|c| - 1] == inner
  }

  /** No reference leads back to itself. */
  ghost predicate NoCycle(document: Document) {
    forall ref :: !LeadsTo(document, ref, ref)
  }

  lemma LeadsFurther(document: Document, ref: string, inner: string, last: string)
    requires RefersTo(document, ref, inner) && LeadsTo(document, inner, last)
    ensures LeadsTo(document, ref, last)
  {
    var c :| IsChain(Refers(document), c) && c[0] == inner && c[|c| - 1] == last;
    var longer := [ref] + c;
    assert longer[0] == ref && longer[|longer| - 1] == last;
  }

  ghost function Reach(document: Document, ref: string): set<string> {
    set s | s in DocumentStrings(document) && LeadsTo(document, ref, s)
  }

  /** The rank of a reference: how many references it leads to. */
  ghost function RankOf(document: Document): string -> nat {
    (ref: string) => |Reach(document, ref)|
  }

  lemma ReachShrinks(document: Document, ref: string, inner: string)
    requires NoCycle(document) && RefersTo(document, ref, inner)
    ensures |Reach(document, inner)| < |Reach(document, ref)|
  {
    var c := [ref, inner];
    assert IsChain(Refers(document), c) && c[0] == ref && c[|c| - 1] == inner;
    FollowInside(document, document.root, DecodedSegments(ref));
    MentionedIsString(Resolved(document, ref).result, inner);
    assert inner in Reach(document, ref) && inner !in Reach(document, inner);
    forall s | s in Reach(document, inner) ensures s in Reach(document, ref) {
      LeadsFurther(document, ref, inner, s);
    }
    SubsetSize(Reach(document, inner), Reach(document, ref));
  }

  lemma {:induction false} RankFalls(refers: (string, string) -> bool, rank: string -> nat, c: seq<string>)
    requires IsChain(refers, c) && forall ref, inner | refers(ref, inner) :: rank(inner) < rank(ref)
    ensures rank(c[|c| - 1]) < rank(c[0])
  {
    assert refers(c[0], c[0 + 1]);
    if |c| > 2 {
      var tail := c[1..];
      forall i: nat | i + 1 < |tail| ensures refers(tail[i], tail[i + 1]) {
        assert refers(c[i + 1], c[i + 1 + 1]);
      }
      RankFalls(refers, rank, tail);
    }
  }

  /** References can be ranked exactly when none leads back to itself. */
  lemma RankedIffNoCycle(document: Document)
    ensures (exists rank: string -> nat :: Acyclic(document, rank)) <==> NoCycle(document)
    ensures NoCycle(document) ==> Acyclic(document, RankOf(document))
  {
    if rank: string -> nat :| Acyclic(document, rank) {
      forall ref ensures !LeadsTo(document, ref, ref) {
        if LeadsTo(document, ref, ref) {
          var c :| IsChain(Refers(document), c) && c[0] == ref && c[|c| - 1] == ref;
          RankFalls(Refers(document), rank, c);
        }
      }
    }
    if NoCycle(document) {
      forall ref, inner | Resolved(document, ref).Ok? && Mentions(Resolved(document, ref).result, inner)
        ensures RankOf(document)(inner) < RankOf(document)(ref)
      {
        assert RefersTo(document, ref, inner);
        ReachShrinks(document, ref, inner);
      }
      assert Acyclic(document, RankOf(document));
    }
  }

  // ---------------------------------------------------------------- the walk of the inlined schema

  /** Walking `v` throws or finds `path` exactly as walking `w` does, in whatever document; `w` has no reference. */
  ghost predicate SameWalk(document: Document, v: Json, w: Json, other: Document, prefix: seq<string>, path: string) {
    && (Throws(document, v, {}) <==> Throws(document, w, {}))
    && (!Throws(document, v, {}) ==>
          && NoRefs(w) && !Throws(other, w, {})
          && (Found(document, v, prefix, {}, path) <==> Found(other, w, prefix, {}, path)))
  }

  lemma RankedWalk(document: Document, v: Json, rank: string -> nat, bound: nat, other: Document, prefix: seq<string>, path: string)
    requires Acyclic(document, rank) && Below(v, rank, bound)
    ensures SameWalk(document, v, Inline(document, v, rank, bound), other, prefix, path)
  {
    InlineThrows(document, v, {}, rank, bound);
    if !Throws(document, v, {}) {
      var w := Inline(document, v, rank, bound);
      forall ref { InlineHasNoRefs(document, v, {}, rank, bound, ref); }
      InlineFound(document, v, prefix, {}, rank, bound, path);
      if Throws(other, w, {}) {
        NoRefsThrows(other, document, w);
      }
      if Found(document, w, prefix, {}, path) {
        NoRefsFound(document, other, w, prefix, path);
      }
      if Found(other, w, prefix, {}, path) {
        NoRefsFound(other, document, w, prefix, path);
      }
    }
  }

  /**
   * For documents without reference cycles every schema has an inlining, with no reference left when the
   * walk accepts the schema, and walking the schema is walking the inlining, in any document whatever.
   */
  lemma WalkIsInlinedWalk(document: Document, v: Json) returns (bound: nat)
    requires NoCycle(document)
    ensures Acyclic(document, RankOf(document)) && Below(v, RankOf(document), bound)
    ensures forall other, prefix, path ::
              SameWalk(document, v, Inline(document, v, RankOf(document), bound), other, prefix, path)
  {
    RankedIffNoCycle(document);
    bound := SomeBound(v, RankOf(document));
    forall other, prefix, path
      ensures SameWalk(document, v, Inline(document, v, RankOf(document), bound), other, prefix, path)
    {
      RankedWalk(document, v, RankOf(document), bound, other, prefix, path);
    }
  }
}
