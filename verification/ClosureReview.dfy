/** Closure-review approval, scripts/closure-review-report.ts, over arbitrary JSON input. */
module ClosureReview {
  import opened Prelude
  import opened JsonPointer

  const REQUIRED_LANES := ["goal", "qa", "code-quality", "security", "context-history"]
  const DISPOSITIONS := ["approved", "blocked", "inconclusive"]
  const INCONCLUSIVE_CLASSES := ["timeout", "empty-output", "instructions-only", "no-repo-access"]

  datatype Resolution = Fixed(evidence: string) | LinkedStory(storyId: string)

  datatype Finding = Finding(title: string, blocker: bool, resolution: Option<Resolution>)

  datatype Lane = Lane(id: string, disposition: string, findings: seq<Finding>)

  /** The messages, by what they complain about. */
  datatype Problem =
    | MissingLanes | InvalidLane | MissingLane(id: string) | DuplicateLane(id: string) | NotApproved(id: string)
    | LaneRequires(id: string, field: string) | Inconclusive(id: string) | StrayInconclusiveClass(id: string)
    | InvalidFinding(id: string) | Unresolved(id: string, title: string) | StoryStillFailing(id: string, title: string)
    | BadResolution(id: string, title: string)

  datatype Report = Report(approved: bool, lanes: seq<Lane>, errors: seq<Problem>)

  // ---------------------------------------------------------------- reading unknown values

  /** `typeof value === "object" && value !== null`: arrays included. */
  predicate IsRecord(v: Json) {
    v.Obj? || v.Arr?
  }

  /** `value.key`, where an array has none of the keys read here. */
  function Prop(v: Json, key: string): Option<Json> {
    if v.Obj? && key in v.fields then Some(v.fields[key]) else None
  }

  predicate IsText(v: Option<Json>) {
    v.Some? && v.value.Str? && NotBlank(v.value.text)
  }

  predicate IsTextIn(v: Option<Json>, words: seq<string>) {
    v.Some? && v.value.Str? && v.value.text in words
  }

  /** `stringArray(value) !== undefined`. */
  predicate IsTextList(v: Option<Json>) {
    v.Some? && v.value.Arr? && forall x | x in v.value.items :: x.Str? && NotBlank(x.text)
  }

  predicate IsFilledTextList(v: Option<Json>) {
    IsTextList(v) && v.value.items != []
  }

  /** Text is a string with something left after trimming; a filled list has such texts only, and at least one. */
  lemma ValuesMean(v: Option<Json>)
    ensures IsText(v) <==> v.Some? && v.value.Str? && |Trim(v.value.text)| > 0
    ensures IsTextList(v) <==> v.Some? && v.value.Arr? && forall x | x in v.value.items :: IsText(Some(x))
    ensures IsFilledTextList(v) <==> IsTextList(v) && exists x :: x in v.value.items
    ensures v.Some? ==> (IsRecord(v.value) <==> !v.value.Null? && !v.value.Bool? && !v.value.Num? && !v.value.Str?)
  {
    if v.Some? && v.value.Str? {
      NotBlankIsTrimmed(v.value.text);
    }
    if IsTextList(v) && v.value.items != [] {
      assert v.value.items[0] in v.value.items;
    }
  }

  /** The property is the one of the object, and nothing else has any. */
  lemma PropMeans(v: Json, key: string, x: Json)
    ensures Prop(v, key) == Some(x) <==> v.Obj? && key in v.fields && v.fields[key] == x
  {
  }

  /** The words of the format. */
  lemma WordsMean(word: string)
    ensures word in REQUIRED_LANES <==>
              word == "goal" || word == "qa" || word == "code-quality" || word == "security" || word == "context-history"
    ensures word in DISPOSITIONS <==> word == "approved" || word == "blocked" || word == "inconclusive"
    ensures word in INCONCLUSIVE_CLASSES <==>
              word == "timeout" || word == "empty-output" || word == "instructions-only" || word == "no-repo-access"
  {
    var r, d, i := REQUIRED_LANES, DISPOSITIONS, INCONCLUSIVE_CLASSES;
    assert r[0] in r && r[1] in r && r[2] in r && r[3] in r && r[4] in r;
    assert d[0] in d && d[1] in d && d[2] in d;
    assert i[0] in i && i[1] in i && i[2] in i && i[3] in i;
  }

  // ---------------------------------------------------------------- what may be approved

  /** A resolution that raises no error of its own. */
  predicate CleanResolution(v: Option<Json>, failing: set<string>) {
    if v.None? || !IsRecord(v.value) then true
    else if Prop(v.value, "kind") == Some(Str("fixed-and-re-reviewed")) then IsText(Prop(v.value, "evidence"))
    else Prop(v.value, "kind") == Some(Str("linked-story")) && CleanStory(v.value, failing)
  }

  /** A link to a currently failing story, with a source-backed rationale. */
  predicate CleanStory(v: Json, failing: set<string>) {
    && IsText(Prop(v, "storyId")) && Prop(v, "storyId").value.text in failing
    && IsText(Prop(v, "rationale")) && IsFilledTextList(Prop(v, "sources"))
  }

  predicate IsFixed(v: Option<Json>) {
    && v.Some? && Prop(v.value, "kind") == Some(Str("fixed-and-re-reviewed")) && IsText(Prop(v.value, "evidence"))
  }

  predicate IsBlocker(v: Json) {
    Prop(v, "severity") == Some(Str("blocker"))
  }

  /** A finding with title, severity and sources, a clean resolution, and evidence of the fix if it is a blocker. */
  predicate AcceptableFinding(v: Json, failing: set<string>) {
    && IsText(Prop(v, "title")) && (Prop(v, "severity") == Some(Str("note")) || IsBlocker(v))
    && IsFilledTextList(Prop(v, "sources"))
    && CleanResolution(Prop(v, "resolution"), failing)
    && (IsBlocker(v) ==> IsFixed(Prop(v, "resolution")))
  }

  /** A complete lane, approved by its reviewer, with at least one finding and only acceptable ones. */
  predicate AcceptableLane(v: Json, failing: set<string>) {
    && IsTextIn(Prop(v, "id"), REQUIRED_LANES)
    && IsText(Prop(v, "scope"))
    && Prop(v, "disposition") == Some(Str("approved"))
    && IsFilledTextList(Prop(v, "inputs")) && IsFilledTextList(Prop(v, "commandsOrTools"))
    && IsFilledTextList(Prop(v, "evidence")) && IsFilledTextList(Prop(v, "residualRisks"))
    && !IsTextIn(Prop(v, "inconclusiveClass"), INCONCLUSIVE_CLASSES)
    && Prop(v, "findings").Some? && Prop(v, "findings").value.Arr?
    && HasRecord(Prop(v, "findings").value.items)
    && (forall f | f in Prop(v, "findings").value.items :: IsRecord(f) ==> AcceptableFinding(f, failing))
  }

  function CountId(items: seq<Json>, id: string): nat {
    if items == [] then 0 else (if Prop(items[0], "id") == Some(Str(id)) then 1 else 0) + CountId(items[1..], id)
  }

  /** Every entry is an acceptable lane and each required lane occurs once. */
  predicate Approvable(input: Json, failing: set<string>) {
    && Prop(input, "lanes").Some? && Prop(input, "lanes").value.Arr?
    && (forall v | v in Prop(input, "lanes").value.items :: AcceptableLane(v, failing))
    && (forall id | id in REQUIRED_LANES :: CountId(Prop(input, "lanes").value.items, id) == 1)
  }

  // ---------------------------------------------------------------- parsing

  /** The shared error list. */
  class Errors {
    var items: seq<Problem>

    constructor ()
      ensures items == []
    {
      items := [];
    }

    method Push(problem: Problem)
      modifies this
      ensures items == old(items) + [problem]
    {
      items := items + [problem];
    }

    method PushIf(condition: bool, problem: Problem)
      modifies this
      ensures items == old(items) + if condition then [problem] else []
    {
      if condition {
        items := items + [problem];
      }
    }
  }

  /** `after` adds nothing to `before` exactly when `clean`. */
  predicate Adds(before: seq<Problem>, after: seq<Problem>, clean: bool) {
    before <= after && (before == after <==> clean)
  }

  method ParseResolution(errors: Errors, id: string, title: string, v: Option<Json>, failing: set<string>)
    returns (r: Option<Resolution>)
    modifies errors
    ensures Adds(old(errors.items), errors.items, CleanResolution(v, failing))
    ensures r.Some? && r.value.Fixed? <==> IsFixed(v)
    ensures r.Some? && r.value.LinkedStory? ==> v.Some? && Prop(v.value, "kind") == Some(Str("linked-story"))
    ensures v.Some? && IsRecord(v.value) && CleanResolution(v, failing) ==> r.Some?
  {
    if v.None? || !IsRecord(v.value) { return None; }
    var kind := Prop(v.value, "kind");
    if kind == Some(Str("fixed-and-re-reviewed")) {
      var evidence := Prop(v.value, "evidence");
      errors.PushIf(!IsText(evidence), BadResolution(id, title));
      return if IsText(evidence) then Some(Fixed(evidence.value.text)) else None;
    }
    if kind == Some(Str("linked-story")) {
      assert kind.value.text[0] == 'l';
      var storyId, rationale, sources := Prop(v.value, "storyId"), Prop(v.value, "rationale"), Prop(v.value, "sources");
      var linksFailing := IsText(storyId) && storyId.value.text in failing;
      errors.PushIf(!IsText(storyId), BadResolution(id, title));
      errors.PushIf(IsText(storyId) && !linksFailing, BadResolution(id, title));
      errors.PushIf(!IsText(rationale) || !IsFilledTextList(sources), BadResolution(id, title));
      if !linksFailing || !IsText(rationale) || !IsTextList(sources) { return None; }
      return Some(LinkedStory(storyId.value.text));
    }
    errors.Push(BadResolution(id, title));
    return None;
  }

  /** A finding that raises no error while it is parsed; a linked story on a blocker is only caught later. */
  predicate CleanFinding(v: Json, failing: set<string>) {
    && IsText(Prop(v, "title")) && (Prop(v, "severity") == Some(Str("note")) || IsBlocker(v))
    && IsFilledTextList(Prop(v, "sources"))
    && CleanResolution(Prop(v, "resolution"), failing)
    && (IsBlocker(v) ==> Prop(v, "resolution").Some? && IsRecord(Prop(v, "resolution").value))
  }

  method ParseFinding(errors: Errors, id: string, v: Json, failing: set<string>) returns (r: Option<Finding>)
    modifies errors
    ensures Adds(old(errors.items), errors.items, !IsRecord(v) || CleanFinding(v, failing))
    ensures r.Some? ==> IsRecord(v) && r.value.blocker == IsBlocker(v)
    ensures r.Some? ==> (r.value.resolution.Some? && r.value.resolution.value.Fixed? <==> IsFixed(Prop(v, "resolution")))
    ensures IsRecord(v) && CleanFinding(v, failing) ==> r.Some?
  {
    if !IsRecord(v) { return None; }
    var title, severity := Prop(v, "title"), Prop(v, "severity");
    if !IsText(title) || (severity != Some(Str("note")) && severity != Some(Str("blocker")))
       || !IsFilledTextList(Prop(v, "sources")) {
      errors.Push(InvalidFinding(id));
      return None;
    }
    var resolution := ParseResolution(errors, id, title.value.text, Prop(v, "resolution"), failing);
    var blocker := severity == Some(Str("blocker"));
    errors.PushIf(blocker && resolution.None?, Unresolved(id, title.value.text));
    return Some(Finding(title.value.text, blocker, resolution));
  }

  predicate BlockersFixed(findings: seq<Finding>) {
    forall f | f in findings :: f.blocker ==> f.resolution.Some? && f.resolution.value.Fixed?
  }

  predicate BlockersFixedIn(items: seq<Json>) {
    forall f | f in items :: IsRecord(f) && IsBlocker(f) ==> IsFixed(Prop(f, "resolution"))
  }

  predicate CleanFindings(items: seq<Json>, failing: set<string>) {
    forall f | f in items :: IsRecord(f) ==> CleanFinding(f, failing)
  }

  predicate HasRecord(items: seq<Json>) {
    exists f | f in items :: IsRecord(f)
  }

  lemma OneMoreFinding(items: seq<Json>, v: Json, failing: set<string>)
    ensures HasRecord(items + [v]) <==> HasRecord(items) || IsRecord(v)
    ensures CleanFindings(items + [v], failing) <==> CleanFindings(items, failing) && (IsRecord(v) ==> CleanFinding(v, failing))
    ensures BlockersFixedIn(items + [v]) <==>
      BlockersFixedIn(items) && (IsRecord(v) && IsBlocker(v) ==> IsFixed(Prop(v, "resolution")))
  {
  }

  method ParseFindings(errors: Errors, id: string, items: seq<Json>, failing: set<string>) returns (r: seq<Finding>)
    modifies errors
    ensures Adds(old(errors.items), errors.items, CleanFindings(items, failing))
    ensures r != [] ==> HasRecord(items)
    ensures CleanFindings(items, failing) ==> (r != [] <==> HasRecord(items))
    ensures CleanFindings(items, failing) ==> (BlockersFixed(r) <==> BlockersFixedIn(items))
  {
    r := [];
    for i := 0 to |items|
      invariant Adds(old(errors.items), errors.items, CleanFindings(items[..i], failing))
      invariant r != [] ==> HasRecord(items[..i])
      invariant CleanFindings(items[..i], failing) ==> (r != [] <==> HasRecord(items[..i]))
      invariant CleanFindings(items[..i], failing) ==> (BlockersFixed(r) <==> BlockersFixedIn(items[..i]))
    {
      assert items[..i + 1] == items[..i] + [items[i]];
      OneMoreFinding(items[..i], items[i], failing);
      var finding := ParseFinding(errors, id, items[i], failing);
      if finding.Some? {
        assert BlockersFixed(r + [finding.value]) <==>
          BlockersFixed(r) && BlockersFixed([finding.value]);
        r := r + [finding.value];
      }
    }
    assert items[..|items|] == items;
  }

  /** A lane that raises no error while it is parsed. */
  predicate CleanLane(v: Json, failing: set<string>) {
    && IsTextIn(Prop(v, "id"), REQUIRED_LANES)
    && IsText(Prop(v, "scope"))
    && IsTextIn(Prop(v, "disposition"), DISPOSITIONS[..2])
    && IsFilledTextList(Prop(v, "inputs")) && IsFilledTextList(Prop(v, "commandsOrTools"))
    && IsFilledTextList(Prop(v, "evidence")) && IsFilledTextList(Prop(v, "residualRisks"))
    && !IsTextIn(Prop(v, "inconclusiveClass"), INCONCLUSIVE_CLASSES)
    && Prop(v, "findings").Some? && Prop(v, "findings").value.Arr?
    && HasRecord(Prop(v, "findings").value.items)
    && CleanFindings(Prop(v, "findings").value.items, failing)
  }

  /** The parsed lane says what the entry says. */
  predicate Represents(lane: Lane, v: Json) {
    && Prop(v, "id") == Some(Str(lane.id)) && lane.id in REQUIRED_LANES
    && Prop(v, "disposition") == Some(Str(lane.disposition))
  }

  lemma DispositionWords(word: string)
    ensures word in DISPOSITIONS <==> word in DISPOSITIONS[..2] || word == "inconclusive"
    ensures "inconclusive" !in DISPOSITIONS[..2] && "approved" in DISPOSITIONS[..2]
  {
    assert DISPOSITIONS == DISPOSITIONS[..2] + ["inconclusive"];
    assert |"inconclusive"| == 12 && |"approved"| == 8 && |"blocked"| == 7;
    assert DISPOSITIONS[..2] == ["approved", "blocked"];
  }

  predicate FilledLists(v: Json) {
    && IsFilledTextList(Prop(v, "inputs")) && IsFilledTextList(Prop(v, "commandsOrTools"))
    && IsFilledTextList(Prop(v, "residualRisks"))
  }

  predicate EvidenceSuffices(v: Json) {
    IsTextList(Prop(v, "evidence"))
    && (Prop(v, "disposition") == Some(Str("inconclusive")) || IsFilledTextList(Prop(v, "evidence")))
  }

  method CheckFields(errors: Errors, id: string, v: Json)
    modifies errors
    ensures Adds(old(errors.items), errors.items,
      IsText(Prop(v, "scope")) && IsTextIn(Prop(v, "disposition"), DISPOSITIONS) && FilledLists(v) && EvidenceSuffices(v))
  {
    errors.PushIf(!IsText(Prop(v, "scope")), LaneRequires(id, "scope"));
    errors.PushIf(!IsTextIn(Prop(v, "disposition"), DISPOSITIONS), LaneRequires(id, "disposition"));
    errors.PushIf(!IsFilledTextList(Prop(v, "inputs")), LaneRequires(id, "inputs"));
    errors.PushIf(!IsFilledTextList(Prop(v, "commandsOrTools")), LaneRequires(id, "commandsOrTools"));
    errors.PushIf(!EvidenceSuffices(v), LaneRequires(id, "evidence"));
    errors.PushIf(!IsFilledTextList(Prop(v, "residualRisks")), LaneRequires(id, "residualRisks"));
  }

  /** The findings entry is an array with a record in it, all of whose records are clean. */
  predicate FindingsClean(v: Option<Json>, failing: set<string>) {
    && v.Some? && v.value.Arr?
    && HasRecord(v.value.items)
    && CleanFindings(v.value.items, failing)
  }

  method CheckFindings(errors: Errors, id: string, v: Option<Json>, failing: set<string>) returns (r: seq<Finding>)
    modifies errors
    ensures Adds(old(errors.items), errors.items, FindingsClean(v, failing))
    ensures FindingsClean(v, failing) ==> (BlockersFixed(r) <==> BlockersFixedIn(v.value.items))
  {
    r := [];
    var isArray := v.Some? && v.value.Arr?;
    if isArray {
      r := ParseFindings(errors, id, v.value.items, failing);
    }
    errors.PushIf(!isArray || r == [], LaneRequires(id, "findings"));
  }

  method CheckClass(errors: Errors, id: string, v: Json)
    modifies errors
    ensures Adds(old(errors.items), errors.items,
      Prop(v, "disposition") != Some(Str("inconclusive")) && !IsTextIn(Prop(v, "inconclusiveClass"), INCONCLUSIVE_CLASSES))
  {
    var hasClass := IsTextIn(Prop(v, "inconclusiveClass"), INCONCLUSIVE_CLASSES);
    if Prop(v, "disposition") == Some(Str("inconclusive")) {
      errors.Push(if hasClass then Inconclusive(id) else LaneRequires(id, "an inconclusive class"));
    } else {
      errors.PushIf(hasClass, StrayInconclusiveClass(id));
    }
  }

  method ParseLane(errors: Errors, v: Json, failing: set<string>) returns (r: Option<Lane>)
    modifies errors
    ensures old(errors.items) <= errors.items
    ensures r.Some? && errors.items == old(errors.items) <==> CleanLane(v, failing)
    ensures r.Some? ==> Represents(r.value, v)
    ensures CleanLane(v, failing) ==>
      (BlockersFixed(r.value.findings) <==> BlockersFixedIn(Prop(v, "findings").value.items))
  {
    if !IsRecord(v) || !IsTextIn(Prop(v, "id"), REQUIRED_LANES) { return None; }
    var id := Prop(v, "id").value.text;
    var disposition := Prop(v, "disposition");
    if IsTextIn(disposition, DISPOSITIONS) {
      DispositionWords(disposition.value.text);
    }
    CheckFields(errors, id, v);
    var findings := CheckFindings(errors, id, Prop(v, "findings"), failing);
    if !IsText(Prop(v, "scope")) || !IsTextIn(disposition, DISPOSITIONS) || !IsTextList(Prop(v, "evidence")) {
      return None;
    }
    CheckClass(errors, id, v);
    return Some(Lane(id, disposition.value.text, findings));
  }

  // ---------------------------------------------------------------- evaluating the report

  function Count(lanes: seq<Lane>, id: string): nat {
    if lanes == [] then 0 else Count(lanes[..|lanes| - 1], id) + if lanes[|lanes| - 1].id == id then 1 else 0
  }

  /** The entries parse without an error, into these lanes. */
  predicate Parsed(lanes: seq<Lane>, items: seq<Json>, failing: set<string>) {
    |lanes| == |items| && forall k | 0 <= k < |items| :: Shows(lanes[k], items[k], failing)
  }

  predicate Shows(lane: Lane, v: Json, failing: set<string>) {
    && CleanLane(v, failing) && Represents(lane, v)
    && (BlockersFixed(lane.findings) <==> BlockersFixedIn(Prop(v, "findings").value.items))
  }

  predicate AllClean(items: seq<Json>, failing: set<string>) {
    forall v | v in items :: CleanLane(v, failing)
  }

  lemma OneMoreLane(items: seq<Json>, v: Json, failing: set<string>)
    ensures AllClean(items + [v], failing) <==> AllClean(items, failing) && CleanLane(v, failing)
  {
  }

  method ParseLanes(errors: Errors, items: seq<Json>, failing: set<string>) returns (lanes: seq<Lane>)
    modifies errors
    ensures Adds(old(errors.items), errors.items, AllClean(items, failing))
    ensures AllClean(items, failing) ==> Parsed(lanes, items, failing)
  {
    lanes := [];
    for i := 0 to |items|
      invariant Adds(old(errors.items), errors.items, AllClean(items[..i], failing))
      invariant AllClean(items[..i], failing) ==> Parsed(lanes, items[..i], failing)
    {
      assert items[..i + 1] == items[..i] + [items[i]];
      OneMoreLane(items[..i], items[i], failing);
      var lane := ParseLane(errors, items[i], failing);
      errors.PushIf(lane.None?, InvalidLane);
      lanes := lanes + if lane.Some? then [lane.value] else [];
    }
    assert items[..|items|] == items;
  }

  predicate EachOnce(lanes: seq<Lane>, ids: seq<string>) {
    forall id | id in ids :: Count(lanes, id) == 1
  }

  method CheckCounts(errors: Errors, lanes: seq<Lane>)
    modifies errors
    ensures Adds(old(errors.items), errors.items, EachOnce(lanes, REQUIRED_LANES))
  {
    for i := 0 to |REQUIRED_LANES|
      invariant Adds(old(errors.items), errors.items, EachOnce(lanes, REQUIRED_LANES[..i]))
    {
      var id := REQUIRED_LANES[i];
      assert REQUIRED_LANES[..i + 1] == REQUIRED_LANES[..i] + [id];
      errors.PushIf(Count(lanes, id) == 0, MissingLane(id));
      errors.PushIf(Count(lanes, id) > 1, DuplicateLane(id));
    }
    assert REQUIRED_LANES[..|REQUIRED_LANES|] == REQUIRED_LANES;
  }

  predicate AllApproved(lanes: seq<Lane>) {
    forall lane | lane in lanes :: lane.disposition == "approved"
  }

  method CheckDispositions(errors: Errors, lanes: seq<Lane>)
    modifies errors
    ensures Adds(old(errors.items), errors.items, AllApproved(lanes))
  {
    for i := 0 to |lanes|
      invariant Adds(old(errors.items), errors.items, AllApproved(lanes[..i]))
    {
      assert lanes[..i + 1] == lanes[..i] + [lanes[i]];
      errors.PushIf(lanes[i].disposition != "approved", NotApproved(lanes[i].id));
    }
    assert lanes[..|lanes|] == lanes;
  }

  /** The blockers of one lane that were not fixed, in order. */
  function UnresolvedBlockers(id: string, findings: seq<Finding>): (r: seq<Problem>)
    ensures r == [] <==> BlockersFixed(findings)
  {
    if findings == [] then []
    else
      var f := findings[0];
      assert findings == [f] + findings[1..];
      (if !f.blocker || (f.resolution.Some? && f.resolution.value.Fixed?) then []
       else if f.resolution.Some? then [StoryStillFailing(id, f.title)]
       else [Unresolved(id, f.title)])
      + UnresolvedBlockers(id, findings[1..])
  }

  predicate AllBlockersFixed(lanes: seq<Lane>) {
    forall lane | lane in lanes :: BlockersFixed(lane.findings)
  }

  method CheckBlockers(errors: Errors, lanes: seq<Lane>)
    modifies errors
    ensures Adds(old(errors.items), errors.items, AllBlockersFixed(lanes))
  {
    for i := 0 to |lanes|
      invariant Adds(old(errors.items), errors.items, AllBlockersFixed(lanes[..i]))
    {
      assert lanes[..i + 1] == lanes[..i] + [lanes[i]];
      errors.items := errors.items + UnresolvedBlockers(lanes[i].id, lanes[i].findings);
    }
    assert lanes[..|lanes|] == lanes;
  }

  /** A clean lane is acceptable when its reviewer approved it and its blockers are fixed. */
  lemma AcceptableIffApprovedAndFixed(v: Json, failing: set<string>)
    ensures AcceptableLane(v, failing) <==>
      CleanLane(v, failing) && Prop(v, "disposition") == Some(Str("approved"))
      && BlockersFixedIn(Prop(v, "findings").value.items)
  {
    DispositionWords("approved");
    if Prop(v, "findings").Some? && Prop(v, "findings").value.Arr? {
      var items := Prop(v, "findings").value.items;
      forall f | f in items && IsRecord(f)
        ensures AcceptableFinding(f, failing) <==>
          CleanFinding(f, failing) && (IsBlocker(f) ==> IsFixed(Prop(f, "resolution")))
      {
      }
    }
  }

  predicate SameIds(lanes: seq<Lane>, items: seq<Json>) {
    |lanes| == |items| && forall k | 0 <= k < |items| :: Prop(items[k], "id") == Some(Str(lanes[k].id))
  }

  lemma {:induction false} CountsAgree(lanes: seq<Lane>, items: seq<Json>, id: string)
    requires SameIds(lanes, items)
    ensures Count(lanes, id) == CountId(items, id)
  {
    if items != [] {
      var n := |items| - 1;
      CountsAgree(lanes[..n], items[..n], id);
      CountIdLast(items, id);
    }
  }

  lemma {:induction false} CountIdLast(items: seq<Json>, id: string)
    requires items != []
    ensures CountId(items, id) ==
      CountId(items[..|items| - 1], id) + if Prop(items[|items| - 1], "id") == Some(Str(id)) then 1 else 0
  {
    if |items| > 1 {
      CountIdLast(items[1..], id);
      assert items[1..][..|items| - 2] == items[..|items| - 1][1..];
    }
  }

  /** When every entry parses, the later checks on the lanes decide what is required of the entries. */
  lemma ChecksDecide(lanes: seq<Lane>, input: Json, failing: set<string>)
    requires Prop(input, "lanes").Some? && Prop(input, "lanes").value.Arr?
    requires AllClean(Prop(input, "lanes").value.items, failing) ==>
      Parsed(lanes, Prop(input, "lanes").value.items, failing)
    ensures Approvable(input, failing) <==>
      && AllClean(Prop(input, "lanes").value.items, failing)
      && EachOnce(lanes, REQUIRED_LANES) && AllApproved(lanes) && AllBlockersFixed(lanes)
  {
    var items := Prop(input, "lanes").value.items;
    forall v | v in items
      ensures AcceptableLane(v, failing) <==>
        CleanLane(v, failing) && Prop(v, "disposition") == Some(Str("approved"))
        && BlockersFixedIn(Prop(v, "findings").value.items)
    {
      AcceptableIffApprovedAndFixed(v, failing);
    }
    if AllClean(items, failing) {
      forall id ensures Count(lanes, id) == CountId(items, id) {
        CountsAgree(lanes, items, id);
      }
      LanesSayTheSame(lanes, items, failing);
    }
  }

  lemma LanesSayTheSame(lanes: seq<Lane>, items: seq<Json>, failing: set<string>)
    requires Parsed(lanes, items, failing)
    ensures AllApproved(lanes) <==> forall v | v in items :: Prop(v, "disposition") == Some(Str("approved"))
    ensures AllBlockersFixed(lanes) <==> forall v | v in items :: BlockersFixedIn(Prop(v, "findings").value.items)
  {
  }

  /** The evaluation approves exactly the approvable inputs. */
  method EvaluateClosureReviewInput(input: Json, failing: set<string>) returns (r: Report)
    ensures r.approved <==> Approvable(input, failing)
    ensures r.approved <==> r.errors == []
  {
    var entries := Prop(input, "lanes");
    if !IsRecord(input) || entries.None? || !entries.value.Arr? {
      return Report(false, [], [MissingLanes]);
    }
    var errors := new Errors();
    var lanes := ParseLanes(errors, entries.value.items, failing);
    CheckCounts(errors, lanes);
    CheckDispositions(errors, lanes);
    CheckBlockers(errors, lanes);
    ChecksDecide(lanes, input, failing);
    return Report(errors.items == [], lanes, errors.items);
  }

  // ---------------------------------------------------------------- consequences

  /** A blocker linked to a story keeps every review it occurs in from being approved, failing story or not. */
  lemma StoryLinkedBlockerNeverApproves(input: Json, failing: set<string>, v: Json, f: Json)
    requires Prop(input, "lanes").Some? && Prop(input, "lanes").value.Arr? && v in Prop(input, "lanes").value.items
    requires Prop(v, "findings").Some? && Prop(v, "findings").value.Arr? && f in Prop(v, "findings").value.items
    requires IsBlocker(f) && Prop(f, "resolution").Some?
    requires Prop(Prop(f, "resolution").value, "kind") == Some(Str("linked-story"))
    ensures !Approvable(input, failing)
  {
  }

  /** An approved review has five entries, one for each lane. */
  lemma FiveLanes(input: Json, failing: set<string>)
    requires Approvable(input, failing)
    ensures |Prop(input, "lanes").value.items| == 5
  {
    var items := Prop(input, "lanes").value.items;
    forall v | v in items ensures HasOneId(v) { }
    LengthIsSumOfCounts(items);
  }

  predicate HasOneId(v: Json) {
    IsTextIn(Prop(v, "id"), REQUIRED_LANES)
  }

  lemma {:induction false} LengthIsSumOfCounts(items: seq<Json>)
    requires forall v | v in items :: HasOneId(v)
    ensures |items| == CountId(items, REQUIRED_LANES[0]) + CountId(items, REQUIRED_LANES[1])
      + CountId(items, REQUIRED_LANES[2]) + CountId(items, REQUIRED_LANES[3]) + CountId(items, REQUIRED_LANES[4])
  {
    if items != [] {
      LengthIsSumOfCounts(items[1..]);
      assert HasOneId(items[0]);
    }
  }

}
