/** Keeping one tracker issue in step with the dependency audit, scripts/dependency-audit.ts. */
module AuditIssue {
  import opened Prelude

  const MARKER := "<!-- lando-dependency-audit:v1 -->"
  const TITLE := "Dependency audit findings"
  const BOT := "github-actions[bot]"
  const HEADING := "## Dependency audit findings"
  const NOTE := "Managed by the scheduled dependency audit. " + "Ignored advisories follow " + "package.json's audit policy."

  datatype Issue = Issue(title: string, author: string, body: Option<string>, open: bool, pullRequest: bool)

  /** The issues by number; the next one gets `next`. */
  datatype Tracker = Tracker(issues: map<nat, Issue>, next: nat)

  datatype Finding = Finding(name: string, severity: string, title: string, versions: string, url: string)

  /** The findings and the hash over them, which is one line. */
  datatype Report = Report(fingerprint: string, findings: seq<Finding>) {
    predicate Valid() {
      '\n' !in fingerprint
    }
  }

  /** `escapeText`: every character becomes a numeric character reference. */
  function EscapeText(text: string): string {
    if text == "" then "" else "&#" + Decimal(text[0] as nat) + ";" + EscapeText(text[1..])
  }

  /** The words of a finding's line. */
  function Words(f: Finding): seq<string> {
    ["-", EscapeText(f.name) + ":", EscapeText(f.severity) + ";", EscapeText(f.title) + ";", "vulnerable",
     EscapeText(f.versions) + ";", EscapeText(f.url)]
  }

  function Line(f: Finding): string {
    Join(Words(f), " ")
  }

  function FingerprintLine(report: Report): string {
    "<!-- sha256:" + report.fingerprint + " -->"
  }

  function FindingLines(report: Report): (lines: seq<string>)
    ensures |lines| == |report.findings| && forall i | 0 <= i < |lines| :: lines[i] == Line(report.findings[i])
  {
    seq(|report.findings|, i requires 0 <= i < |report.findings| => Line(report.findings[i]))
  }

  function BodyLines(report: Report): seq<string> {
    [MARKER, FingerprintLine(report), HEADING, ""] + FindingLines(report) + ["", NOTE]
  }

  function Body(report: Report): string {
    Join(BodyLines(report), "\n")
  }

  predicate IsMarked(body: Option<string>) {
    body.Some? && StartsWith(body.value, MARKER + "\n")
  }

  predicate IsManaged(issue: Issue) {
    !issue.pullRequest && issue.title == TITLE && issue.author == BOT && IsMarked(issue.body)
  }

  /** The issues a run takes for its own. */
  lemma ManagedMeans(issue: Issue)
    ensures IsManaged(issue) <==>
              && !issue.pullRequest && issue.title == "Dependency audit findings" && issue.author == "github-actions[bot]"
              && issue.body.Some? && "<!-- lando-dependency-audit:v1 -->\n" <= issue.body.value
  {
    assert MARKER + "\n" == "<!-- lando-dependency-audit:v1 -->\n";
  }

  function Managed(s: Tracker): set<nat> {
    set n | n in s.issues && IsManaged(s.issues[n])
  }

  predicate Valid(s: Tracker) {
    forall n | n in s.issues :: n < s.next
  }

  // ---------------------------------------------------------------- calls

  datatype Call = Create(body: string) | Close(n: nat) | Edit(n: nat, body: string) | Reopen(n: nat)

  /** What a call does that reaches the tracker; on an issue that does not exist it does nothing. */
  function Apply(s: Tracker, call: Call): Tracker {
    match call
    case Create(body) => Tracker(s.issues[s.next := Issue(TITLE, BOT, Some(body), true, false)], s.next + 1)
    case Close(n) => if n in s.issues then s.(issues := s.issues[n := s.issues[n].(open := false)]) else s
    case Edit(n, body) => if n in s.issues then s.(issues := s.issues[n := s.issues[n].(body := Some(body))]) else s
    case Reopen(n) => if n in s.issues then s.(issues := s.issues[n := s.issues[n].(open := true)]) else s
  }

  function ApplyAll(s: Tracker, calls: seq<Call>): Tracker
    decreases |calls|
  {
    if calls == [] then s else ApplyAll(Apply(s, calls[0]), calls[1..])
  }

  /** The body the issue should have, if there are findings. */
  function Desired(report: Report): Option<string> {
    if report.findings == [] then None else Some(Body(report))
  }

  /** The calls a run makes, given what it listed; none if several issues are managed, and the run throws. */
  ghost function Plan(s: Tracker, desired: Option<string>): Option<seq<Call>> {
    if |Managed(s)| > 1 then None
    else if Managed(s) == {} then Some(if desired.None? then [] else [Create(desired.value)])
    else
      var n :| n in Managed(s);
      Some(CallsOn(n, s.issues[n], desired))
  }

  function CallsOn(n: nat, issue: Issue, desired: Option<string>): seq<Call> {
    if desired.None? then (if issue.open then [Close(n)] else [])
    else (if issue.body != desired then [Edit(n, desired.value)] else []) + (if issue.open then [] else [Reopen(n)])
  }

  /** Some first calls have been made. */
  ghost predicate Partway(s: Tracker, s': Tracker, calls: seq<Call>) {
    exists k | 0 <= k <= |calls| :: s' == ApplyAll(s, calls[..k])
  }

  /** A run that came to its end, and one that stopped after any of its calls. */
  ghost predicate Completed(s: Tracker, s': Tracker, desired: Option<string>) {
    Plan(s, desired).Some? && s' == ApplyAll(s, Plan(s, desired).value)
  }

  ghost predicate Stopped(s: Tracker, s': Tracker, desired: Option<string>) {
    s' == s || (Plan(s, desired).Some? && Partway(s, s', Plan(s, desired).value))
  }

  /** The remote tracker: a call may be lost, and a call that took effect may still report failure. */
  class Remote {
    var tracker: Tracker
    /** The commands that reported failure. */
    ghost var failures: nat

    constructor (tracker: Tracker)
      ensures this.tracker == tracker && failures == 0
    {
      this.tracker := tracker;
      failures := 0;
    }

    method Do(call: Call) returns (ok: bool)
      modifies this
      ensures tracker == Apply(old(tracker), call) || (!ok && tracker == old(tracker))
      ensures failures == old(failures) + (if ok then 0 else 1)
    {
      var lost: bool := *;
      ok := *;
      if lost {
        ok := false;
      } else {
        tracker := Apply(tracker, call);
      }
      if !ok {
        failures := failures + 1;
      }
    }

    method List() returns (ok: bool, managed: set<nat>)
      modifies this`failures
      ensures ok ==> managed == Managed(tracker)
      ensures failures == old(failures) + (if ok then 0 else 1)
    {
      ok := *;
      if !ok {
        failures := failures + 1;
      }
      managed := Managed(tracker);
    }

    /** One run: the calls of the plan in order, up to the first that fails. */
    method Reconcile(report: Report, exitCode: int) returns (completed: bool)
      modifies this
      ensures completed ==> exitCode == (if report.findings == [] then 0 else 1)
      ensures completed ==> Completed(old(tracker), tracker, Desired(report))
      ensures completed && Valid(old(tracker)) ==> BringsInStep(old(tracker), tracker, report)
      ensures Stopped(old(tracker), tracker, Desired(report))
      ensures completed <==> exitCode == (if report.findings == [] then 0 else 1)
                             && |Managed(old(tracker))| <= 1 && failures == old(failures)
      ensures exitCode != (if report.findings == [] then 0 else 1) ==> tracker == old(tracker)
    {
      if exitCode != (if report.findings == [] then 0 else 1) { return false; }
      completed := Sync(Desired(report));
      if completed {
        CompletedIsInStep(old(tracker), tracker, report);
      }
    }

    /** The part of a run that talks to the tracker. */
    method Sync(desired: Option<string>) returns (completed: bool)
      modifies this
      ensures completed ==> Completed(old(tracker), tracker, desired)
      ensures Stopped(old(tracker), tracker, desired)
      ensures completed <==> |Managed(old(tracker))| <= 1 && failures == old(failures)
      ensures failures >= old(failures)
    {
      var listed, managed := List();
      if !listed || |managed| > 1 { return false; }
      if managed == {} {
        completed := Open(desired);
      } else {
        var n :| n in managed;
        OnlyOne(tracker, n, desired);
        completed := Update(n, tracker.issues[n], desired);
      }
    }

    method Open(desired: Option<string>) returns (completed: bool)
      requires Managed(tracker) == {}
      modifies this
      ensures completed ==> Completed(old(tracker), tracker, desired)
      ensures Stopped(old(tracker), tracker, desired)
      ensures (completed <==> failures == old(failures)) && failures >= old(failures)
    {
      if desired.None? { return true; }
      Steps(tracker, [Create(desired.value)]);
      completed := Do(Create(desired.value));
    }

    method Update(n: nat, issue: Issue, desired: Option<string>) returns (completed: bool)
      modifies this
      ensures completed ==> tracker == ApplyAll(old(tracker), CallsOn(n, issue, desired))
      ensures Partway(old(tracker), tracker, CallsOn(n, issue, desired))
      ensures (completed <==> failures == old(failures)) && failures >= old(failures)
    {
      Steps(tracker, CallsOn(n, issue, desired));
      if desired.None? {
        if !issue.open { return true; }
        completed := Do(Close(n));
        return;
      }
      if issue.body != desired {
        var edited := Do(Edit(n, desired.value));
        if !edited { return false; }
      }
      if issue.open { return true; }
      completed := Do(Reopen(n));
    }
  }

  /** The plan acts on the one managed issue. */
  lemma OnlyOne(s: Tracker, n: nat, desired: Option<string>)
    requires |Managed(s)| <= 1 && n in Managed(s)
    ensures Managed(s) == {n} && Plan(s, desired) == Some(CallsOn(n, s.issues[n], desired))
  {
    Singleton(Managed(s), n);
  }

  lemma Singleton(m: set<nat>, n: nat)
    requires |m| <= 1 && n in m
    ensures m == {n}
  {
    assert m == {n} + (m - {n});
  }

  /** The states the calls of a short plan lead through. */
  lemma Steps(s: Tracker, plan: seq<Call>)
    requires |plan| <= 2
    ensures Partway(s, s, plan) && Partway(s, ApplyAll(s, plan), plan)
    ensures |plan| == 0 ==> ApplyAll(s, plan) == s
    ensures |plan| == 1 ==> ApplyAll(s, plan) == Apply(s, plan[0])
    ensures |plan| == 2 ==> Partway(s, Apply(s, plan[0]), plan)
    ensures |plan| == 2 ==> ApplyAll(s, plan) == Apply(Apply(s, plan[0]), plan[1])
  {
    assert plan[..0] == [];
    assert plan[..|plan|] == plan;
    if |plan| >= 1 {
      OneCall(s, plan[0]);
      assert plan[..1] == [plan[0]];
    }
    if |plan| == 2 {
      OneCall(Apply(s, plan[0]), plan[1]);
      assert plan[1..] == [plan[1]];
    }
  }

  lemma OneCall(s: Tracker, call: Call)
    ensures ApplyAll(s, [call]) == Apply(s, call)
  {
  }

  lemma BodyIsMarked(report: Report)
    ensures Desired(report).Some? ==> IsMarked(Desired(report))
  {
    JoinStarts(BodyLines(report), "\n");
    assert BodyLines(report)[0] == MARKER;
  }

  lemma JoinStarts(parts: seq<string>, separator: string)
    requires |parts| > 1
    ensures StartsWith(Join(parts, separator), parts[0] + separator)
  {
  }

  // ---------------------------------------------------------------- reading the body back

  /** Escaped text has no white space and no markup: only references are left. */
  lemma {:induction false} EscapedIsInert(text: string)
    ensures forall c | c in EscapeText(text) :: IsDigit(c) || c == '&' || c == '#' || c == ';'
  {
    if text != "" {
      EscapedIsInert(text[1..]);
      DecimalRoundTrip(text[0] as nat);
    }
  }

  lemma {:induction false} EscapedSplits(text: string)
    ensures Split(EscapeText(text), ';') == seq(|text|, i requires 0 <= i < |text| => "&#" + Decimal(text[i] as nat)) + [""]
  {
    if text != "" {
      var code := "&#" + Decimal(text[0] as nat);
      DecimalRoundTrip(text[0] as nat);
      assert ';' !in code;
      SplitOff(code, EscapeText(text[1..]), ';');
      EscapedSplits(text[1..]);
    }
  }

  lemma EscapeInjective(a: string, b: string)
    requires EscapeText(a) == EscapeText(b)
    ensures a == b
  {
    EscapedSplits(a);
    EscapedSplits(b);
    var s, t := Split(EscapeText(a), ';'), Split(EscapeText(b), ';');
    assert |a| == |s| - 1 == |t| - 1 == |b|;
    forall i | 0 <= i < |a| ensures a[i] == b[i] {
      assert s[i] == "&#" + Decimal(a[i] as nat) && t[i] == "&#" + Decimal(b[i] as nat);
      assert s[i][2..] == Decimal(a[i] as nat) && t[i][2..] == Decimal(b[i] as nat);
      DecimalRoundTrip(a[i] as nat);
      DecimalRoundTrip(b[i] as nat);
    }
  }

  /** No white space in a word, whatever the advisory says. */
  lemma WordsAreInert(f: Finding, i: nat)
    requires i < 7
    ensures ' ' !in Words(f)[i] && '\n' !in Words(f)[i]
  {
    EscapedIsInert(f.name);
    EscapedIsInert(f.severity);
    EscapedIsInert(f.title);
    EscapedIsInert(f.versions);
    EscapedIsInert(f.url);
  }

  lemma {:induction false} JoinLacks(parts: seq<string>, separator: string, c: char)
    requires c !in separator && forall i | 0 <= i < |parts| :: c !in parts[i]
    ensures c !in Join(parts, separator)
  {
    if |parts| > 1 {
      JoinLacks(parts[1..], separator, c);
    }
  }

  /** The line is one line, and its words can be told apart. */
  lemma LineSplits(f: Finding)
    ensures '\n' !in Line(f) && Split(Line(f), ' ') == Words(f)
    ensures Split(Line(f), ' ') == ["-", EscapeText(f.name) + ":", EscapeText(f.severity) + ";", EscapeText(f.title) + ";",
                                    "vulnerable", EscapeText(f.versions) + ";", EscapeText(f.url)]
  {
    forall i: nat | i < 7 ensures ' ' !in Words(f)[i] && '\n' !in Words(f)[i] {
      WordsAreInert(f, i);
    }
    JoinLacks(Words(f), " ", '\n');
    SplitJoined(Words(f), ' ');
  }

  /** Lines that are equal are of equal findings. */
  lemma LineInjective(f: Finding, g: Finding)
    requires Line(f) == Line(g)
    ensures f == g
  {
    LineSplits(f);
    LineSplits(g);
    var a, b := Words(f), Words(g);
    assert a[1] == b[1] && a[2] == b[2] && a[3] == b[3] && a[5] == b[5] && a[6] == b[6];
    SameEscaped(f.name, g.name, ':');
    SameEscaped(f.severity, g.severity, ';');
    SameEscaped(f.title, g.title, ';');
    SameEscaped(f.versions, g.versions, ';');
    EscapeInjective(f.url, g.url);
  }

  lemma SameEscaped(a: string, b: string, end: char)
    requires EscapeText(a) + [end] == EscapeText(b) + [end]
    ensures a == b
  {
    var s, t := EscapeText(a) + [end], EscapeText(b) + [end];
    assert s[..|s| - 1] == EscapeText(a) && t[..|t| - 1] == EscapeText(b);
    EscapeInjective(a, b);
  }

  predicate NoBreaks(lines: seq<string>) {
    forall i | 0 <= i < |lines| :: '\n' !in lines[i]
  }

  lemma LinesRead(head: seq<string>, middle: seq<string>, foot: seq<string>)
    requires NoBreaks(head) && NoBreaks(middle) && NoBreaks(foot) && head != []
    ensures Split(Join(head + middle + foot, "\n"), '\n') == head + middle + foot
  {
    SplitJoined(head + middle + foot, '\n');
  }

  lemma NoBreaksIn(a: string, b: string, c: string, d: string)
    requires '\n' !in a && '\n' !in b && '\n' !in c
    ensures NoBreaks([a, b, c, ""]) && ('\n' !in d ==> NoBreaks(["", d]))
  {
  }

  /** The lines of the body: the marker, the fingerprint, the heading, one line for each finding, and the note. */
  lemma BodyReads(report: Report)
    requires report.Valid()
    ensures Split(Body(report), '\n') ==
              ["<!-- lando-dependency-audit:v1 -->", "<!-- sha256:" + report.fingerprint + " -->", HEADING, ""]
              + FindingLines(report) + ["", NOTE]
  {
    HeadIsTwoLines();
    NoteIsOneLine();
    FingerprintIsOneLine(report);
    NoBreaksIn(MARKER, FingerprintLine(report), HEADING, NOTE);
    forall i | 0 <= i < |report.findings| ensures '\n' !in FindingLines(report)[i] {
      LineSplits(report.findings[i]);
    }
    LinesRead([MARKER, FingerprintLine(report), HEADING, ""], FindingLines(report), ["", NOTE]);
  }

  lemma HeadIsTwoLines()
    ensures '\n' !in MARKER && '\n' !in HEADING
  {
  }

  lemma NoteStarts()
    ensures '\n' !in "Managed by the scheduled dependency audit. "
  {
  }

  lemma NoteEnds()
    ensures '\n' !in "Ignored advisories follow " && '\n' !in "package.json's audit policy."
  {
  }

  lemma NoteIsOneLine()
    ensures '\n' !in NOTE
  {
    NoteStarts();
    NoteEnds();
  }

  lemma FingerprintIsOneLine(report: Report)
    requires report.Valid()
    ensures '\n' !in FingerprintLine(report)
  {
  }

  /** The body tells what was found: two reports have one body only if they are equal. */
  lemma BodyInjective(a: Report, b: Report)
    requires a.Valid() && b.Valid() && Body(a) == Body(b)
    ensures a == b
  {
    BodyReads(a);
    BodyReads(b);
    SameParts([MARKER, FingerprintLine(a), HEADING, ""], FindingLines(a), [MARKER, FingerprintLine(b), HEADING, ""],
              FindingLines(b), ["", NOTE]);
    SameFingerprint(a, b);
    forall i | 0 <= i < |a.findings| ensures a.findings[i] == b.findings[i] {
      assert FindingLines(a)[i] == FindingLines(b)[i];
      LineInjective(a.findings[i], b.findings[i]);
    }
  }

  lemma SameParts(head: seq<string>, middle: seq<string>, head': seq<string>, middle': seq<string>, foot: seq<string>)
    requires |head| == |head'| == 4 && head + middle + foot == head' + middle' + foot
    ensures head[1] == head'[1] && middle == middle'
  {
    var all, n := head + middle + foot, |head| + |middle|;
    assert |middle| == |middle'|;
    assert all[..n][4..] == middle && (head' + middle' + foot)[..n][4..] == middle';
    assert all[1] == head[1] && (head' + middle' + foot)[1] == head'[1];
  }

  lemma SameFingerprint(a: Report, b: Report)
    requires FingerprintLine(a) == FingerprintLine(b)
    ensures a.fingerprint == b.fingerprint
  {
    var s, t := FingerprintLine(a), FingerprintLine(b);
    assert s[12..|s| - 4] == a.fingerprint && t[12..|t| - 4] == b.fingerprint;
  }

  // ---------------------------------------------------------------- what a call does to the managed issues

  lemma ManagedAfter(s: Tracker, call: Call)
    requires Valid(s)
    ensures Valid(Apply(s, call))
    ensures call.Create? ==> Managed(Apply(s, call)) == Managed(s) + if IsMarked(Some(call.body)) then {s.next} else {}
    ensures call.Close? || call.Reopen? ==> Managed(Apply(s, call)) == Managed(s)
    ensures call.Edit? ==> Managed(Apply(s, call)) <= Managed(s) + {call.n}
    ensures call.Edit? && call.n in Managed(s) && IsMarked(Some(call.body)) ==> Managed(Apply(s, call)) == Managed(s)
  {
  }

  // ---------------------------------------------------------------- every run, stopped anywhere, among other edits

  /** The tracker, and the calls the current run has still to make. */
  datatype State = State(tracker: Tracker, pending: seq<Call>)

  /** A run lists the issues and knows its calls. */
  ghost predicate Begin(s: State, s': State, desired: Option<string>) {
    s.pending == [] && s'.tracker == s.tracker && s'.pending == (if Plan(s.tracker, desired).Some? then Plan(s.tracker, desired).value else [])
  }

  /** The next call takes effect; the run goes on, or ends because the call reported failure nevertheless. */
  predicate CallMade(s: State, s': State) {
    && s.pending != [] && s'.tracker == Apply(s.tracker, s.pending[0])
    && (s'.pending == s.pending[1..] || s'.pending == [])
  }

  predicate Stop(s: State, s': State) {
    s'.tracker == s.tracker && s'.pending == []
  }

  /** Anyone else changes issues in any way, at any time, but adds no managed one. */
  predicate Outside(s: State, s': State) {
    && s'.pending == s.pending && Valid(s'.tracker)
    && Managed(s'.tracker) <= Managed(s.tracker)
  }

  ghost predicate Next(s: State, s': State) {
    (exists desired :: Begin(s, s', desired)) || CallMade(s, s') || Stop(s, s') || Outside(s, s')
  }

  /** What a call still to be made relies on. */
  predicate Allowed(call: Call, s: State) {
    if call.Create? then s.pending == [call] && Managed(s.tracker) == {} else Managed(s.tracker) <= {call.n}
  }

  predicate OnOneIssue(calls: seq<Call>) {
    forall i, j :: 0 <= i < j < |calls| ==> !calls[i].Create? && !calls[j].Create? && calls[i].n == calls[j].n
  }

  predicate Inv(s: State) {
    && Valid(s.tracker) && |Managed(s.tracker)| <= 1 && OnOneIssue(s.pending)
    && forall i :: 0 <= i < |s.pending| ==> Allowed(s.pending[i], s)
  }

  lemma BeginKeepsInv(s: State, s': State, desired: Option<string>)
    requires Inv(s) && Begin(s, s', desired)
    ensures Inv(s')
  {
    if Managed(s.tracker) != {} {
      var n :| n in Managed(s.tracker);
      OnlyOne(s.tracker, n, desired);
    }
  }

  lemma CallKeepsInv(s: State, s': State)
    requires Inv(s) && CallMade(s, s')
    ensures Inv(s')
  {
    var call := s.pending[0];
    assert Allowed(call, s);
    ManagedAfter(s.tracker, call);
    if call.Create? {
      AtMost(Managed(s'.tracker), s.tracker.next);
    } else {
      AtMost(Managed(s'.tracker), call.n);
      forall i | 0 <= i < |s'.pending| ensures Allowed(s'.pending[i], s') {
        assert s'.pending[i] == s.pending[i + 1] && Allowed(s.pending[i + 1], s);
        assert !s.pending[i + 1].Create? && s.pending[i + 1].n == call.n;
      }
    }
  }

  lemma AtMost(m: set<nat>, n: nat)
    requires m <= {n}
    ensures |m| <= 1
  {
    if m != {} {
      assert m == {n};
    }
  }

  lemma OutsideKeepsInv(s: State, s': State)
    requires Inv(s) && Outside(s, s')
    ensures Inv(s')
  {
    FewerAreFewer(Managed(s'.tracker), Managed(s.tracker));
    forall i | 0 <= i < |s'.pending| ensures Allowed(s'.pending[i], s') {
      assert Allowed(s.pending[i], s);
    }
  }

  lemma FewerAreFewer(a: set<nat>, b: set<nat>)
    requires a <= b
    ensures |a| <= |b|
  {
    assert b == a + (b - a);
  }

  lemma NextKeepsInv(s: State, s': State)
    requires Inv(s) && Next(s, s')
    ensures Inv(s')
  {
    if CallMade(s, s') {
      CallKeepsInv(s, s');
    } else if Outside(s, s') {
      OutsideKeepsInv(s, s');
    } else if !Stop(s, s') {
      var desired :| Begin(s, s', desired);
      BeginKeepsInv(s, s', desired);
    }
  }

  ghost predicate NextAt(states: seq<State>, i: nat)
    requires i + 1 < |states|
  {
    Next(states[i], states[i + 1])
  }

  ghost predicate IsExecution(states: seq<State>) {
    forall i: nat | i + 1 < |states| :: NextAt(states, i)
  }

  lemma PrefixIsExecution(states: seq<State>, n: nat)
    requires IsExecution(states) && n <= |states|
    ensures IsExecution(states[..n])
  {
    forall i: nat | i + 1 < n ensures NextAt(states[..n], i) {
      assert NextAt(states, i);
    }
  }

  /** Runs one after the other, each stopped anywhere and between any other edits, never make a second issue. */
  lemma {:induction false} NeverTwo(states: seq<State>)
    requires states != [] && Valid(states[0].tracker) && |Managed(states[0].tracker)| <= 1 && states[0].pending == []
    requires IsExecution(states)
    ensures forall i | 0 <= i < |states| :: Inv(states[i])
  {
    if |states| > 1 {
      var n := |states| - 1;
      PrefixIsExecution(states, n);
      NeverTwo(states[..n]);
      assert NextAt(states, n - 1) && Inv(states[..n][n - 1]);
      NextKeepsInv(states[n - 1], states[n]);
      forall i | 0 <= i < |states| ensures Inv(states[i]) {
        assert i < n ==> Inv(states[..n][i]);
      }
    }
  }

  // ---------------------------------------------------------------- completed runs

  /** The issue is as it should be: open and up to date if there are findings, not open otherwise. */
  predicate UpToDate(s: Tracker, desired: Option<string>) {
    && |Managed(s)| <= 1
    && (desired.Some? <==> exists n :: n in Managed(s) && s.issues[n].open)
    && (desired.Some? ==> forall n | n in Managed(s) :: s.issues[n].body == desired)
  }

  /** Only managed issues are touched, none disappears or stops being managed. */
  predicate OthersKept(s: Tracker, s': Tracker) {
    && Managed(s) <= Managed(s') && s.issues.Keys <= s'.issues.Keys
    && forall n | n in s.issues && n !in Managed(s) :: s'.issues[n] == s.issues[n]
  }

  /** What a completed run makes of the managed issue. */
  function Goal(issue: Issue, desired: Option<string>): Issue {
    if desired.None? then issue.(open := false) else issue.(body := desired, open := true)
  }

  function With(s: Tracker, n: nat, issue: Issue): Tracker {
    s.(issues := s.issues[n := issue])
  }

  /** The state a run of at most two calls on one issue ends in. */
  lemma AfterCallsOn(s: Tracker, n: nat, desired: Option<string>)
    requires n in s.issues
    ensures ApplyAll(s, CallsOn(n, s.issues[n], desired)) == With(s, n, Goal(s.issues[n], desired))
  {
    var calls, issue := CallsOn(n, s.issues[n], desired), s.issues[n];
    Steps(s, calls);
    assert s.issues[n := issue] == s.issues;
    if |calls| == 2 {
      var edited := issue.(body := desired);
      assert s.issues[n := edited][n := edited.(open := true)] == s.issues[n := Goal(issue, desired)];
    }
  }

  lemma AfterUpdate(s: Tracker, n: nat, issue: Issue)
    requires Managed(s) == {n} && IsManaged(issue)
    ensures Managed(With(s, n, issue)) == {n} && OthersKept(s, With(s, n, issue))
  {
  }

  /** A completed run leaves the issue up to date and every other issue alone. */
  lemma CompletedIsUpToDate(s: Tracker, s': Tracker, desired: Option<string>)
    requires Valid(s) && (desired.Some? ==> IsMarked(desired)) && Completed(s, s', desired)
    ensures UpToDate(s', desired) && OthersKept(s, s')
  {
    if n :| n in Managed(s) {
      OnlyOne(s, n, desired);
      AfterCallsOn(s, n, desired);
      AfterUpdate(s, n, Goal(s.issues[n], desired));
    } else if desired.Some? {
      Steps(s, [Create(desired.value)]);
      ManagedAfter(s, Create(desired.value));
      assert s.next in Managed(s');
    } else {
      assert s' == s;
    }
  }

  /** With findings exactly one issue is managed, open, and shows them; without findings no managed issue is open. */
  predicate InStep(s: Tracker, report: Report) {
    if report.findings == [] then forall n | n in s.issues && IsManaged(s.issues[n]) :: !s.issues[n].open
    else exists n | n in s.issues :: Managed(s) == {n} && s.issues[n].open && s.issues[n].body == Some(Body(report))
  }

  /** The run leaves the managed issue as it should be, and no other issue is touched. */
  predicate BringsInStep(s: Tracker, s': Tracker, report: Report) {
    InStep(s', report) && OthersKept(s, s')
  }

  lemma CompletedIsInStep(s: Tracker, s': Tracker, report: Report)
    requires Completed(s, s', Desired(report))
    ensures Valid(s) ==> BringsInStep(s, s', report)
  {
    if Valid(s) {
      BodyIsMarked(report);
      CompletedIsUpToDate(s, s', Desired(report));
      UpToDateIsInStep(s', report);
    }
  }

  lemma UpToDateIsInStep(s: Tracker, report: Report)
    requires UpToDate(s, Desired(report))
    ensures InStep(s, report)
  {
    if report.findings != [] {
      var n :| n in Managed(s) && s.issues[n].open;
      Singleton(Managed(s), n);
    }
  }

  /** Once the issue is up to date, a run with the same findings makes no call. */
  lemma RepeatIsQuiet(s: Tracker, desired: Option<string>)
    requires UpToDate(s, desired)
    ensures Plan(s, desired) == Some([])
  {
    if n :| n in Managed(s) {
      OnlyOne(s, n, desired);
      if desired.Some? {
        var open :| open in Managed(s) && s.issues[open].open;
        assert open == n;
      }
      assert CallsOn(n, s.issues[n], desired) == [];
    } else {
      assert Managed(s) == {};
    }
  }

  /** A run that stopped anywhere is made good by the next one, as if it had not stopped. */
  lemma RetryConverges(s: Tracker, m: Tracker, s': Tracker, desired: Option<string>)
    requires Valid(s) && (desired.Some? ==> IsMarked(desired))
    requires Plan(s, desired).Some? && Stopped(s, m, desired) && Completed(m, s', desired)
    ensures Completed(s, s', desired)
  {
    if m != s {
      var plan := Plan(s, desired).value;
      var k :| 0 <= k <= |plan| && m == ApplyAll(s, plan[..k]);
      Steps(s, plan);
      assert plan[..|plan|] == plan;
      if n :| n in Managed(s) {
        OnlyOne(s, n, desired);
        RetryOnIssue(s, n, m, s', desired, k);
      } else if k == |plan| {
        CompletedIsUpToDate(s, m, desired);
        RepeatIsQuiet(m, desired);
      }
    }
  }

  lemma RetryOnIssue(s: Tracker, n: nat, m: Tracker, s': Tracker, desired: Option<string>, k: nat)
    requires Valid(s) && Managed(s) == {n} && (desired.Some? ==> IsMarked(desired))
    requires k <= |CallsOn(n, s.issues[n], desired)| && m == ApplyAll(s, CallsOn(n, s.issues[n], desired)[..k])
    requires Completed(m, s', desired)
    ensures s' == ApplyAll(s, CallsOn(n, s.issues[n], desired))
  {
    assert n in Managed(s);
    PartwayOnIssue(s, n, desired, k);
    var issue := m.issues[n];
    AfterUpdate(s, n, issue);
    OnlyOne(m, n, desired);
    AfterCallsOn(s, n, desired);
    AfterCallsOn(m, n, desired);
    var goal := Goal(issue, desired);
    assert s.issues[n := issue][n := goal] == s.issues[n := goal];
  }

  /** After some of the calls the goal is still the same. */
  lemma PartwayOnIssue(s: Tracker, n: nat, desired: Option<string>, k: nat)
    requires n in s.issues && IsManaged(s.issues[n]) && (desired.Some? ==> IsMarked(desired))
    requires k <= |CallsOn(n, s.issues[n], desired)|
    ensures var m := ApplyAll(s, CallsOn(n, s.issues[n], desired)[..k]);
      && n in m.issues && m == With(s, n, m.issues[n])
      && IsManaged(m.issues[n]) && Goal(m.issues[n], desired) == Goal(s.issues[n], desired)
  {
    var calls, issue := CallsOn(n, s.issues[n], desired), s.issues[n];
    AfterCallsOn(s, n, desired);
    assert s.issues[n := issue] == s.issues;
    assert calls[..|calls|] == calls && calls[..0] == [];
    if 0 < k {
      assert calls[..1] == [calls[0]];
      OneCall(s, calls[0]);
    }
  }

  /** Runs must not overlap: two that both listed no issue make two, and from then on every run throws. */
  lemma OverlapDuplicates(s: Tracker, desired: Option<string>, later: Option<string>)
    requires Valid(s) && Managed(s) == {} && IsMarked(desired)
    ensures Plan(s, desired) == Some([Create(desired.value)])
    ensures var s' := Apply(Apply(s, Create(desired.value)), Create(desired.value));
      |Managed(s')| == 2 && Plan(s', later).None?
  {
    ManagedAfter(s, Create(desired.value));
    ManagedAfter(Apply(s, Create(desired.value)), Create(desired.value));
    assert |{s.next} + {s.next + 1}| == 2;
  }
}
