/**
 * The parts of CommonMark 0.31 that the generated pages rely on: backtick runs, code spans (section 6.1)
 * and fenced code blocks (section 4.5), with numeric and named entities (section 2.5).
 */
module Markdown {
  import opened Prelude

  // ---------------------------------------------------------------- runs of one character

  /** The number of marks `s` starts with. */
  function RunLength(s: string, mark: char): (n: nat)
    ensures n <= |s| && (forall i | 0 <= i < n :: s[i] == mark) && (n < |s| ==> s[n] != mark)
  {
    if s == "" || s[0] != mark then 0 else 1 + RunLength(s[1..], mark)
  }

  /** The lengths of the maximal runs, as a global match of one or more marks finds them. */
  function Runs(s: string, mark: char): seq<nat> {
    if s == "" then []
    else if s[0] == mark then [RunLength(s, mark)] + Runs(s[RunLength(s, mark)..], mark)
    else Runs(s[1..], mark)
  }

  function Maximum(floor: nat, ns: seq<nat>): nat {
    if ns == [] then floor
    else if ns[0] > Maximum(floor, ns[1..]) then ns[0]
    else Maximum(floor, ns[1..])
  }

  function Repeat(mark: char, n: nat): (s: string)
    ensures |s| == n && forall i | 0 <= i < n :: s[i] == mark
  {
    seq(n, _ => mark)
  }

  /** `n` marks in a row occur from position `i` on. */
  predicate RunAt(s: string, mark: char, i: nat, n: nat) {
    i + n <= |s| && forall k | i <= k < i + n :: s[k] == mark
  }

  lemma {:induction false} MaximumBounds(floor: nat, ns: seq<nat>)
    ensures floor <= Maximum(floor, ns) && forall n | n in ns :: n <= Maximum(floor, ns)
    ensures Maximum(floor, ns) == floor || Maximum(floor, ns) in ns
  {
    if ns != [] {
      MaximumBounds(floor, ns[1..]);
      assert ns == [ns[0]] + ns[1..];
    }
  }

  /** The length of the run at the start, or one character if there is none. */
  function Piece(s: string, mark: char): (n: nat)
    requires s != ""
    ensures 0 < n <= |s|
  {
    if s[0] == mark then RunLength(s, mark) else 1
  }

  lemma RunsBehind(s: string, mark: char)
    requires s != ""
    ensures forall m | m in Runs(s[Piece(s, mark)..], mark) :: m in Runs(s, mark)
    ensures s[0] == mark ==> RunLength(s, mark) in Runs(s, mark)
  {
  }

  lemma RunStops(s: string, mark: char, i: nat, n: nat, k: nat)
    requires RunAt(s, mark, i, n) && k < |s| && s[k] != mark
    ensures i <= k ==> i + n <= k
  {
  }

  /** No row of marks is longer than all of the maximal runs. */
  lemma {:induction false} RunIsCovered(s: string, mark: char, i: nat, n: nat)
    requires RunAt(s, mark, i, n) && n > 0
    ensures exists m | m in Runs(s, mark) :: n <= m
  {
    var k := Piece(s, mark);
    var behind := s[k..];
    RunsBehind(s, mark);
    if s[0] == mark && i < k {
      if k < |s| { RunStops(s, mark, i, n, k); }
    } else {
      if s[0] != mark { RunStops(s, mark, i, n, 0); }
      RunIsCovered(behind, mark, i - k, n);
      var m :| m in Runs(behind, mark) && n <= m;
      assert m in Runs(s, mark);
    }
  }

  // ---------------------------------------------------------------- code spans

  /** Where the first backtick string of length exactly `n` begins. */
  function FindCloser(s: string, n: nat): (r: Option<nat>)
    ensures r.Some? ==> r.value + n <= |s|
  {
    if s == "" then None
    else if s[0] == '`' then
      var k := RunLength(s, '`');
      if k == n then Some(0) else Shift(FindCloser(s[k..], n), k)
    else Shift(FindCloser(s[1..], n), 1)
  }

  function Shift(r: Option<nat>, k: nat): Option<nat> {
    if r.Some? then Some(r.value + k) else None
  }

  predicate OnlySpaces(s: string) {
    forall c | c in s :: c == ' '
  }

  /** What a code span shows: one space is stripped on both sides unless there are only spaces. */
  function SpanContent(s: string): string {
    if |s| >= 2 && s[0] == ' ' && s[|s| - 1] == ' ' && !OnlySpaces(s) then s[1..|s| - 1] else s
  }

  datatype Span = Span(content: string, rest: string)

  /** The code span that a text, without line endings, starts with. */
  function ParseSpan(s: string): (r: Option<Span>)
    ensures r.Some? ==> |r.value.rest| < |s|
  {
    var n := RunLength(s, '`');
    if n == 0 then None
    else
      var inner := s[n..];
      var at := FindCloser(inner, n);
      if at.None? then None
      else Some(Span(SpanContent(inner[..at.value]), inner[at.value + n..]))
  }

  /** The contents of the code spans in a line of text without backslash escapes outside of them. */
  function Spans(s: string): seq<string>
    decreases |s|
  {
    if s == "" then []
    else if s[0] != '`' then Spans(s[1..])
    else
      var span := ParseSpan(s);
      if span.Some? then [span.value.content] + Spans(span.value.rest)
      else Spans(s[RunLength(s, '`')..])
  }

  lemma {:induction false} CloserBehind(content: string, n: nat, tail: string)
    requires forall m | m in Runs(content, '`') :: m < n
    requires tail != "" && tail[0] != '`'
    ensures FindCloser(content + tail, n) == Shift(FindCloser(tail, n), |content|)
  {
    if content == "" {
      assert content + tail == tail;
    } else {
      var k := Piece(content, '`');
      var behind := content[k..];
      RunsBehind(content, '`');
      RunOfPrefix(content, tail, '`');
      assert (content + tail)[k..] == behind + tail;
      CloserBehind(behind, n, tail);
    }
  }

  lemma RunLengthIs(s: string, mark: char, n: nat)
    requires RunAt(s, mark, 0, n) && (n < |s| ==> s[n] != mark)
    ensures RunLength(s, mark) == n
  {
  }

  /** What follows a text does not lengthen the run at its start unless it begins with the mark. */
  lemma RunOfPrefix(s: string, tail: string, mark: char)
    requires tail != "" ==> tail[0] != mark
    ensures RunLength(s + tail, mark) == RunLength(s, mark)
  {
    var n := RunLength(s, mark);
    assert n == |s| && tail != "" ==> (s + tail)[n] == tail[0];
    RunLengthIs(s + tail, mark, n);
  }

  lemma RunOfRepeat(mark: char, n: nat, tail: string)
    requires tail != "" ==> tail[0] != mark
    ensures RunLength(Repeat(mark, n) + tail, mark) == n
  {
    RunLengthIs(Repeat(mark, n), mark, n);
    RunOfPrefix(Repeat(mark, n), tail, mark);
  }

  lemma CloserAtOnce(n: nat, rest: string)
    requires n > 0 && (rest != "" ==> rest[0] != '`')
    ensures FindCloser(Repeat('`', n) + rest, n) == Some(0)
  {
    RunOfRepeat('`', n, rest);
  }

  /** The first backtick string of this length behind padded content is the one that follows it. */
  lemma CloserFound(content: string, n: nat, closing: string)
    requires forall m | m in Runs(content, '`') :: m < n
    requires FindCloser(closing, n) == Some(0)
    ensures FindCloser(" " + (content + (" " + closing)), n) == Some(|content| + 2)
  {
    CloserBehind(content, n, " " + closing);
  }

  /** Padded content between two backtick strings longer than any run in it parses as one span. */
  lemma SpanParses(content: string, n: nat, rest: string)
    requires n > 0 && forall m | m in Runs(content, '`') :: m < n
    requires rest != "" ==> rest[0] != '`'
    ensures ParseSpan(Repeat('`', n) + (" " + (content + (" " + (Repeat('`', n) + rest)))))
         == Some(Span(SpanContent(" " + content + " "), rest))
  {
    var opening, padded := Repeat('`', n), " " + content + " ";
    var inner := padded + (opening + rest);
    RunOfRepeat('`', n, inner);
    CloserAtOnce(n, rest);
    CloserFound(content, n, opening + rest);
    Regroup(content, opening, rest);
    SpanBetween(opening, padded, rest);
  }

  lemma SpanBetween(opening: string, padded: string, rest: string)
    requires opening != "" && RunLength(opening + (padded + (opening + rest)), '`') == |opening|
    requires FindCloser(padded + (opening + rest), |opening|) == Some(|padded|)
    ensures ParseSpan(opening + (padded + (opening + rest))) == Some(Span(SpanContent(padded), rest))
  {
    CutSpan(padded, opening, rest);
  }

  lemma CutSpan(padded: string, opening: string, rest: string)
    ensures (padded + (opening + rest))[..|padded|] == padded
    ensures (padded + (opening + rest))[|padded| + |opening|..] == rest
  {
  }

  lemma Regroup(content: string, opening: string, rest: string)
    ensures " " + (content + (" " + (opening + rest))) == " " + content + " " + (opening + rest)
  {
  }

  // ---------------------------------------------------------------- fenced code blocks

  datatype Fence = Fence(mark: char, length: nat)

  /** The fence a line opens, if any. */
  function Opens(line: string): Option<Fence> {
    var i := RunLength(line, ' ');
    if i > 3 || i == |line| || line[i] !in "`~" then None
    else
      var n := RunLength(line[i..], line[i]);
      if n < 3 || (line[i] == '`' && '`' in line[i + n..]) then None else Some(Fence(line[i], n))
  }

  predicate Closes(line: string, fence: Fence) {
    var i := RunLength(line, ' ');
    i <= 3 && RunLength(line[i..], fence.mark) >= fence.length
    && OnlyBlanks(line[i + RunLength(line[i..], fence.mark)..])
  }

  predicate OnlyBlanks(s: string) {
    forall i | 0 <= i < |s| :: s[i] == ' ' || s[i] == '\t'
  }

  /** The lines up to the first that closes the fence, or all of them. */
  function Inside(lines: seq<string>, fence: Fence): (r: seq<string>)
    ensures |r| <= |lines|
  {
    if lines == [] || Closes(lines[0], fence) then [] else [lines[0]] + Inside(lines[1..], fence)
  }

  /** The contents of the top-level fenced code blocks of a document. */
  function FencedBlocks(lines: seq<string>): seq<seq<string>>
    decreases |lines|
  {
    if lines == [] then []
    else if Opens(lines[0]).None? then FencedBlocks(lines[1..])
    else
      var body := Inside(lines[1..], Opens(lines[0]).value);
      [body] + if |body| + 2 > |lines| then [] else FencedBlocks(lines[|body| + 2..])
  }

  // ---------------------------------------------------------------- lines

  predicate IsLineEnd(c: char) {
    c == '\n' || c == '\r'
  }

  function LineLength(s: string): (n: nat)
    ensures n <= |s| && (forall i | 0 <= i < n :: !IsLineEnd(s[i])) && (n < |s| ==> IsLineEnd(s[n]))
  {
    if s == "" || IsLineEnd(s[0]) then 0 else 1 + LineLength(s[1..])
  }

  /** Where the line after the first begins. */
  function NextLine(s: string): (n: nat)
    requires s != ""
    ensures 0 < n <= |s|
  {
    var n := LineLength(s);
    if n == |s| then n
    else if n + 1 < |s| && s[n] == '\r' && s[n + 1] == '\n' then n + 2
    else n + 1
  }

  /** The lines of a document (section 2.1): a line feed, a carriage return, or both in this order end a line. */
  function Lines(s: string): seq<string> {
    if s == "" then [] else [s[..LineLength(s)]] + Lines(s[NextLine(s)..])
  }

  lemma LineLengthIs(s: string, n: nat)
    requires n <= |s| && (forall i | 0 <= i < n :: !IsLineEnd(s[i])) && (n < |s| ==> IsLineEnd(s[n]))
    ensures LineLength(s) == n
  {
  }

  lemma {:induction false} LinesOfConcat(a: string, b: string)
    requires a != "" ==> a[|a| - 1] == '\n'
    ensures Lines(a + b) == Lines(a) + Lines(b)
    decreases |a|
  {
    if a == "" {
      assert a + b == b;
    } else {
      var tail := a[NextLine(a)..];
      FirstLineOfConcat(a, b);
      LinesOfConcat(tail, b);
      Associate([a[..LineLength(a)]], Lines(tail), Lines(b));
    }
  }

  lemma Associate(a: seq<string>, b: seq<string>, c: seq<string>)
    ensures a + (b + c) == a + b + c
  {
  }

  lemma FirstLineOfConcat(a: string, b: string)
    requires a != "" && a[|a| - 1] == '\n'
    ensures (a + b)[NextLine(a + b)..] == a[NextLine(a)..] + b
    ensures (a + b)[..LineLength(a + b)] == a[..LineLength(a)]
  {
    var n := LineLength(a);
    assert IsLineEnd(a[|a| - 1]);
    LineLengthIs(a + b, n);
    assert n + 1 < |a| || a[n] == '\n';
    assert n + 1 < |a| ==> (a + b)[n + 1] == a[n + 1];
  }

  lemma OneLine(line: string)
    requires forall c | c in line :: !IsLineEnd(c)
    ensures Lines(line + "\n") == [line]
  {
    LineLengthIs(line + "\n", |line|);
    assert (line + "\n")[..|line|] == line;
    assert (line + "\n")[|line| + 1..] == "";
    assert Lines("") == [];
  }

  /** Every line is a part of the document. */
  lemma {:induction false} LinesAreParts(s: string, line: string)
    requires line in Lines(s)
    ensures exists i | 0 <= i <= |s| :: StartsWith(s[i..], line)
  {
    if line == s[..LineLength(s)] {
      assert StartsWith(s[0..], line);
    } else {
      var e := NextLine(s);
      LinesAreParts(s[e..], line);
      var i :| 0 <= i <= |s[e..]| && StartsWith(s[e..][i..], line);
      assert s[e..][i..] == s[e + i..];
    }
  }
}
