/** Escaping of text and code for the generated lint-rule page, scripts/build-config-lint-rule-reference.ts. */
module LintReference {
  import opened Prelude
  import opened Markdown

  /** `value.replaceAll(c, replacement)` for a one-character `c`. */
  function ReplaceAll(s: string, c: char, replacement: string): string {
    if s == "" then "" else (if s[0] == c then replacement else [s[0]]) + ReplaceAll(s[1..], c, replacement)
  }

  datatype Rule = Rule(c: char, replacement: string)

  /** The replacements of `text`, in the order of the chain. */
  const ESCAPES: seq<Rule> := [
    Rule('&', "&amp;"), Rule('<', "&lt;"), Rule('>', "&gt;"), Rule('{', "&#123;"), Rule('}', "&#125;"),
    Rule('|', "&#124;"), Rule('`', "&#96;"), Rule('*', "&#42;"), Rule('_', "&#95;"), Rule('[', "&#91;"),
    Rule(']', "&#93;"), Rule('\\', "&#92;")]

  /** Each rule applied to the result of the one before. */
  function Chain(s: string, rules: seq<Rule>): string
    decreases |rules|
  {
    if rules == [] then s else Chain(ReplaceAll(s, rules[0].c, rules[0].replacement), rules[1..])
  }

  function SkipSpaces(s: string): (r: string)
    ensures |r| <= |s| && (r != "" ==> !IsSpace(r[0])) && r == s[|s| - |r|..]
    ensures forall i | 0 <= i < |s| - |r| :: IsSpace(s[i])
  {
    if s == "" || !IsSpace(s[0]) then s else SkipSpaces(s[1..])
  }

  /** `s.replace(/\s+/g, " ")`. */
  function Collapse(s: string): string
    decreases |s|
  {
    if s == "" then ""
    else if IsSpace(s[0]) then " " + Collapse(SkipSpaces(s))
    else [s[0]] + Collapse(s[1..])
  }

  /** The text is these words, which have no white space, with these runs of white space between them. */
  predicate Alternates(s: string, words: seq<string>, gaps: seq<string>)
    decreases |gaps|
  {
    && |words| == |gaps| + 1 && (forall c | c in words[0] :: !IsSpace(c))
    && (if gaps == [] then s == words[0] else
        && gaps[0] != "" && (forall c | c in gaps[0] :: IsSpace(c)) && words[0] + gaps[0] <= s
        && (|gaps| > 1 ==> words[1] != "")
        && Alternates(s[|words[0]| + |gaps[0]|..], words[1..], gaps[1..]))
  }

  /** Collapsing replaces each whole run of white space by one blank. */
  lemma {:induction false} CollapseMeans(s: string) returns (words: seq<string>, gaps: seq<string>)
    ensures Alternates(s, words, gaps) && Collapse(s) == Join(words, " ")
    decreases |s|
  {
    if s == "" {
      words, gaps := [""], [];
    } else if IsSpace(s[0]) {
      var rest := SkipSpaces(s);
      var n := |s| - |rest|;
      words, gaps := CollapseMeans(rest);
      GapFirst(s, n, words, gaps);
      words, gaps := [""] + words, [s[..n]] + gaps;
    } else {
      words, gaps := CollapseMeans(s[1..]);
      WordGrows(s, words, gaps);
      words := [[s[0]] + words[0]] + words[1..];
    }
  }

  lemma GapFirst(s: string, n: nat, words: seq<string>, gaps: seq<string>)
    requires 0 < n <= |s| && (forall i | 0 <= i < n :: IsSpace(s[i])) && (n < |s| ==> !IsSpace(s[n]))
    requires Alternates(s[n..], words, gaps)
    ensures Alternates(s, [""] + words, [s[..n]] + gaps)
    ensures Join([""] + words, " ") == " " + Join(words, " ")
  {
    FirstWord(s[n..], words, gaps);
    assert ([""] + words)[1..] == words && ([s[..n]] + gaps)[1..] == gaps && "" + s[..n] == s[..n];
  }

  lemma FirstWord(s: string, words: seq<string>, gaps: seq<string>)
    requires Alternates(s, words, gaps) && (s == "" || !IsSpace(s[0]))
    ensures gaps != [] ==> words[0] != ""
  {
    if gaps != [] {
      assert s[0] == (words[0] + gaps[0])[0] && gaps[0][0] in gaps[0];
    }
  }

  lemma WordGrows(s: string, words: seq<string>, gaps: seq<string>)
    requires s != "" && !IsSpace(s[0]) && Alternates(s[1..], words, gaps)
    ensures Alternates(s, [[s[0]] + words[0]] + words[1..], gaps)
    ensures Join([[s[0]] + words[0]] + words[1..], " ") == [s[0]] + Join(words, " ")
  {
    var longer := [[s[0]] + words[0]] + words[1..];
    assert longer[1..] == words[1..] && s == [s[0]] + s[1..];
    if gaps != [] {
      assert longer[0] + gaps[0] == [s[0]] + (words[0] + gaps[0]);
      assert s[|longer[0]| + |gaps[0]|..] == s[1..][|words[0]| + |gaps[0]|..];
      var rest := Join(words[1..], " ");
      assert longer[0] + " " + rest == [s[0]] + (words[0] + " " + rest);
    }
  }

  function Text(value: string): string {
    Collapse(Chain(value, ESCAPES))
  }

  /** The content and delimiters of a code span. */
  function CodeContent(value: string): string {
    Collapse(ReplaceAll(value, '|', "\\|"))
  }

  function Delimiter(content: string): string {
    Repeat('`', Maximum(0, Runs(content, '`')) + 1)
  }

  function Code(value: string): string {
    var content := CodeContent(value);
    Delimiter(content) + " " + content + " " + Delimiter(content)
  }

  function Codes(values: seq<string>): seq<string> {
    if values == [] then [] else [Code(values[0])] + Codes(values[1..])
  }

  function ListCell(values: seq<string>): string {
    Join(Codes(values), ", ")
  }

  // ---------------------------------------------------------------- reference: one simultaneous map

  /** The replacement of a character by the first rule for it. */
  function Image(c: char, rules: seq<Rule>): string {
    if rules == [] then [c] else if rules[0].c == c then rules[0].replacement else Image(c, rules[1..])
  }

  function Simultaneous(s: string, rules: seq<Rule>): string {
    if s == "" then "" else Image(s[0], rules) + Simultaneous(s[1..], rules)
  }

  predicate Mentions(r: string, c: char) {
    exists i :: 0 <= i < |r| && r[i] == c
  }

  /** No rule touches what an earlier one has written. */
  predicate Settled(rules: seq<Rule>) {
    forall i, j | 0 <= i < j < |rules| :: !Mentions(rules[i].replacement, rules[j].c)
  }

  lemma {:induction false} ReplaceAllConcat(a: string, b: string, c: char, r: string)
    ensures ReplaceAll(a + b, c, r) == ReplaceAll(a, c, r) + ReplaceAll(b, c, r)
  {
    if a == "" {
      assert a + b == b;
    } else {
      assert (a + b)[1..] == a[1..] + b;
      ReplaceAllConcat(a[1..], b, c, r);
    }
  }

  lemma {:induction false} ChainConcat(a: string, b: string, rules: seq<Rule>)
    ensures Chain(a + b, rules) == Chain(a, rules) + Chain(b, rules)
    decreases |rules|
  {
    if rules != [] {
      var c, r := rules[0].c, rules[0].replacement;
      ReplaceAllConcat(a, b, c, r);
      ChainConcat(ReplaceAll(a, c, r), ReplaceAll(b, c, r), rules[1..]);
    }
  }

  lemma {:induction false} NothingToReplace(s: string, c: char, r: string)
    requires !Mentions(s, c)
    ensures ReplaceAll(s, c, r) == s
  {
    if s != "" {
      assert forall i | 0 <= i < |s[1..]| :: s[1..][i] == s[i + 1];
      NothingToReplace(s[1..], c, r);
    }
  }

  lemma {:induction false} ChainLeaves(s: string, rules: seq<Rule>)
    requires forall j | 0 <= j < |rules| :: !Mentions(s, rules[j].c)
    ensures Chain(s, rules) == s
  {
    if rules != [] {
      NothingToReplace(s, rules[0].c, rules[0].replacement);
      ChainLeaves(s, rules[1..]);
    }
  }

  lemma {:induction false} ChainOfOne(c: char, rules: seq<Rule>)
    requires Settled(rules)
    ensures Chain([c], rules) == Image(c, rules)
  {
    if rules != [] {
      var rule := rules[0];
      assert Settled(rules[1..]);
      assert ReplaceAll([c], rule.c, rule.replacement) == if rule.c == c then rule.replacement else [c] by {
        assert [c][1..] == "";
      }
      if rule.c == c {
        ChainLeaves(rule.replacement, rules[1..]);
      } else {
        ChainOfOne(c, rules[1..]);
      }
    }
  }

  /** A chain of replacements whose rules do not disturb each other is one map over the characters. */
  lemma {:induction false} ChainIsSimultaneous(s: string, rules: seq<Rule>)
    requires Settled(rules)
    ensures Chain(s, rules) == Simultaneous(s, rules)
  {
    if s == "" {
      ChainLeaves(s, rules);
    } else {
      assert s == [s[0]] + s[1..];
      ChainConcat([s[0]], s[1..], rules);
      ChainOfOne(s[0], rules);
      ChainIsSimultaneous(s[1..], rules);
    }
  }

  // ---------------------------------------------------------------- reference: character references

  /** The characters entities are written in: none of them is escaped but the ampersand. */
  predicate EntityChar(c: char) {
    c == '&' || c == ';' || c == '#' || IsDigit(c) || 'a' <= c <= 'z'
  }

  /** The character a reference names, without its `&` and `;` (the named ones used here, and decimal ones). */
  function Named(name: string): Option<char> {
    if name == "amp" then Some('&')
    else if name == "lt" then Some('<')
    else if name == "gt" then Some('>')
    else if |name| > 1 && name[0] == '#' && (forall i | 1 <= i < |name| :: IsDigit(name[i]))
         && ParseDecimal(name[1..]) < 0xD800 then Some(ParseDecimal(name[1..]) as char)
    else None
  }

  /** Where the first semicolon is. */
  function Semicolon(s: string): (n: nat)
    ensures n <= |s| && (n < |s| ==> s[n] == ';') && forall i | 0 <= i < n :: s[i] != ';'
  {
    if s == "" || s[0] == ';' then 0 else 1 + Semicolon(s[1..])
  }

  /** Character references replaced by what they name. */
  function Decode(s: string): string
    decreases |s|
  {
    if s == "" then ""
    else if s[0] != '&' then [s[0]] + Decode(s[1..])
    else
      var n := Semicolon(s[1..]);
      if n < |s| - 1 && Named(s[1..n + 1]).Some? then [Named(s[1..n + 1]).value] + Decode(s[n + 2..])
      else "&" + Decode(s[1..])
  }

  /** `r` is a reference to `c`. */
  predicate Refers(r: string, c: char) {
    && |r| >= 3 && r[0] == '&' && r[|r| - 1] == ';'
    && (forall i | 1 <= i < |r| - 1 :: EntityChar(r[i]) && r[i] != ';' && r[i] != '&')
    && Named(r[1..|r| - 1]) == Some(c)
  }

  lemma DecodeOne(r: string, c: char, t: string)
    requires Refers(r, c)
    ensures Decode(r + t) == [c] + Decode(t)
  {
    var n := |r| - 2;
    assert (r + t)[1..n + 1] == r[1..|r| - 1];
    assert (r + t)[n + 2..] == t;
  }

  lemma RefersByName(r: string, name: string, c: char)
    requires r == "&" + name + ";" && |name| > 0
    requires forall i | 0 <= i < |name| :: EntityChar(name[i]) && name[i] != ';' && name[i] != '&'
    requires Named(name) == Some(c)
    ensures Refers(r, c)
  {
  }

  lemma NumberOfTwo(a: char, b: char)
    requires IsDigit(a) && IsDigit(b)
    ensures Named(['#', a, b]) == Some((((a - '0') as int) * 10 + (b - '0') as int) as char)
  {
    var s := [a, b];
    assert ['#', a, b][1..] == s && s[..1] == [a] && s[..1][..0] == "";
    assert ParseDecimal("") == 0;
    assert ParseDecimal(s[..1]) == (a - '0') as nat;
  }

  lemma NumberOfThree(a: char, b: char, c: char)
    requires IsDigit(a) && IsDigit(b) && IsDigit(c)
    ensures Named(['#', a, b, c]) == Some((((a - '0') as int) * 100 + ((b - '0') as int) * 10 + (c - '0') as int) as char)
  {
    var s := [a, b, c];
    NumberOfTwo(a, b);
    assert ['#', a, b][1..] == [a, b];
    assert ['#', a, b, c][1..] == s && s[..2] == [a, b] && s[..2][..1] == [a] && [a][..0] == "";
    assert ParseDecimal("") == 0;
    assert ParseDecimal([a]) == (a - '0') as nat;
  }

  lemma ReferenceOfTwo(rule: Rule, a: char, b: char)
    requires IsDigit(a) && IsDigit(b) && rule.replacement == ['&', '#', a, b, ';']
    requires rule.c as int == ((a - '0') as int) * 10 + (b - '0') as int
    ensures Refers(rule.replacement, rule.c)
  {
    NumberOfTwo(a, b);
    RefersByName(rule.replacement, ['#', a, b], rule.c);
  }

  lemma ReferenceOfThree(rule: Rule, a: char, b: char, c: char)
    requires IsDigit(a) && IsDigit(b) && IsDigit(c) && rule.replacement == ['&', '#', a, b, c, ';']
    requires rule.c as int == ((a - '0') as int) * 100 + ((b - '0') as int) * 10 + (c - '0') as int
    ensures Refers(rule.replacement, rule.c)
  {
    NumberOfThree(a, b, c);
    RefersByName(rule.replacement, ['#', a, b, c], rule.c);
  }

  /** Each rule replaces its character by a reference to it. */
  predicate Faithful(rules: seq<Rule>) {
    forall i | 0 <= i < |rules| :: Refers(rules[i].replacement, rules[i].c) && !IsSpace(rules[i].c)
  }

  lemma NamedEscapes()
    ensures Faithful(ESCAPES[..3])
  {
    var rules := ESCAPES[..3];
    RefersByName(rules[0].replacement, "amp", '&');
    RefersByName(rules[1].replacement, "lt", '<');
    RefersByName(rules[2].replacement, "gt", '>');
  }

  lemma NumericEscapes()
    ensures Faithful(ESCAPES[3..6]) && Faithful(ESCAPES[6..9]) && Faithful(ESCAPES[9..])
  {
    var rules := ESCAPES[3..6];
    ReferenceOfThree(rules[0], '1', '2', '3');
    ReferenceOfThree(rules[1], '1', '2', '5');
    ReferenceOfThree(rules[2], '1', '2', '4');
    MoreNumericEscapes();
    LastNumericEscapes();
  }

  lemma MoreNumericEscapes()
    ensures Faithful(ESCAPES[6..9])
  {
    var rules := ESCAPES[6..9];
    ReferenceOfTwo(rules[0], '9', '6');
    ReferenceOfTwo(rules[1], '4', '2');
    ReferenceOfTwo(rules[2], '9', '5');
  }

  lemma LastNumericEscapes()
    ensures Faithful(ESCAPES[9..])
  {
    var rules := ESCAPES[9..];
    ReferenceOfTwo(rules[0], '9', '1');
    ReferenceOfTwo(rules[1], '9', '3');
    ReferenceOfTwo(rules[2], '9', '2');
  }

  lemma EscapesAreReferences()
    ensures Faithful(ESCAPES)
  {
    NamedEscapes();
    NumericEscapes();
    assert ESCAPES[..3] + (ESCAPES[3..6] + (ESCAPES[6..9] + ESCAPES[9..])) == ESCAPES;
  }

  lemma LaterEscapes(j: nat)
    requires 0 < j < |ESCAPES|
    ensures !EntityChar(ESCAPES[j].c)
  {
  }

  lemma FaithfulSettled(rules: seq<Rule>)
    requires Faithful(rules) && forall j | 0 < j < |rules| :: !EntityChar(rules[j].c)
    ensures Settled(rules)
  {
  }

  /** The ampersand is escaped first, and no reference contains a character that is escaped after it. */
  lemma EscapesSettled()
    ensures Settled(ESCAPES)
  {
    EscapesAreReferences();
    forall j | 0 < j < |ESCAPES| ensures !EntityChar(ESCAPES[j].c) {
      LaterEscapes(j);
    }
    FaithfulSettled(ESCAPES);
  }

  lemma ReferenceCharacters(r: string, c: char)
    requires Refers(r, c)
    ensures forall i | 0 <= i < |r| :: EntityChar(r[i]) && !IsSpace(r[i])
  {
  }

  // ---------------------------------------------------------------- text

  predicate SpaceFree(s: string) {
    forall i | 0 <= i < |s| :: !IsSpace(s[i])
  }

  /** Rules that neither look at white space nor write any. */
  predicate IgnoreSpaces(rules: seq<Rule>) {
    forall i | 0 <= i < |rules| :: !IsSpace(rules[i].c) && SpaceFree(rules[i].replacement)
  }

  lemma {:induction false} ImageKeepsSpaces(c: char, rules: seq<Rule>)
    requires IgnoreSpaces(rules)
    ensures if IsSpace(c) then Image(c, rules) == [c] else SpaceFree(Image(c, rules))
  {
    if rules != [] && rules[0].c != c {
      ImageKeepsSpaces(c, rules[1..]);
    }
  }

  lemma {:induction false} CollapseBehind(w: string, t: string)
    requires SpaceFree(w)
    ensures Collapse(w + t) == w + Collapse(t)
  {
    if w == "" {
      assert w + t == t;
    } else {
      assert (w + t)[1..] == w[1..] + t;
      CollapseBehind(w[1..], t);
    }
  }

  /** Escaping does not touch leading white space. */
  lemma {:induction false} SkipThenMap(s: string, rules: seq<Rule>)
    requires IgnoreSpaces(rules) && forall i | 0 <= i < |rules| :: rules[i].replacement != ""
    ensures SkipSpaces(Simultaneous(s, rules)) == Simultaneous(SkipSpaces(s), rules)
  {
    if s != "" {
      ImageKeepsSpaces(s[0], rules);
      ImageNotEmpty(s[0], rules);
      if IsSpace(s[0]) {
        SkipThenMap(s[1..], rules);
        assert ([s[0]] + Simultaneous(s[1..], rules))[1..] == Simultaneous(s[1..], rules);
      }
    }
  }

  lemma {:induction false} ImageNotEmpty(c: char, rules: seq<Rule>)
    requires forall i | 0 <= i < |rules| :: rules[i].replacement != ""
    ensures Image(c, rules) != ""
  {
    if rules != [] && rules[0].c != c {
      ImageNotEmpty(c, rules[1..]);
    }
  }

  /** Collapsing white space and escaping can be done in either order. */
  lemma {:induction false} CollapseThenMap(s: string, rules: seq<Rule>)
    requires IgnoreSpaces(rules) && forall i | 0 <= i < |rules| :: rules[i].replacement != ""
    ensures Collapse(Simultaneous(s, rules)) == Simultaneous(Collapse(s), rules)
    decreases |s|
  {
    if s != "" {
      ImageKeepsSpaces(s[0], rules);
      if IsSpace(s[0]) {
        SkipThenMap(s, rules);
        CollapseThenMap(SkipSpaces(s), rules);
        ImageKeepsSpaces(' ', rules);
        assert (" " + Collapse(SkipSpaces(s)))[1..] == Collapse(SkipSpaces(s));
      } else {
        CollapseBehind(Image(s[0], rules), Simultaneous(s[1..], rules));
        CollapseThenMap(s[1..], rules);
        assert ([s[0]] + Collapse(s[1..]))[1..] == Collapse(s[1..]);
      }
    }
  }

  /** The chain of replacements is one map over the characters of the collapsed text. */
  lemma TextIsOneMap(value: string)
    ensures Text(value) == Simultaneous(Collapse(value), ESCAPES)
  {
    EscapesAreReferences();
    EscapesSettled();
    ChainIsSimultaneous(value, ESCAPES);
    ReferencesIgnoreSpaces(ESCAPES);
    CollapseThenMap(value, ESCAPES);
  }

  lemma ReferencesIgnoreSpaces(rules: seq<Rule>)
    requires Faithful(rules)
    ensures IgnoreSpaces(rules) && forall i | 0 <= i < |rules| :: rules[i].replacement != ""
  {
    forall i | 0 <= i < |rules| ensures SpaceFree(rules[i].replacement) {
      ReferenceCharacters(rules[i].replacement, rules[i].c);
    }
  }

  lemma {:induction false} ImageRefers(c: char, rules: seq<Rule>)
    requires Faithful(rules)
    ensures Refers(Image(c, rules), c) || (Image(c, rules) == [c] && forall i | 0 <= i < |rules| :: rules[i].c != c)
  {
    if rules != [] && rules[0].c != c {
      ImageRefers(c, rules[1..]);
    }
  }

  lemma {:induction false} DecodeMapped(s: string, rules: seq<Rule>)
    requires Faithful(rules) && rules != [] && rules[0].c == '&'
    ensures Decode(Simultaneous(s, rules)) == s
  {
    if s != "" {
      var t := Simultaneous(s[1..], rules);
      DecodeMapped(s[1..], rules);
      ImageRefers(s[0], rules);
      if Refers(Image(s[0], rules), s[0]) {
        DecodeOne(Image(s[0], rules), s[0], t);
      } else {
        assert ([s[0]] + t)[1..] == t;
      }
    }
  }

  /** A reader who resolves the references sees the text, white space collapsed. */
  lemma DecodeText(value: string)
    ensures Decode(Text(value)) == Collapse(value)
  {
    TextIsOneMap(value);
    EscapesAreReferences();
    DecodeMapped(Collapse(value), ESCAPES);
  }

  /** Every escaped character but the ampersand is gone from the text. */
  lemma TextIsInert(value: string, j: nat)
    requires 0 < j < |ESCAPES|
    ensures !Mentions(Text(value), ESCAPES[j].c)
  {
    TextIsOneMap(value);
    LaterEscapes(j);
    EscapesAreReferences();
    MapRemoves(Collapse(value), ESCAPES, j);
  }

  /** Nothing in the text can start markup, an expression, a table cell or a tag. */
  lemma TextHasNoMarkup(value: string, c: char)
    requires c in "<>{}|`*_[]\\"
    ensures c !in Text(value)
  {
    var marks := "<>{}|`*_[]\\";
    var j :| 0 <= j < |marks| && marks[j] == c;
    assert ESCAPES[j + 1].c == marks[j];
    TextIsInert(value, j + 1);
    assert forall i | 0 <= i < |Text(value)| :: Text(value)[i] != c;
  }

  lemma {:induction false} MapRemoves(s: string, rules: seq<Rule>, j: nat)
    requires Faithful(rules) && j < |rules| && !EntityChar(rules[j].c)
    ensures !Mentions(Simultaneous(s, rules), rules[j].c)
  {
    if s != "" {
      ImageRefers(s[0], rules);
      if Refers(Image(s[0], rules), s[0]) {
        ReferenceCharacters(Image(s[0], rules), s[0]);
      }
      MapRemoves(s[1..], rules, j);
    }
  }

  // ---------------------------------------------------------------- code

  const PIPE: seq<Rule> := [Rule('|', "\\|")]

  lemma PipeRule()
    ensures Settled(PIPE) && IgnoreSpaces(PIPE)
  {
  }

  lemma ContentIsEscapedCollapse(value: string)
    ensures CodeContent(value) == ReplaceAll(Collapse(value), '|', "\\|")
  {
    PipeRule();
    OneRule(value);
    OneRule(Collapse(value));
    CollapseThenMap(value, PIPE);
  }

  lemma OneRule(s: string)
    ensures ReplaceAll(s, '|', "\\|") == Simultaneous(s, PIPE)
  {
    PipeRule();
    ChainIsSimultaneous(s, PIPE);
    var replaced := ReplaceAll(s, '|', "\\|");
    assert Chain(s, PIPE) == Chain(replaced, PIPE[1..]) == replaced;
  }

  predicate HasContent(value: string) {
    exists i :: 0 <= i < |value| && !IsSpace(value[i])
  }

  lemma {:induction false} ReplacedHasContent(s: string)
    ensures HasContent(ReplaceAll(s, '|', "\\|")) <==> HasContent(s)
  {
    if s != "" {
      var head := if s[0] == '|' then "\\|" else [s[0]];
      ReplacedHasContent(s[1..]);
      ContentOfParts([s[0]], s[1..]);
      ContentOfParts(head, ReplaceAll(s[1..], '|', "\\|"));
      assert s == [s[0]] + s[1..];
      assert HasContent([s[0]]) <==> !IsSpace(s[0]) by { assert [s[0]][0] == s[0]; }
      assert HasContent(head) <==> !IsSpace(s[0]) by { assert head[0] == '\\' || head == [s[0]]; }
    }
  }

  lemma ContentOfParts(a: string, b: string)
    ensures HasContent(a + b) <==> HasContent(a) || HasContent(b)
  {
    if i :| 0 <= i < |a| && !IsSpace(a[i]) {
      assert (a + b)[i] == a[i];
    }
    if i :| 0 <= i < |b| && !IsSpace(b[i]) {
      assert (a + b)[|a| + i] == b[i];
    }
  }

  /** After collapsing, the only white space is the space, and there is content exactly if there was. */
  lemma {:induction false} CollapsedContent(s: string)
    ensures OnlySpaces(Collapse(s)) <==> !HasContent(s)
    decreases |s|
  {
    if s != "" {
      assert s == [s[0]] + s[1..];
      ContentOfParts([s[0]], s[1..]);
      if IsSpace(s[0]) {
        SkippedHasContent(s);
        CollapsedContent(SkipSpaces(s));
        OnlySpacesBehind(' ', Collapse(SkipSpaces(s)));
      } else {
        assert s[0] in Collapse(s) && s[0] != ' ';
      }
    }
  }

  lemma OnlySpacesBehind(c: char, t: string)
    ensures OnlySpaces([c] + t) <==> c == ' ' && OnlySpaces(t)
  {
    assert c in [c] + t;
    assert forall d | d in t :: d in [c] + t;
  }

  lemma {:induction false} SkippedHasContent(s: string)
    ensures HasContent(SkipSpaces(s)) <==> HasContent(s)
  {
    if s != "" && IsSpace(s[0]) {
      assert s == [s[0]] + s[1..];
      ContentOfParts([s[0]], s[1..]);
      SkippedHasContent(s[1..]);
    }
  }

  /**
   * The span parses back to its content, whatever follows, exactly when the value is not blank: the padding of
   * blank content is not stripped.
   */
  lemma CodeRoundTrip(value: string, rest: string)
    requires rest != "" ==> rest[0] != '`'
    ensures ParseSpan(Code(value) + rest) == Some(Span(CodeContent(value), rest)) <==> HasContent(value)
  {
    var content := CodeContent(value);
    CodeParses(value, rest);
    CollapsedContent(ReplaceAll(value, '|', "\\|"));
    ReplacedHasContent(value);
    PaddingStripped(content);
  }

  lemma PaddingStripped(content: string)
    ensures SpanContent(" " + content + " ") == content <==> !OnlySpaces(content)
  {
  }

  lemma CodeParses(value: string, rest: string)
    requires rest != "" ==> rest[0] != '`'
    ensures ParseSpan(Code(value) + rest) == Some(Span(SpanContent(" " + CodeContent(value) + " "), rest))
  {
    var content := CodeContent(value);
    MaximumBounds(0, Runs(content, '`'));
    SpanParses(content, Maximum(0, Runs(content, '`')) + 1, rest);
    SameCode(Delimiter(content), content, rest);
  }

  lemma SameCode(d: string, content: string, rest: string)
    ensures d + (" " + (content + (" " + (d + rest)))) == d + " " + content + " " + d + rest
  {
  }

  // ---------------------------------------------------------------- code in a cell of a table

  /** `\|` read as a pipe, by a reader that looks at one backslash only. */
  function UnescapePipes(s: string): string {
    if s == "" then ""
    else if |s| > 1 && s[0] == '\\' && s[1] == '|' then "|" + UnescapePipes(s[2..])
    else [s[0]] + UnescapePipes(s[1..])
  }

  lemma {:induction false} UnescapeEscaped(s: string)
    ensures UnescapePipes(ReplaceAll(s, '|', "\\|")) == s
    ensures ReplaceAll(s, '|', "\\|") != "" ==> ReplaceAll(s, '|', "\\|")[0] != '|'
  {
    if s != "" {
      var t := ReplaceAll(s[1..], '|', "\\|");
      UnescapeEscaped(s[1..]);
      if s[0] == '|' {
        assert ("\\|" + t)[2..] == t;
      } else {
        assert ([s[0]] + t)[1..] == t;
      }
    }
  }

  predicate AfterBackslash(s: string, i: nat)
    requires i < |s|
  {
    i > 0 && s[i - 1] == '\\'
  }

  /** Each pipe comes directly after a backslash. */
  predicate PipesEscaped(s: string) {
    forall i: nat | i < |s| && s[i] == '|' :: AfterBackslash(s, i)
  }

  lemma {:induction false} PipesFollowBackslashes(s: string)
    ensures PipesEscaped(ReplaceAll(s, '|', "\\|"))
  {
    if s != "" {
      var t := ReplaceAll(s[1..], '|', "\\|");
      PipesFollowBackslashes(s[1..]);
      if s[0] == '|' {
        PipesEscapedBehind("\\|", t);
      } else {
        PipesEscapedBehind([s[0]], t);
      }
    }
  }

  lemma PipesEscapedBehind(head: string, t: string)
    requires PipesEscaped(head) && PipesEscaped(t)
    ensures PipesEscaped(head + t)
  {
    forall i: nat | i < |head + t| && (head + t)[i] == '|' ensures AfterBackslash(head + t, i) {
      if i < |head| {
        assert AfterBackslash(head, i);
      } else {
        assert AfterBackslash(t, i - |head|);
      }
    }
  }

  /**
   * For a reader that looks at one backslash only, no pipe of the content ends the cell, and undoing the
   * escapes gives the value, white space collapsed.
   */
  lemma PipeRoundTrip(value: string)
    ensures PipesEscaped(CodeContent(value)) && UnescapePipes(CodeContent(value)) == Collapse(value)
  {
    ContentIsEscapedCollapse(value);
    UnescapeEscaped(Collapse(value));
    PipesFollowBackslashes(Collapse(value));
  }

  // A reader for which a backslash can itself be escaped.

  predicate IsCellEscape(s: string) {
    |s| > 1 && s[0] == '\\' && (s[1] == '\\' || s[1] == '|')
  }

  /** Where the first cell of a row ends. */
  function CellLength(s: string): (n: nat)
    ensures n <= |s|
  {
    if s == "" || s[0] == '|' then 0
    else if IsCellEscape(s) then 2 + CellLength(s[2..])
    else 1 + CellLength(s[1..])
  }

  /** `\|` read as a pipe, `\\` kept. */
  function UnescapeCell(s: string): string {
    if s == "" then ""
    else if IsCellEscape(s) then (if s[1] == '|' then "|" else "\\\\") + UnescapeCell(s[2..])
    else [s[0]] + UnescapeCell(s[1..])
  }

  /** The number of backslashes directly before a position. */
  function BackslashesBefore(s: string, i: nat): nat
    requires i <= |s|
  {
    if i == 0 || s[i - 1] != '\\' then 0 else 1 + BackslashesBefore(s, i - 1)
  }

  /** An even number of backslashes, possibly none, before each pipe. */
  predicate EvenBeforePipes(s: string) {
    forall i: nat | i < |s| && s[i] == '|' :: BackslashesBefore(s, i) % 2 == 0
  }

  /** The parity of the backslashes before each pipe is `parity`, given the parity before the whole. */
  predicate Parities(s: string, odd: bool, parity: bool) {
    s == ""
    || if s[0] == '\\' then Parities(s[1..], !odd, parity)
       else (s[0] == '|' ==> odd == parity) && Parities(s[1..], false, parity)
  }

  lemma {:induction false} ParitiesAre(s: string, k: nat)
    requires k <= |s|
    ensures Parities(s[k..], BackslashesBefore(s, k) % 2 == 1, false) <==>
            forall i: nat | k <= i < |s| && s[i] == '|' :: BackslashesBefore(s, i) % 2 == 0
    decreases |s| - k
  {
    if k < |s| {
      assert s[k..][1..] == s[k + 1..];
      ParitiesAre(s, k + 1);
    }
  }

  /** The whole text is one cell exactly when an odd number of backslashes is before each pipe. */
  lemma {:induction false} CellKept(s: string)
    ensures CellLength(s) == |s| <==> Parities(s, false, true)
    decreases |s|
  {
    if s != "" && s[0] != '|' {
      if IsCellEscape(s) {
        assert s[1..][1..] == s[2..];
        CellKept(s[2..]);
      } else {
        CellKept(s[1..]);
        assert s[0] == '\\' && |s| > 1 ==> s[1..][0] != '\\' && s[1..][0] != '|';
      }
    }
  }

  /** Escaping adds one backslash before each pipe. */
  lemma {:induction false} EscapingFlips(s: string, odd: bool)
    ensures Parities(ReplaceAll(s, '|', "\\|"), odd, true) <==> Parities(s, odd, false)
  {
    if s != "" {
      var t := ReplaceAll(s[1..], '|', "\\|");
      if s[0] == '|' {
        assert ("\\|" + t)[1..] == "|" + t && ("|" + t)[1..] == t;
        EscapingFlips(s[1..], false);
      } else {
        assert ([s[0]] + t)[1..] == t;
        EscapingFlips(s[1..], s[0] == '\\' && !odd);
      }
    }
  }

  lemma {:induction false} SkippedParities(s: string)
    ensures Parities(SkipSpaces(s), false, false) <==> Parities(s, false, false)
  {
    if s != "" && IsSpace(s[0]) {
      SkippedParities(s[1..]);
    }
  }

  lemma {:induction false} CollapsedParities(s: string, odd: bool)
    ensures Parities(Collapse(s), odd, false) <==> Parities(s, odd, false)
    decreases |s|
  {
    if s != "" {
      if IsSpace(s[0]) {
        var t := SkipSpaces(s);
        CollapsedParities(t, false);
        SkippedParities(s);
        assert (" " + Collapse(t))[1..] == Collapse(t);
      } else {
        CollapsedParities(s[1..], s[0] == '\\' && !odd);
        assert ([s[0]] + Collapse(s[1..]))[1..] == Collapse(s[1..]);
      }
    }
  }

  predicate Inert(s: string) {
    forall i | 0 <= i < |s| :: s[i] != '\\' && s[i] != '|'
  }

  lemma {:induction false} InertAhead(a: string, s: string, parity: bool)
    requires Inert(a)
    ensures Parities(a + s, false, parity) <==> Parities(s, false, parity)
  {
    if a == "" {
      assert a + s == s;
    } else {
      assert (a + s)[1..] == a[1..] + s;
      InertAhead(a[1..], s, parity);
    }
  }

  lemma {:induction false} InertBehind(s: string, a: string, odd: bool, parity: bool)
    requires Inert(a)
    ensures Parities(s + a, odd, parity) <==> Parities(s, odd, parity)
  {
    if s == "" {
      assert s + a == a && a + "" == a;
      InertAhead(a, "", parity);
      InertAlone(a, odd, parity);
    } else {
      assert (s + a)[1..] == s[1..] + a;
      InertBehind(s[1..], a, s[0] == '\\' && !odd, parity);
    }
  }

  lemma InertAlone(a: string, odd: bool, parity: bool)
    requires Inert(a) && Parities(a, false, parity)
    ensures Parities(a, odd, parity)
  {
  }

  lemma {:induction false} UnescapeCellEscaped(s: string)
    requires Parities(s, false, false)
    ensures UnescapeCell(ReplaceAll(s, '|', "\\|")) == s
    decreases |s|
  {
    if s != "" {
      var t := ReplaceAll(s[1..], '|', "\\|");
      if s[0] == '|' {
        assert ("\\|" + t)[2..] == t;
        UnescapeCellEscaped(s[1..]);
      } else if s[0] == '\\' && |s| > 1 && s[1] == '\\' {
        var u := ReplaceAll(s[2..], '|', "\\|");
        assert s[1..][1..] == s[2..] && t == "\\" + u;
        assert ("\\" + ("\\" + u))[2..] == u;
        UnescapeCellEscaped(s[2..]);
        assert s == "\\\\" + s[2..];
      } else {
        UnescapeEscaped(s[1..]);
        assert ([s[0]] + t)[1..] == t;
        UnescapeCellEscaped(s[1..]);
      }
    }
  }

  /**
   * For a reader for which a backslash can itself be escaped, the code stays in one cell exactly when an
   * even number of backslashes is before each pipe of the value, and then undoing the escapes gives the
   * value, white space collapsed.
   */
  lemma CellRoundTrip(value: string)
    ensures CellLength(Code(value)) == |Code(value)| <==> EvenBeforePipes(value)
    ensures EvenBeforePipes(value) ==> UnescapeCell(CodeContent(value)) == Collapse(value)
  {
    CodeIsOneCell(value);
    EscapesMakeOdd(value);
    if EvenBeforePipes(value) {
      UnescapeCellEscaped(Collapse(value));
      ContentIsEscapedCollapse(value);
    }
  }

  lemma EscapesMakeOdd(value: string)
    ensures Parities(CodeContent(value), false, true) <==> EvenBeforePipes(value)
    ensures EvenBeforePipes(value) <==> Parities(Collapse(value), false, false)
  {
    ContentIsEscapedCollapse(value);
    EscapingFlips(Collapse(value), false);
    CollapsedParities(value, false);
    ParitiesOfWhole(value);
  }

  lemma ParitiesOfWhole(s: string)
    ensures Parities(s, false, false) <==> EvenBeforePipes(s)
  {
    ParitiesAre(s, 0);
    assert s[0..] == s;
  }

  lemma CodeIsOneCell(value: string)
    ensures CellLength(Code(value)) == |Code(value)| <==> Parities(CodeContent(value), false, true)
  {
    CellKept(Code(value));
    DelimitersAreInert(CodeContent(value), Delimiter(CodeContent(value)));
  }

  lemma DelimitersAreInert(content: string, d: string)
    requires Inert(d)
    ensures Parities(d + " " + content + " " + d, false, true) <==> Parities(content, false, true)
  {
    InertAhead(d + " ", content + (" " + d), true);
    InertBehind(content, " " + d, false, true);
    assert d + " " + content + " " + d == (d + " ") + (content + (" " + d));
  }

  /** A backslash before a pipe makes two cells of one value. */
  lemma BackslashSplitsCell()
    ensures CellLength(Code("\\|")) < |Code("\\|")|
  {
    assert BackslashesBefore("\\|", 0) == 0 && BackslashesBefore("\\|", 1) == 1;
    CellRoundTrip("\\|");
  }

  function Contents(values: seq<string>): seq<string> {
    if values == [] then [] else [CodeContent(values[0])] + Contents(values[1..])
  }

  /** The spans of a list cell are its values, in order. */
  lemma {:induction false} ListCellRoundTrip(values: seq<string>)
    requires forall v | v in values :: HasContent(v)
    ensures Spans(ListCell(values)) == Contents(values)
  {
    if values != [] {
      var tail := if |values| == 1 then "" else ", " + ListCell(values[1..]);
      ListCellRoundTrip(values[1..]);
      ListCellUnfolds(values);
      if |values| > 1 {
        SkipSeparator(ListCell(values[1..]));
      }
      SpansOfCode(values[0], tail);
    }
  }

  lemma SpansOfCode(value: string, rest: string)
    requires HasContent(value) && (rest != "" ==> rest[0] != '`')
    ensures Spans(Code(value) + rest) == [CodeContent(value)] + Spans(rest)
  {
    CodeRoundTrip(value, rest);
    FirstSpan(Code(value) + rest);
  }

  lemma FirstSpan(s: string)
    requires ParseSpan(s).Some?
    ensures Spans(s) == [ParseSpan(s).value.content] + Spans(ParseSpan(s).value.rest)
  {
  }

  lemma ListCellUnfolds(values: seq<string>)
    requires values != []
    ensures ListCell(values) == Code(values[0]) + if |values| == 1 then "" else ", " + ListCell(values[1..])
  {
    CodesKeepLength(values);
    assert Codes(values)[1..] == Codes(values[1..]);
  }

  lemma {:induction false} CodesKeepLength(values: seq<string>)
    ensures |Codes(values)| == |values|
  {
    if values != [] {
      CodesKeepLength(values[1..]);
    }
  }

  lemma SkipSeparator(t: string)
    ensures Spans(", " + t) == Spans(t)
  {
  }
}
